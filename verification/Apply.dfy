/** The apply pipeline of internal/app/apply.go: stage, publish with backup, test, reload, and
    roll back on failure, for a batch of sites or for one. */
module ApplyPipeline {
  import opened Text
  import opened NginxManager
  import opened SiteStore

  /** One apply request's surroundings: configuration, the renderer, and the outcome of every
      file operation and process that the request runs. */
  datatype Env = Env(
    testFirst: bool,                                  // nginx.apply.test_before_reload
    render: (string, SiteSpec) -> Option<Bytes>,      // buildTemplateData + template
    sha: Bytes -> string,
    tick: nat,                                        // clock advance between store writes
    remove: string -> RemoveFaults,
    stage: string -> WriteFault,
    publish: string -> PublishFaults,
    rollback: string -> RollbackFaults,
    accepts: Files -> bool,                           // nginx -t on the live set
    reloadOk: bool,                                   // the reload of the new set
    reloadBackOk: bool)                               // the reload after a rollback

  datatype Request = Request(all: bool, dryRun: bool, limit: int)

  datatype Action = ApplyAction | DeleteAction | SkipAction
  datatype Status = Done | Failed | Skipped | DryRun
  datatype DomainResult = DomainResult(domain: string, action: Action, changed: bool, hash: string, status: Status,
          error: ApplyError)

  datatype ApplyResult = ApplyResult(domains: seq<DomainResult>, changed: seq<string>, reloaded: bool,
          error: ApplyError)

  /** What nginx was asked to do, in order. */
  datatype Act = Tested(files: Files, ok: bool) | Reloaded(files: Files, ok: bool)

  datatype World = World(disk: Disk, rows: Rows, clock: nat, loaded: Files, log: seq<Act>)

  /** siteNeedsApply. */
  predicate NeedsApply(s: Site) {
    s.enabled && (s.lastAppliedAt.None? || s.status != AppliedOk || s.updatedAt > s.lastAppliedAt.value)
  }

  // ---------------------------------------------------------------- one site

  datatype Effect = Effect(cell: Cell, ok: bool, changed: bool, hash: string, error: ApplyError)

  /** bytes.Buffer gives nil for an empty rendering, and nil content is not hashed. */
  function HashOf(env: Env, content: Bytes): string {
    if content == [] then "" else env.sha(content)
  }

  /** What applying one site does to the files of its domain. */
  function SiteEffect(env: Env, d: string, s: Site, c: Cell): Effect {
    if !s.enabled then
      var (c', r) := RemoveCell(c, env.remove(d));
      Effect(c', r != RemoveError, r == Gone, "", if r == RemoveError then DeleteFailed else NoError)
    else
      var content := env.render(d, s.spec);
      if content.None? || env.stage(d) != NoFault then Effect(c, false, false, "", RenderFailed)
      else
        var (c', p) := PublishCell(c.(stage := content), env.publish(d));
        Effect(c', p != PublishError, p == Changed, HashOf(env, content.value),
               if p == PublishError then PublishFailed else NoError)
  }

  function ActionOf(s: Site): Action {
    if s.enabled then ApplyAction else DeleteAction
  }

  function ResultOf(d: string, s: Site, o: Effect): DomainResult {
    DomainResult(d, ActionOf(s), o.changed, o.hash, if o.ok then Done else Failed, o.error)
  }

  // ---------------------------------------------------------------- the batch loop

  datatype Batch = Batch(disk: Disk, rows: Rows, clock: nat, applied: nat,
                         changed: seq<string>, hashes: map<string, string>, results: seq<DomainResult>)

  function Start(w: World): Batch {
    Batch(w.disk, w.rows, w.clock, 0, [], map[], [])
  }

  predicate LimitReached(req: Request, applied: nat) {
    req.limit > 0 && applied >= req.limit
  }

  /** A site the batch has work for. */
  predicate HasWork(req: Request, s: Site) {
    !s.enabled || req.all || NeedsApply(s)
  }

  /** Whether the batch touches the files and the row of this site. */
  predicate Processes(req: Request, applied: nat, x: Listed) {
    !LimitReached(req, applied) && Norm(x.domain) != "" && HasWork(req, x.site) && !req.dryRun
  }

  function Process(env: Env, b: Batch, d: string, s: Site): Batch {
    var o := SiteEffect(env, d, s, CellOf(b.disk, d));
    Batch(SetCell(b.disk, d, o.cell),
          Recorded(b.rows, d, if o.ok then AppliedOk else AppliedFail, o.error, o.hash, b.clock + env.tick),
          b.clock + env.tick,
          b.applied + 1,
          if o.changed then b.changed + [d] else b.changed,
          if o.changed then b.hashes[d := o.hash] else b.hashes,
          b.results + [ResultOf(d, s, o)])
  }

  function Step(env: Env, req: Request, b: Batch, x: Listed): Batch {
    var d, s := Norm(x.domain), x.site;
    if LimitReached(req, b.applied) || d == "" then b
    else if !HasWork(req, s) then b.(results := b.results + [DomainResult(d, SkipAction, false, "", Skipped, NoError)])
    else if req.dryRun then
      b.(applied := b.applied + 1, results := b.results + [DomainResult(d, ActionOf(s), false, "", DryRun, NoError)])
    else Process(env, b, d, s)
  }

  /** The batch after its first `n` sites. */
  function Run(env: Env, req: Request, w: World, sites: seq<Listed>, n: nat): Batch
    requires n <= |sites|
  {
    if n == 0 then Start(w) else Step(env, req, Run(env, req, w, sites, n - 1), sites[n - 1])
  }

  lemma {:induction false} RunPastLimit(env: Env, req: Request, w: World, sites: seq<Listed>, i: nat, n: nat)
    requires i <= n <= |sites|
    requires LimitReached(req, Run(env, req, w, sites, i).applied)
    ensures Run(env, req, w, sites, n) == Run(env, req, w, sites, i)
    decreases n
  {
    if i < n { RunPastLimit(env, req, w, sites, i, n - 1); }
  }

  // ---------------------------------------------------------------- commit or roll back

  function RolledBack(env: Env, k: Disk, ds: seq<string>): Disk {
    if ds == [] then k
    else
      var k' := RolledBack(env, k, ds[..|ds| - 1]);
      var d := ds[|ds| - 1];
      SetCell(k', d, RollbackCell(CellOf(k', d), env.rollback(d)))
  }

  function HashFor(hashes: map<string, string>, d: string): string {
    if d in hashes then hashes[d] else ""
  }

  /** The clock after `n` recordings. */
  function Ticked(env: Env, clock: nat, n: nat): (now: nat)
    ensures clock <= now
  {
    if n == 0 then clock else Ticked(env, clock, n - 1) + env.tick
  }

  /** The rows after every changed domain was marked failed. */
  function Marked(env: Env, rows: Rows, clock: nat, ds: seq<string>, hashes: map<string, string>,
          error: ApplyError): Rows {
    if ds == [] then rows
    else
      var d := ds[|ds| - 1];
      Recorded(Marked(env, rows, clock, ds[..|ds| - 1], hashes, error), d, AppliedFail, error, HashFor(hashes, d),
          Ticked(env, clock, |ds|))
  }

  lemma MarkedNone(env: Env, rows: Rows, clock: nat, ds: seq<string>, hashes: map<string, string>, error: ApplyError)
    requires ds == []
    ensures Marked(env, rows, clock, ds, hashes, error) == rows && Ticked(env, clock, 0) == clock
  {
  }

  lemma MarkedNext(env: Env, rows: Rows, clock: nat, ds: seq<string>, i: nat, hashes: map<string, string>,
          error: ApplyError)
    requires i < |ds|
    ensures Ticked(env, clock, i + 1) == Ticked(env, clock, i) + env.tick
    ensures Marked(env, rows, clock, ds[..i + 1], hashes, error)
      == Recorded(Marked(env, rows, clock, ds[..i], hashes, error), ds[i], AppliedFail, error, HashFor(hashes, ds[i]),
          Ticked(env, clock, i + 1))
  {
    hide Recorded, HashFor;
    assert ds[..i + 1][..i] == ds[..i];
  }

  /** A reload attempt: what it was given, and what nginx runs afterwards. */
  function Reload(w: World, ok: bool): World {
    w.(loaded := if ok then w.disk.live else w.loaded, log := w.log + [Reloaded(w.disk.live, ok)])
  }

  function Abort(env: Env, w: World, ds: seq<string>, hashes: map<string, string>, error: ApplyError): World {
    Reload(w.(disk := RolledBack(env, w.disk, ds)), env.reloadBackOk)
      .(rows := Marked(env, w.rows, w.clock, ds, hashes, error), clock := Ticked(env, w.clock, |ds|))
  }

  /** The tail of Apply: test, reload, or undo. */
  function Commit(env: Env, w: World, ds: seq<string>, hashes: map<string, string>): (r: (World, ApplyError)) {
    var tested := if env.testFirst then w.(log := w.log + [Tested(w.disk.live, env.accepts(w.disk.live))]) else w;
    if env.testFirst && !env.accepts(w.disk.live) then (Abort(env, tested, ds, hashes, TestRejected), TestRejected)
    else
      var w' := Reload(tested, env.reloadOk);
      if env.reloadOk then (w', NoError) else (Abort(env, w', ds, hashes, ReloadFailed), ReloadFailed)
  }

  function After(w: World, b: Batch): World {
    w.(disk := b.disk, rows := b.rows, clock := b.clock)
  }

  function Finish(env: Env, req: Request, w: World, b: Batch): (r: (World, ApplyResult)) {
    if req.dryRun || b.changed == [] then (After(w, b), ApplyResult(b.results, [], false, NoError))
    else
      var (w', e) := Commit(env, After(w, b), b.changed, b.hashes);
      (w', ApplyResult(b.results, if e == NoError then b.changed else [], e == NoError, e))
  }

  /** Apply without a domain. */
  ghost function BatchApply(env: Env, req: Request, w: World): (r: (World, ApplyResult)) {
    var sites := SitesOf(w.rows);
    Finish(env, req, w, Run(env, req, w, sites, |sites|))
  }

  function SingleCommit(env: Env, d: string, s: Site, o: Effect, w: World): (r: (World, DomainResult, bool)) {
    var (w', e) := Commit(env, w, [d], map[d := o.hash]);
    if e != NoError then (w', DomainResult(d, ActionOf(s), s.enabled, o.hash, Failed, e), true)
    else (w'.(rows := Recorded(w'.rows, d, AppliedOk, NoError, o.hash, w'.clock + env.tick),
              clock := w'.clock + env.tick),
          ResultOf(d, s, o), true)
  }

  /** applyOne: nothing is recorded for a disabled site without a live file. */
  function SingleApply(env: Env, d: string, dryRun: bool, w: World): (r: (World, DomainResult, bool)) {
    if d !in w.rows then (w, DomainResult(d, ApplyAction, false, "", Failed, NotFound), false)
    else
      var s := w.rows[d];
      if dryRun then (w, DomainResult(d, ActionOf(s), false, "", DryRun, NoError), false)
      else
        var o := SiteEffect(env, d, s, CellOf(w.disk, d));
        var w1 := w.(disk := SetCell(w.disk, d, o.cell));
        if o.ok && !o.changed && !s.enabled then (w1, ResultOf(d, s, o), false)
        else if !o.changed then
          (w1.(rows := Recorded(w.rows, d, if o.ok then AppliedOk else AppliedFail, o.error, o.hash,
                                w.clock + env.tick),
               clock := w.clock + env.tick),
           ResultOf(d, s, o), false)
        else SingleCommit(env, d, s, o, w1)
  }

  /** The file and row work of SiteDelete (internal/app/site.go): remove the vhost, reload without
      a test, delete the row. An error on the way keeps the row. */
  function RemoveSite(w: World, d: string, f: RemoveFaults, reloadOk: bool, rowOk: bool): World {
    if d !in w.rows then w
    else
      var (c, r) := RemoveCell(CellOf(w.disk, d), f);
      var w1 := w.(disk := SetCell(w.disk, d, c));
      if r == RemoveError then w1
      else if reloadOk && rowOk then Reload(w1, true).(rows := w.rows - {d})
      else Reload(w1, reloadOk)
  }

  // ---------------------------------------------------------------- runs

  /** Everything that happens to the files and rows over time. */
  datatype Event =
    | Batched(env: Env, req: Request)
    | Single(env: Env, domain: string, dryRun: bool)
    | Saved(domain: string, spec: SiteSpec, enabled: bool, at: nat)        // SiteAdd, SiteEdit
    | Toggled(domain: string, enabled: bool, at: nat)                      // SiteEnable, SiteDisable
    | Removed(domain: string, faults: RemoveFaults, reloadOk: bool, rowOk: bool)

  ghost function Exec(w: World, ev: Event): World {
    match ev
    case Batched(env, req) => BatchApply(env, req, w).0
    case Single(env, d, dry) => SingleApply(env, d, dry, w).0
    case Saved(d, spec, enabled, at) => w.(rows := Upserted(w.rows, d, spec, enabled, at), clock := at)
    case Toggled(d, enabled, at) => w.(rows := Enabling(w.rows, d, enabled, at), clock := at)
    case Removed(d, f, reloadOk, rowOk) => RemoveSite(w, d, f, reloadOk, rowOk)
  }

  ghost function ExecAll(w: World, evs: seq<Event>): World {
    if evs == [] then w else Exec(ExecAll(w, evs[..|evs| - 1]), evs[|evs| - 1])
  }

  // ---------------------------------------------------------------- the application object

  class App {
    const st: Store
    const ng: Manager
    ghost var loaded: Files
    ghost var log: seq<Act>

    constructor (st: Store, ng: Manager)
      ensures this.st == st && this.ng == ng && loaded == map[] && log == []
    {
      this.st, this.ng, loaded, log := st, ng, map[], [];
    }

    ghost function Here(): World
      reads this, st, ng
    {
      World(ng.Now(), st.rows, st.clock, loaded, log)
    }

    /** nginx -t. */
    method TestConfig(env: Env) returns (ok: bool)
      modifies this`log
      ensures ok == env.accepts(ng.live)
      ensures log == old(log) + [Tested(ng.live, ok)]
    {
      ok := env.accepts(ng.live);
      log := log + [Tested(ng.live, ok)];
    }

    /** ReloadOrStart: on success nginx runs the live set, on failure what it ran before. */
    method ReloadOrStart(ok: bool)
      modifies this`loaded, this`log
      ensures Here() == Reload(old(Here()), ok)
    {
      loaded := if ok then ng.live else loaded;
      log := log + [Reloaded(ng.live, ok)];
    }

    method RollbackFromBackup(env: Env, ds: seq<string>)
      modifies ng
      ensures ng.Now() == RolledBack(env, old(ng.Now()), ds)
    {
      for i := 0 to |ds|
        invariant ng.Now() == RolledBack(env, old(ng.Now()), ds[..i])
      {
        assert ds[..i + 1][..i] == ds[..i];
        ng.Rollback(ds[i], env.rollback(ds[i]));
      }
      assert ds[..|ds|] == ds;
    }

    method MarkFailed(env: Env, ds: seq<string>, hashes: map<string, string>, error: ApplyError)
      modifies st`rows, st`clock
      ensures st.rows == Marked(env, old(st.rows), old(st.clock), ds, hashes, error)
      ensures st.clock == Ticked(env, old(st.clock), |ds|)
    {
      hide Recorded, HashFor, Marked, Ticked;
      MarkedNone(env, st.rows, st.clock, ds[..0], hashes, error);
      for i := 0 to |ds|
        invariant st.rows == Marked(env, old(st.rows), old(st.clock), ds[..i], hashes, error)
        invariant st.clock == Ticked(env, old(st.clock), i)
      {
        MarkedNext(env, old(st.rows), old(st.clock), ds, i, hashes, error);
        st.UpdateApplyResult(ds[i], AppliedFail, error, HashFor(hashes, ds[i]), env.tick);
      }
      assert ds[..|ds|] == ds;
    }

    /** Restore the files, reload what was there before, and record the failure. */
    method Undo(env: Env, ds: seq<string>, hashes: map<string, string>, error: ApplyError)
      modifies this`loaded, this`log, st`rows, st`clock, ng
      ensures Here() == Abort(env, old(Here()), ds, hashes, error)
    {
      RollbackFromBackup(env, ds);
      ReloadOrStart(env.reloadBackOk);
      MarkFailed(env, ds, hashes, error);
    }

    /** Test, reload, and undo on failure. */
    method TestAndReload(env: Env, ds: seq<string>, hashes: map<string, string>) returns (e: ApplyError)
      modifies this`loaded, this`log, st`rows, st`clock, ng
      ensures (Here(), e) == Commit(env, old(Here()), ds, hashes)
    {
      if env.testFirst {
        var ok := TestConfig(env);
        if !ok {
          Undo(env, ds, hashes, TestRejected);
          return TestRejected;
        }
      }
      ReloadOrStart(env.reloadOk);
      if !env.reloadOk {
        Undo(env, ds, hashes, ReloadFailed);
        return ReloadFailed;
      }
      return NoError;
    }

    /** The file work for one site; shared by the batch and by applyOne. */
    method ApplyFiles(env: Env, d: string, s: Site) returns (o: Effect)
      requires d != ""
      modifies ng
      ensures o == SiteEffect(env, d, s, CellOf(old(ng.Now()), d))
      ensures ng.Now() == SetCell(old(ng.Now()), d, o.cell)
    {
      ghost var k, c := ng.Now(), CellOf(ng.Now(), d);
      if !s.enabled {
        var r := ng.RemoveLiveSite(d, env.remove(d));
        SetCellOf(k, d, RemoveCell(c, env.remove(d)).0);
        return Effect(ng.Cell(d), r != RemoveError, r == Gone, "", if r == RemoveError then DeleteFailed else NoError);
      }
      SetCellSame(k, d);
      var content := env.render(d, s.spec);
      if content.None? { return Effect(ng.Cell(d), false, false, "", RenderFailed); }
      var staged := ng.StageSite(d, content.value, env.stage(d));
      if !staged { return Effect(ng.Cell(d), false, false, "", RenderFailed); }
      SetCellOf(k, d, c.(stage := content));
      var p := ng.Publish(d, env.publish(d));
      SetCellTwice(k, d, c.(stage := content), PublishCell(c.(stage := content), env.publish(d)).0);
      SetCellOf(k, d, PublishCell(c.(stage := content), env.publish(d)).0);
      return Effect(ng.Cell(d), p != PublishError, p == Changed, HashOf(env, content.value),
          if p == PublishError then PublishFailed else NoError);
    }

    /** Files first, then the row. */
    method ApplySite(env: Env, d: string, s: Site, ghost b: Batch) returns (o: Effect)
      requires d != "" && ng.Now() == b.disk && st.rows == b.rows && st.clock == b.clock
      modifies st`rows, st`clock, ng
      ensures o == SiteEffect(env, d, s, CellOf(b.disk, d))
      ensures ng.Now() == Process(env, b, d, s).disk
      ensures st.rows == Process(env, b, d, s).rows && st.clock == Process(env, b, d, s).clock
    {
      o := ApplyFiles(env, d, s);
      st.UpdateApplyResult(d, if o.ok then AppliedOk else AppliedFail, o.error, o.hash, env.tick);
    }

    /** The bookkeeping of the batch matches `b`. */
    ghost predicate Follows(b: Batch, applied: nat, changed: seq<string>, hashes: map<string, string>,
            domains: seq<DomainResult>)
      reads this, st, ng
    {
      && ng.Now() == b.disk && st.rows == b.rows && st.clock == b.clock
      && applied == b.applied && changed == b.changed && hashes == b.hashes && domains == b.results
    }

    /** The body of the loop of Apply, past the limit check. */
    method ApplyNext(env: Env, req: Request, x: Listed, applied: nat, changed: seq<string>, hashes: map<string, string>,
            domains: seq<DomainResult>, ghost b: Batch)
      returns (applied': nat, changed': seq<string>, hashes': map<string, string>, domains': seq<DomainResult>)
      requires Follows(b, applied, changed, hashes, domains) && !LimitReached(req, applied)
      modifies st`rows, st`clock, ng
      ensures Follows(Step(env, req, b, x), applied', changed', hashes', domains')
    {
      var d, s := Norm(x.domain), x.site;
      applied', changed', hashes', domains' := applied, changed, hashes, domains;
      if d == "" { return; }
      if !HasWork(req, s) {
        domains' := domains + [DomainResult(d, SkipAction, false, "", Skipped, NoError)];
        return;
      }
      applied' := applied + 1;
      if req.dryRun {
        domains' := domains + [DomainResult(d, ActionOf(s), false, "", DryRun, NoError)];
        return;
      }
      var o := ApplySite(env, d, s, b);
      domains' := domains + [ResultOf(d, s, o)];
      if o.changed {
        changed' := changed + [d];
        hashes' := hashes[d := o.hash];
      }
    }

    /** The loop of Apply over the listed sites. */
    method RunBatch(env: Env, req: Request, sites: seq<Listed>)
          returns (changed: seq<string>, hashes: map<string, string>, domains: seq<DomainResult>)
      modifies st`rows, st`clock, ng
      ensures exists applied: nat ::
        Follows(Run(env, req, old(Here()), sites, |sites|), applied, changed, hashes, domains)
    {
      ghost var w := Here();
      var applied: nat := 0;
      changed, hashes, domains := [], map[], [];
      var i := 0;
      while i < |sites|
        invariant i <= |sites|
        invariant Follows(Run(env, req, w, sites, i), applied, changed, hashes, domains)
      {
        if req.limit > 0 && applied >= req.limit {
          RunPastLimit(env, req, w, sites, i, |sites|);
          return;
        }
        applied, changed, hashes, domains := ApplyNext(env, req, sites[i], applied, changed, hashes, domains,
            Run(env, req, w, sites, i));
        i := i + 1;
      }
    }

    method Apply(env: Env, req: Request) returns (res: ApplyResult)
      modifies this`loaded, this`log, st`rows, st`clock, ng
      ensures (Here(), res) == BatchApply(env, req, old(Here()))
    {
      var sites := st.ListSites();
      var changed, hashes, domains := RunBatch(env, req, sites);
      if req.dryRun || changed == [] { return ApplyResult(domains, [], false, NoError); }
      var e := TestAndReload(env, changed, hashes);
      return ApplyResult(domains, if e == NoError then changed else [], e == NoError, e);
    }

    method ApplyOne(env: Env, d: string, dryRun: bool) returns (res: DomainResult, changed: bool)
      requires d != ""
      modifies this`loaded, this`log, st`rows, st`clock, ng
      ensures (Here(), res, changed) == SingleApply(env, d, dryRun, old(Here()))
    {
      if d !in st.rows { return DomainResult(d, ApplyAction, false, "", Failed, NotFound), false; }
      var s := st.rows[d];
      if dryRun { return DomainResult(d, ActionOf(s), false, "", DryRun, NoError), false; }
      ghost var w := Here();
      var o := ApplyFiles(env, d, s);
      assert Here() == w.(disk := SetCell(w.disk, d, o.cell));
      if o.changed {
        res, changed := CommitOne(env, d, s, o);
        return;
      }
      if !o.ok || s.enabled {
        st.UpdateApplyResult(d, if o.ok then AppliedOk else AppliedFail, o.error, o.hash, env.tick);
      }
      return ResultOf(d, s, o), false;
    }

    /** The end of applyOne for a domain whose files changed. */
    method CommitOne(env: Env, d: string, s: Site, o: Effect) returns (res: DomainResult, changed: bool)
      modifies this`loaded, this`log, st`rows, st`clock, ng
      ensures (Here(), res, changed) == SingleCommit(env, d, s, o, old(Here()))
    {
      var e := TestAndReload(env, [d], map[d := o.hash]);
      if e != NoError { return DomainResult(d, ActionOf(s), s.enabled, o.hash, Failed, e), true; }
      st.UpdateApplyResult(d, AppliedOk, NoError, o.hash, env.tick);
      return ResultOf(d, s, o), true;
    }
  }
}
