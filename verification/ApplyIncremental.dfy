/** The incremental apply: a row that is not pending has its rendering live, in every reachable
    state, so that applying only the pending rows does what applying all of them does. */
module ApplyIncremental {
  import opened Text
  import opened NginxManager
  import opened SiteStore
  import opened ApplyPipeline
  import opened ApplyFacts

  type Renderer = (string, SiteSpec) -> Option<Bytes>

  /** An enabled row that is not pending has exactly its rendering live. */
  ghost predicate RowCurrent(render: Renderer, w: World, d: string)
    requires d in w.rows
  {
    var s := w.rows[d];
    s.enabled && !NeedsApply(s) ==> render(d, s.spec).Some? && CellOf(w.disk, d).live == render(d, s.spec)
  }

  ghost predicate Current(render: Renderer, w: World) {
    && NormalKeys(w.rows)
    && (forall d :: d in w.rows ==> w.rows[d].updatedAt <= w.clock)
    && (forall d :: d in w.rows ==> RowCurrent(render, w, d))
  }

  // ---------------------------------------------------------------- each step keeps it

  lemma OkMeansLive(env: Env, d: string, s: Site, c: Cell)
    ensures var o := SiteEffect(env, d, s, c);
      && (o.ok && s.enabled ==> env.render(d, s.spec).Some? && o.cell.live == env.render(d, s.spec))
      && (o.ok && !s.enabled ==> o.cell.live == None)
      && (!o.changed ==> o.cell.live == c.live)
  {
  }

  lemma BatchRowCurrent(env: Env, req: Request, w: World, d: string)
    requires Current(env.render, w) && d in w.rows
    ensures var w' := BatchApply(env, req, w).0;
      d in w'.rows && w'.rows[d].updatedAt <= w'.clock && RowCurrent(env.render, w', d)
  {
    var sites := SitesOf(w.rows);
    var b := Run(env, req, w, sites, |sites|);
    NormalListing(w.rows);
    var i := PlaceOf(w.rows, d);
    AtSite(env, req, w, sites, i);
    OkMeansLive(env, d, w.rows[d], CellOf(w.disk, d));
    CommitAt(env, After(w, b), b.changed, b.hashes, d);
    assert RowCurrent(env.render, w, d);
  }

  lemma BatchKeepsCurrent(env: Env, req: Request, w: World)
    requires Current(env.render, w)
    ensures Current(env.render, BatchApply(env, req, w).0)
    ensures BatchApply(env, req, w).0.rows.Keys == w.rows.Keys && w.clock <= BatchApply(env, req, w).0.clock
  {
    var sites := SitesOf(w.rows);
    var b := Run(env, req, w, sites, |sites|);
    RunKeepsKeys(env, req, w, sites, |sites|);
    CommitAt(env, After(w, b), b.changed, b.hashes, "");
    forall d | d in w.rows
      ensures var w' := BatchApply(env, req, w).0; w'.rows[d].updatedAt <= w'.clock && RowCurrent(env.render, w', d)
    {
      BatchRowCurrent(env, req, w, d);
    }
  }

  lemma SingleRowCurrent(env: Env, d: string, w: World, e: string)
    requires Current(env.render, w) && e in w.rows
    ensures var w' := SingleApply(env, d, false, w).0;
      w'.rows.Keys == w.rows.Keys && w.clock <= w'.clock && w'.rows[e].updatedAt <= w'.clock &&
        RowCurrent(env.render, w', e)
  {
    hide SiteEffect, Norm, Commit;
    assert RowCurrent(env.render, w, e);
    if d in w.rows {
      var s, c := w.rows[d], CellOf(w.disk, d);
      var o := SiteEffect(env, d, s, c);
      var w1 := w.(disk := SetCell(w.disk, d, o.cell));
      SetCellOf(w.disk, d, o.cell);
      OkMeansLive(env, d, s, c);
      assert RowCurrent(env.render, w, d);
      if o.changed {
        CommitAt(env, w1, [d], map[d := o.hash], e);
        ChangedIsOk(env, d, s, c);
      }
    }
  }

  lemma ChangedIsOk(env: Env, d: string, s: Site, c: Cell)
    ensures SiteEffect(env, d, s, c).changed ==> SiteEffect(env, d, s, c).ok
  {
  }

  lemma SingleKeepsCurrent(env: Env, d: string, dryRun: bool, w: World)
    requires Current(env.render, w)
    ensures Current(env.render, SingleApply(env, d, dryRun, w).0)
    ensures w.clock <= SingleApply(env, d, dryRun, w).0.clock
  {
    if !dryRun && d in w.rows {
      SingleRowCurrent(env, d, w, d);
      forall e | e in w.rows
        ensures var w' := SingleApply(env, d, false, w).0;
          w'.rows.Keys == w.rows.Keys && w'.rows[e].updatedAt <= w'.clock && RowCurrent(env.render, w', e)
      {
        SingleRowCurrent(env, d, w, e);
      }
    }
  }

  /** An edit is lost if it carries the very time stamp of the last good apply (so that the row is
      not pending) and asks for another rendering than the one that is live. */
  ghost predicate LostEdit(render: Renderer, w: World, d: string, spec: SiteSpec, enabled: bool, at: nat) {
    && d in w.rows && enabled
    && w.rows[d].status == AppliedOk && w.rows[d].lastAppliedAt.Some? && at <= w.rows[d].lastAppliedAt.value
    && !(render(d, spec).Some? && CellOf(w.disk, d).live == render(d, spec))
  }

  /** A step that touches one row and the files of one domain is judged on that row alone. */
  lemma OneRow(render: Renderer, w: World, w': World, d: string)
    requires Current(render, w) && w.clock <= w'.clock
    requires forall e ::
      e in w'.rows && e != d ==> e in w.rows && w'.rows[e] == w.rows[e] && CellOf(w'.disk, e) == CellOf(w.disk, e)
    requires d in w'.rows ==> Norm(d) == d && d != "" && w'.rows[d].updatedAt <= w'.clock
    ensures Current(render, w') <==> (d in w'.rows ==> RowCurrent(render, w', d))
  {
    forall e | e in w'.rows && e != d
      ensures Norm(e) == e && e != "" && w'.rows[e].updatedAt <= w'.clock && RowCurrent(render, w', e)
    {
      assert RowCurrent(render, w, e);
    }
  }

  /** Saving a site keeps the invariant exactly when the edit is not lost. */
  lemma SaveKeepsCurrent(render: Renderer, w: World, d: string, spec: SiteSpec, enabled: bool, at: nat)
    requires Current(render, w) && Norm(d) == d && d != "" && w.clock <= at
    ensures Current(render, Exec(w, Saved(d, spec, enabled, at))) <==>
      !LostEdit(render, w, d, Stored(spec), enabled, at)
  {
    var w' := Exec(w, Saved(d, spec, enabled, at));
    hide Norm, Stored;
    OneRow(render, w, w', d);
  }

  /** So does enabling or disabling. */
  lemma ToggleKeepsCurrent(render: Renderer, w: World, d: string, enabled: bool, at: nat)
    requires Current(render, w) && w.clock <= at
    ensures Current(render, Exec(w, Toggled(d, enabled, at))) <==>
      !(d in w.rows && LostEdit(render, w, d, w.rows[d].spec, enabled, at))
  {
    var w' := Exec(w, Toggled(d, enabled, at));
    hide Norm;
    OneRow(render, w, w', d);
  }

  /** A deletion that removes the vhost file and then fails leaves a row that looks applied. */
  predicate Stranded(w: World, d: string, f: RemoveFaults, reloadOk: bool, rowOk: bool) {
    && d in w.rows && RemoveCell(CellOf(w.disk, d), f).1 == Gone && !(reloadOk && rowOk)
    && w.rows[d].enabled && !NeedsApply(w.rows[d])
  }

  lemma RemoveKeepsCurrent(render: Renderer, w: World, d: string, f: RemoveFaults, reloadOk: bool, rowOk: bool)
    requires Current(render, w)
    ensures Current(render, RemoveSite(w, d, f, reloadOk, rowOk)) <==> !Stranded(w, d, f, reloadOk, rowOk)
  {
    if d in w.rows {
      var w', c := RemoveSite(w, d, f, reloadOk, rowOk), RemoveCell(CellOf(w.disk, d), f).0;
      SetCellOf(w.disk, d, c);
      hide Norm;
      assert w'.disk == SetCell(w.disk, d, c);
      assert RowCurrent(render, w, d);
      OneRow(render, w, w', d);
    }
  }

  // ---------------------------------------------------------------- a strictly increasing clock

  /** No row carries an apply time that is still to come. */
  ghost predicate Stamped(w: World) {
    forall d :: d in w.rows && w.rows[d].lastAppliedAt.Some? ==> w.rows[d].lastAppliedAt.value <= w.clock
  }

  lemma BatchStamps(env: Env, req: Request, w: World, d: string)
    requires NormalKeys(w.rows) && Stamped(w) && d in w.rows
    ensures var w' := BatchApply(env, req, w).0;
      d in w'.rows && (w'.rows[d].lastAppliedAt.Some? ==> w'.rows[d].lastAppliedAt.value <= w'.clock)
  {
    var sites := SitesOf(w.rows);
    var b := Run(env, req, w, sites, |sites|);
    NormalListing(w.rows);
    var i := PlaceOf(w.rows, d);
    AtSite(env, req, w, sites, i);
    CommitAt(env, After(w, b), b.changed, b.hashes, d);
  }

  lemma BatchKeepsStamped(env: Env, req: Request, w: World)
    requires NormalKeys(w.rows) && Stamped(w)
    ensures Stamped(BatchApply(env, req, w).0)
  {
    var sites := SitesOf(w.rows);
    var b := Run(env, req, w, sites, |sites|);
    RunKeepsKeys(env, req, w, sites, |sites|);
    CommitAt(env, After(w, b), b.changed, b.hashes, "");
    forall d | d in w.rows
      ensures var w' := BatchApply(env, req, w).0;
        w'.rows[d].lastAppliedAt.Some? ==> w'.rows[d].lastAppliedAt.value <= w'.clock
    {
      BatchStamps(env, req, w, d);
    }
  }

  lemma SingleKeepsStamped(env: Env, d: string, dryRun: bool, w: World)
    requires Stamped(w)
    ensures Stamped(SingleApply(env, d, dryRun, w).0)
  {
    hide SiteEffect, Commit;
    if d in w.rows && !dryRun {
      var o := SiteEffect(env, d, w.rows[d], CellOf(w.disk, d));
      var w1 := w.(disk := SetCell(w.disk, d, o.cell));
      CommitAt(env, w1, [d], map[d := o.hash], d);
      forall e | e in w.rows
        ensures var w2 := Commit(env, w1, [d], map[d := o.hash]).0;
          w2.rows[e].lastAppliedAt.Some? ==> w2.rows[e].lastAppliedAt.value <= w2.clock
      {
        CommitAt(env, w1, [d], map[d := o.hash], e);
      }
    }
  }

  /** In a state whose stamps are not ahead of the clock, an edit stamped later than the clock is
      never lost. */
  lemma LaterEditIsNotLost(render: Renderer, w: World, d: string, spec: SiteSpec, enabled: bool, at: nat)
    requires Stamped(w) && w.clock < at
    ensures !LostEdit(render, w, d, spec, enabled, at)
  {
  }

  /** The removal of a vhost either leaves the file or is followed through. */
  predicate FollowedThrough(f: RemoveFaults, reloadOk: bool, rowOk: bool) {
    (reloadOk && rowOk) || f.stat || f.read || f.backup != NoFault || f.remove
  }

  /** One renderer throughout, normalised names, a clock that advances with every edit, and no
      deletion that stops half way. */
  ghost predicate Timely(render: Renderer, w: World, ev: Event) {
    match ev
    case Batched(env, _) => env.render == render
    case Single(env, _, _) => env.render == render
    case Saved(d, _, _, at) => Norm(d) == d && d != "" && w.clock < at
    case Toggled(_, _, at) => w.clock < at
    case Removed(_, f, reloadOk, rowOk) => FollowedThrough(f, reloadOk, rowOk)
  }

  lemma StepKeepsCurrent(render: Renderer, w: World, ev: Event)
    requires Current(render, w) && Stamped(w) && Timely(render, w, ev)
    ensures Current(render, Exec(w, ev)) && Stamped(Exec(w, ev))
  {
    hide Current, Stamped, BatchApply, SingleApply, LostEdit, Norm;
    StepStamps(render, w, ev);
    match ev {
      case Batched(env, req) => BatchKeepsCurrent(env, req, w);
      case Single(env, d, dry) => SingleKeepsCurrent(env, d, dry, w);
      case Saved(d, spec, enabled, at) =>
        LaterEditIsNotLost(render, w, d, Stored(spec), enabled, at);
        SaveKeepsCurrent(render, w, d, spec, enabled, at);
      case Toggled(d, enabled, at) =>
        if d in w.rows { LaterEditIsNotLost(render, w, d, w.rows[d].spec, enabled, at); }
        ToggleKeepsCurrent(render, w, d, enabled, at);
      case Removed(d, f, reloadOk, rowOk) => RemoveKeepsCurrent(render, w, d, f, reloadOk, rowOk);
    }
  }

  lemma StepStamps(render: Renderer, w: World, ev: Event)
    requires Current(render, w) && Stamped(w) && Timely(render, w, ev)
    ensures Stamped(Exec(w, ev))
  {
    hide BatchApply, SingleApply, Norm, RowCurrent, Stored;
    match ev {
      case Batched(env, req) => BatchKeepsStamped(env, req, w);
      case Single(env, d, dry) => SingleKeepsStamped(env, d, dry, w);
      case _ =>
    }
  }

  /** While the clock advances with every edit and deletions are followed through, every reachable
      state is current, whatever applies do in between and however they fail. */
  lemma {:induction false} RunKeepsCurrent(render: Renderer, w: World, evs: seq<Event>)
    requires Current(render, w) && Stamped(w)
    requires forall n :: 0 <= n < |evs| ==> Timely(render, ExecAll(w, evs[..n]), evs[n])
    ensures Current(render, ExecAll(w, evs)) && Stamped(ExecAll(w, evs))
    decreases |evs|
  {
    hide Current, Stamped, Exec;
    if evs == [] {
    } else {
      var rest, ev := evs[..|evs| - 1], evs[|evs| - 1];
      forall n | 0 <= n < |rest| ensures Timely(render, ExecAll(w, rest[..n]), rest[n]) {
        assert rest[..n] == evs[..n];
      }
      RunKeepsCurrent(render, w, rest);
      StepKeepsCurrent(render, ExecAll(w, rest), ev);
    }
  }

  // ---------------------------------------------------------------- incremental = full

  /** Equal up to staging files, row results and the report. */
  ghost predicate SameFiles(a: Batch, b: Batch) {
    a.disk.live == b.disk.live && a.disk.backup == b.disk.backup && a.changed == b.changed && a.hashes == b.hashes
  }

  lemma EffectIgnoresStage(env: Env, d: string, s: Site, c1: Cell, c2: Cell)
    requires c1.live == c2.live && c1.backup == c2.backup
    ensures var o1, o2 := SiteEffect(env, d, s, c1), SiteEffect(env, d, s, c2);
      o1.cell.live == o2.cell.live && o1.cell.backup == o2.cell.backup && o1.changed == o2.changed && o1.hash == o2.hash
  {
  }

  /** A site whose rendering is already live is left alone. */
  lemma QuietWhenCurrent(env: Env, d: string, s: Site, c: Cell)
    requires s.enabled && env.render(d, s.spec).Some? && c.live == env.render(d, s.spec) && !env.publish(d).readLive
    ensures var o := SiteEffect(env, d, s, c); !o.changed && o.cell.live == c.live && o.cell.backup == c.backup
  {
  }

  lemma ProcessSame(env: Env, a: Batch, b: Batch, d: string, s: Site)
    requires SameFiles(a, b)
    ensures SameFiles(Process(env, a, d, s), Process(env, b, d, s))
  {
    EffectIgnoresStage(env, d, s, CellOf(a.disk, d), CellOf(b.disk, d));
  }

  lemma ProcessQuiet(env: Env, a: Batch, b: Batch, d: string, s: Site)
    requires SameFiles(a, b)
    requires var o, c := SiteEffect(env, d, s, CellOf(a.disk, d)), CellOf(a.disk, d);
      !o.changed && o.cell.live == c.live && o.cell.backup == c.backup
    ensures SameFiles(Process(env, a, d, s), b)
  {
    SetGet(a.disk.live, d);
    SetGet(a.disk.backup, d);
  }

  /** The two requests compared: both unlimited, both for real. */
  predicate FullAndIncremental(full: Request, inc: Request) {
    full.all && !inc.all && !full.dryRun && !inc.dryRun && full.limit <= 0 && inc.limit <= 0
  }

  lemma LockstepSite(env: Env, full: Request, inc: Request, w: World, f: Batch, i: Batch, d: string)
    requires d in w.rows && Norm(d) == d && d != "" && RowCurrent(env.render, w, d)
    requires FullAndIncremental(full, inc) && !env.publish(d).readLive
    requires SameFiles(f, i) && CellOf(f.disk, d) == CellOf(w.disk, d)
    ensures SameFiles(Step(env, full, f, Listed(d, w.rows[d])), Step(env, inc, i, Listed(d, w.rows[d])))
  {
    hide Process;
    var s := w.rows[d];
    if HasWork(inc, s) {
      ProcessSame(env, f, i, d, s);
    } else {
      QuietWhenCurrent(env, d, s, CellOf(f.disk, d));
      ProcessQuiet(env, f, i, d, s);
    }
  }

  lemma LockstepStep(env: Env, full: Request, inc: Request, w: World, sites: seq<Listed>, n: nat)
    requires Current(env.render, w) && sites == SitesOf(w.rows) && n < |sites|
    requires FullAndIncremental(full, inc) && forall d :: !env.publish(d).readLive
    requires SameFiles(Run(env, full, w, sites, n), Run(env, inc, w, sites, n))
    ensures SameFiles(Step(env, full, Run(env, full, w, sites, n), sites[n]),
        Step(env, inc, Run(env, inc, w, sites, n), sites[n]))
  {
    hide Step, RowCurrent, CellOf, Norm, SameFiles, Run, HashFor;
    NormalListing(w.rows);
    var d := sites[n].domain;
    RunElsewhere(env, full, w, sites, 0, n, d);
    RunStarts(env, full, w, sites);
    LockstepSite(env, full, inc, w, Run(env, full, w, sites, n), Run(env, inc, w, sites, n), d);
  }

  lemma RunStarts(env: Env, req: Request, w: World, sites: seq<Listed>)
    ensures Run(env, req, w, sites, 0) == Start(w)
  {
  }

  lemma {:induction false} Lockstep(env: Env, full: Request, inc: Request, w: World, sites: seq<Listed>, n: nat)
    requires Current(env.render, w) && sites == SitesOf(w.rows) && n <= |sites|
    requires FullAndIncremental(full, inc) && forall d :: !env.publish(d).readLive
    ensures SameFiles(Run(env, full, w, sites, n), Run(env, inc, w, sites, n))
    decreases n
  {
    hide Step, Current, CellOf;
    if n == 0 {
    } else {
      Lockstep(env, full, inc, w, sites, n - 1);
      LockstepStep(env, full, inc, w, sites, n - 1);
    }
  }

  lemma {:induction false} RolledBackSame(env: Env, a: Disk, b: Disk, ds: seq<string>)
    requires a.live == b.live && a.backup == b.backup
    ensures RolledBack(env, a, ds).live == RolledBack(env, b, ds).live
    ensures RolledBack(env, a, ds).backup == RolledBack(env, b, ds).backup
    decreases |ds|
  {
    if ds == [] {
    } else {
      RolledBackSame(env, a, b, ds[..|ds| - 1]);
    }
  }

  /** Worlds that nginx cannot tell apart. */
  ghost predicate SameToNginx(a: World, b: World) {
    a.disk.live == b.disk.live && a.disk.backup == b.disk.backup && a.loaded == b.loaded && a.log == b.log
  }

  lemma AbortSame(env: Env, a: World, b: World, ds: seq<string>, hashes: map<string, string>, error: ApplyError)
    requires SameToNginx(a, b)
    ensures SameToNginx(Abort(env, a, ds, hashes, error), Abort(env, b, ds, hashes, error))
  {
    RolledBackSame(env, a.disk, b.disk, ds);
    hide RolledBack, Marked;
  }

  lemma CommitSame(env: Env, a: World, b: World, ds: seq<string>, hashes: map<string, string>)
    requires SameToNginx(a, b)
    ensures SameToNginx(Commit(env, a, ds, hashes).0, Commit(env, b, ds, hashes).0)
    ensures Commit(env, a, ds, hashes).1 == Commit(env, b, ds, hashes).1
  {
    hide Abort;
    var live := a.disk.live;
    var a1 := if env.testFirst then a.(log := a.log + [Tested(live, env.accepts(live))]) else a;
    var b1 := if env.testFirst then b.(log := b.log + [Tested(live, env.accepts(live))]) else b;
    AbortSame(env, a1, b1, ds, hashes, TestRejected);
    AbortSame(env, Reload(a1, env.reloadOk), Reload(b1, env.reloadOk), ds, hashes, ReloadFailed);
  }

  /** From any current state an unlimited incremental apply leaves the same live files, backups and
      running configuration, reports the same changes, and succeeds or fails like a full one. */
  lemma IncrementalIsFull(env: Env, full: Request, inc: Request, w: World)
    requires Current(env.render, w)
    requires FullAndIncremental(full, inc) && forall d :: !env.publish(d).readLive
    ensures var (f, rf) := BatchApply(env, full, w); var (i, ri) := BatchApply(env, inc, w);
      SameToNginx(f, i) && rf.changed == ri.changed && rf.reloaded == ri.reloaded && rf.error == ri.error
  {
    var sites := SitesOf(w.rows);
    Lockstep(env, full, inc, w, sites, |sites|);
    var f, i := Run(env, full, w, sites, |sites|), Run(env, inc, w, sites, |sites|);
    CommitSame(env, After(w, f), After(w, i), f.changed, f.hashes);
    hide Commit, Current;
  }

  /** So after any such run, from a store without sites, applying the pending rows does what applying
      all rows does. */
  lemma ReachableIncrementalIsFull(env: Env, full: Request, inc: Request, w: World, evs: seq<Event>)
    requires w.rows == map[]
    requires forall n :: 0 <= n < |evs| ==> Timely(env.render, ExecAll(w, evs[..n]), evs[n])
    requires FullAndIncremental(full, inc) && forall d :: !env.publish(d).readLive
    ensures var (f, rf) := BatchApply(env, full, ExecAll(w, evs));
      var (i, ri) := BatchApply(env, inc, ExecAll(w, evs));
      SameToNginx(f, i) && rf.changed == ri.changed && rf.reloaded == ri.reloaded && rf.error == ri.error
  {
    hide BatchApply, ExecAll, SameToNginx, Timely;
    RunKeepsCurrent(env.render, w, evs);
    IncrementalIsFull(env, full, inc, ExecAll(w, evs));
  }

  // ---------------------------------------------------------------- convergence

  lemma StepReports(env: Env, req: Request, b: Batch, x: Listed)
    ensures b.results <= Step(env, req, b, x).results
    ensures Processes(req, b.applied, x) ==>
      var d := Norm(x.domain);
      ResultOf(d, x.site, SiteEffect(env, d, x.site, CellOf(b.disk, d))) in Step(env, req, b, x).results
  {
    hide SiteEffect, Norm;
  }

  lemma {:induction false} ResultListed(env: Env, req: Request, w: World, sites: seq<Listed>, i: nat, n: nat)
    requires i < n <= |sites| && Distinct(sites) && Touches(env, req, w, sites, i)
    ensures var d, s := Norm(sites[i].domain), sites[i].site;
      ResultOf(d, s, SiteEffect(env, d, s, CellOf(w.disk, d))) in Run(env, req, w, sites, n).results
    decreases n
  {
    hide SiteEffect, Norm, Step;
    StepReports(env, req, Run(env, req, w, sites, n - 1), sites[n - 1]);
    if i == n - 1 {
      RunElsewhere(env, req, w, sites, 0, i, Norm(sites[i].domain));
    } else {
      ResultListed(env, req, w, sites, i, n - 1);
    }
  }

  /** An unlimited full apply. */
  predicate Everything(req: Request) {
    req.all && !req.dryRun && req.limit <= 0
  }

  ghost predicate AllDone(r: ApplyResult) {
    r.error == NoError && forall x :: x in r.domains ==> x.status == Done
  }

  /** The live file of `d` is what its row asks for. */
  ghost predicate Deployed(render: Renderer, rows: Rows, k: Disk, d: string)
    requires d in rows
  {
    if rows[d].enabled then render(d, rows[d].spec).Some? && CellOf(k, d).live == render(d, rows[d].spec)
    else CellOf(k, d).live == None
  }

  lemma ConvergesAt(env: Env, req: Request, w: World, d: string)
    requires NormalKeys(w.rows) && Everything(req) && AllDone(BatchApply(env, req, w).1) && d in w.rows
    ensures var w', o := BatchApply(env, req, w).0, SiteEffect(env, d, w.rows[d], CellOf(w.disk, d));
      && o.ok && CellOf(w'.disk, d) == o.cell
      && d in w'.rows && w'.rows[d].spec == w.rows[d].spec && w'.rows[d].enabled == w.rows[d].enabled
      && Deployed(env.render, w'.rows, w'.disk, d)
      && (w.rows[d].updatedAt <= w.clock ==> !NeedsApply(w'.rows[d]))
  {
    hide SiteEffect, Norm, Commit, Run;
    var sites := SitesOf(w.rows);
    var b := Run(env, req, w, sites, |sites|);
    NormalListing(w.rows);
    var i := PlaceOf(w.rows, d);
    AtSite(env, req, w, sites, i);
    ResultListed(env, req, w, sites, i, |sites|);
    OkMeansLive(env, d, w.rows[d], CellOf(w.disk, d));
    CommitAt(env, After(w, b), b.changed, b.hashes, d);
  }

  lemma UnknownUntouched(env: Env, req: Request, w: World, d: string)
    requires NormalKeys(w.rows) && d !in w.rows
    ensures CellOf(BatchApply(env, req, w).0.disk, d) == CellOf(w.disk, d)
  {
    var sites := SitesOf(w.rows);
    var b := Run(env, req, w, sites, |sites|);
    NormalListing(w.rows);
    RunElsewhere(env, req, w, sites, 0, |sites|, d);
    CommitAt(env, After(w, b), b.changed, b.hashes, d);
  }

  /** After a full apply with every domain done, the enabled rows have their renderings live, the
      disabled ones have no file, nothing is pending, and files of unknown domains are as before. */
  lemma FullApplyConverges(env: Env, req: Request, w: World)
    requires NormalKeys(w.rows) && Everything(req) && AllDone(BatchApply(env, req, w).1)
    ensures var w' := BatchApply(env, req, w).0;
      && w'.rows.Keys == w.rows.Keys
      && (forall d ::
        d in w.rows ==>
          w'.rows[d].spec == w.rows[d].spec && w'.rows[d].enabled == w.rows[d].enabled &&
            Deployed(env.render, w'.rows, w'.disk, d))
      && (forall d :: d in w.rows && w.rows[d].updatedAt <= w.clock ==> !NeedsApply(w'.rows[d]))
      && (forall d :: d !in w.rows ==> CellOf(w'.disk, d) == CellOf(w.disk, d))
  {
    var sites, w' := SitesOf(w.rows), BatchApply(env, req, w).0;
    var b := Run(env, req, w, sites, |sites|);
    RunKeepsKeys(env, req, w, sites, |sites|);
    CommitAt(env, After(w, b), b.changed, b.hashes, "");
    assert w'.rows.Keys == w.rows.Keys;
    hide BatchApply, Deployed, Norm, Run;
    forall d | d in w.rows
      ensures w'.rows[d].spec == w.rows[d].spec && w'.rows[d].enabled == w.rows[d].enabled
      ensures Deployed(env.render, w'.rows, w'.disk, d)
      ensures w.rows[d].updatedAt <= w.clock ==> !NeedsApply(w'.rows[d])
    {
      ConvergesAt(env, req, w, d);
    }
    forall d | d !in w.rows ensures CellOf(w'.disk, d) == CellOf(w.disk, d) {
      UnknownUntouched(env, req, w, d);
    }
  }

  /** What a finished site effect leaves does nothing when applied once more. */
  lemma EffectTwice(env: Env, d: string, s: Site, s': Site, c: Cell)
    requires SiteEffect(env, d, s, c).ok && !env.publish(d).readLive
    requires s'.spec == s.spec && s'.enabled == s.enabled
    ensures var o := SiteEffect(env, d, s, c);
      var o' := SiteEffect(env, d, s', o.cell); o'.ok && !o'.changed && o'.cell == o.cell
  {
  }

  /** A second identical full apply changes no file, reports no change and does not reload. */
  lemma FullApplyTwice(env: Env, req: Request, w: World)
    requires NormalKeys(w.rows) && Everything(req) && AllDone(BatchApply(env, req, w).1)
    requires forall d :: !env.publish(d).readLive
    ensures var w' := BatchApply(env, req, w).0; var (w'', r) := BatchApply(env, req, w');
      w''.disk == w'.disk && w''.loaded == w'.loaded && w''.log == w'.log && r.changed == [] && !r.reloaded &&
        r.error == NoError
  {
    hide SiteEffect, Norm, Commit;
    var w' := BatchApply(env, req, w).0;
    var b := Run(env, req, w', SitesOf(w'.rows), |SitesOf(w'.rows)|);
    FullApplyConverges(env, req, w);
    forall d ensures CellOf(b.disk, d) == CellOf(w'.disk, d) && d !in b.changed {
      TwiceAt(env, req, w, d);
    }
    DiskExtensional(b.disk, w'.disk);
    HeadIsMember(b.changed);
  }

  lemma TwiceAt(env: Env, req: Request, w: World, d: string)
    requires NormalKeys(w.rows) && Everything(req) && AllDone(BatchApply(env, req, w).1)
    requires BatchApply(env, req, w).0.rows.Keys == w.rows.Keys && !env.publish(d).readLive
    ensures var w' := BatchApply(env, req, w).0; var b := Run(env, req, w', SitesOf(w'.rows), |SitesOf(w'.rows)|);
      CellOf(b.disk, d) == CellOf(w'.disk, d) && d !in b.changed
  {
    hide SiteEffect, Norm, Finish, CellOf;
    var w' := BatchApply(env, req, w).0;
    var sites := SitesOf(w'.rows);
    NormalListing(w'.rows);
    if d in w'.rows {
      var i := PlaceOf(w'.rows, d);
      AtSite(env, req, w', sites, i);
      QuietNow(env, req, w, d);
    } else {
      RunElsewhere(env, req, w', sites, 0, |sites|, d);
    }
  }

  lemma QuietNow(env: Env, req: Request, w: World, d: string)
    requires NormalKeys(w.rows) && Everything(req) && AllDone(BatchApply(env, req, w).1) && d in w.rows
    requires !env.publish(d).readLive
    ensures d in BatchApply(env, req, w).0.rows
    ensures var w' := BatchApply(env, req, w).0;
      var o := SiteEffect(env, d, w'.rows[d], CellOf(w'.disk, d));
      !o.changed && o.cell == CellOf(w'.disk, d)
  {
    ConvergesAt(env, req, w, d);
    EffectTwice(env, d, w.rows[d], BatchApply(env, req, w).0.rows[d], CellOf(w.disk, d));
  }
}
