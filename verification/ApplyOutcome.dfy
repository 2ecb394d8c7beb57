/** What an apply reports, records, asks of nginx and leaves on disk, outcome by outcome and without the steps
    by which it gets there. */
module ApplyOutcomes {
  import opened Text
  import opened NginxManager
  import opened SiteStore
  import opened ApplyPipeline
  import opened ApplyFacts
  import opened ApplyLimits

  // ---------------------------------------------------------------- the work on one site

  /** The hash reported and recorded: of what the site was rendered to, once that is staged. */
  function RenderHash(env: Env, d: string, s: Site): string {
    var content := env.render(d, s.spec);
    if s.enabled && content.Some? && env.stage(d) == NoFault && content.value != [] then env.sha(content.value) else ""
  }

  ghost predicate NothingFails(env: Env, d: string) {
    && env.remove(d) == RemoveFaults(false, false, NoFault, false) && env.stage(d) == NoFault
    && env.publish(d) == PublishFaults(false, false, false, false, NoFault, NoFault)
  }

  /** The files of `d` before and after, whether they changed, and the error: without one the live file is what the
      row asks for, with one it is as it was. A live file that was seen is in the backup when it changes. */
  ghost predicate Worked(env: Env, d: string, s: Site, before: Cell, after: Cell, changed: bool, error: ApplyError) {
    var wanted := if s.enabled then env.render(d, s.spec) else None;
    && (error == NoError ==> after.live == wanted && (s.enabled ==> wanted.Some?))
    && (error != NoError ==> !changed)
    && (!changed ==> after.live == before.live)
    && (error == NoError && !env.publish(d).readLive ==> (changed <==> after.live != before.live))
    && (error == RenderFailed <==> s.enabled && (wanted.None? || env.stage(d) != NoFault))
    && (error == DeleteFailed ==> !s.enabled) && (error == PublishFailed ==> s.enabled)
    && (error == NoError || error == DeleteFailed || error == RenderFailed || error == PublishFailed)
    && (NothingFails(env, d) && (s.enabled ==> wanted.Some?) ==> error == NoError)
    && (after.backup == before.backup || (before.live.Some? && after.backup == before.live))
    && (changed && before.live.Some? && (s.enabled ==> !env.publish(d).stat) ==> after.backup == before.live)
    && after.stage == (if s.enabled && error != RenderFailed then wanted else before.stage)
  }

  lemma EffectWorked(env: Env, d: string, s: Site, c: Cell)
    ensures var o := SiteEffect(env, d, s, c);
      && Worked(env, d, s, c, o.cell, o.changed, o.error)
      && o.hash == RenderHash(env, d, s) && (o.ok <==> o.error == NoError)
  {
  }

  // ---------------------------------------------------------------- the end of an apply

  /** What nginx was asked once `tried` was in place: nothing without a change; test and reload; after a failure a
      reload of whatever was put back. */
  ghost predicate Ended(env: Env, w: World, w': World, tried: Files, changed: bool, error: ApplyError) {
    var tests := if env.testFirst then [Tested(tried, env.accepts(tried))] else [];
    var back := Reloaded(w'.disk.live, env.reloadBackOk);
    var left := if env.reloadBackOk then w'.disk.live else w.loaded;
    if !changed then
      error == NoError && w'.log == w.log && w'.loaded == w.loaded && w'.disk.live == tried
    else if env.testFirst && !env.accepts(tried) then
      error == TestRejected && w'.log == w.log + [Tested(tried, false), back] && w'.loaded == left
    else if !env.reloadOk then
      error == ReloadFailed && w'.log == w.log + tests + [Reloaded(tried, false), back] && w'.loaded == left
    else
      error == NoError && w'.log == w.log + tests + [Reloaded(tried, true)] && w'.loaded == tried
      && w'.disk.live == tried
  }

  lemma CommitEnds(env: Env, w0: World, w: World, ds: seq<string>, hashes: map<string, string>)
    requires w.log == w0.log && w.loaded == w0.loaded
    ensures var (w', e) := Commit(env, w, ds, hashes);
      Ended(env, w0, w', w.disk.live, true, e) && (e == NoError ==> w'.disk == w.disk)
  {
    hide RolledBack, Marked, Ticked;
  }

  /** A failed apply ends with a reload of what it put back. */
  ghost predicate ReloadedBack(env: Env, w: World) {
    && w.log != [] && w.log[|w.log| - 1] == Reloaded(w.disk.live, env.reloadBackOk)
    && (env.reloadBackOk ==> w.loaded == w.disk.live)
  }

  lemma EndedReloadsBack(env: Env, w: World, w': World, tried: Files, changed: bool, error: ApplyError)
    requires Ended(env, w, w', tried, changed, error) && error != NoError
    ensures ReloadedBack(env, w')
  {
  }

  // ---------------------------------------------------------------- the report of a batch

  /** The domains that the entries say were changed, in their order. */
  function ChangedOf(rs: seq<DomainResult>): seq<string> {
    if rs == [] then []
    else ChangedOf(rs[..|rs| - 1]) + (if rs[|rs| - 1].changed then [rs[|rs| - 1].domain] else [])
  }

  predicate IsWork(x: DomainResult) {
    x.status == Done || x.status == Failed
  }

  predicate UpToDate(s: Site) {
    s.enabled && s.lastAppliedAt.Some? && s.status == AppliedOk && s.updatedAt <= s.lastAppliedAt.value
  }

  /** One entry: skipped, a dry run, or the work on the site, which left `tried`. */
  ghost predicate EntryIs(env: Env, req: Request, w: World, tried: Disk, x: DomainResult) {
    x.domain in w.rows &&
    var d, s := x.domain, w.rows[x.domain];
    var action := if s.enabled then ApplyAction else DeleteAction;
    if UpToDate(s) && !req.all then x == DomainResult(d, SkipAction, false, "", Skipped, NoError)
    else if req.dryRun then x == DomainResult(d, action, false, "", DryRun, NoError)
    else
      && x == DomainResult(d, action, x.changed, RenderHash(env, d, s), if x.error == NoError then Done else Failed,
          x.error)
      && Worked(env, d, s, CellOf(w.disk, d), CellOf(tried, d), x.changed, x.error)
  }

  /** The entries are those of the first domains of the listing, up to where the limit is reached. */
  ghost predicate Covers(req: Request, w: World, rs: seq<DomainResult>) {
    var ks := Listing(w.rows.Keys);
    && |rs| <= |ks| && (forall k :: 0 <= k < |rs| ==> rs[k].domain == ks[k])
    && (|rs| < |ks| ==> req.limit > 0 && Reported(rs) == req.limit)
    && (req.limit > 0 ==> forall k :: 0 <= k < |rs| ==> Reported(rs[..k]) < req.limit)
  }

  /** What the step for one listed site reports. */
  ghost predicate StepEntry(env: Env, req: Request, w: World, x: Listed, r: DomainResult) {
    var d, s := x.domain, x.site;
    r == if !HasWork(req, s) then DomainResult(d, SkipAction, false, "", Skipped, NoError)
         else if req.dryRun then DomainResult(d, ActionOf(s), false, "", DryRun, NoError)
         else ResultOf(d, s, SiteEffect(env, d, s, CellOf(w.disk, d)))
  }

  /** The books after the first `n` sites. */
  ghost predicate Books(env: Env, req: Request, w: World, sites: seq<Listed>, n: nat, b: Batch)
    requires n <= |sites|
  {
    && |b.results| <= n && (|b.results| < n ==> LimitReached(req, b.applied))
    && b.applied == Reported(b.results) && b.changed == ChangedOf(b.results)
    && (forall k :: 0 <= k < |b.results| ==> StepEntry(env, req, w, sites[k], b.results[k]))
    && (forall k :: 0 <= k < |b.results| ==> !LimitReached(req, Reported(b.results[..k])))
    && (forall k :: 0 <= k < n ==>
      (Touches(env, req, w, sites, k) <==> k < |b.results| && IsWork(b.results[k])))
  }

  lemma ReportGrows(rs: seq<DomainResult>, x: DomainResult)
    ensures ChangedOf(rs + [x]) == ChangedOf(rs) + (if x.changed then [x.domain] else [])
  {
    assert (rs + [x])[..|rs|] == rs;
  }

  lemma PrefixOfMore(rs: seq<DomainResult>, x: DomainResult, k: nat)
    requires k <= |rs|
    ensures (rs + [x])[..k] == rs[..k]
  {
  }

  /** One step of the batch, on its books. */
  lemma StepBooks(env: Env, req: Request, w: World, b: Batch, x: Listed)
    requires !LimitReached(req, b.applied) && Norm(x.domain) == x.domain != ""
    requires HasWork(req, x.site) && !req.dryRun ==> CellOf(b.disk, x.domain) == CellOf(w.disk, x.domain)
    ensures var b' := Step(env, req, b, x);
      && |b'.results| == |b.results| + 1 && b'.results == b.results + [b'.results[|b.results|]]
      && var r := b'.results[|b.results|];
      && StepEntry(env, req, w, x, r) && (Processes(req, b.applied, x) <==> IsWork(r))
      && b'.applied == b.applied + (if r.status != Skipped then 1 else 0)
      && b'.changed == b.changed + (if r.changed then [r.domain] else [])
  {
    hide SiteEffect, Norm, NeedsApply, CellOf, SetCell, Recorded;
  }

  lemma StepPastLimit(env: Env, req: Request, b: Batch, x: Listed)
    requires LimitReached(req, b.applied)
    ensures Step(env, req, b, x) == b && !Processes(req, b.applied, x)
  {
  }

  /** Up to its own turn the files of a domain are as they were. */
  lemma BeforeItsTurn(env: Env, req: Request, w: World, sites: seq<Listed>, n: nat)
    requires Distinct(sites) && Named(sites) && n < |sites|
    ensures var x := sites[n];
      Norm(x.domain) == x.domain != "" && CellOf(Run(env, req, w, sites, n).disk, x.domain) == CellOf(w.disk, x.domain)
  {
    hide Norm, CellOf, Step;
    RunElsewhere(env, req, w, sites, 0, n, sites[n].domain);
  }

  lemma OneMoreEntry(env: Env, req: Request, w: World, sites: seq<Listed>, n: nat, b: Batch, b': Batch, r: DomainResult)
    requires n < |sites| && Books(env, req, w, sites, n, b) && !LimitReached(req, b.applied)
    requires b'.results == b.results + [r] && StepEntry(env, req, w, sites[n], r)
    requires Touches(env, req, w, sites, n) <==> IsWork(r)
    requires b'.applied == b.applied + (if r.status != Skipped then 1 else 0)
    requires b'.changed == b.changed + (if r.changed then [r.domain] else [])
    ensures Books(env, req, w, sites, n + 1, b')
  {
    hide Touches, StepEntry, Reported, ChangedOf, LimitReached, IsWork;
    ReportGrows(b.results, r);
    ReportedOneMore(b.results, r);
    forall k | 0 <= k <= |b.results| ensures b'.results[..k] == b.results[..k] { PrefixOfMore(b.results, r, k); }
    assert b.results[..|b.results|] == b.results;
  }

  lemma PastLimitEntry(env: Env, req: Request, w: World, sites: seq<Listed>, n: nat, b: Batch)
    requires n < |sites| && Books(env, req, w, sites, n, b) && LimitReached(req, b.applied)
    requires !Touches(env, req, w, sites, n)
    ensures Books(env, req, w, sites, n + 1, b)
  {
    hide Touches, StepEntry, Reported, ChangedOf, LimitReached, IsWork;
  }

  lemma ReportStep(env: Env, req: Request, w: World, sites: seq<Listed>, n: nat, b: Batch)
    requires n < |sites| && Books(env, req, w, sites, n, b)
    requires Norm(sites[n].domain) == sites[n].domain != ""
    requires CellOf(b.disk, sites[n].domain) == CellOf(w.disk, sites[n].domain)
    requires Touches(env, req, w, sites, n) <==> Processes(req, b.applied, sites[n])
    ensures Books(env, req, w, sites, n + 1, Step(env, req, b, sites[n]))
  {
    hide Step, Processes, LimitReached, Books, Touches, Norm, CellOf;
    if LimitReached(req, b.applied) {
      StepPastLimit(env, req, b, sites[n]);
      PastLimitEntry(env, req, w, sites, n, b);
    } else {
      StepBooks(env, req, w, b, sites[n]);
      var b' := Step(env, req, b, sites[n]);
      OneMoreEntry(env, req, w, sites, n, b, b', b'.results[|b.results|]);
    }
  }

  lemma {:induction false} BooksKept(env: Env, req: Request, w: World, sites: seq<Listed>, n: nat)
    requires Distinct(sites) && Named(sites) && n <= |sites|
    ensures Books(env, req, w, sites, n, Run(env, req, w, sites, n))
    decreases n
  {
    hide Step, Processes, Books, Touches, Norm, CellOf, Distinct, Named;
    if n == 0 {
      NothingReported(env, req, w, sites);
    } else {
      BooksKept(env, req, w, sites, n - 1);
      TouchesIs(env, req, w, sites, n - 1);
      BeforeItsTurn(env, req, w, sites, n - 1);
      ReportStep(env, req, w, sites, n - 1, Run(env, req, w, sites, n - 1));
    }
  }

  lemma RunReports(env: Env, req: Request, w: World, n: nat)
    requires NormalKeys(w.rows) && n <= |SitesOf(w.rows)|
    ensures Books(env, req, w, SitesOf(w.rows), n, Run(env, req, w, SitesOf(w.rows), n))
  {
    hide Run, Books, Norm;
    NormalListing(w.rows);
    BooksKept(env, req, w, SitesOf(w.rows), n);
  }

  lemma TouchesIs(env: Env, req: Request, w: World, sites: seq<Listed>, n: nat)
    requires n < |sites|
    ensures Touches(env, req, w, sites, n) <==> Processes(req, Run(env, req, w, sites, n).applied, sites[n])
  {
  }

  lemma NothingReported(env: Env, req: Request, w: World, sites: seq<Listed>)
    ensures Books(env, req, w, sites, 0, Start(w))
  {
  }

  // ---------------------------------------------------------------- the outcome of a batch

  lemma EntryOfStep(env: Env, req: Request, w: World, tried: Disk, x: Listed, r: DomainResult)
    requires StepEntry(env, req, w, x, r) && x.domain in w.rows && x.site == w.rows[x.domain]
    requires IsWork(r) ==> CellOf(tried, x.domain) == SiteEffect(env, x.domain, x.site, CellOf(w.disk, x.domain)).cell
    ensures EntryIs(env, req, w, tried, r) && r.domain == x.domain && (r.changed ==> IsWork(r))
  {
    hide SiteEffect, CellOf, RenderHash, Worked;
    EffectWorked(env, x.domain, x.site, CellOf(w.disk, x.domain));
  }

  /** The row of a reported site says what its entry says, or, if it was put back, why. */
  ghost predicate RowSays(w: World, w': World, x: DomainResult, error: ApplyError) {
    x.domain in w.rows && x.domain in w'.rows &&
    var was, now := w.rows[x.domain], w'.rows[x.domain];
    if !IsWork(x) then now == was
    else if x.changed && error != NoError then
      RowRecorded(was, now, AppliedFail, error, x.hash, w.clock, w'.clock)
    else
      RowRecorded(was, now, if x.error == NoError then AppliedOk else AppliedFail, x.error, x.hash, w.clock, w'.clock)
  }

  /** The batch does not get to this domain, or has no row for it. */
  ghost predicate NotWorked(rs: seq<DomainResult>, d: string) {
    forall k :: 0 <= k < |rs| && rs[k].domain == d ==> !IsWork(rs[k])
  }

  /** The files and the row of one listed site after the loop. */
  lemma SiteAfterLoop(env: Env, req: Request, w: World, k: nat)
    requires NormalKeys(w.rows) && k < |SitesOf(w.rows)|
    ensures var sites := SitesOf(w.rows); var b := Run(env, req, w, sites, |sites|);
      var d, was := sites[k].domain, w.rows[sites[k].domain];
      var o := SiteEffect(env, d, was, CellOf(w.disk, d));
      && d in b.rows && w.clock <= b.clock
      && (k < |b.results| && IsWork(b.results[k]) ==>
        && CellOf(b.disk, d) == o.cell && b.results[k] == ResultOf(d, was, o) && (d in b.changed <==> o.changed)
        && (o.changed ==> HashFor(b.hashes, d) == o.hash)
        && RowRecorded(was, b.rows[d], if o.ok then AppliedOk else AppliedFail, o.error, o.hash, w.clock, b.clock))
      && (!(k < |b.results| && IsWork(b.results[k])) ==>
        CellOf(b.disk, d) == CellOf(w.disk, d) && d !in b.changed && b.rows[d] == was)
  {
    hide SiteEffect, CellOf, Step, HashFor, Processes, NormalKeys, RowRecorded;
    var sites := SitesOf(w.rows);
    RunReports(env, req, w, |sites|);
    NormalListing(w.rows);
    hide Distinct;
    AtSite(env, req, w, sites, k);
  }

  /** So the entries say what became of their files and rows. */
  lemma EntriesAfterLoop(env: Env, req: Request, w: World)
    requires NormalKeys(w.rows)
    ensures var b := Run(env, req, w, SitesOf(w.rows), |SitesOf(w.rows)|);
      && Covers(req, w, b.results) && b.changed == ChangedOf(b.results)
      && forall k :: 0 <= k < |b.results| ==> EntryIs(env, req, w, b.disk, b.results[k])
  {
    hide SiteEffect, CellOf, Step, Processes, StepEntry, EntryIs, IsWork, RowRecorded, NormalKeys;
    var sites := SitesOf(w.rows);
    var b := Run(env, req, w, sites, |sites|);
    RunReports(env, req, w, |sites|);
    forall k | 0 <= k < |b.results|
      ensures EntryIs(env, req, w, b.disk, b.results[k]) && b.results[k].domain == Listing(w.rows.Keys)[k]
    {
      SiteAfterLoop(env, req, w, k);
      EntryOfStep(env, req, w, b.disk, sites[k], b.results[k]);
    }
    ReportsWithinLimit(env, req, w, sites, |sites|);
  }

  lemma UnworkedAfterLoop(env: Env, req: Request, w: World, d: string)
    requires NormalKeys(w.rows)
    requires NotWorked(Run(env, req, w, SitesOf(w.rows), |SitesOf(w.rows)|).results, d)
    ensures var b := Run(env, req, w, SitesOf(w.rows), |SitesOf(w.rows)|);
      && CellOf(b.disk, d) == CellOf(w.disk, d)
      && (d in w.rows ==> d !in b.changed && d in b.rows && b.rows[d] == w.rows[d])
  {
    hide SiteEffect, CellOf, Step, Processes, RowRecorded, NormalKeys, HashFor;
    var sites := SitesOf(w.rows);
    NormalListing(w.rows);
    if d in w.rows {
      var k := PlaceOf(w.rows, d);
      RunReports(env, req, w, |sites|);
      EntriesAfterLoop(env, req, w);
      SiteAfterLoop(env, req, w, k);
    } else {
      RunElsewhere(env, req, w, sites, 0, |sites|, d);
      assert Run(env, req, w, sites, 0) == Start(w);
      StartDisk(w, d);
    }
  }

  lemma StartDisk(w: World, d: string)
    ensures CellOf(Start(w).disk, d) == CellOf(w.disk, d)
  {
  }

  /** A domain that was put back: its non-empty backup is live again, or nothing is. */
  ghost predicate PutBack(env: Env, d: string, tried: Cell, now: Cell) {
    && now.backup == tried.backup && now.stage == tried.stage
    && (env.rollback(d) == RollbackFaults(false, NoFault, false) ==>
      now.live == if tried.backup == Some([]) then None else tried.backup)
  }

  /** The rows and files after the end of a batch, domain by domain. */
  ghost predicate LeftBy(env: Env, w: World, w': World, tried: Disk, r: ApplyResult) {
    && w'.rows.Keys == w.rows.Keys
    && (forall k :: 0 <= k < |r.domains| ==> RowSays(w, w', r.domains[k], r.error))
    && (forall d :: d in w.rows && NotWorked(r.domains, d) ==> w'.rows[d] == w.rows[d])
    && (r.error == NoError ==> w'.disk == tried)
    && (forall d :: r.error != NoError ==>
      if d in ChangedOf(r.domains) then PutBack(env, d, CellOf(tried, d), CellOf(w'.disk, d))
      else CellOf(w'.disk, d) == CellOf(tried, d))
  }

  lemma RollbackPutsBack(env: Env, d: string, c: Cell)
    ensures PutBack(env, d, c, RollbackCell(c, env.rollback(d)))
  {
  }

  lemma RowAfterLoop(env: Env, req: Request, w: World, k: nat)
    requires NormalKeys(w.rows)
    requires k < |Run(env, req, w, SitesOf(w.rows), |SitesOf(w.rows)|).results|
    ensures var b := Run(env, req, w, SitesOf(w.rows), |SitesOf(w.rows)|);
      var x := b.results[k];
      && RowSays(w, After(w, b), x, NoError) && w.clock <= b.clock && (x.domain in b.changed <==> x.changed)
      && (x.changed ==> IsWork(x) && HashFor(b.hashes, x.domain) == x.hash)
  {
    hide SiteEffect, CellOf, Step, Processes, NormalKeys, HashFor, EntryIs, RowRecorded, StepEntry, Worked, IsWork;
    var sites := SitesOf(w.rows);
    var b := Run(env, req, w, sites, |sites|);
    RunReports(env, req, w, |sites|);
    SiteAfterLoop(env, req, w, k);
    EntryOfStep(env, req, w, b.disk, sites[k], b.results[k]);
    if IsWork(b.results[k]) {
      EffectWorked(env, sites[k].domain, sites[k].site, CellOf(w.disk, sites[k].domain));
    }
  }

  /** The end of the batch keeps a row or marks it. */
  lemma RowThroughCommit(env: Env, w: World, mid: World, ds: seq<string>, hashes: map<string, string>, x: DomainResult)
    requires RowSays(w, mid, x, NoError) && w.clock <= mid.clock && (x.domain in ds <==> x.changed)
    requires x.changed ==> IsWork(x) && HashFor(hashes, x.domain) == x.hash
    ensures var (w', e) := Commit(env, mid, ds, hashes); RowSays(w, w', x, e)
  {
    hide CellOf, HashFor, Commit;
    CommitAt(env, mid, ds, hashes, x.domain);
  }

  lemma RowAfterEnd(env: Env, req: Request, w: World, k: nat)
    requires NormalKeys(w.rows) && k < |BatchApply(env, req, w).1.domains|
    ensures var (w', r) := BatchApply(env, req, w); RowSays(w, w', r.domains[k], r.error)
  {
    hide Step, Commit, NormalKeys, RowSays, SitesOf, HashFor;
    var b := Run(env, req, w, SitesOf(w.rows), |SitesOf(w.rows)|);
    RowAfterLoop(env, req, w, k);
    RowThroughCommit(env, w, After(w, b), b.changed, b.hashes, b.results[k]);
  }

  lemma {:induction false} DryRunChangesNothing(env: Env, req: Request, w: World, n: nat)
    requires n <= |SitesOf(w.rows)| && req.dryRun
    ensures var b := Run(env, req, w, SitesOf(w.rows), n); After(w, b) == w && b.changed == []
    decreases n
  {
    hide SitesOf, Norm, HasWork;
    if n == 0 {
    } else {
      DryRunChangesNothing(env, req, w, n - 1);
    }
  }

  lemma RowsAfterEnd(env: Env, req: Request, w: World, d: string)
    requires NormalKeys(w.rows)
    ensures var (w', r) := BatchApply(env, req, w);
      && w'.rows.Keys == w.rows.Keys
      && (d in w.rows && NotWorked(r.domains, d) ==> w'.rows[d] == w.rows[d])
  {
    hide Step, Commit, NormalKeys, RowSays, SitesOf, HashFor, IsWork, CellOf;
    var b := Run(env, req, w, SitesOf(w.rows), |SitesOf(w.rows)|);
    RunKeepsKeys(env, req, w, SitesOf(w.rows), |SitesOf(w.rows)|);
    CommitAt(env, After(w, b), b.changed, b.hashes, d);
    if NotWorked(b.results, d) { UnworkedAfterLoop(env, req, w, d); }
  }

  lemma FilesAfterEnd(env: Env, req: Request, w: World, d: string)
    requires NormalKeys(w.rows)
    ensures var (w', r) := BatchApply(env, req, w);
      var tried := Run(env, req, w, SitesOf(w.rows), |SitesOf(w.rows)|).disk;
      && (r.error == NoError ==> w'.disk == tried)
      && (r.error != NoError ==>
        if d in ChangedOf(r.domains) then PutBack(env, d, CellOf(tried, d), CellOf(w'.disk, d))
        else CellOf(w'.disk, d) == CellOf(tried, d))
  {
    hide Step, Commit, NormalKeys, RowSays, SitesOf, HashFor, CellOf, RollbackCell, PutBack;
    var b := Run(env, req, w, SitesOf(w.rows), |SitesOf(w.rows)|);
    EntriesAfterLoop(env, req, w);
    CommitAt(env, After(w, b), b.changed, b.hashes, d);
    RollbackPutsBack(env, d, CellOf(b.disk, d));
  }

  /** The whole of Apply without a domain. `tried` is the state of the files before the test. */
  lemma BatchOutcome(env: Env, req: Request, w: World) returns (tried: Disk)
    requires NormalKeys(w.rows)
    ensures var (w', r) := BatchApply(env, req, w);
      && Covers(req, w, r.domains) && (forall k :: 0 <= k < |r.domains| ==> EntryIs(env, req, w, tried, r.domains[k]))
      && (forall d :: NotWorked(r.domains, d) ==> CellOf(tried, d) == CellOf(w.disk, d))
      && LeftBy(env, w, w', tried, r)
      && Ended(env, w, w', tried.live, ChangedOf(r.domains) != [], r.error)
      && r.reloaded == (r.error == NoError && ChangedOf(r.domains) != [])
      && r.changed == (if r.reloaded then ChangedOf(r.domains) else [])
  {
    hide Step, Commit, NormalKeys, RowSays, SitesOf, HashFor, CellOf, PutBack, EntryIs, Covers, NotWorked, Ended;
    var b := Run(env, req, w, SitesOf(w.rows), |SitesOf(w.rows)|);
    var (w', r) := BatchApply(env, req, w);
    tried := b.disk;
    EntriesAfterLoop(env, req, w);
    forall d | NotWorked(r.domains, d) ensures CellOf(tried, d) == CellOf(w.disk, d) {
      UnworkedAfterLoop(env, req, w, d);
    }
    forall k | 0 <= k < |r.domains| ensures RowSays(w, w', r.domains[k], r.error) { RowAfterEnd(env, req, w, k); }
    forall d ensures w'.rows.Keys == w.rows.Keys
      ensures d in w.rows && NotWorked(r.domains, d) ==> w'.rows[d] == w.rows[d]
    {
      RowsAfterEnd(env, req, w, d);
    }
    RowsAfterEnd(env, req, w, "");
    forall d ensures (r.error == NoError ==> w'.disk == tried) &&
        (r.error != NoError ==>
          if d in ChangedOf(r.domains) then PutBack(env, d, CellOf(tried, d), CellOf(w'.disk, d))
          else CellOf(w'.disk, d) == CellOf(tried, d))
    {
      FilesAfterEnd(env, req, w, d);
    }
    FilesAfterEnd(env, req, w, "");
    BatchEnds(env, req, w);
  }

  lemma BatchEnds(env: Env, req: Request, w: World)
    ensures var (w', r) := BatchApply(env, req, w);
      var b := Run(env, req, w, SitesOf(w.rows), |SitesOf(w.rows)|);
      && Ended(env, w, w', b.disk.live, b.changed != [], r.error)
      && r.reloaded == (r.error == NoError && b.changed != []) && r.changed == (if r.reloaded then b.changed else [])
  {
    hide Step, Commit, SitesOf, Run;
    var b := Run(env, req, w, SitesOf(w.rows), |SitesOf(w.rows)|);
    if req.dryRun { DryRunChangesNothing(env, req, w, |SitesOf(w.rows)|); }
    CommitEnds(env, w, After(w, b), b.changed, b.hashes);
  }

  /** A batch that fails ends with a reload of what it put back. */
  lemma FailedBatchReloadsBack(env: Env, req: Request, w: World)
    requires BatchApply(env, req, w).1.error != NoError
    ensures ReloadedBack(env, BatchApply(env, req, w).0)
  {
    hide BatchApply, Ended, ReloadedBack;
    BatchEnds(env, req, w);
    var (w', r) := BatchApply(env, req, w);
    var b := Run(env, req, w, SitesOf(w.rows), |SitesOf(w.rows)|);
    EndedReloadsBack(env, w, w', b.disk.live, b.changed != [], r.error);
  }

  /** A dry run of a batch changes nothing and reports, for every site with work up to the limit, a dry run. */
  lemma BatchDryRun(env: Env, req: Request, w: World)
    requires NormalKeys(w.rows) && req.dryRun
    ensures var (w', r) := BatchApply(env, req, w);
      && w' == w && r.error == NoError && !r.reloaded && r.changed == [] && Covers(req, w, r.domains)
      && forall k :: 0 <= k < |r.domains| ==>
        var x := r.domains[k];
        x.domain in w.rows && x == if UpToDate(w.rows[x.domain]) && !req.all then
            DomainResult(x.domain, SkipAction, false, "", Skipped, NoError)
          else
            DomainResult(x.domain, if w.rows[x.domain].enabled then ApplyAction else DeleteAction, false, "", DryRun,
                NoError)
  {
    hide Step, Commit, NormalKeys, SitesOf, UpToDate, Covers, Run;
    var tried := BatchOutcome(env, req, w);
    DryRunChangesNothing(env, req, w, |SitesOf(w.rows)|);
  }

  // ---------------------------------------------------------------- the outcome for one site

  /** A dry run of one site changes nothing and says what would be done. */
  lemma SingleDryRun(env: Env, d: string, w: World)
    ensures var (w', r, changed) := SingleApply(env, d, true, w);
      && w' == w && !changed && !r.changed && r.domain == d && r.hash == ""
      && (d in w.rows ==>
        r.status == DryRun && r.error == NoError &&
          r.action == if w.rows[d].enabled then ApplyAction else DeleteAction)
      && (d !in w.rows ==> r.status == Failed && r.error == NotFound)
  {
  }

  /** The row after applyOne; a removal with nothing to remove is not recorded. */
  ghost predicate RowSaysSingle(w: World, w': World, d: string, r: DomainResult, changed: bool)
    requires d in w.rows
  {
    && w'.rows.Keys == w.rows.Keys && (forall e :: e in w.rows && e != d ==> w'.rows[e] == w.rows[e])
    && if !w.rows[d].enabled && !changed && r.error == NoError then w'.rows[d] == w.rows[d]
       else RowRecorded(w.rows[d], w'.rows[d], if r.error == NoError then AppliedOk else AppliedFail, r.error, r.hash,
           w.clock, w'.clock)
  }

  ghost predicate FilesAfterSingle(env: Env, w: World, w': World, tried: Disk, d: string, failed: bool) {
    && (forall e :: e != d ==> CellOf(tried, e) == CellOf(w.disk, e) && CellOf(w'.disk, e) == CellOf(w.disk, e))
    && if failed then PutBack(env, d, CellOf(tried, d), CellOf(w'.disk, d)) else w'.disk == tried
  }

  /** The whole of applyOne for a stored site. A change that is put back is reported as changed, a removal that is
      put back as not, as in the source. */
  lemma SingleOutcome(env: Env, d: string, w: World) returns (tried: Disk)
    requires d in w.rows
    ensures var (w', r, changed) := SingleApply(env, d, false, w);
      var s := w.rows[d];
      && r == DomainResult(d, if s.enabled then ApplyAction else DeleteAction,
          changed && (s.enabled || r.error == NoError), RenderHash(env, d, s),
          if r.error == NoError then Done else Failed, r.error)
      && Worked(env, d, s, CellOf(w.disk, d), CellOf(tried, d), changed, if changed then NoError else r.error)
      && Ended(env, w, w', tried.live, changed, if changed then r.error else NoError)
      && FilesAfterSingle(env, w, w', tried, d, changed && r.error != NoError)
      && RowSaysSingle(w, w', d, r, changed)
  {
    hide SiteEffect, CellOf, SetCell, RenderHash, PutBack, Worked, SingleCommit;
    var s := w.rows[d];
    var o := SiteEffect(env, d, s, CellOf(w.disk, d));
    tried := SetCell(w.disk, d, o.cell);
    SetCellOf(w.disk, d, o.cell);
    EffectWorked(env, d, s, CellOf(w.disk, d));
    WorkedUnlessChanged(env, d, s, CellOf(w.disk, d), o);
    if o.changed { SingleCommitEnds(env, d, o, w, tried); }
  }

  lemma WorkedUnlessChanged(env: Env, d: string, s: Site, c: Cell, o: Effect)
    requires Worked(env, d, s, c, o.cell, o.changed, o.error)
    ensures o.changed ==> o.error == NoError
  {
  }

  /** The end of applyOne for a site whose files changed. */
  lemma SingleCommitEnds(env: Env, d: string, o: Effect, w: World, tried: Disk)
    requires d in w.rows && o.changed && o.error == NoError && o.ok && CellOf(tried, d) == o.cell
    requires forall e :: e != d ==> CellOf(tried, e) == CellOf(w.disk, e)
    ensures var (w', r, changed) := SingleCommit(env, d, w.rows[d], o, w.(disk := tried));
      && changed && r == DomainResult(d, if w.rows[d].enabled then ApplyAction else DeleteAction,
          w.rows[d].enabled || r.error == NoError, o.hash, if r.error == NoError then Done else Failed, r.error)
      && Ended(env, w, w', tried.live, true, r.error)
      && FilesAfterSingle(env, w, w', tried, d, r.error != NoError)
      && RowSaysSingle(w, w', d, r, true)
  {
    hide CellOf, Commit, PutBack, RollbackCell;
    var w1, hashes := w.(disk := tried), map[d := o.hash];
    CommitEnds(env, w, w1, [d], hashes);
    forall e ensures CellOf(Commit(env, w1, [d], hashes).0.disk, e)
        == if Commit(env, w1, [d], hashes).1 != NoError && e == d then RollbackCell(CellOf(tried, d), env.rollback(d))
           else CellOf(tried, e)
      ensures Commit(env, w1, [d], hashes).0.rows.Keys == w.rows.Keys
      ensures e in w.rows && e != d ==> Commit(env, w1, [d], hashes).0.rows[e] == w.rows[e]
    {
      CommitAt(env, w1, [d], hashes, e);
    }
    CommitAt(env, w1, [d], hashes, d);
    RollbackPutsBack(env, d, CellOf(tried, d));
  }

  /** applyOne that fails after it changed files ends with a reload of what it put back. */
  lemma FailedSingleReloadsBack(env: Env, d: string, w: World)
    requires var (_, r, changed) := SingleApply(env, d, false, w); changed && r.error != NoError
    ensures ReloadedBack(env, SingleApply(env, d, false, w).0)
  {
    hide SingleApply, Ended, Worked, ReloadedBack, RowSaysSingle, FilesAfterSingle;
    StoredIfChanged(env, d, w);
    var tried := SingleOutcome(env, d, w);
    var (w', r, changed) := SingleApply(env, d, false, w);
    EndedReloadsBack(env, w, w', tried.live, changed, r.error);
  }

  lemma StoredIfChanged(env: Env, d: string, w: World)
    ensures SingleApply(env, d, false, w).2 ==> d in w.rows
  {
  }

  /** A domain without a row is an error. */
  lemma SingleUnknown(env: Env, d: string, dryRun: bool, w: World)
    requires d !in w.rows
    ensures SingleApply(env, d, dryRun, w)
      == (w, DomainResult(d, ApplyAction, false, "", Failed, NotFound), false)
  {
  }

  // ---------------------------------------------------------------- the outcome of a save

  /** Saving a site writes what is asked for, with the defaults of the store and the given time; a stored site keeps
      its apply result, a new one has never been applied. */
  lemma SaveOutcome(rows: Rows, d: string, spec: SiteSpec, enabled: bool, at: nat)
    ensures var rows' := Upserted(rows, d, spec, enabled, at);
      && (forall e :: e != d ==> (e in rows' <==> e in rows) && (e in rows ==> rows'[e] == rows[e]))
      && d in rows' &&
      var now := rows'[d];
      && now.enabled == enabled && now.updatedAt == at
      && now.spec.(mode := "", parent := None) == spec.(mode := "", parent := None)
      && now.spec.mode == (if spec.mode == "" then "php" else spec.mode)
      && now.spec.parent == (if spec.parent == None || Trim(spec.parent.value) == "" then None
                             else Some(Trim(spec.parent.value)))
      && if d in rows then
        now.lastAppliedAt == rows[d].lastAppliedAt && now.status == rows[d].status && now.error == rows[d].error &&
          now.hash == rows[d].hash
      else now.lastAppliedAt == None && now.status == NeverApplied && now.error == NoError && now.hash == ""
  {
    hide Trim;
  }

  // ---------------------------------------------------------------- the outcome of a deletion

  /** The files and the row of a deletion: a live file goes to the backup, nginx is asked to reload what is left, and
      the row goes if and only if all of that and its own deletion succeed. */
  lemma RemovalOutcome(w: World, d: string, f: RemoveFaults, reloadOk: bool, rowOk: bool)
    requires d in w.rows
    ensures var w', had := RemoveSite(w, d, f, reloadOk, rowOk), Get(w.disk.live, d);
      var gone := !f.stat && (had == None || (!f.read && f.backup == NoFault && !f.remove));
      && w'.rows == (if gone && reloadOk && rowOk then w.rows - {d} else w.rows) && w'.clock == w.clock
      && w'.disk.live == (if gone then w.disk.live - {d} else w.disk.live)
      && (gone && had.Some? ==> Get(w'.disk.backup, d) == had)
      && (forall e :: e != d ==> Get(w'.disk.backup, e) == Get(w.disk.backup, e))
      && w'.log == (if gone then w.log + [Reloaded(w'.disk.live, reloadOk)] else w.log)
      && w'.loaded == if gone && reloadOk then w'.disk.live else w.loaded
  {
    SetGet(w.disk.live, d);
  }
}
