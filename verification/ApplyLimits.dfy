/** Applies with a limit: how much one run does, when runs make progress, when they finish. */
module ApplyLimits {
  import opened Text
  import opened NginxManager
  import opened SiteStore
  import opened ApplyPipeline
  import opened ApplyFacts
  import opened ApplyIncremental

  /** How many of the first `n` sites the request has work for. */
  function Work(req: Request, sites: seq<Listed>, n: nat): nat
    requires n <= |sites|
  {
    if n == 0 then 0 else Work(req, sites, n - 1) + (if HasWork(req, sites[n - 1].site) then 1 else 0)
  }

  function Pending(sites: seq<Listed>, n: nat): nat
    requires n <= |sites|
  {
    if n == 0 then 0 else Pending(sites, n - 1) + (if NeedsApply(sites[n - 1].site) then 1 else 0)
  }

  function PendingSites(sites: seq<Listed>): nat {
    Pending(sites, |sites|)
  }

  /** The pending sites beyond the reach of one run: `limit` pieces of work come before them. */
  function OutOfReach(req: Request, sites: seq<Listed>, n: nat): nat
    requires n <= |sites|
  {
    if n == 0 then 0
    else
      OutOfReach(req, sites, n - 1)
      + (if NeedsApply(sites[n - 1].site) && Work(req, sites, n - 1) >= req.limit then 1 else 0)
  }

  function Reported(results: seq<DomainResult>): nat {
    if results == [] then 0
    else Reported(results[..|results| - 1]) + (if results[|results| - 1].status != Skipped then 1 else 0)
  }

  ghost predicate Named(sites: seq<Listed>) {
    forall i :: 0 <= i < |sites| ==> Norm(sites[i].domain) == sites[i].domain != ""
  }

  function Min(a: int, b: int): int {
    if a <= b then a else b
  }

  /** What counts against the limit is exactly the work listed first. */
  lemma {:induction false} AppliedCount(env: Env, req: Request, w: World, sites: seq<Listed>, n: nat)
    requires n <= |sites| && Named(sites)
    ensures Run(env, req, w, sites, n).applied == if req.limit > 0 then Min(req.limit, Work(req, sites, n))
      else Work(req, sites, n)
    decreases n
  {
    hide SiteEffect, Norm, NeedsApply, CellOf, SetCell;
    if n == 0 {
    } else {
      AppliedCount(env, req, w, sites, n - 1);
    }
  }

  lemma ReportedOneMore(rs: seq<DomainResult>, r: DomainResult)
    ensures Reported(rs + [r]) == Reported(rs) + (if r.status != Skipped then 1 else 0)
  {
    assert (rs + [r])[..|rs|] == rs;
  }

  lemma StepReported(env: Env, req: Request, b: Batch, x: Listed)
    requires Reported(b.results) == b.applied && (req.limit > 0 ==> b.applied <= req.limit)
    ensures var b' := Step(env, req, b, x);
      Reported(b'.results) == b'.applied && (req.limit > 0 ==> b'.applied <= req.limit)
  {
    hide SiteEffect, Norm, NeedsApply, CellOf, SetCell, Reported;
    var b' := Step(env, req, b, x);
    if |b'.results| > |b.results| {
      ReportedOneMore(b.results, b'.results[|b.results|]);
    }
  }

  /** Results other than skips never exceed the limit. */
  lemma {:induction false} ReportsWithinLimit(env: Env, req: Request, w: World, sites: seq<Listed>, n: nat)
    requires n <= |sites|
    ensures var b := Run(env, req, w, sites, n);
      Reported(b.results) == b.applied && (req.limit > 0 ==> b.applied <= req.limit)
    decreases n
  {
    hide Step;
    if n == 0 {
    } else {
      ReportsWithinLimit(env, req, w, sites, n - 1);
      StepReported(env, req, Run(env, req, w, sites, n - 1), sites[n - 1]);
    }
  }

  // ---------------------------------------------------------------- one run

  /** Nothing failed. */
  ghost predicate Smooth(r: ApplyResult) {
    r.error == NoError && forall x :: x in r.domains ==> x.status == Done || x.status == Skipped
  }

  predicate Limited(req: Request) {
    !req.all && !req.dryRun && req.limit > 0
  }

  ghost predicate Settled(w: World) {
    NormalKeys(w.rows) && forall d :: d in w.rows ==> w.rows[d].updatedAt <= w.clock
  }

  lemma StillPending(env: Env, req: Request, w: World, i: nat)
    requires Settled(w) && Limited(req) && Smooth(BatchApply(env, req, w).1) && i < |SitesOf(w.rows)|
    ensures var sites, w' := SitesOf(w.rows), BatchApply(env, req, w).0;
      var d := sites[i].domain;
      && d in w'.rows && w'.rows[d].updatedAt <= w'.clock && w'.rows[d].enabled == w.rows[d].enabled
      && (NeedsApply(w'.rows[d]) <==> NeedsApply(w.rows[d]) && Work(req, sites, i) >= req.limit)
  {
    hide SiteEffect, Norm, Commit, Run;
    var sites := SitesOf(w.rows);
    var d := sites[i].domain;
    var b := Run(env, req, w, sites, |sites|);
    NormalListing(w.rows);
    AtSite(env, req, w, sites, i);
    AppliedCount(env, req, w, sites, i);
    if Touches(env, req, w, sites, i) {
      ResultListed(env, req, w, sites, i, |sites|);
    }
    CommitAt(env, After(w, b), b.changed, b.hashes, d);
  }

  lemma RunSettles(env: Env, req: Request, w: World)
    requires Settled(w) && Limited(req) && Smooth(BatchApply(env, req, w).1)
    ensures var w' := BatchApply(env, req, w).0;
      Settled(w') && w'.rows.Keys == w.rows.Keys && forall d :: d in w.rows ==> w'.rows[d].enabled == w.rows[d].enabled
  {
    BatchKeys(env, req, w);
    var w' := BatchApply(env, req, w).0;
    hide BatchApply, Norm;
    forall d | d in w.rows ensures w'.rows[d].updatedAt <= w'.clock && w'.rows[d].enabled == w.rows[d].enabled {
      var i := PlaceOf(w.rows, d);
      StillPending(env, req, w, i);
    }
  }

  lemma BatchKeys(env: Env, req: Request, w: World)
    ensures BatchApply(env, req, w).0.rows.Keys == w.rows.Keys
  {
    var sites := SitesOf(w.rows);
    var b := Run(env, req, w, sites, |sites|);
    RunKeepsKeys(env, req, w, sites, |sites|);
    CommitAt(env, After(w, b), b.changed, b.hashes, "");
  }

  lemma {:induction false} CountLeft(req: Request, sites: seq<Listed>, sites': seq<Listed>, n: nat)
    requires n <= |sites| == |sites'|
    requires forall i ::
      0 <= i < n ==> (NeedsApply(sites'[i].site) <==> NeedsApply(sites[i].site) && Work(req, sites, i) >= req.limit)
    ensures Pending(sites', n) == OutOfReach(req, sites, n)
    decreases n
  {
    if n == 0 {
    } else {
      CountLeft(req, sites, sites', n - 1);
      hide NeedsApply;
    }
  }

  /** One limited run leaves pending exactly the pending sites out of its reach. */
  lemma LimitedRun(env: Env, req: Request, w: World)
    requires Settled(w) && Limited(req) && Smooth(BatchApply(env, req, w).1)
    ensures PendingSites(SitesOf(BatchApply(env, req, w).0.rows)) == OutOfReach(req, SitesOf(w.rows), |SitesOf(w.rows)|)
  {
    BatchKeys(env, req, w);
    var sites, sites' := SitesOf(w.rows), SitesOf(BatchApply(env, req, w).0.rows);
    hide BatchApply, NeedsApply, Work;
    forall i | 0 <= i < |sites|
      ensures NeedsApply(sites'[i].site) <==> NeedsApply(sites[i].site) && Work(req, sites, i) >= req.limit
    {
      StillPending(env, req, w, i);
      assert sites'[i].domain == sites[i].domain;
    }
    CountLeft(req, sites, sites', |sites|);
  }

  // ---------------------------------------------------------------- progress and starvation

  lemma {:induction false} ReachIff(req: Request, sites: seq<Listed>, n: nat)
    requires n <= |sites|
    ensures OutOfReach(req, sites, n) <= Pending(sites, n)
    ensures OutOfReach(req, sites, n) < Pending(sites, n) <==>
      exists i :: 0 <= i < n && NeedsApply(sites[i].site) && Work(req, sites, i) < req.limit
    decreases n
  {
    if n == 0 {
    } else {
      ReachIff(req, sites, n - 1);
      assert NeedsApply(sites[n - 1].site) && Work(req, sites, n - 1) < req.limit ==>
        exists i :: 0 <= i < n && NeedsApply(sites[i].site) && Work(req, sites, i) < req.limit;
      hide NeedsApply;
    }
  }

  /** A limited run clears something if and only if some pending site has fewer than `limit` pieces
      of work listed before it. Disabled rows are work on every run. */
  lemma ProgressIff(env: Env, req: Request, w: World)
    requires Settled(w) && Limited(req) && Smooth(BatchApply(env, req, w).1)
    ensures var sites := SitesOf(w.rows);
      PendingSites(SitesOf(BatchApply(env, req, w).0.rows)) < PendingSites(sites) <==>
        exists i :: 0 <= i < |sites| && NeedsApply(sites[i].site) && Work(req, sites, i) < req.limit
  {
    hide BatchApply, Settled, Smooth, NeedsApply, Work;
    LimitedRun(env, req, w);
    ReachIff(req, SitesOf(w.rows), |SitesOf(w.rows)|);
  }

  /** How many of the first `n` sites are disabled. */
  function Disabled(sites: seq<Listed>, n: nat): nat
    requires n <= |sites|
  {
    if n == 0 then 0 else Disabled(sites, n - 1) + (if sites[n - 1].site.enabled then 0 else 1)
  }

  lemma {:induction false} DisabledAreWork(req: Request, sites: seq<Listed>, n: nat)
    requires n <= |sites|
    ensures Disabled(sites, n) <= Work(req, sites, n)
    ensures !req.all ==> Work(req, sites, n) == Disabled(sites, n) + Pending(sites, n)
    ensures forall j :: 0 <= j <= n ==> Disabled(sites, j) <= Disabled(sites, n)
    decreases n
  {
    if n == 0 {
    } else {
      DisabledAreWork(req, sites, n - 1);
    }
  }

  lemma {:induction false} SameDisabled(a: seq<Listed>, b: seq<Listed>, n: nat)
    requires n <= |a| == |b| && forall i :: 0 <= i < n ==> a[i].site.enabled == b[i].site.enabled
    ensures Disabled(a, n) == Disabled(b, n)
    decreases n
  {
    if n == 0 {
    } else {
      SameDisabled(a, b, n - 1);
    }
  }

  /** An apply enables and disables nothing. */
  lemma BatchKeepsEnabled(env: Env, req: Request, w: World, i: nat)
    requires NormalKeys(w.rows) && i < |SitesOf(w.rows)|
    ensures var sites, rows' := SitesOf(w.rows), BatchApply(env, req, w).0.rows;
      && |SitesOf(rows')| == |sites| && sites[i].domain in rows' && SitesOf(rows')[i].domain == sites[i].domain
      && rows'[sites[i].domain].enabled == sites[i].site.enabled
      && (!Touches(env, req, w, sites, i) ==> rows'[sites[i].domain] == sites[i].site)
  {
    hide SiteEffect, Norm, Commit, Run;
    var sites := SitesOf(w.rows);
    var b := Run(env, req, w, sites, |sites|);
    BatchKeys(env, req, w);
    NormalListing(w.rows);
    AtSite(env, req, w, sites, i);
    CommitAt(env, After(w, b), b.changed, b.hashes, sites[i].domain);
  }

  lemma SameListing(env: Env, req: Request, w: World, n: nat)
    requires NormalKeys(w.rows) && n <= |SitesOf(w.rows)|
    ensures var sites, sites' := SitesOf(w.rows), SitesOf(BatchApply(env, req, w).0.rows);
      |sites'| == |sites| && Disabled(sites', n) == Disabled(sites, n)
  {
    hide BatchApply, Touches;
    BatchKeys(env, req, w);
    var sites, sites' := SitesOf(w.rows), SitesOf(BatchApply(env, req, w).0.rows);
    forall i | 0 <= i < n ensures sites[i].site.enabled == sites'[i].site.enabled { BatchKeepsEnabled(env, req, w, i); }
    SameDisabled(sites, sites', n);
  }

  /** Any number of applies with limits of at most `k`, failures and dry runs included. */
  ghost predicate Limits(evs: seq<Event>, k: int) {
    forall n :: 0 <= n < |evs| ==> evs[n].Batched? && 0 < evs[n].req.limit <= k
  }

  lemma BehindDisabled(env: Env, req: Request, w: World, i: nat)
    requires NormalKeys(w.rows) && i < |SitesOf(w.rows)| && 0 < req.limit <= Disabled(SitesOf(w.rows), i)
    ensures !Touches(env, req, w, SitesOf(w.rows), i)
  {
    hide Run, Work, Norm, Disabled, SitesOf, NormalKeys;
    NormalListing(w.rows);
    AppliedCount(env, req, w, SitesOf(w.rows), i);
    DisabledAreWork(req, SitesOf(w.rows), i);
  }

  lemma StarvedOnce(env: Env, req: Request, w: World, i: nat)
    requires NormalKeys(w.rows) && i < |SitesOf(w.rows)| && 0 < req.limit <= Disabled(SitesOf(w.rows), i)
    ensures var sites, w' := SitesOf(w.rows), BatchApply(env, req, w).0;
      && NormalKeys(w'.rows) && |SitesOf(w'.rows)| == |sites|
      && SitesOf(w'.rows)[i] == sites[i] && Disabled(SitesOf(w'.rows), i) == Disabled(sites, i)
  {
    hide BatchApply, Touches, Disabled, Norm;
    BatchKeys(env, req, w);
    BehindDisabled(env, req, w, i);
    BatchKeepsEnabled(env, req, w, i);
    SameListing(env, req, w, i);
  }

  /** Starvation: a site with as many disabled rows listed before it as the limits allow is never
      reached; its row stays exactly as it was through any number of applies. */
  lemma {:induction false} DisabledRowsStarve(w: World, evs: seq<Event>, k: nat, i: nat)
    requires NormalKeys(w.rows) && Limits(evs, k) && i < |SitesOf(w.rows)| && k <= Disabled(SitesOf(w.rows), i)
    ensures var sites, w' := SitesOf(w.rows), ExecAll(w, evs);
      && NormalKeys(w'.rows) && |SitesOf(w'.rows)| == |sites|
      && SitesOf(w'.rows)[i] == sites[i] && Disabled(SitesOf(w'.rows), i) == Disabled(sites, i)
    decreases |evs|
  {
    hide BatchApply, NormalKeys, Disabled;
    if evs == [] {
    } else {
      var rest, ev := evs[..|evs| - 1], evs[|evs| - 1];
      DisabledRowsStarve(w, rest, k, i);
      StarvedOnce(ev.env, ev.req, ExecAll(w, rest), i);
    }
  }

  ghost function Repeat(env: Env, req: Request, w: World, m: nat): World {
    if m == 0 then w else BatchApply(env, req, Repeat(env, req, w, m - 1)).0
  }

  lemma FirstPending(req: Request, sites: seq<Listed>, n: nat)
    requires n <= |sites| && !req.all && Disabled(sites, n) < req.limit && Pending(sites, n) > 0
    ensures OutOfReach(req, sites, n) < Pending(sites, n)
  {
    hide NeedsApply;
    var j := n;
    while Pending(sites, j) > 0
      invariant 0 <= j <= n && Disabled(sites, j) <= Disabled(sites, n)
      invariant j < n ==> Pending(sites, j) == 0 ==> NeedsApply(sites[j].site)
      decreases j
    {
      j := j - 1;
    }
    DisabledAreWork(req, sites, j);
    ReachIff(req, sites, n);
  }

  /** One run without failures brings a pending site closer by at least one. */
  lemma CloserOnce(env: Env, req: Request, w: World, i: nat)
    requires Settled(w) && Limited(req) && Smooth(BatchApply(env, req, w).1)
    requires i < |SitesOf(w.rows)| && Disabled(SitesOf(w.rows), i) < req.limit
    ensures var sites, w' := SitesOf(w.rows), BatchApply(env, req, w).0;
      var sites' := SitesOf(w'.rows);
      && Settled(w') && |sites'| == |sites| && Disabled(sites', i) == Disabled(sites, i) &&
        sites'[i].domain == sites[i].domain
      && (NeedsApply(sites'[i].site) ==> NeedsApply(sites[i].site) && Pending(sites', i) < Pending(sites, i))
  {
    hide BatchApply, NeedsApply, Work, Smooth, OutOfReach, Pending, Disabled;
    RunSettles(env, req, w);
    SameListing(env, req, w, i);
    var sites, sites' := SitesOf(w.rows), SitesOf(BatchApply(env, req, w).0.rows);
    forall j | 0 <= j < |sites|
      ensures sites'[j].domain == sites[j].domain
      ensures NeedsApply(sites'[j].site) <==> NeedsApply(sites[j].site) && Work(req, sites, j) >= req.limit
    {
      StillPending(env, req, w, j);
    }
    CountLeft(req, sites, sites', i);
    DisabledAreWork(req, sites, i);
    if Pending(sites, i) > 0 { FirstPending(req, sites, i); }
  }

  lemma {:induction false} Closer(env: Env, req: Request, w: World, i: nat, m: nat)
    requires Settled(w) && Limited(req) && i < |SitesOf(w.rows)| && Disabled(SitesOf(w.rows), i) < req.limit
    requires forall j :: 0 <= j < m ==> Smooth(BatchApply(env, req, Repeat(env, req, w, j)).1)
    ensures var sites, w' := SitesOf(w.rows), Repeat(env, req, w, m);
      var sites' := SitesOf(w'.rows);
      && Settled(w') && |sites'| == |sites| && Disabled(sites', i) == Disabled(sites, i) &&
        sites'[i].domain == sites[i].domain
      && (NeedsApply(sites'[i].site) ==> NeedsApply(sites[i].site) && Pending(sites', i) + m <= Pending(sites, i))
    decreases m
  {
    hide BatchApply, NeedsApply, Smooth, Settled, Pending, Disabled;
    if m == 0 {
    } else {
      Closer(env, req, w, i, m - 1);
      CloserOnce(env, req, Repeat(env, req, w, m - 1), i);
    }
  }

  /** Repeated runs without failures reach a pending site in the end if and only if fewer disabled
      rows than the limit are listed before it; one run more than there are pending sites before it
      is enough. */
  lemma ReachedUnlessStarved(env: Env, req: Request, w: World, i: nat, m: nat)
    requires Settled(w) && Limited(req) && i < |SitesOf(w.rows)| && m > Pending(SitesOf(w.rows), i)
    requires forall j :: 0 <= j < m ==> Smooth(BatchApply(env, req, Repeat(env, req, w, j)).1)
    ensures var sites, sites' := SitesOf(w.rows), SitesOf(Repeat(env, req, w, m).rows);
      && |sites'| == |sites| && sites'[i].domain == sites[i].domain
      && (NeedsApply(sites'[i].site) <==> NeedsApply(sites[i].site) && Disabled(sites, i) >= req.limit)
  {
    hide BatchApply, NeedsApply, Smooth, Pending, Disabled, Repeat, ExecAll, NormalKeys;
    if Disabled(SitesOf(w.rows), i) < req.limit {
      Closer(env, req, w, i, m);
    } else {
      var evs := seq(m, j => Batched(env, req));
      RepeatIsRun(env, req, w, m);
      DisabledRowsStarve(w, evs, req.limit, i);
    }
  }

  lemma {:induction false} RepeatIsRun(env: Env, req: Request, w: World, m: nat)
    ensures ExecAll(w, seq(m, j => Batched(env, req))) == Repeat(env, req, w, m)
    decreases m
  {
    hide BatchApply;
    if m == 0 {
    } else {
      RepeatIsRun(env, req, w, m - 1);
      assert seq(m, j => Batched(env, req))[..m - 1] == seq(m - 1, j => Batched(env, req));
    }
  }

  ghost predicate NoneDisabled(rows: Rows) {
    forall d :: d in rows ==> rows[d].enabled
  }

  lemma {:induction false} ReachWithoutDisabled(req: Request, sites: seq<Listed>, n: nat)
    requires n <= |sites| && Limited(req) && forall i :: 0 <= i < n ==> sites[i].site.enabled
    ensures Work(req, sites, n) == Pending(sites, n)
    ensures OutOfReach(req, sites, n) == Pending(sites, n) - Min(req.limit, Pending(sites, n))
    decreases n
  {
    if n == 0 {
    } else {
      ReachWithoutDisabled(req, sites, n - 1);
    }
  }

  /** Without disabled rows each run clears exactly min(limit, pending) sites. */
  lemma LimitedRunClears(env: Env, req: Request, w: World)
    requires Settled(w) && Limited(req) && NoneDisabled(w.rows) && Smooth(BatchApply(env, req, w).1)
    ensures var p := PendingSites(SitesOf(w.rows));
      PendingSites(SitesOf(BatchApply(env, req, w).0.rows)) == p - Min(req.limit, p)
  {
    LimitedRun(env, req, w);
    ReachWithoutDisabled(req, SitesOf(w.rows), |SitesOf(w.rows)|);
  }

  ghost predicate Clean(w: World) {
    Settled(w) && NoneDisabled(w.rows)
  }

  lemma RunKeepsClean(env: Env, req: Request, w: World)
    requires Clean(w) && Limited(req) && Smooth(BatchApply(env, req, w).1)
    ensures Clean(BatchApply(env, req, w).0)
  {
    RunSettles(env, req, w);
    hide BatchApply, Settled, Smooth;
  }

  /** So m runs clear m times the limit, and ceil(pending / limit) runs clear everything. */
  lemma {:induction false} LimitedRunsTerminate(env: Env, req: Request, w: World, m: nat)
    requires Clean(w) && Limited(req)
    requires forall j :: 0 <= j < m ==> Smooth(BatchApply(env, req, Repeat(env, req, w, j)).1)
    ensures Clean(Repeat(env, req, w, m))
    ensures var p := PendingSites(SitesOf(w.rows));
      PendingSites(SitesOf(Repeat(env, req, w, m).rows)) == p - Min(m * req.limit, p)
    decreases m
  {
    hide BatchApply, Settled, PendingSites, Smooth, NoneDisabled;
    if m == 0 {
    } else {
      LimitedRunsTerminate(env, req, w, m - 1);
      var w1 := Repeat(env, req, w, m - 1);
      assert m * req.limit == (m - 1) * req.limit + req.limit;
      RunKeepsClean(env, req, w1);
      LimitedRunClears(env, req, w1);
    }
  }
}
