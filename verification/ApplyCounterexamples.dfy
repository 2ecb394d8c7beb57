/** Concrete inputs of the apply pipeline on which a plausible promise fails; the exact conditions are the
    if-and-only-if theorems of the proof modules. */
module ApplyCounterexamples {
  import opened Text
  import opened NginxManager
  import opened SiteStore
  import opened ApplyPipeline
  import opened ApplyFacts
  import opened ApplySafety
  import opened ApplyIncremental
  import opened ApplyLimits
  import opened ApplyRace
  import opened ApplySingle

  /** A site whose web root is `webroot`, and a rendering of each. */
  function Spec(webroot: string): SiteSpec {
    SiteSpec(1, None, "static", webroot, "", false, "", "", "")
  }

  function Render(d: string, s: SiteSpec): Option<Bytes> {
    Some(if s.webroot == "/x" then [2] else [1])
  }

  /** Every operation succeeds; nginx accepts what `accepts` says. */
  function Env0(accepts: Files -> bool, unseen: bool, reloadOk: bool): Env {
    Env(true, Render, c => "h", 1, d => RemoveFaults(false, false, NoFault, false), d => NoFault,
        d => PublishFaults(false, false, unseen, false, NoFault, NoFault), d => RollbackFaults(false, NoFault, false),
        accepts, reloadOk, true)
  }

  /** One deployed site "a", applied at time 2. */
  function AppliedOnce(): World {
    World(Disk(map["a" := [1]], map[], map["a" := [1]]),
        map["a" := Site(Spec("/w"), true, 1, Some(2), AppliedOk, NoError, "h")], 2,
          map["a" := [1]], [])
  }

  lemma NormA()
    ensures Norm("a") == "a" && Norm("b") == "b" && Norm("c") == "c"
  {
    assert Trim("a") == "a" && Trim("b") == "b" && Trim("c") == "c";
    assert ToLower("a") == "a" && ToLower("b") == "b" && ToLower("c") == "c";
  }

  lemma AppliedOnceIsCurrent()
    ensures Current(Render, AppliedOnce()) && Stamped(AppliedOnce())
  {
    NormA();
  }

  /** An edit at the very time of the last apply is lost. */
  lemma EditAtApplyTimeIsLost()
    ensures Current(Render, AppliedOnce()) && !Current(Render, Exec(AppliedOnce(), Saved("a", Spec("/x"), true, 2)))
  {
    hide Norm;
    NormA();
    AppliedOnceIsCurrent();
    SaveKeepsCurrent(Render, AppliedOnce(), "a", Spec("/x"), true, 2);
  }

  /** A deletion whose reload fails leaves a row that looks applied and has no file. */
  lemma HalfDeletedLooksApplied()
    ensures var f := RemoveFaults(false, false, NoFault, false);
      Current(Render, AppliedOnce()) && !Current(Render, RemoveSite(AppliedOnce(), "a", f, false, true))
  {
    AppliedOnceIsCurrent();
    RemoveKeepsCurrent(Render, AppliedOnce(), "a", RemoveFaults(false, false, NoFault, false), false, true);
  }

  /** A deletion reloads without a test, here into a set that nginx rejects. */
  lemma RemovalIsReloadedUntested()
    ensures var accepts := (live: Files) => live != map[]; var f := RemoveFaults(false, false, NoFault, false);
      && Serving(accepts, AppliedOnce())
      && !Serving(accepts, RemoveSite(AppliedOnce(), "a", f, true, true))
  {
    var accepts := (live: Files) => live != map[];
    assert "a" in AppliedOnce().disk.live && map["a" := [1]] - {"a"} == map[];
    RemovalServes(accepts, AppliedOnce(), "a", RemoveFaults(false, false, NoFault, false), true, true);
  }

  /** A live file that is undone by a rollback, when nginx rejects every set with the new rendering. */
  lemma Undone(env: Env, w: World)
    requires env.testFirst && "a" in w.rows && RollbackWorks(env)
    requires var o := SiteEffect(env, "a", w.rows["a"], CellOf(w.disk, "a"));
      o.changed && !env.accepts(SetCell(w.disk, "a", o.cell).live)
    ensures var o := SiteEffect(env, "a", w.rows["a"], CellOf(w.disk, "a"));
      CellOf(SingleApply(env, "a", false, w).0.disk, "a") == RollbackCell(o.cell, env.rollback("a"))
  {
    hide SiteEffect, RolledBack, Marked, RollbackCell;
    var o := SiteEffect(env, "a", w.rows["a"], CellOf(w.disk, "a"));
    SetCellOf(w.disk, "a", o.cell);
    CommitAt(env, w.(disk := SetCell(w.disk, "a", o.cell)), ["a"], map["a" := o.hash], "a");
  }

  /** An empty live file is removed by a rollback. */
  lemma EmptyFileIsLost() returns (env: Env, w: World)
    ensures env.testFirst && RollbackWorks(env) && "a" in w.disk.live && w.disk.live["a"] == []
    ensures "a" !in SingleApply(env, "a", false, w).0.disk.live
  {
    env := Env0(live => live == map["a" := []], false, true);
    w := AppliedOnce().(disk := Disk(map["a" := []], map[], map[]));
    Rejected(env, w);
    Undone(env, w);
    LiveOf(SingleApply(env, "a", false, w).0.disk, "a");
  }

  lemma Rejected(env: Env, w: World)
    requires "a" in w.rows && w.rows["a"] == AppliedOnce().rows["a"] && env.render == Render && !env.publish("a").stat
    requires env == Env0(env.accepts, false, true) && Get(w.disk.live, "a") != Some([1])
    requires forall live :: env.accepts(live) ==> Get(live, "a") != Some([1])
    ensures var o := SiteEffect(env, "a", w.rows["a"], CellOf(w.disk, "a"));
      && o.changed && !env.accepts(SetCell(w.disk, "a", o.cell).live)
      && o.cell.backup == (if "a" in w.disk.live then Get(w.disk.live, "a") else Get(w.disk.backup, "a"))
  {
    var o := SiteEffect(env, "a", w.rows["a"], CellOf(w.disk, "a"));
    assert o.cell.live == Some([1]);
    assert Get(SetCell(w.disk, "a", o.cell).live, "a") == Some([1]);
  }

  /** A live file that could not be examined when it was replaced is removed by a rollback. */
  lemma UnseenFileIsLost() returns (env: Env, w: World)
    ensures env.testFirst && RollbackWorks(env) && "a" in w.disk.live && w.disk.live["a"] == [7]
    ensures "a" !in SingleApply(env, "a", false, w).0.disk.live
  {
    env := Env0(live => live == map["a" := [7]], true, true);
    w := AppliedOnce().(disk := Disk(map["a" := [7]], map[], map[]));
    var o := SiteEffect(env, "a", w.rows["a"], CellOf(w.disk, "a"));
    assert o.cell == Cell(Some([1]), None, Some([1])) && o.changed;
    assert Get(SetCell(w.disk, "a", o.cell).live, "a") == Some([1]);
    Undone(env, w);
    LiveOf(SingleApply(env, "a", false, w).0.disk, "a");
  }

  /** An edit made between the listing and the recording of its site is lost although it is later than
      everything. */
  lemma EditDuringApplyIsLost() returns (env: Env, req: Request, w: World)
    ensures Current(env.render, w) && Stamped(w) && w.clock < 3 && w.rows.Keys == {"a"}
    ensures var w1 := Exec(w, Saved("a", Spec("/x"), true, 3));
      var w' := Finish(env, req, w1, Run(env, req, w1, SitesOf(w.rows), |SitesOf(w.rows)|)).0;
      "a" in w'.rows && !RowCurrent(env.render, w', "a")
  {
    hide Norm, Listing;
    env, req, w := Env0(live => true, false, true), Request(true, false, 0), AppliedOnce();
    NormA();
    AppliedOnceIsCurrent();
    OneSite(w.rows, "a");
    var w1 := Exec(w, Saved("a", Spec("/x"), true, 3));
    EditDuringApply(env, req, w, "a", Spec("/x"), true, 3, 0);
    QuietWhenCurrent(env, "a", w.rows["a"], CellOf(w.disk, "a"));
    OkOfSame(env, w);
    assert Touches(env, req, w1, SitesOf(w.rows), 0);
    assert RecordedOk(env, req, w1, SitesOf(w.rows), 0);
  }

  lemma OkOfSame(env: Env, w: World)
    requires env == Env0(env.accepts, false, true) && w == AppliedOnce()
    ensures var o := SiteEffect(env, "a", w.rows["a"], CellOf(w.disk, "a"));
      o.ok && !o.changed && o.cell.live == Some([1])
  {
  }

  /** The report of a rolled-back batch still calls its domain done. */
  lemma RolledBackIsReportedDone() returns (env: Env, req: Request, w: World)
    ensures var r := BatchApply(env, req, w).1;
      r.error == TestRejected && |r.domains| == 1 && r.domains[0].status == Done
  {
    hide Norm, Listing, SiteEffect, RolledBack, Marked;
    env, req := Env0(live => live == map[], false, true), Request(true, false, 0);
    w := AppliedOnce().(disk := Disk(map[], map[], map[]));
    NormA();
    OneSite(w.rows, "a");
    Rejected(env, w);
    var o := SiteEffect(env, "a", w.rows["a"], CellOf(w.disk, "a"));
    ChangedIsOk(env, "a", w.rows["a"], CellOf(w.disk, "a"));
    var b := Process(env, Start(w), "a", w.rows["a"]);
    assert Run(env, req, w, SitesOf(w.rows), 0) == Start(w);
    assert Run(env, req, w, SitesOf(w.rows), 1) == b;
    assert b.disk == SetCell(w.disk, "a", o.cell);
  }

  /** A disabled row in front of a pending one. */
  function Behind(): World {
    World(Disk(map[], map[], map[]), map["a" := Site(Spec("/w"), false, 1, Some(2), AppliedOk, NoError, ""),
          "b" := Site(Spec("/w"), true, 1, None, NeverApplied, NoError, "")], 2, map[], [])
  }

  /** With a limit of one the disabled row takes every run, and the pending one waits for ever. */
  lemma DisabledRowTakesTheLimit(evs: seq<Event>)
    requires Limits(evs, 1)
    ensures "b" in ExecAll(Behind(), evs).rows && NeedsApply(ExecAll(Behind(), evs).rows["b"])
  {
    hide Norm, ExecAll, Listing, Limits;
    var w := Behind();
    NormA();
    assert Lists(["a", "b"], w.rows.Keys);
    ListingUnique(["a", "b"], Listing(w.rows.Keys), w.rows.Keys);
    var sites := SitesOf(w.rows);
    assert sites[0].domain == "a" && sites[1].domain == "b";
    assert Disabled(sites, 0) == 0 && Disabled(sites, 1) == 1;
    DisabledRowsStarve(w, evs, 1, 1);
  }
}
