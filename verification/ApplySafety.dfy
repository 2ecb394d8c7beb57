/** Transactional safety of the apply pipeline: when a failed apply puts back exactly what was
    live, and that nginx is only ever asked to load sets it accepts, over whole runs. */
module ApplySafety {
  import opened Text
  import opened NginxManager
  import opened SiteStore
  import opened ApplyPipeline
  import opened ApplyFacts

  /** The file operations of the rollback itself succeed. */
  ghost predicate RollbackWorks(env: Env) {
    forall d :: env.rollback(d) == RollbackFaults(false, NoFault, false)
  }

  /** Whether the old live file of this site is seen, and so backed up, when it is replaced. */
  predicate Saves(env: Env, d: string, s: Site) {
    !s.enabled || !env.publish(d).stat
  }

  ghost predicate WillChange(env: Env, req: Request, w: World, sites: seq<Listed>, i: nat)
    requires i < |sites|
  {
    var d, s := Norm(sites[i].domain), sites[i].site;
    Touches(env, req, w, sites, i) && SiteEffect(env, d, s, CellOf(w.disk, d)).changed
  }

  /** Checked on the state before the batch: every domain about to change can be restored. */
  ghost predicate Guarded(env: Env, req: Request, w: World) {
    var sites := SitesOf(w.rows);
    forall i :: 0 <= i < |sites| && WillChange(env, req, w, sites, i) ==>
      Restorable(CellOf(w.disk, Norm(sites[i].domain)), Saves(env, Norm(sites[i].domain), sites[i].site))
  }

  // ---------------------------------------------------------------- exact rollback

  /** An effect that is not reported as a change left the live file alone; one that is reported
      can be rolled back exactly if and only if the domain was restorable. */
  lemma EffectRollback(env: Env, d: string, s: Site, c: Cell)
    requires RollbackWorks(env)
    ensures var o := SiteEffect(env, d, s, c);
      && (!o.changed ==> o.cell.live == c.live)
      && (o.changed ==> (RollbackCell(o.cell, env.rollback(d)).live == c.live <==> Restorable(c, Saves(env, d, s))))
  {
    var o := SiteEffect(env, d, s, c);
    if o.changed {
      if s.enabled {
        var staged := c.(stage := env.render(d, s.spec));
        PublishThenRollback(staged, env.publish(d), env.rollback(d));
        assert Restorable(staged, !env.publish(d).stat) == Restorable(c, !env.publish(d).stat);
      } else {
        RemoveThenRollback(c, env.remove(d), env.rollback(d));
      }
    }
  }

  lemma RestoredAtSite(env: Env, req: Request, w: World, i: nat)
    requires i < |SitesOf(w.rows)| && Norm(SitesOf(w.rows)[i].domain) != ""
    requires Distinct(SitesOf(w.rows)) && RollbackWorks(env)
    requires BatchApply(env, req, w).1.error != NoError
    ensures var sites, w' := SitesOf(w.rows), BatchApply(env, req, w).0;
      var d, s := Norm(sites[i].domain), sites[i].site;
      Get(w'.disk.live, d) == Get(w.disk.live, d) <==>
        (WillChange(env, req, w, sites, i) ==> Restorable(CellOf(w.disk, d), Saves(env, d, s)))
  {
    var sites := SitesOf(w.rows);
    var d, s, b := Norm(sites[i].domain), sites[i].site, Run(env, req, w, sites, |sites|);
    AtSite(env, req, w, sites, i);
    EffectRollback(env, d, s, CellOf(w.disk, d));
    CommitAt(env, After(w, b), b.changed, b.hashes, d);
    assert Get(b.disk.live, d) == CellOf(b.disk, d).live;
    assert Get(w.disk.live, d) == CellOf(w.disk, d).live;
    var w' := BatchApply(env, req, w).0;
    assert Get(w'.disk.live, d) == CellOf(w'.disk, d).live;
  }

  lemma RestoredElsewhere(env: Env, req: Request, w: World, d: string)
    requires forall i :: 0 <= i < |SitesOf(w.rows)| ==> Norm(SitesOf(w.rows)[i].domain) != d || d == ""
    ensures CellOf(BatchApply(env, req, w).0.disk, d) == CellOf(w.disk, d)
  {
    var sites := SitesOf(w.rows);
    var b := Run(env, req, w, sites, |sites|);
    if d == "" {
      EmptyNameUntouched(env, req, w, sites, |sites|);
    } else {
      RunElsewhere(env, req, w, sites, 0, |sites|, d);
    }
    CommitAt(env, After(w, b), b.changed, b.hashes, d);
  }

  lemma {:induction false} EmptyNameUntouched(env: Env, req: Request, w: World, sites: seq<Listed>, n: nat)
    requires n <= |sites|
    ensures var b := Run(env, req, w, sites, n); CellOf(b.disk, "") == CellOf(w.disk, "") && "" !in b.changed
    decreases n
  {
    if n == 0 {
    } else {
      EmptyNameUntouched(env, req, w, sites, n - 1);
      StepElsewhere(env, req, Run(env, req, w, sites, n - 1), sites[n - 1], "");
    }
  }

  /** Rollback is exact: after a failed batch every live file, of changed and unchanged domains
      alike, equals its content before the batch if and only if every changed domain was
      restorable, that is, had a non-empty live file or neither a live file nor a backup. */
  lemma RollbackIsExact(env: Env, req: Request, w: World)
    requires Distinct(SitesOf(w.rows)) && RollbackWorks(env)
    requires BatchApply(env, req, w).1.error != NoError
    ensures BatchApply(env, req, w).0.disk.live == w.disk.live <==> Guarded(env, req, w)
  {
    var sites, w' := SitesOf(w.rows), BatchApply(env, req, w).0;
    forall i | 0 <= i < |sites| && Norm(sites[i].domain) != ""
      ensures Get(w'.disk.live, Norm(sites[i].domain)) == Get(w.disk.live, Norm(sites[i].domain)) <==>
        (WillChange(env, req, w, sites, i) ==>
          Restorable(CellOf(w.disk, Norm(sites[i].domain)), Saves(env, Norm(sites[i].domain), sites[i].site)))
    {
      RestoredAtSite(env, req, w, i);
    }
    if Guarded(env, req, w) {
      forall d ensures Get(w'.disk.live, d) == Get(w.disk.live, d) {
        if d == "" || forall i :: 0 <= i < |sites| ==> Norm(sites[i].domain) != d {
          RestoredElsewhere(env, req, w, d);
          assert Get(w'.disk.live, d) == CellOf(w'.disk, d).live == CellOf(w.disk, d).live;
        } else {
          var i :| 0 <= i < |sites| && Norm(sites[i].domain) == d;
        }
      }
      FilesExtensional(w'.disk.live, w.disk.live);
    }
  }

  /** In general a changed domain ends with its non-empty backup, or absent. */
  lemma RollbackLeaves(env: Env, req: Request, w: World, d: string)
    requires RollbackWorks(env) && BatchApply(env, req, w).1.error != NoError
    ensures var b, w' := Run(env, req, w, SitesOf(w.rows), |SitesOf(w.rows)|), BatchApply(env, req, w).0;
      d in b.changed ==>
        Get(w'.disk.live, d) == (if Get(b.disk.backup, d) == Some([]) then None else Get(b.disk.backup, d))
  {
    var b, w' := Run(env, req, w, SitesOf(w.rows), |SitesOf(w.rows)|), BatchApply(env, req, w).0;
    CommitAt(env, After(w, b), b.changed, b.hashes, d);
    assert Get(w'.disk.live, d) == CellOf(w'.disk, d).live;
    assert Get(b.disk.backup, d) == CellOf(b.disk, d).backup;
  }

  /** Where unrestorable domains come from: every removal of a non-empty live file leaves one. */
  lemma RemovalLeavesStaleBackup(c: Cell, f: RemoveFaults, saves: bool)
    requires RemoveCell(c, f).1 == Gone
    ensures Restorable(RemoveCell(c, f).0, saves) <==> c.live == Some([])
  {
  }

  // ---------------------------------------------------------------- whole runs

  /** nginx runs, and has only ever been asked to load, sets that `nginx -t` accepts. */
  ghost predicate Serving(accepts: Files -> bool, w: World) {
    && accepts(w.disk.live) && accepts(w.loaded)
    && forall k :: 0 <= k < |w.log| && w.log[k].Reloaded? ==> accepts(w.log[k].files)
  }

  /** Each reload since `from` is of the set tested just before it, or of the starting set. */
  ghost predicate JustTested(base: Files, from: nat, log: seq<Act>) {
    forall k :: from <= k < |log| && log[k].Reloaded? ==>
      log[k].files == base || (k > from && log[k - 1] == Tested(log[k].files, true))
  }

  lemma CommitServes(env: Env, w0: World, w: World, ds: seq<string>, hashes: map<string, string>)
    requires env.testFirst && Serving(env.accepts, w0)
    requires w.loaded == w0.loaded && w.log == w0.log
    requires Commit(env, w, ds, hashes).1 != NoError ==> Commit(env, w, ds, hashes).0.disk.live == w0.disk.live
    ensures Serving(env.accepts, Commit(env, w, ds, hashes).0)
    ensures JustTested(w0.disk.live, |w0.log|, Commit(env, w, ds, hashes).0.log)
  {
  }

  lemma BatchServes(env: Env, req: Request, w: World)
    requires env.testFirst && RollbackWorks(env) && Distinct(SitesOf(w.rows)) && Guarded(env, req, w)
    requires Serving(env.accepts, w)
    ensures Serving(env.accepts, BatchApply(env, req, w).0)
    ensures JustTested(w.disk.live, |w.log|, BatchApply(env, req, w).0.log)
  {
    var sites := SitesOf(w.rows);
    var b := Run(env, req, w, sites, |sites|);
    if req.dryRun || b.changed == [] {
      UnchangedLive(env, req, w);
    } else {
      if BatchApply(env, req, w).1.error != NoError {
        RollbackIsExact(env, req, w);
      }
      CommitServes(env, w, After(w, b), b.changed, b.hashes);
    }
  }

  /** A batch that reports no change changed no live file. */
  lemma UnchangedLive(env: Env, req: Request, w: World)
    requires Distinct(SitesOf(w.rows))
    requires req.dryRun || Run(env, req, w, SitesOf(w.rows), |SitesOf(w.rows)|).changed == []
    ensures BatchApply(env, req, w).0.disk.live == w.disk.live
  {
    var sites, w' := SitesOf(w.rows), BatchApply(env, req, w).0;
    if req.dryRun {
      DryRunTouchesNothing(env, req, w, sites, |sites|);
      return;
    }
    forall d ensures Get(w'.disk.live, d) == Get(w.disk.live, d) {
      if d == "" || forall i :: 0 <= i < |sites| ==> Norm(sites[i].domain) != d {
        RestoredElsewhere(env, req, w, d);
      } else {
        var i :| 0 <= i < |sites| && Norm(sites[i].domain) == d;
        AtSite(env, req, w, sites, i);
        QuietEffect(env, d, sites[i].site, CellOf(w.disk, d));
      }
      assert Get(w'.disk.live, d) == CellOf(w'.disk, d).live;
      assert Get(w.disk.live, d) == CellOf(w.disk, d).live;
    }
    FilesExtensional(w'.disk.live, w.disk.live);
  }

  lemma QuietEffect(env: Env, d: string, s: Site, c: Cell)
    ensures !SiteEffect(env, d, s, c).changed ==> SiteEffect(env, d, s, c).cell.live == c.live
  {
  }

  lemma {:induction false} DryRunTouchesNothing(env: Env, req: Request, w: World, sites: seq<Listed>, n: nat)
    requires n <= |sites| && req.dryRun
    ensures After(w, Run(env, req, w, sites, n)) == w && Run(env, req, w, sites, n).changed == []
    decreases n
  {
    if n == 0 {
    } else {
      DryRunTouchesNothing(env, req, w, sites, n - 1);
    }
  }

  ghost predicate GuardedOne(env: Env, w: World, d: string) {
    d in w.rows && SiteEffect(env, d, w.rows[d], CellOf(w.disk, d)).changed ==>
      Restorable(CellOf(w.disk, d), Saves(env, d, w.rows[d]))
  }

  lemma SingleServes(env: Env, d: string, dryRun: bool, w: World)
    requires env.testFirst && RollbackWorks(env) && GuardedOne(env, w, d)
    requires Serving(env.accepts, w)
    ensures Serving(env.accepts, SingleApply(env, d, dryRun, w).0)
    ensures JustTested(w.disk.live, |w.log|, SingleApply(env, d, dryRun, w).0.log)
  {
    if d in w.rows && !dryRun {
      var s, c := w.rows[d], CellOf(w.disk, d);
      var o := SiteEffect(env, d, s, c);
      var w1 := w.(disk := SetCell(w.disk, d, o.cell));
      SetCellOf(w.disk, d, o.cell);
      EffectRollback(env, d, s, c);
      if !o.changed {
        SameLive(w1.disk, w.disk, d);
      } else {
        var (w2, e) := Commit(env, w1, [d], map[d := o.hash]);
        if e != NoError {
          forall x
            ensures x != d ==> CellOf(w2.disk, x) == CellOf(w.disk, x)
          {
            CommitAt(env, w1, [d], map[d := o.hash], x);
          }
          CommitAt(env, w1, [d], map[d := o.hash], d);
          SameLive(w2.disk, w.disk, d);
        }
        CommitServes(env, w, w1, [d], map[d := o.hash]);
      }
    }
  }

  lemma SameLive(a: Disk, b: Disk, d: string)
    requires CellOf(a, d).live == CellOf(b, d).live && forall x :: x != d ==> CellOf(a, x) == CellOf(b, x)
    ensures a.live == b.live
  {
    forall x ensures Get(a.live, x) == Get(b.live, x) {
      assert Get(a.live, x) == CellOf(a, x).live && Get(b.live, x) == CellOf(b, x).live;
    }
    FilesExtensional(a.live, b.live);
  }

  /** nginx accepts the files that a deletion leaves, if it takes one away. */
  predicate RemovalSafe(accepts: Files -> bool, w: World, d: string, f: RemoveFaults) {
    d in w.rows && RemoveCell(CellOf(w.disk, d), f).1 == Gone ==> accepts(w.disk.live - {d})
  }

  lemma RemovalServes(accepts: Files -> bool, w: World, d: string, f: RemoveFaults, reloadOk: bool, rowOk: bool)
    requires Serving(accepts, w)
    ensures Serving(accepts, RemoveSite(w, d, f, reloadOk, rowOk)) <==> RemovalSafe(accepts, w, d, f)
  {
    SetGet(w.disk.live, d);
  }

  /** What each step of a run is checked for beforehand: the backup conditions for an apply, and
      for a deletion, whose reload is not preceded by a test, that nginx accepts what it leaves. */
  ghost predicate Allowed(accepts: Files -> bool, w: World, ev: Event) {
    match ev
    case Batched(env, req) => env.accepts == accepts && env.testFirst && RollbackWorks(env) &&
      Distinct(SitesOf(w.rows)) && Guarded(env, req, w)
    case Single(env, d, _) => env.accepts == accepts && env.testFirst && RollbackWorks(env) && GuardedOne(env, w, d)
    case Removed(d, f, _, _) => RemovalSafe(accepts, w, d, f)
    case _ => true
  }

  lemma StepServes(accepts: Files -> bool, w: World, ev: Event)
    requires Serving(accepts, w) && Allowed(accepts, w, ev)
    ensures Serving(accepts, Exec(w, ev))
  {
    hide BatchApply, SingleApply, RemoveSite, Guarded, GuardedOne, Distinct, RollbackWorks, JustTested;
    match ev {
      case Batched(env, req) => BatchServes(env, req, w);
      case Single(env, d, dry) => SingleServes(env, d, dry, w);
      case Removed(d, f, reloadOk, rowOk) => RemovalServes(accepts, w, d, f, reloadOk, rowOk);
      case _ =>
    }
  }

  /** Whole-run safety: whatever is edited, rendered, rejected or fails to reload in between, the
      live set and the running set stay accepted, and no reload was ever of a rejected set. */
  lemma {:induction false} RunServes(accepts: Files -> bool, w: World, evs: seq<Event>)
    requires Serving(accepts, w)
    requires forall n :: 0 <= n < |evs| ==> Allowed(accepts, ExecAll(w, evs[..n]), evs[n])
    ensures Serving(accepts, ExecAll(w, evs))
    decreases |evs|
  {
    hide Serving, Allowed, Exec;
    if evs == [] {
    } else {
      var rest, ev := evs[..|evs| - 1], evs[|evs| - 1];
      forall n | 0 <= n < |rest| ensures Allowed(accepts, ExecAll(w, rest[..n]), rest[n]) {
        assert rest[..n] == evs[..n];
      }
      RunServes(accepts, w, rest);
      StepServes(accepts, ExecAll(w, rest), ev);
    }
  }

  // ---------------------------------------------------------------- exactly when it is safe

  ghost predicate OnlyAccepted(accepts: Files -> bool, log: seq<Act>) {
    forall k :: 0 <= k < |log| && log[k].Reloaded? ==> accepts(log[k].files)
  }

  lemma OneMoreAct(accepts: Files -> bool, log: seq<Act>, act: Act)
    ensures OnlyAccepted(accepts, log + [act]) <==> OnlyAccepted(accepts, log) && (act.Reloaded? ==> accepts(act.files))
  {
    if OnlyAccepted(accepts, log + [act]) {
      forall k | 0 <= k < |log| && log[k].Reloaded? ensures accepts(log[k].files) { assert (log + [act])[k] == log[k]; }
      assert (log + [act])[|log|] == act;
    }
  }

  /** An undone apply is safe if and only if what the rollback puts together is accepted. */
  lemma AbortServesExactly(env: Env, w: World, ds: seq<string>, hashes: map<string, string>, error: ApplyError)
    requires env.accepts(w.loaded) && OnlyAccepted(env.accepts, w.log)
    ensures Serving(env.accepts, Abort(env, w, ds, hashes, error)) <==> env.accepts(RolledBack(env, w.disk, ds).live)
  {
    hide RolledBack, Marked, OnlyAccepted;
    var back := RolledBack(env, w.disk, ds).live;
    OneMoreAct(env.accepts, w.log, Reloaded(back, env.reloadBackOk));
    ServingIs(env.accepts, Abort(env, w, ds, hashes, error));
  }

  lemma ServingIs(accepts: Files -> bool, w: World)
    ensures Serving(accepts, w) <==> accepts(w.disk.live) && accepts(w.loaded) && OnlyAccepted(accepts, w.log)
  {
  }

  /** The end of an apply is safe if and only if the new set is tested and loaded, or the set that the
      rollback puts together is one that nginx accepts. */
  lemma CommitServesExactly(env: Env, w0: World, w: World, ds: seq<string>, hashes: map<string, string>)
    requires env.testFirst && Serving(env.accepts, w0) && w.loaded == w0.loaded && w.log == w0.log
    ensures Serving(env.accepts, Commit(env, w, ds, hashes).0) <==>
      (env.accepts(w.disk.live) && env.reloadOk) || env.accepts(RolledBack(env, w.disk, ds).live)
  {
    hide RolledBack, Marked, Abort, OnlyAccepted, Serving;
    var tested := w.(log := w.log + [Tested(w.disk.live, env.accepts(w.disk.live))]);
    var loaded := Reload(tested, env.reloadOk);
    ServingIs(env.accepts, w0);
    OneMoreAct(env.accepts, w.log, Tested(w.disk.live, env.accepts(w.disk.live)));
    OneMoreAct(env.accepts, tested.log, Reloaded(w.disk.live, env.reloadOk));
    if !env.accepts(w.disk.live) {
      AbortServesExactly(env, tested, ds, hashes, TestRejected);
    } else if !env.reloadOk {
      AbortServesExactly(env, loaded, ds, hashes, ReloadFailed);
    } else {
      ServingIs(env.accepts, loaded);
    }
  }

  /** A batch is safe if and only if nothing changed, or the new set was loaded, or the rollback of
      the changed domains leads to an accepted set. */
  lemma BatchServesExactly(env: Env, req: Request, w: World)
    requires env.testFirst && Distinct(SitesOf(w.rows)) && Serving(env.accepts, w)
    ensures var b := Run(env, req, w, SitesOf(w.rows), |SitesOf(w.rows)|);
      Serving(env.accepts, BatchApply(env, req, w).0) <==>
        || req.dryRun || b.changed == []
        || (env.accepts(b.disk.live) && env.reloadOk)
        || env.accepts(RolledBack(env, b.disk, b.changed).live)
  {
    hide RolledBack, Run, Distinct, Commit;
    var b := Run(env, req, w, SitesOf(w.rows), |SitesOf(w.rows)|);
    if req.dryRun || b.changed == [] {
      UnchangedLive(env, req, w);
    } else {
      CommitServesExactly(env, w, After(w, b), b.changed, b.hashes);
    }
  }

  /** The same for one site: `next` is the live set with the effect on that site, `back` the live set
      after its rollback. */
  lemma SingleServesExactly(env: Env, d: string, w: World)
    requires env.testFirst && Serving(env.accepts, w) && d in w.rows
    ensures var o := SiteEffect(env, d, w.rows[d], CellOf(w.disk, d));
      var next := SetCell(w.disk, d, o.cell).live;
      var back := SetCell(w.disk, d, RollbackCell(o.cell, env.rollback(d))).live;
      Serving(env.accepts, SingleApply(env, d, false, w).0) <==>
        !o.changed || (env.accepts(next) && env.reloadOk) || env.accepts(back)
  {
    hide RolledBack, SiteEffect, Commit, SetCell, CellOf, RollbackCell;
    var o := SiteEffect(env, d, w.rows[d], CellOf(w.disk, d));
    var w1 := w.(disk := SetCell(w.disk, d, o.cell));
    SetCellOf(w.disk, d, o.cell);
    if o.changed {
      CommitServesExactly(env, w, w1, [d], map[d := o.hash]);
      RolledBackOne(env, w1.disk, d);
      SetCellTwice(w.disk, d, o.cell, RollbackCell(o.cell, env.rollback(d)));
    } else {
      QuietEffect(env, d, w.rows[d], CellOf(w.disk, d));
      LiveOf(w1.disk, d);
      LiveOf(w.disk, d);
      SameLive(w1.disk, w.disk, d);
    }
  }

  lemma LiveOf(k: Disk, d: string)
    ensures CellOf(k, d).live == Get(k.live, d)
  {
  }

  lemma RolledBackOne(env: Env, k: Disk, d: string)
    ensures RolledBack(env, k, [d]) == SetCell(k, d, RollbackCell(CellOf(k, d), env.rollback(d)))
  {
    assert [d][..0] == [];
    assert RolledBack(env, k, []) == k;
  }

  /** Without the backup condition the promise fails: re-enabling a removed site whose new
      configuration is rejected brings back its old, also rejected, file and loads it. */
  lemma StaleBackupIsServed() returns (env: Env, w: World)
    ensures env.testFirst && RollbackWorks(env) && "a" in w.rows && Serving(env.accepts, w)
    ensures !Serving(env.accepts, SingleApply(env, "a", false, w).0)
  {
    env := Env(true, (d, s) => Some([2]), c => "", 1, d => RemoveFaults(false, false, NoFault, false), d => NoFault,
      d => PublishFaults(false, false, false, false, NoFault, NoFault), d => RollbackFaults(false, NoFault, false),
      live => live == map[], true, true);
    var spec := SiteSpec(1, None, "static", "/w", "", false, "", "", "");
    w := World(Disk(map[], map["a" := [1]], map[]), map["a" := Site(spec, true, 2, Some(1), AppliedOk, NoError, "")], 2,
        map[], []);
    var o := SiteEffect(env, "a", w.rows["a"], CellOf(w.disk, "a"));
    var w1 := w.(disk := SetCell(w.disk, "a", o.cell));
    SetCellOf(w.disk, "a", o.cell);
    assert Get(w1.disk.live, "a") == Some([2]);
    CommitAt(env, w1, ["a"], map["a" := o.hash], "a");
    var w' := SingleApply(env, "a", false, w).0;
    assert Get(w'.disk.live, "a") == CellOf(w'.disk, "a").live == Some([1]);
  }
}
