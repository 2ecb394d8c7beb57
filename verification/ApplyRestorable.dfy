/** Runs that never need their backup conditions checked: while nothing is removed, every domain stays
    restorable, so every failed apply is undone exactly. */
module ApplyRestorable {
  import opened Text
  import opened NginxManager
  import opened SiteStore
  import opened ApplyPipeline
  import opened ApplyFacts
  import opened ApplySafety
  import opened ApplyLimits

  ghost predicate AllRestorable(k: Disk) {
    forall d :: Restorable(CellOf(k, d), true)
  }

  /** The configuration is tested, rollbacks work, live files can be examined, renderings are not empty. */
  ghost predicate Careful(env: Env) {
    && env.testFirst && RollbackWorks(env)
    && (forall d :: !env.publish(d).stat)
    && (forall d, spec :: env.render(d, spec) != Some([]))
  }

  lemma EffectRestorable(env: Env, d: string, s: Site, c: Cell)
    requires Careful(env) && s.enabled && Restorable(c, true)
    ensures var o := SiteEffect(env, d, s, c);
      && Restorable(o.cell, true)
      && (o.changed ==> Restorable(RollbackCell(o.cell, env.rollback(d)), true))
  {
    assert env.rollback(d) == RollbackFaults(false, NoFault, false) && !env.publish(d).stat &&
      env.render(d, s.spec) != Some([]);
  }

  ghost predicate Healthy(w: World) {
    NormalKeys(w.rows) && NoneDisabled(w.rows) && AllRestorable(w.disk)
  }

  lemma HealthyIsGuarded(env: Env, req: Request, w: World)
    requires Careful(env) && Healthy(w)
    ensures Distinct(SitesOf(w.rows)) && Guarded(env, req, w)
    ensures forall d :: GuardedOne(env, w, d)
  {
    hide Restorable, SiteEffect, CellOf, Norm, Touches;
    NormalListing(w.rows);
    var sites := SitesOf(w.rows);
    forall i | 0 <= i < |sites| ensures Saves(env, Norm(sites[i].domain), sites[i].site) {
      assert !env.publish(Norm(sites[i].domain)).stat;
    }
    forall d | d in w.rows ensures Saves(env, d, w.rows[d]) { assert !env.publish(d).stat; }
  }

  lemma BatchRestorable(env: Env, req: Request, w: World, d: string)
    requires Careful(env) && Healthy(w)
    ensures Restorable(CellOf(BatchApply(env, req, w).0.disk, d), true)
  {
    hide Restorable, SiteEffect, RollbackCell, Norm, Careful, Commit, Run, CellOf;
    var sites := SitesOf(w.rows);
    var b := Run(env, req, w, sites, |sites|);
    assert Restorable(CellOf(w.disk, d), true);
    NormalListing(w.rows);
    if d in w.rows {
      var i := PlaceOf(w.rows, d);
      AtSite(env, req, w, sites, i);
      EffectRestorable(env, d, w.rows[d], CellOf(w.disk, d));
      CommitAt(env, After(w, b), b.changed, b.hashes, d);
    } else {
      RestoredElsewhere(env, req, w, d);
    }
  }

  lemma BatchKeepsHealthy(env: Env, req: Request, w: World)
    requires Careful(env) && Healthy(w)
    ensures Healthy(BatchApply(env, req, w).0)
  {
    hide BatchApply, Restorable, Norm, CellOf, Touches;
    BatchKeys(env, req, w);
    forall d ensures Restorable(CellOf(BatchApply(env, req, w).0.disk, d), true) { BatchRestorable(env, req, w, d); }
    forall d | d in w.rows ensures BatchApply(env, req, w).0.rows[d].enabled {
      var i := PlaceOf(w.rows, d);
      BatchKeepsEnabled(env, req, w, i);
    }
  }

  lemma SingleRestorable(env: Env, d: string, dryRun: bool, w: World, e: string)
    requires Careful(env) && Healthy(w)
    ensures var w' := SingleApply(env, d, dryRun, w).0;
      && Restorable(CellOf(w'.disk, e), true)
      && w'.rows.Keys == w.rows.Keys && (e in w.rows ==> w'.rows[e].enabled)
  {
    hide Restorable, SiteEffect, RollbackCell, Norm, Careful, Commit, CellOf, SetCell;
    assert Restorable(CellOf(w.disk, e), true) && Restorable(CellOf(w.disk, d), true);
    if d in w.rows {
      var o := SiteEffect(env, d, w.rows[d], CellOf(w.disk, d));
      var w1 := w.(disk := SetCell(w.disk, d, o.cell));
      SetCellOf(w.disk, d, o.cell);
      EffectRestorable(env, d, w.rows[d], CellOf(w.disk, d));
      CommitAt(env, w1, [d], map[d := o.hash], e);
    }
  }

  lemma SingleKeepsHealthy(env: Env, d: string, dryRun: bool, w: World)
    requires Careful(env) && Healthy(w)
    ensures Healthy(SingleApply(env, d, dryRun, w).0)
  {
    hide SingleApply, Restorable, Norm, CellOf;
    forall e
      ensures Restorable(CellOf(SingleApply(env, d, dryRun, w).0.disk, e), true)
      ensures SingleApply(env, d, dryRun, w).0.rows.Keys == w.rows.Keys
      ensures e in w.rows ==> SingleApply(env, d, dryRun, w).0.rows[e].enabled
    {
      SingleRestorable(env, d, dryRun, w, e);
    }
  }

  /** Nothing is disabled or deleted. None of this looks at the state. */
  ghost predicate OnlyAdds(accepts: Files -> bool, ev: Event) {
    match ev
    case Batched(env, _) => env.accepts == accepts && Careful(env)
    case Single(env, _, _) => env.accepts == accepts && Careful(env)
    case Saved(d, _, enabled, _) => Norm(d) == d && d != "" && enabled
    case Toggled(_, enabled, _) => enabled
    case Removed(_, _, _, _) => false
  }

  lemma AddingStepServes(accepts: Files -> bool, w: World, ev: Event)
    requires Serving(accepts, w) && Healthy(w) && OnlyAdds(accepts, ev)
    ensures Serving(accepts, Exec(w, ev)) && Healthy(Exec(w, ev))
  {
    hide BatchApply, SingleApply, AllRestorable, Norm, Guarded, GuardedOne, Distinct, Stored, Careful;
    match ev {
      case Batched(env, req) =>
        HealthyIsGuarded(env, req, w);
        CarefulTests(env);
        BatchServes(env, req, w);
        BatchKeepsHealthy(env, req, w);
      case Single(env, d, dry) =>
        HealthyIsGuarded(env, Request(false, false, 0), w);
        CarefulTests(env);
        SingleServes(env, d, dry, w);
        SingleKeepsHealthy(env, d, dry, w);
      case _ =>
    }
  }

  lemma CarefulTests(env: Env)
    requires Careful(env)
    ensures env.testFirst && RollbackWorks(env)
  {
  }

  /** Whole-run safety without looking at any backup: over any run of adds, edits, enables and applies,
      whatever is rejected or fails to load in between, no rejected set is ever live after a step,
      running, or asked to be loaded. */
  lemma {:induction false} AddingRunServes(accepts: Files -> bool, w: World, evs: seq<Event>)
    requires Serving(accepts, w) && Healthy(w)
    requires forall n :: 0 <= n < |evs| ==> OnlyAdds(accepts, evs[n])
    ensures Serving(accepts, ExecAll(w, evs)) && Healthy(ExecAll(w, evs))
    decreases |evs|
  {
    hide Serving, Healthy, Exec, OnlyAdds;
    if evs == [] {
    } else {
      AddingRunServes(accepts, w, evs[..|evs| - 1]);
      AddingStepServes(accepts, ExecAll(w, evs[..|evs| - 1]), evs[|evs| - 1]);
    }
  }
}
