/** An edit made while an apply is under way: the batch works on the listing it took at its start and
    records its results in the rows of its end. */
module ApplyRace {
  import opened Text
  import opened NginxManager
  import opened SiteStore
  import opened ApplyPipeline
  import opened ApplyFacts
  import opened ApplyIncremental

  /** The site is worked on as it was listed, without error, and is not rolled back. */
  ghost predicate RecordedOk(env: Env, req: Request, w1: World, sites: seq<Listed>, i: nat)
    requires i < |sites|
  {
    var d, s := sites[i].domain, sites[i].site;
    var o := SiteEffect(env, d, s, CellOf(w1.disk, d));
    && Touches(env, req, w1, sites, i) && o.ok
    && (Finish(env, req, w1, Run(env, req, w1, sites, |sites|)).1.error == NoError || !o.changed)
  }

  /** `w` is the state in which the sites are listed; then `d` is saved at a later time; then the batch
      runs. The edit is deployed or still pending afterwards if and only if its site was not recorded as
      applied, or is disabled by the edit, or what went live is what the edit asks for. */
  lemma EditDuringApply(env: Env, req: Request, w: World, d: string, spec: SiteSpec, enabled: bool, at: nat, i: nat)
    requires Current(env.render, w) && Stamped(w) && w.clock < at
    requires d in w.rows && i < |SitesOf(w.rows)| && SitesOf(w.rows)[i] == Listed(d, w.rows[d])
    ensures var sites, w1 := SitesOf(w.rows), Exec(w, Saved(d, spec, enabled, at));
      var w' := Finish(env, req, w1, Run(env, req, w1, sites, |sites|)).0;
      var live := SiteEffect(env, d, w.rows[d], CellOf(w.disk, d)).cell.live;
      d in w'.rows &&
      (RowCurrent(env.render, w', d) <==>
        || !RecordedOk(env, req, w1, sites, i) || !enabled
        || (env.render(d, Stored(spec)).Some? && live == env.render(d, Stored(spec))))
  {
    hide SiteEffect, Norm, Commit, Run, Stored, CellOf, RollbackCell;
    var sites, w1 := SitesOf(w.rows), Exec(w, Saved(d, spec, enabled, at));
    var b := Run(env, req, w1, sites, |sites|);
    NormalListing(w.rows);
    AtSite(env, req, w1, sites, i);
    ChangedIsOk(env, d, w.rows[d], CellOf(w.disk, d));
    CommitAt(env, After(w1, b), b.changed, b.hashes, d);
  }
}
