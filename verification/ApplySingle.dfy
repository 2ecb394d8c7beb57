/** applyOne against the batch. */
module ApplySingle {
  import opened Text
  import opened NginxManager
  import opened SiteStore
  import opened ApplyPipeline
  import opened ApplyFacts

  lemma OneSite(rows: Rows, d: string)
    requires rows.Keys == {d}
    ensures SitesOf(rows) == [Listed(d, rows[d])]
  {
    ListingUnique([d], Listing(rows.Keys), rows.Keys);
  }

  /** A disabled site whose live file is already gone. */
  predicate QuietRemoval(env: Env, w: World, d: string)
    requires d in w.rows
  {
    !w.rows[d].enabled && !env.remove(d).stat && CellOf(w.disk, d).live.None?
  }

  /** Equal up to the time of the last apply. */
  predicate SameRecord(a: Site, b: Site) {
    a.(lastAppliedAt := None) == b.(lastAppliedAt := None)
  }

  /** applyOne and a batch over just that site do the same to the files and to nginx; they record
      the same result except that applyOne records nothing for a removal with nothing to remove;
      and when the change was rolled back only applyOne reports the domain as failed. */
  lemma SingleIsBatch(env: Env, w: World, d: string, req: Request)
    requires w.rows.Keys == {d} && Norm(d) == d && d != ""
    requires req.all && !req.dryRun && req.limit <= 0
    ensures var (s, rs, ch) := SingleApply(env, d, false, w); var (b, rb) := BatchApply(env, req, w);
      && s.disk == b.disk && s.loaded == b.loaded && s.log == b.log
      && (rb.error == NoError ==> rb.domains == [rs] && rb.changed == (if ch then [d] else []))
      && (rb.error != NoError ==>
        ch && rs.status == Failed && rs.error == rb.error && |rb.domains| == 1 && rb.domains[0].status == Done &&
          rb.changed == [])
      && d in s.rows && d in b.rows
      && (SameRecord(s.rows[d], b.rows[d]) <==>
            (QuietRemoval(env, w, d) ==>
              w.rows[d].status == AppliedOk && w.rows[d].error == NoError && w.rows[d].hash == ""))
  {
    hide SiteEffect, Norm, Commit;
    OneSite(w.rows, d);
    var s := w.rows[d];
    var o := SiteEffect(env, d, s, CellOf(w.disk, d));
    assert Run(env, req, w, [Listed(d, s)], 1) == Step(env, req, Start(w), Listed(d, s));
    assert Step(env, req, Start(w), Listed(d, s)) == Process(env, Start(w), d, s);
    OutcomeKinds(env, d, s, CellOf(w.disk, d));
    if o.changed {
      ChangedTwins(env, w, d, s, o);
      hide Process, SingleCommit;
    }
  }

  /** Both ways of finishing a changed domain, from the same files. */
  lemma ChangedTwins(env: Env, w: World, d: string, s: Site, o: Effect)
    requires d in w.rows && s == w.rows[d] && o == SiteEffect(env, d, s, CellOf(w.disk, d)) && o.changed
    ensures var b := Process(env, Start(w), d, s);
      var (x, rs, ch) := SingleCommit(env, d, s, o, w.(disk := SetCell(w.disk, d, o.cell)));
      var (y, e) := Commit(env, After(w, b), [d], b.hashes);
      && ch && b.changed == [d] && b.results == [ResultOf(d, s, o)] && o.ok
      && x.disk == y.disk && x.loaded == y.loaded && x.log == y.log
      && (e == NoError ==> rs == ResultOf(d, s, o)) && (e != NoError ==> rs.status == Failed && rs.error == e)
      && d in x.rows && d in y.rows && SameRecord(x.rows[d], y.rows[d])
  {
    hide SiteEffect, Commit, HashFor, CellOf, SetCell;
    OutcomeKinds(env, d, s, CellOf(w.disk, d));
    var b := Process(env, Start(w), d, s);
    var w1 := w.(disk := SetCell(w.disk, d, o.cell));
    CommitTwins(env, w1, After(w, b), d, b.hashes);
    CommitAt(env, w1, [d], b.hashes, d);
    CommitAt(env, After(w, b), [d], b.hashes, d);
  }

  lemma OutcomeKinds(env: Env, d: string, s: Site, c: Cell)
    ensures var o := SiteEffect(env, d, s, c);
      && (o.changed ==> o.ok && o.error == NoError)
      && (o.ok ==> o.error == NoError)
      && (!s.enabled ==> o.hash == "")
      && (!s.enabled && o.ok && !o.changed <==> !s.enabled && !env.remove(d).stat && c.live.None?)
  {
  }

  /** The tail of the apply does not look at the rows. */
  lemma CommitTwins(env: Env, a: World, b: World, d: string, hashes: map<string, string>)
    requires a.disk == b.disk && a.loaded == b.loaded && a.log == b.log
    ensures var (a', ea) := Commit(env, a, [d], hashes); var (b', eb) := Commit(env, b, [d], hashes);
      ea == eb && a'.disk == b'.disk && a'.loaded == b'.loaded && a'.log == b'.log
  {
  }
}
