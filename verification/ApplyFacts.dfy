/** What a batch and its rollback do to one domain: everything else in the apply proofs is
    stated on top of these facts. */
module ApplyFacts {
  import opened Text
  import opened NginxManager
  import opened SiteStore
  import opened ApplyPipeline

  /** No two listed sites share a configuration file. */
  ghost predicate Distinct(sites: seq<Listed>) {
    forall i, j ::
      0 <= i < j < |sites| && Norm(sites[i].domain) != "" ==> Norm(sites[i].domain) != Norm(sites[j].domain)
  }

  ghost predicate NormalKeys(rows: Rows) {
    forall d :: d in rows ==> Norm(d) == d && d != ""
  }

  /** With normalised keys the listing is distinct, and every row has its place in it. */
  lemma NormalListing(rows: Rows)
    requires NormalKeys(rows)
    ensures Distinct(SitesOf(rows))
    ensures forall i :: 0 <= i < |SitesOf(rows)| ==> Norm(SitesOf(rows)[i].domain) == SitesOf(rows)[i].domain != ""
  {
    var sites, ks := SitesOf(rows), Listing(rows.Keys);
    forall i, j | 0 <= i < j < |sites| ensures Norm(sites[i].domain) != Norm(sites[j].domain) {
      assert Lt(ks[i], ks[j]);
    }
  }

  lemma PlaceOf(rows: Rows, d: string) returns (i: nat)
    requires d in rows
    ensures i < |SitesOf(rows)| && SitesOf(rows)[i] == Listed(d, rows[d])
  {
    var ks := Listing(rows.Keys);
    assert d in ks;
    i :| 0 <= i < |ks| && ks[i] == d;
  }

  // ---------------------------------------------------------------- the loop

  /** `now` is `was` with an apply result recorded at a time between `from` and `to`. */
  ghost predicate RowRecorded(was: Site, now: Site, status: ApplyStatus, error: ApplyError, hash: string, from: nat,
          to: nat) {
    && now.lastAppliedAt.Some? && from <= now.lastAppliedAt.value <= to
    && now == was.(status := status, error := error, hash := hash, lastAppliedAt := now.lastAppliedAt)
  }

  /** The two batches agree on everything about domain `e`. */
  ghost predicate SameAt(b: Batch, b': Batch, e: string) {
    && CellOf(b'.disk, e) == CellOf(b.disk, e)
    && (e in b'.changed <==> e in b.changed)
    && (e in b'.rows <==> e in b.rows) && (e in b.rows ==> b'.rows[e] == b.rows[e])
    && HashFor(b'.hashes, e) == HashFor(b.hashes, e)
    && b.clock <= b'.clock
  }

  lemma ProcessElsewhere(env: Env, b: Batch, d: string, s: Site, e: string)
    requires e != d
    ensures SameAt(b, Process(env, b, d, s), e)
  {
    var o := SiteEffect(env, d, s, CellOf(b.disk, d));
    SetCellOf(b.disk, d, o.cell);
  }

  lemma StepElsewhere(env: Env, req: Request, b: Batch, x: Listed, e: string)
    requires e != Norm(x.domain) || !Processes(req, b.applied, x)
    ensures SameAt(b, Step(env, req, b, x), e)
  {
    if Processes(req, b.applied, x) {
      ProcessElsewhere(env, b, Norm(x.domain), x.site, e);
    }
  }

  lemma {:induction false} RunElsewhere(env: Env, req: Request, w: World, sites: seq<Listed>, i: nat, n: nat, e: string)
    requires i <= n <= |sites|
    requires forall j :: i <= j < n ==> Norm(sites[j].domain) != e
    ensures SameAt(Run(env, req, w, sites, i), Run(env, req, w, sites, n), e)
    decreases n
  {
    hide Step, Norm, CellOf, HashFor;
    if i < n {
      RunElsewhere(env, req, w, sites, i, n - 1, e);
      StepElsewhere(env, req, Run(env, req, w, sites, n - 1), sites[n - 1], e);
    }
  }

  lemma ProcessHere(env: Env, b: Batch, d: string, s: Site)
    requires d !in b.changed
    ensures var o, b' := SiteEffect(env, d, s, CellOf(b.disk, d)), Process(env, b, d, s);
      && CellOf(b'.disk, d) == o.cell && (d in b'.changed <==> o.changed)
      && (d in b'.rows <==> d in b.rows)
      && (d in b.rows ==>
        b'.rows[d] == b.rows[d].(status := if o.ok then AppliedOk else AppliedFail, error := o.error, hash := o.hash,
                                 lastAppliedAt := Some(b'.clock)))
      && (o.changed ==> HashFor(b'.hashes, d) == o.hash)
      && b.clock <= b'.clock
  {
    SetCellOf(b.disk, d, SiteEffect(env, d, s, CellOf(b.disk, d)).cell);
  }

  /** Whether the batch works on listed site `i`; only the count of earlier work matters. */
  ghost predicate Touches(env: Env, req: Request, w: World, sites: seq<Listed>, i: nat)
    requires i < |sites|
  {
    Processes(req, Run(env, req, w, sites, i).applied, sites[i])
  }

  /** Local behaviour: with distinct domains, the final state of a domain is the effect of its own
      site on its own initial files, whatever the other sites did. */
  lemma AtSite(env: Env, req: Request, w: World, sites: seq<Listed>, i: nat)
    requires i < |sites| && Distinct(sites) && Norm(sites[i].domain) != ""
    ensures var d, s, b := Norm(sites[i].domain), sites[i].site, Run(env, req, w, sites, |sites|);
      var o := SiteEffect(env, d, s, CellOf(w.disk, d));
      && (d in b.rows <==> d in w.rows)
      && w.clock <= b.clock
      && (Touches(env, req, w, sites, i) ==>
            && CellOf(b.disk, d) == o.cell && (d in b.changed <==> o.changed)
            && (o.changed ==> HashFor(b.hashes, d) == o.hash)
            && (d in w.rows ==>
              RowRecorded(w.rows[d], b.rows[d], if o.ok then AppliedOk else AppliedFail, o.error, o.hash,
                          w.clock, b.clock)))
      && (!Touches(env, req, w, sites, i) ==>
            && CellOf(b.disk, d) == CellOf(w.disk, d) && d !in b.changed
            && (d in w.rows ==> b.rows[d] == w.rows[d]))
  {
    var d, s := Norm(sites[i].domain), sites[i].site;
    var b0 := Run(env, req, w, sites, i);
    RunElsewhere(env, req, w, sites, 0, i, d);
    RunElsewhere(env, req, w, sites, i + 1, |sites|, d);
    if Touches(env, req, w, sites, i) {
      ProcessHere(env, b0, d, s);
    } else {
      StepElsewhere(env, req, b0, sites[i], d);
    }
  }

  lemma {:induction false} RunKeepsKeys(env: Env, req: Request, w: World, sites: seq<Listed>, n: nat)
    requires n <= |sites|
    ensures Run(env, req, w, sites, n).rows.Keys == w.rows.Keys
    ensures w.clock <= Run(env, req, w, sites, n).clock
    decreases n
  {
    if n == 0 {
    } else {
      RunKeepsKeys(env, req, w, sites, n - 1);
    }
  }

  // ---------------------------------------------------------------- the rollback

  lemma {:induction false} RolledBackAt(env: Env, k: Disk, ds: seq<string>, e: string)
    ensures CellOf(RolledBack(env, k, ds), e) == if e in ds then RollbackCell(CellOf(k, e), env.rollback(e))
      else CellOf(k, e)
    decreases |ds|
  {
    if ds == [] {
    } else {
      var rest, d := ds[..|ds| - 1], ds[|ds| - 1];
      RolledBackAt(env, k, rest, e);
      RolledBackAt(env, k, rest, d);
      var k' := RolledBack(env, k, rest);
      SetCellOf(k', d, RollbackCell(CellOf(k', d), env.rollback(d)));
      assert ds == rest + [d];
    }
  }

  /** A row that is as it was, or recorded, is recorded once more. */
  lemma RecordAgain(rows: Rows, d: string, was: Site, error: ApplyError, hash: string, from: nat, mid: nat, to: nat)
    requires d in rows && from <= to
    requires rows[d] == was || RowRecorded(was, rows[d], AppliedFail, error, hash, from, mid)
    ensures var r := Recorded(rows, d, AppliedFail, error, hash, to);
      d in r && RowRecorded(was, r[d], AppliedFail, error, hash, from, to)
  {
  }

  lemma RecordedBefore(was: Site, now: Site, error: ApplyError, hash: string, from: nat, mid: nat, to: nat)
    requires mid <= to && RowRecorded(was, now, AppliedFail, error, hash, from, mid)
    ensures RowRecorded(was, now, AppliedFail, error, hash, from, to)
  {
  }

  /** What marking the domains `ds` up to time `to` makes of domain `e`. */
  ghost predicate MarkedIs(rows: Rows, r: Rows, ds: seq<string>, hash: string, error: ApplyError, from: nat, to: nat,
          e: string) {
    && r.Keys == rows.Keys
    && (e in rows && e !in ds ==> r[e] == rows[e])
    && (e in rows && e in ds ==> RowRecorded(rows[e], r[e], AppliedFail, error, hash, from, to))
  }

  lemma MarkedStep(rows: Rows, m: Rows, rest: seq<string>, d: string, hashes: map<string, string>, error: ApplyError,
          from: nat, mid: nat, to: nat, e: string)
    requires MarkedIs(rows, m, rest, HashFor(hashes, e), error, from, mid, e) && from <= mid <= to
    ensures MarkedIs(rows, Recorded(m, d, AppliedFail, error, HashFor(hashes, d), to), rest + [d], HashFor(hashes, e),
        error, from, to, e)
  {
    hide Recorded, RowRecorded, HashFor;
    assert e in rest + [d] <==> e in rest || e == d;
    if e in rows {
      if e == d {
        RecordAgain(m, d, rows[e], error, HashFor(hashes, d), from, mid, to);
      } else if e in rest {
        RecordedBefore(rows[e], m[e], error, HashFor(hashes, e), from, mid, to);
      }
    }
  }

  lemma {:induction false} MarkedAt(env: Env, rows: Rows, clock: nat, ds: seq<string>, hashes: map<string, string>,
          error: ApplyError, e: string)
    ensures MarkedIs(rows, Marked(env, rows, clock, ds, hashes, error), ds, HashFor(hashes, e), error, clock,
        Ticked(env, clock, |ds|), e)
    decreases |ds|
  {
    hide Recorded, HashFor;
    if ds == [] {
    } else {
      hide MarkedIs;
      var rest, d := ds[..|ds| - 1], ds[|ds| - 1];
      assert ds == rest + [d];
      MarkedAt(env, rows, clock, rest, hashes, error, e);
      MarkedStep(rows, Marked(env, rows, clock, rest, hashes, error), rest, d, hashes, error, clock,
          Ticked(env, clock, |rest|), Ticked(env, clock, |ds|), e);
    }
  }

  /** What an undone apply leaves of domain `e`. */
  lemma AbortAt(env: Env, w: World, ds: seq<string>, hashes: map<string, string>, error: ApplyError, e: string)
    ensures var w' := Abort(env, w, ds, hashes, error);
      && CellOf(w'.disk, e) == (if e in ds then RollbackCell(CellOf(w.disk, e), env.rollback(e)) else CellOf(w.disk, e))
      && w'.rows.Keys == w.rows.Keys && w.clock <= w'.clock
      && (e in w.rows && e !in ds ==> w'.rows[e] == w.rows[e])
      && (e in w.rows && e in ds ==>
        RowRecorded(w.rows[e], w'.rows[e], AppliedFail, error, HashFor(hashes, e), w.clock, w'.clock))
  {
    RolledBackAt(env, w.disk, ds, e);
    MarkedAt(env, w.rows, w.clock, ds, hashes, error, e);
  }

  /** The tail of an apply, domain by domain: it keeps what was published, or undoes it. */
  lemma CommitAt(env: Env, w: World, ds: seq<string>, hashes: map<string, string>, e: string)
    ensures var (w', err) := Commit(env, w, ds, hashes);
      && w'.rows.Keys == w.rows.Keys && w.clock <= w'.clock
      && (err == NoError ==> w'.disk == w.disk && w'.rows == w.rows && w'.clock == w.clock && w'.loaded == w.disk.live)
      && (err == NoError || e !in ds ==>
        CellOf(w'.disk, e) == CellOf(w.disk, e) && (e in w.rows ==> w'.rows[e] == w.rows[e]))
      && (err != NoError && e in ds ==> CellOf(w'.disk, e) == RollbackCell(CellOf(w.disk, e), env.rollback(e)))
      && (err != NoError && e in ds && e in w.rows ==>
            RowRecorded(w.rows[e], w'.rows[e], AppliedFail, err, HashFor(hashes, e), w.clock, w'.clock))
  {
    var tested := if env.testFirst then w.(log := w.log + [Tested(w.disk.live, env.accepts(w.disk.live))]) else w;
    AbortAt(env, tested, ds, hashes, TestRejected, e);
    AbortAt(env, Reload(tested, env.reloadOk), ds, hashes, ReloadFailed, e);
  }
}
