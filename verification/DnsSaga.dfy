/** Rows and DNS in step: the add and delete sagas with their compensations. */
module DnsSagas {
  import opened Text
  import opened SiteStore
  import opened Lifecycle
  import opened LifecycleFacts
  import opened Hierarchies

  /** A root has its zone; a subdomain has the zone of its parent, and its name in it when there is a
      default address to put there. */
  predicate Published(cfg: Config, z: Zones, d: string, parent: Option<string>) {
    match parent
    case None => d in z
    case Some(p) => p in z && (cfg.hasAddress ==> d in z[p])
  }

  ghost predicate InStep(cfg: Config, rows: Rows, z: Zones) {
    Normal(rows) && forall d :: d in rows ==> Published(cfg, z, d, rows[d].spec.parent)
  }

  ghost predicate Synced(cfg: Config, s: State) {
    InStep(cfg, s.rows, s.zones)
  }

  /** The provider never takes anything away while ensuring, and a call that succeeds publishes. */
  lemma EnsureGrows(cfg: Config, ok: bool, wrote: bool, z: Zones, d: string, p: string)
    ensures var (z', done) := EnsureDns(cfg, ok, wrote, z, d, p);
      (done ==> Published(cfg, z', d, ParentPtr(p))) &&
      forall e, q :: Published(cfg, z, e, q) ==> Published(cfg, z', e, q)
  {
  }

  /** A call with a zone to write to publishes the name if it succeeds or fails late; otherwise nothing moves. */
  lemma EnsurePublishes(cfg: Config, ok: bool, wrote: bool, z: Zones, d: string, p: string)
    requires Attempted(cfg, z, d, p).Some?
    ensures var (z', done) := EnsureDns(cfg, ok, wrote, z, d, p);
      && done == ok
      && (Published(cfg, z', d, ParentPtr(p)) <==> ok || wrote || Published(cfg, z, d, ParentPtr(p)))
      && (!ok && !wrote ==> z' == z)
  {
  }

  /** Deleting one name or zone leaves everything that does not live in it. */
  lemma DeleteLeaves(cfg: Config, z: Zones, d: string, p: string, e: string, q: Option<string>)
    requires Published(cfg, z, e, q) && e != d && (p == "" ==> q != Some(d))
    ensures Published(cfg, DeleteDns(z, d, p), e, q)
  {
  }

  // ---------------------------------------------------------------- SiteAdd

  /** The provider fails before it writes the zone of the row that SiteAdd wrote, and the row stays: it
      replaced a stored one, or its compensating delete failed. */
  ghost predicate AddStrands(cfg: Config, f: Faults, req: AddRequest, s: State) {
    var d, p := Norm(req.domain), Norm(req.parent);
    && AddAccepted(cfg, f, req, s) && !f.dnsOk && !f.dnsWrote
    && (d in s.rows || !f.deleteOk) && !Published(cfg, s.zones, d, ParentPtr(p))
  }

  lemma AddKeepsSync(cfg: Config, f: Faults, req: AddRequest, s: State)
    requires cfg.dns && Synced(cfg, s)
    ensures Synced(cfg, Add(cfg, f, req, s).0) <==> !AddStrands(cfg, f, req, s)
  {
    hide Norm, AddAccepted, AddRow, Add, Owned, EnsureDns, WellPlaced, Trim, Published, Attempted, Normal;
    AddCases(cfg, f, req, s);
    if AddAccepted(cfg, f, req, s) {
      var d, p, r := Norm(req.domain), Norm(req.parent), AddRow(cfg, req, s);
      AddedRow(cfg, f, req, s);
      EnsureGrows(cfg, f.dnsOk, f.dnsWrote, s.zones, d, p);
      EnsurePublishes(cfg, f.dnsOk, f.dnsWrote, s.zones, d, p);
      AddedSync(cfg, s, EnsureDns(cfg, f.dnsOk, f.dnsWrote, s.zones, d, p).0, d, r);
    }
  }

  /** The row that SiteAdd writes has a zone to go to. */
  lemma AddedRow(cfg: Config, f: Faults, req: AddRequest, s: State)
    requires Synced(cfg, s) && AddAccepted(cfg, f, req, s)
    ensures var d, p, r := Norm(req.domain), Norm(req.parent), AddRow(cfg, req, s);
      && r.spec.parent == ParentPtr(p) && Normal(s.rows[d := r]) && Attempted(cfg, s.zones, d, p).Some?
  {
    hide Norm, AddAccepted, AddRow, Owned, Trim;
    AcceptedRow(cfg, f, req, s);
  }

  /** With one row written and the zones grown, rows and DNS are in step if and only if the row is published or
      taken back; taking back a row that was not there before always is. */
  lemma AddedSync(cfg: Config, s: State, z: Zones, d: string, r: Site)
    requires Synced(cfg, s) && Normal(s.rows[d := r])
    requires forall e, q :: Published(cfg, s.zones, e, q) ==> Published(cfg, z, e, q)
    ensures InStep(cfg, s.rows[d := r], z) <==> Published(cfg, z, d, r.spec.parent)
    ensures d !in s.rows ==> InStep(cfg, s.rows[d := r] - {d}, z)
  {
    hide Published, Norm;
    var rows := s.rows[d := r];
    assert rows[d] == r;
  }

  /** DNS fails for the row that SiteAdd wrote, and so does taking the row back. */
  ghost predicate AddUncompensated(cfg: Config, f: Faults, req: AddRequest, s: State) {
    && cfg.dns && AddAccepted(cfg, f, req, s) && !f.deleteOk
    && !EnsureDns(cfg, f.dnsOk, f.dnsWrote, s.zones, Norm(req.domain), Norm(req.parent)).1
  }

  /** The provider fails after it wrote a zone or name that was not there. */
  ghost predicate AddLeavesName(cfg: Config, f: Faults, req: AddRequest, s: State) {
    var d, p := Norm(req.domain), Norm(req.parent);
    && cfg.dns && AddAccepted(cfg, f, req, s) && f.dnsWrote
    && (if p == "" then d !in s.zones else p in s.zones && cfg.hasAddress && d !in s.zones[p])
  }

  /** A failed SiteAdd of a new domain leaves the rows as they were exactly when its compensation is not
      one that fails, and DNS exactly when the provider wrote nothing new; it never takes a name away. */
  lemma FailedAddLeavesRows(cfg: Config, f: Faults, req: AddRequest, s: State)
    requires Add(cfg, f, req, s).1.Some? && Norm(req.domain) !in s.rows
    ensures Add(cfg, f, req, s).0.rows == s.rows <==> !AddUncompensated(cfg, f, req, s)
    ensures Add(cfg, f, req, s).0.zones == s.zones <==> !AddLeavesName(cfg, f, req, s)
    ensures forall e, q :: Published(cfg, s.zones, e, q) ==> Published(cfg, Add(cfg, f, req, s).0.zones, e, q)
  {
    hide Norm, AddAccepted, AddRow, Add, EnsureDns, Published;
    AddCases(cfg, f, req, s);
    var d, p, r := Norm(req.domain), Norm(req.parent), AddRow(cfg, req, s);
    assert s.rows[d := r] - {d} == s.rows;
    assert d in s.rows[d := r];
    EnsureGrows(cfg, f.dnsOk, f.dnsWrote, s.zones, d, p);
    if cfg.dns && AddAccepted(cfg, f, req, s) { FailedEnsure(cfg, f.dnsOk, f.dnsWrote, s.zones, d, p); }
  }

  /** What a failed call leaves behind. */
  lemma FailedEnsure(cfg: Config, ok: bool, wrote: bool, z: Zones, d: string, p: string)
    requires !EnsureDns(cfg, ok, wrote, z, d, p).1
    ensures EnsureDns(cfg, ok, wrote, z, d, p).0 != z <==>
      wrote && if p == "" then d !in z else p in z && cfg.hasAddress && d !in z[p]
  {
    if p == "" {
      assert d !in z ==> d in EnsureRoot(z, d);
    } else if p in z {
      assert d in z[p] ==> z[p] + {d} == z[p] && z[p := z[p]] == z;
      assert d !in z[p] ==> z[p := z[p] + {d}][p] != z[p];
    }
  }

  // ---------------------------------------------------------------- SiteDelete

  /** The provider took something away, the row is still there, and DNS was not put back. */
  ghost predicate DeleteStrands(cfg: Config, f: Faults, domain: string, s: State) {
    var d := Trim(domain);
    && d != "" && d in s.rows && !(ParentOf(s.rows[d]) == "" && Blocked(s.rows, d))
    && (f.dnsOk || f.dnsWrote) && (cfg.hasAddress || ParentOf(s.rows[d]) == "")
    && !(f.dnsOk && f.vhostOk && f.reloadOk && (f.deleteOk || f.restoreOk || f.restoreWrote))
  }

  lemma DeleteOthers(cfg: Config, z: Zones, rows: Rows, d: string)
    requires Normal(rows) && d in rows && (rows[d].spec.parent.None? ==> !HasChildren(rows, d))
    ensures forall e ::
      e in rows && e != d && Published(cfg, z, e, rows[e].spec.parent) ==>
        Published(cfg, DeleteDns(z, d, ParentOf(rows[d])), e, rows[e].spec.parent)
  {
    hide Norm, Published, DeleteDns;
    forall e | e in rows && e != d && Published(cfg, z, e, rows[e].spec.parent)
      ensures Published(cfg, DeleteDns(z, d, ParentOf(rows[d])), e, rows[e].spec.parent)
    {
      DeleteLeaves(cfg, z, d, ParentOf(rows[d]), e, rows[e].spec.parent);
    }
  }

  lemma DeletedIsGone(cfg: Config, z: Zones, d: string, r: Site)
    requires r.spec.parent != Some("") && Published(cfg, z, d, r.spec.parent)
    ensures !Published(cfg, DeleteDns(z, d, ParentOf(r)), d, r.spec.parent) <==> cfg.hasAddress || r.spec.parent.None?
  {
  }

  /** The parent zone is still there to put the name back. */
  lemma RestoreWorks(cfg: Config, z: Zones, d: string, r: Site)
    requires Published(cfg, z, d, r.spec.parent) && r.spec.parent != Some("")
    ensures Attempted(cfg, DeleteDns(z, d, ParentOf(r)), d, ParentOf(r)).Some?
    ensures ParentPtr(ParentOf(r)) == r.spec.parent
  {
  }

  /** With the row kept, rows and DNS are in step if and only if the name is still, or again, published. */
  lemma KeptRowSync(cfg: Config, rows: Rows, z: Zones, d: string)
    requires Normal(rows) && d in rows
    requires forall e :: e in rows && e != d ==> Published(cfg, z, e, rows[e].spec.parent)
    ensures InStep(cfg, rows, z) <==> Published(cfg, z, d, rows[d].spec.parent)
    ensures InStep(cfg, rows - {d}, z)
  {
    hide Published, Norm;
  }

  /** The places where a deletion that the provider followed can end. */
  lemma DeletionEnds(cfg: Config, ok: bool, wrote: bool, s: State, d: string)
    requires Synced(cfg, s) && d in s.rows && (s.rows[d].spec.parent.None? ==> !HasChildren(s.rows, d))
    ensures var p, z := ParentOf(s.rows[d]), DeleteDns(s.zones, d, ParentOf(s.rows[d]));
      var lasting := !cfg.hasAddress && p != "";
      && InStep(cfg, s.rows - {d}, z)
      && (InStep(cfg, s.rows, z) <==> lasting)
      && (InStep(cfg, s.rows, EnsureDns(cfg, ok, wrote, z, d, p).0) <==> ok || wrote || lasting)
  {
    hide DeleteDns, EnsureDns, Attempted, Published, ParentOf, HasChildren, Normal;
    var r := s.rows[d];
    var p, z := ParentOf(r), DeleteDns(s.zones, d, ParentOf(r));
    RootIsBlank(s.rows, d);
    DeleteOthers(cfg, s.zones, s.rows, d);
    DeletedIsGone(cfg, s.zones, d, r);
    RestoreWorks(cfg, s.zones, d, r);
    EnsureGrows(cfg, ok, wrote, z, d, p);
    EnsurePublishes(cfg, ok, wrote, z, d, p);
    KeptRowSync(cfg, s.rows, z, d);
    KeptRowSync(cfg, s.rows, EnsureDns(cfg, ok, wrote, z, d, p).0, d);
  }

  /** The provider is asked, and takes the name away. */
  ghost predicate DeleteTakes(cfg: Config, f: Faults, domain: string, s: State) {
    var d := Trim(domain);
    && d != "" && d in s.rows && !(ParentOf(s.rows[d]) == "" && Blocked(s.rows, d)) && (f.dnsOk || f.dnsWrote)
  }

  /** A deletion changes nothing, stops before the row, finishes, or puts DNS back as far as it can. */
  lemma DeleteCases(cfg: Config, f: Faults, domain: string, s: State)
    requires cfg.dns
    ensures var s', d := Delete(cfg, f, domain, s).0, Trim(domain);
      if !DeleteTakes(cfg, f, domain, s) then s' == s
      else
        var p, z := ParentOf(s.rows[d]), DeleteDns(s.zones, d, ParentOf(s.rows[d]));
        if !(f.dnsOk && f.vhostOk && f.reloadOk) then s' == s.(zones := z)
        else if f.deleteOk then s' == s.(zones := z, rows := s.rows - {d})
        else s' == s.(zones := EnsureDns(cfg, f.restoreOk, f.restoreWrote, z, d, p).0)
  {
    hide Trim, Blocked, DeleteDns, EnsureDns, ParentOf;
  }

  lemma DeleteKeepsSync(cfg: Config, f: Faults, domain: string, s: State)
    requires cfg.dns && Synced(cfg, s)
    ensures Synced(cfg, Delete(cfg, f, domain, s).0) <==> !DeleteStrands(cfg, f, domain, s)
  {
    hide Delete, Trim, Blocked, DeleteDns, EnsureDns, ParentOf, HasChildren, InStep, Normal;
    DeleteCases(cfg, f, domain, s);
    if DeleteTakes(cfg, f, domain, s) {
      InStepIsNormal(cfg, s);
      BlockedIffChildren(s.rows, domain);
      RootIsBlank(s.rows, Trim(domain));
      DeletionEnds(cfg, f.restoreOk, f.restoreWrote, s, Trim(domain));
    }
  }

  lemma InStepIsNormal(cfg: Config, s: State)
    requires Synced(cfg, s)
    ensures Normal(s.rows)
  {
  }

  lemma RootIsBlank(rows: Rows, d: string)
    requires Normal(rows) && d in rows
    ensures rows[d].spec.parent != Some("") && (ParentOf(rows[d]) == "" <==> rows[d].spec.parent.None?)
  {
    hide Norm;
  }

  lemma EditKeepsSync(cfg: Config, f: Faults, req: EditRequest, s: State)
    requires cfg.dns && Synced(cfg, s)
    ensures Synced(cfg, Edit(cfg, f, req, s).0)
  {
    hide Norm, Edit, EditAccepted, EditParent, EditOwner, EditId, Owned, WellPlaced, Published;
    EditLeavesOrWrites(cfg, f, req, s);
    if EditAccepted(cfg, f, req, s) { EditedRow(cfg, f, req, s); }
  }

  lemma ToggleKeepsSync(cfg: Config, domain: string, enabled: bool, s: State)
    requires Synced(cfg, s)
    ensures Synced(cfg, Toggle(domain, enabled, s))
  {
    hide Norm, Trim, Published;
  }

  // ---------------------------------------------------------------- runs

  ghost predicate NotStranding(cfg: Config, s: State, op: Op) {
    match op
    case DoAdd(f, req) => !AddStrands(cfg, f, req, s)
    case DoDelete(f, d) => !DeleteStrands(cfg, f, d, s)
    case _ => true
  }

  /** Rows and DNS over whole runs of adds, edits, toggles and deletes, failures included: every
      stored root keeps its zone and every stored subdomain its name in it. */
  lemma {:induction false} RunKeepsSync(cfg: Config, s: State, ops: seq<Op>)
    requires cfg.dns && Synced(cfg, s)
    requires forall n :: 0 <= n < |ops| ==> NotStranding(cfg, ExecAll(cfg, s, ops[..n]), ops[n])
    ensures Synced(cfg, ExecAll(cfg, s, ops))
    decreases |ops|
  {
    hide Synced, AddStrands, DeleteStrands, Add, Edit, Delete, Toggle;
    if ops == [] {
    } else {
      var rest, op := ops[..|ops| - 1], ops[|ops| - 1];
      forall n | 0 <= n < |rest|
        ensures NotStranding(cfg, ExecAll(cfg, s, rest[..n]), rest[n])
      {
        assert rest[..n] == ops[..n];
      }
      RunKeepsSync(cfg, s, rest);
      var s1 := ExecAll(cfg, s, rest);
      match op {
        case DoAdd(f, req) => AddKeepsSync(cfg, f, req, s1);
        case DoEdit(f, req) => EditKeepsSync(cfg, f, req, s1);
        case DoToggle(d, enabled) => ToggleKeepsSync(cfg, d, enabled, s1);
        case DoDelete(f, d) => DeleteKeepsSync(cfg, f, d, s1);
      }
    }
  }

  /** New domains whose compensating delete succeeds; deletions of which the provider's call fails without a
      trace, or which nginx follows and whose row delete, or else the restoring of DNS, takes effect. */
  ghost predicate Compensated(s: State, op: Op) {
    match op
    case DoAdd(f, req) => Norm(req.domain) !in s.rows && f.deleteOk
    case DoDelete(f, _) =>
      (!f.dnsOk && !f.dnsWrote)
        || (f.dnsOk && f.vhostOk && f.reloadOk && (f.deleteOk || f.restoreOk || f.restoreWrote))
    case _ => true
  }

  /** So runs whose compensations succeed keep rows and DNS in step. */
  lemma CompensatedRunKeepsSync(cfg: Config, s: State, ops: seq<Op>)
    requires cfg.dns && Synced(cfg, s)
    requires forall n :: 0 <= n < |ops| ==> Compensated(ExecAll(cfg, s, ops[..n]), ops[n])
    ensures Synced(cfg, ExecAll(cfg, s, ops))
  {
    hide Synced, ExecAll, AddAccepted, Published, Norm, Trim, Blocked;
    forall n | 0 <= n < |ops| ensures NotStranding(cfg, ExecAll(cfg, s, ops[..n]), ops[n]) {
      assert Compensated(ExecAll(cfg, s, ops[..n]), ops[n]);
    }
    RunKeepsSync(cfg, s, ops);
  }
}
