/** The parent/subdomain hierarchy over runs of the lifecycle operations. */
module Hierarchies {
  import opened Text
  import opened SiteStore
  import opened Lifecycle
  import opened LifecycleFacts

  /** Every subdomain row is `label.parent`, and its parent is a stored root of the same owner. */
  ghost predicate Hierarchy(rows: Rows) {
    Normal(rows) && forall d :: d in rows ==> WellPlaced(rows, d, rows[d])
  }

  ghost predicate HasChildren(rows: Rows, d: string) {
    exists e :: e in rows && rows[e].spec.parent == Some(d)
  }

  lemma PutRow(rows: Rows, d: string, r: Site)
    requires Hierarchy(rows) && Norm(d) == d && d != "" && WellPlaced(rows, d, r)
    requires r.spec.parent.Some? ==> Norm(r.spec.parent.value) == r.spec.parent.value != ""
    ensures Hierarchy(rows[d := r]) <==>
      (HasChildren(rows, d) ==> d in rows && r.spec.parent.None? && r.spec.userId == rows[d].spec.userId)
  {
    hide Norm, ChildOf;
    var rows' := rows[d := r];
    if HasChildren(rows, d) {
      var e :| e in rows && rows[e].spec.parent == Some(d);
      assert WellPlaced(rows, e, rows[e]);
      if Hierarchy(rows') {
        assert WellPlaced(rows', e, rows'[e]);
      }
    }
    if HasChildren(rows, d) ==> r.spec.parent.None? && r.spec.userId == rows[d].spec.userId {
      forall e | e in rows' ensures WellPlaced(rows', e, rows'[e]) {
        if e != d { assert WellPlaced(rows, e, rows[e]); }
      }
    }
  }

  lemma DropRow(rows: Rows, d: string)
    requires Hierarchy(rows)
    ensures Hierarchy(rows - {d}) <==> !HasChildren(rows, d) || d !in rows
  {
    hide Norm, ChildOf;
    var rows' := rows - {d};
    if HasChildren(rows, d) {
      var e :| e in rows && rows[e].spec.parent == Some(d);
      assert WellPlaced(rows, e, rows[e]);
      assert e in rows' && !WellPlaced(rows', e, rows'[e]);
    } else {
      forall e | e in rows' ensures WellPlaced(rows', e, rows'[e]) { assert WellPlaced(rows, e, rows[e]); }
    }
  }

  /** The rewritten row no longer fits the subdomains that name it as parent. */
  ghost predicate Orphans(rows: Rows, d: string, parent: string, owner: nat) {
    HasChildren(rows, d) && d in rows && (parent != "" || owner != rows[d].spec.userId)
  }

  /** SiteAdd keeps the hierarchy exactly when it does not turn a stored parent into a subdomain or
      give it to another owner; on a domain that is not stored it always does. */
  lemma AddKeepsHierarchy(cfg: Config, f: Faults, req: AddRequest, s: State)
    requires Hierarchy(s.rows)
    ensures Hierarchy(Add(cfg, f, req, s).0.rows) <==>
      !(AddAccepted(cfg, f, req, s) && Orphans(s.rows, Norm(req.domain), Norm(req.parent), AddId(req, s)))
  {
    hide Norm, ChildOf, AddAccepted, AddRow, Add;
    AddCases(cfg, f, req, s);
    if AddAccepted(cfg, f, req, s) {
      var d, r := Norm(req.domain), AddRow(cfg, req, s);
      AcceptedRow(cfg, f, req, s);
      PutRow(s.rows, d, r);
      ChildrenHaveParent(s.rows, d);
      assert d !in s.rows ==> s.rows[d := r] - {d} == s.rows;
    }
  }

  lemma ChildrenHaveParent(rows: Rows, d: string)
    requires Hierarchy(rows)
    ensures HasChildren(rows, d) ==> d in rows
  {
    hide Norm, ChildOf;
    if HasChildren(rows, d) {
      var e :| e in rows && rows[e].spec.parent == Some(d);
      assert WellPlaced(rows, e, rows[e]);
    }
  }

  lemma EditKeepsHierarchy(cfg: Config, f: Faults, req: EditRequest, s: State)
    requires Hierarchy(s.rows)
    ensures var d := Norm(req.domain);
      Hierarchy(Edit(cfg, f, req, s).0.rows) <==>
        !(EditAccepted(cfg, f, req, s) && d in s.rows && Orphans(s.rows, d, EditParent(req, s.rows[d]),
            EditId(req, s, s.rows[d])))
  {
    hide Norm, ChildOf, EditAccepted, Edit, EditParent, EditId;
    EditLeavesOrWrites(cfg, f, req, s);
    if EditAccepted(cfg, f, req, s) {
      EditedRow(cfg, f, req, s);
      var d := Norm(req.domain);
      PutRow(s.rows, d, Edit(cfg, f, req, s).0.rows[d]);
    }
  }

  /** With DNS enabled an edit by or for the same owner never breaks it: the parent is fixed. */
  lemma SameOwnerEdit(cfg: Config, f: Faults, req: EditRequest, s: State)
    requires Hierarchy(s.rows) && cfg.dns && SameOwner(req, s)
    ensures Hierarchy(Edit(cfg, f, req, s).0.rows)
  {
    hide Norm, ChildOf, EditAccepted, Edit, EditParent, EditId;
    EditKeepsHierarchy(cfg, f, req, s);
    if EditAccepted(cfg, f, req, s) {
      EditedRow(cfg, f, req, s);
      var d := Norm(req.domain);
      if HasChildren(s.rows, d) {
        var e :| e in s.rows && s.rows[e].spec.parent == Some(d);
        assert WellPlaced(s.rows, e, s.rows[e]);
      }
    }
  }

  lemma TrimmedKey(rows: Rows, domain: string)
    requires Normal(rows) && Trim(domain) in rows
    ensures ToLower(Trim(domain)) == Trim(domain)
  {
    TrimTwice(domain);
  }

  /** With DNS enabled the dependents check lets nothing through that has children. */
  lemma BlockedIffChildren(rows: Rows, domain: string)
    requires Normal(rows) && Trim(domain) in rows
    ensures Blocked(rows, Trim(domain)) <==> HasChildren(rows, Trim(domain))
  {
    TrimmedKey(rows, domain);
    hide Norm, Trim, ToLower;
    var d := Trim(domain);
    assert forall e ::
      e in rows && rows[e].spec.parent.Some? ==> Norm(rows[e].spec.parent.value) == rows[e].spec.parent.value;
    if Blocked(rows, d) {
      var e :| e in rows && rows[e].spec.parent.Some? && Norm(rows[e].spec.parent.value) == ToLower(d);
      assert rows[e].spec.parent == Some(d);
    }
    if HasChildren(rows, d) {
      var e :| e in rows && rows[e].spec.parent == Some(d);
      assert Norm(rows[e].spec.parent.value) == ToLower(d);
    }
  }

  /** SiteDelete keeps the hierarchy exactly when it does not remove a parent, which it cannot do
      while DNS is enabled. */
  lemma DeleteKeepsHierarchy(cfg: Config, f: Faults, domain: string, s: State)
    requires Hierarchy(s.rows)
    ensures Hierarchy(Delete(cfg, f, domain, s).0.rows) <==>
      !(!cfg.dns && Trim(domain) != "" && f.vhostOk && f.reloadOk && f.deleteOk && Trim(domain) in s.rows &&
          HasChildren(s.rows, Trim(domain)))
  {
    var d := Trim(domain);
    hide Norm, Trim, ChildOf, Blocked, HasChildren, DeleteDns, DeleteUndo;
    DropRow(s.rows, d);
    UndoKeepsRows(cfg, f, s, d);
    if d in s.rows {
      BlockedIffChildren(s.rows, domain);
      RootOfChildren(s.rows, d);
    }
  }

  lemma UndoKeepsRows(cfg: Config, f: Faults, s: State, d: string)
    ensures forall z, p :: DeleteUndo(cfg, f, s.(zones := z), d, p).0.rows == s.rows
  {
  }

  lemma RootOfChildren(rows: Rows, d: string)
    requires Hierarchy(rows) && d in rows
    ensures HasChildren(rows, d) ==> rows[d].spec.parent.None?
    ensures rows[d].spec.parent.Some? ==> rows[d].spec.parent.value != ""
  {
    hide Norm, ChildOf;
    if HasChildren(rows, d) {
      var e :| e in rows && rows[e].spec.parent == Some(d);
      assert WellPlaced(rows, e, rows[e]);
    }
  }

  lemma ToggleKeepsHierarchy(domain: string, enabled: bool, s: State)
    requires Hierarchy(s.rows)
    ensures Hierarchy(Toggle(domain, enabled, s).rows)
  {
    hide Norm, Trim, ChildOf, Toggle;
    ToggleSpecs(domain, enabled, s);
    var rows' := Toggle(domain, enabled, s).rows;
    forall e | e in rows' ensures WellPlaced(rows', e, rows'[e]) { assert WellPlaced(s.rows, e, s.rows[e]); }
  }

  ghost predicate Proper(s: State, op: Op) {
    match op
    case DoAdd(_, req) => Norm(req.domain) !in s.rows
    case DoEdit(_, req) => SameOwner(req, s)
    case _ => true
  }

  /** The hierarchy over whole runs with DNS enabled: new domains, edits that keep the owner,
      enabling, disabling and deleting, with any failures on the way. */
  lemma {:induction false} RunKeepsHierarchy(cfg: Config, s: State, ops: seq<Op>)
    requires cfg.dns && Hierarchy(s.rows)
    requires forall n :: 0 <= n < |ops| ==> Proper(ExecAll(cfg, s, ops[..n]), ops[n])
    ensures Hierarchy(ExecAll(cfg, s, ops).rows)
    decreases |ops|
  {
    hide Hierarchy, Add, Edit, Delete, Toggle, Norm, Trim, SameOwner, AddAccepted;
    if ops == [] {
    } else {
      var rest, op := ops[..|ops| - 1], ops[|ops| - 1];
      forall n | 0 <= n < |rest| ensures Proper(ExecAll(cfg, s, rest[..n]), rest[n]) { assert rest[..n] == ops[..n]; }
      RunKeepsHierarchy(cfg, s, rest);
      var s1 := ExecAll(cfg, s, rest);
      match op {
        case DoAdd(f, req) => AddKeepsHierarchy(cfg, f, req, s1);
        case DoEdit(f, req) => SameOwnerEdit(cfg, f, req, s1);
        case DoToggle(d, enabled) => ToggleKeepsHierarchy(d, enabled, s1);
        case DoDelete(f, d) => DeleteKeepsHierarchy(cfg, f, d, s1);
      }
    }
  }
}
