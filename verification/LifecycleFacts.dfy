/** The row that SiteAdd or SiteEdit writes, and when they write one. */
module LifecycleFacts {
  import opened Text
  import opened SiteStore
  import opened Lifecycle

  /** Names as every writer of this module leaves them. */
  ghost predicate Normal(rows: Rows) {
    forall d ::
      d in rows ==>
        Norm(d) == d && d != "" &&
          (rows[d].spec.parent.Some? ==> Norm(rows[d].spec.parent.value) == rows[d].spec.parent.value != "")
  }

  /** `d` is a non-empty label without dots, a dot, and `p`. */
  predicate ChildOf(d: string, p: string) {
    |d| > |p| + 1 && Suffix(d, |p| + 1) == "." + p && '.' !in d[..|d| - |p| - 1]
  }

  /** A row that may stand at `d` as far as its parent is concerned. */
  ghost predicate WellPlaced(rows: Rows, d: string, r: Site) {
    r.spec.parent.Some? ==>
      var p := r.spec.parent.value;
      p in rows && p != d && rows[p].spec.parent.None? && rows[p].spec.userId == r.spec.userId && ChildOf(d, p)
  }

  lemma ValidatedParent(rows: Rows, owner: nat, d: string, p: string)
    requires IsLikelyFQDN(d) && p != "" && ValidateParent(rows, owner, d, p).0.None?
    ensures p in rows && p != d && rows[p].spec.parent.None? && rows[p].spec.userId == owner && ChildOf(d, p)
  {
    var l0 := d[..|d| - |p| - 1];
    assert Suffix(d, |p| + 1)[0] == '.';
    if l0 != [] {
      var i := |l0| - 1;
      assert d[i + 1] == '.';
      assert l0[i] == d[i];
    }
  }

  lemma StoredParent(spec: SiteSpec, p: string)
    requires spec.parent == ParentPtr(p) && Trim(p) == p
    ensures Stored(spec).parent == spec.parent && Stored(spec).userId == spec.userId
  {
  }

  lemma NormOfEmpty()
    ensures Norm("") == "" && Trim("") == ""
  {
  }

  // ---------------------------------------------------------------- SiteAdd

  function AddId(req: AddRequest, s: State): nat {
    var name := Trim(req.user);
    if name in s.users then s.users[name] else s.nextUser
  }

  /** Every check passes and the row is written. */
  ghost predicate AddAccepted(cfg: Config, f: Faults, req: AddRequest, s: State) {
    var u := AddId(req, s);
    var (bad, stem) := AddChecks(cfg, s, req, u);
    && AddSyntax(req).None? && bad.None? && (req.provision ==> f.provisionOk)
    && f.upsertOk && u != 0 && AddSpec(cfg, req, u, stem).webroot != ""
  }

  ghost function AddRow(cfg: Config, req: AddRequest, s: State): Site {
    var d, u := Norm(req.domain), AddId(req, s);
    Upserted(s.rows, d, AddSpec(cfg, req, u, AddChecks(cfg, s, req, u).1), true, s.clock + 1)[d]
  }

  /** SiteAdd either leaves rows and DNS alone, or writes one row and goes on to DNS. */
  lemma AddCases(cfg: Config, f: Faults, req: AddRequest, s: State)
    ensures var (s', bad) := Add(cfg, f, req, s);
      var d, p, r := Norm(req.domain), Norm(req.parent), AddRow(cfg, req, s);
      && (!AddAccepted(cfg, f, req, s) ==> s'.rows == s.rows && s'.zones == s.zones && bad.Some?)
      && (AddAccepted(cfg, f, req, s) ==>
        (s', bad) == AddDns(cfg, f, WithUser(s, Trim(req.user)).(rows := s.rows[d := r], clock := s.clock + 1), d, p,
            d !in s.rows))
  {
    hide AddSyntax, AddSpec, AddDns, Norm, Trim, Stored;
    ChecksIgnoreUsers(cfg, s, WithUser(s, Trim(req.user)), req, AddId(req, s));
  }

  lemma ChecksIgnoreUsers(cfg: Config, a: State, b: State, req: AddRequest, u: nat)
    requires a.rows == b.rows
    ensures AddChecks(cfg, a, req, u) == AddChecks(cfg, b, req, u)
  {
  }

  lemma AcceptedRow(cfg: Config, f: Faults, req: AddRequest, s: State)
    requires AddAccepted(cfg, f, req, s)
    ensures var d, p, r, u := Norm(req.domain), Norm(req.parent), AddRow(cfg, req, s), AddId(req, s);
      && Norm(d) == d && d != "" && Trim(d) == d
      && r.spec.parent == ParentPtr(p) && Norm(p) == p && r.spec.userId == u && WellPlaced(s.rows, d, r)
      && cfg.limits(Trim(req.user)).Some?
      && HasRoom(LimitFor(cfg.limits(Trim(req.user)).value, p == ""), |Owned(s.rows, u, p == "")|)
  {
    hide Norm, Trim, Owned, AddSpec, IsLikelyFQDN, ValidateParent, ChildOf, Stored, PhpAllowed, KnownMode, LimitFor,
        HasRoom, OrElse;
    var d, p, u := Norm(req.domain), Norm(req.parent), AddId(req, s);
    NormIdempotent(req.domain);
    NormIdempotent(req.parent);
    StoredParent(AddSpec(cfg, req, u, AddChecks(cfg, s, req, u).1), p);
    if p != "" { ValidatedParent(s.rows, u, d, p); }
  }

  // ---------------------------------------------------------------- SiteEdit

  /** The owner id after the edit. */
  function EditId(req: EditRequest, s: State, cur: Site): nat {
    var name := Trim(req.user);
    if name == "" then cur.spec.userId else if name in s.users then s.users[name] else s.nextUser
  }

  /** Every check passes and the row is written. */
  ghost predicate EditAccepted(cfg: Config, f: Faults, req: EditRequest, s: State) {
    var d := Norm(req.domain);
    d != "" && IsLikelyFQDN(d) && d in s.rows &&
    var cur := s.rows[d];
    var name, u := EditOwner(s, req, cur), EditId(req, s, cur);
    name.Some? &&
    var (bad, stem) := EditChecks(cfg, s, req, cur, name.value, u);
    bad.None? && f.upsertOk && u != 0 && EditSpec(cfg, req, cur, name.value, u, stem).webroot != ""
  }

  lemma EditChecksIgnoreUsers(cfg: Config, a: State, b: State, req: EditRequest, cur: Site, name: string, u: nat)
    requires a.rows == b.rows
    ensures EditChecks(cfg, a, req, cur, name, u) == EditChecks(cfg, b, req, cur, name, u)
  {
  }

  /** The edit is refused exactly when it is not accepted. */
  lemma EditRefused(cfg: Config, f: Faults, req: EditRequest, s: State)
    ensures Edit(cfg, f, req, s).1.None? <==> EditAccepted(cfg, f, req, s)
  {
    hide EditChecks, EditSpec, Norm, Trim, IsLikelyFQDN, Stored, Upserted;
    var d := Norm(req.domain);
    if d in s.rows && EditOwner(s, req, s.rows[d]).Some? {
      var name, u := EditOwner(s, req, s.rows[d]).value, EditId(req, s, s.rows[d]);
      EditChecksIgnoreUsers(cfg, s, WithUser(s, name), req, s.rows[d], name, u);
    }
  }

  ghost predicate SameOwner(req: EditRequest, s: State) {
    Norm(req.domain) in s.rows ==> EditId(req, s, s.rows[Norm(req.domain)]) == s.rows[Norm(req.domain)].spec.userId
  }

  lemma EditLeavesOrWrites(cfg: Config, f: Faults, req: EditRequest, s: State)
    ensures var s', d := Edit(cfg, f, req, s).0, Norm(req.domain);
      && s'.zones == s.zones
      && (!EditAccepted(cfg, f, req, s) ==> s'.rows == s.rows)
      && (EditAccepted(cfg, f, req, s) ==> d in s.rows && d in s'.rows && s'.rows == s.rows[d := s'.rows[d]])
  {
    hide EditChecks, EditSpec, Norm, Trim, IsLikelyFQDN, Stored, EditAccepted;
    EditRefused(cfg, f, req, s);
  }

  lemma EditedRow(cfg: Config, f: Faults, req: EditRequest, s: State)
    requires EditAccepted(cfg, f, req, s) && Normal(s.rows)
    ensures Norm(req.domain) in s.rows && Norm(req.domain) in Edit(cfg, f, req, s).0.rows
    ensures var d := Norm(req.domain);
      var cur, r := s.rows[d], Edit(cfg, f, req, s).0.rows[d];
      var p, name, u := EditParent(req, cur), EditOwner(s, req, cur), EditId(req, s, cur);
      && Norm(d) == d && d != "" && Norm(p) == p
      && r.spec.parent == ParentPtr(p) && r.spec.userId == u && WellPlaced(s.rows, d, r)
      && name.Some? && cfg.limits(name.value).Some?
      && (cfg.dns ==> r.spec.parent == cur.spec.parent)
      && (r.spec.parent.None? != cur.spec.parent.None? ==>
        HasRoom(LimitFor(cfg.limits(name.value).value, p == ""), |Owned(s.rows, u, p == "")|))
  {
    hide Norm, Trim, Owned, EditSpec, IsLikelyFQDN, ValidateParent, ChildOf, Stored, PhpAllowed, KnownMode, LimitFor,
        HasRoom, OrElse, EditAccepted;
    EditRefused(cfg, f, req, s);
    NormOfEmpty();
    var d := Norm(req.domain);
    var cur := s.rows[d];
    var p, u, name := EditParent(req, cur), EditId(req, s, cur), EditOwner(s, req, cur).value;
    NormIdempotent(req.domain);
    NormIdempotent(p);
    NormIdempotent(req.parent);
    var s1 := if Trim(req.user) != "" then WithUser(s, name) else s;
    var (bad, stem) := EditChecks(cfg, s1, req, cur, name, u);
    StoredParent(EditSpec(cfg, req, cur, name, u, stem), p);
    if p != "" { ValidatedParent(s.rows, u, d, p); }
  }

  // ---------------------------------------------------------------- SiteEnable, SiteDisable

  ghost predicate SameSpecs(a: Rows, b: Rows) {
    a.Keys == b.Keys && forall d :: d in a ==> b[d].spec == a[d].spec
  }

  lemma ToggleSpecs(domain: string, enabled: bool, s: State)
    ensures SameSpecs(s.rows, Toggle(domain, enabled, s).rows)
  {
    hide ToggleKey;
  }

  // ---------------------------------------------------------------- runs

  datatype Op = DoAdd(f: Faults, add: AddRequest) | DoEdit(f: Faults, edit: EditRequest) | DoToggle(domain: string,
          enabled: bool) | DoDelete(f: Faults, domain: string)

  ghost function Exec(cfg: Config, s: State, op: Op): State {
    match op
    case DoAdd(f, req) => Add(cfg, f, req, s).0
    case DoEdit(f, req) => Edit(cfg, f, req, s).0
    case DoToggle(d, enabled) => Toggle(d, enabled, s)
    case DoDelete(f, d) => Delete(cfg, f, d, s).0
  }

  ghost function ExecAll(cfg: Config, s: State, ops: seq<Op>): State {
    if ops == [] then s else Exec(cfg, ExecAll(cfg, s, ops[..|ops| - 1]), ops[|ops| - 1])
  }
}
