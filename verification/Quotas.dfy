/** Package quotas over runs of the lifecycle operations, with fixed limits. */
module Quotas {
  import opened Text
  import opened SiteStore
  import opened Lifecycle
  import opened LifecycleFacts

  predicate Fits(limit: int, n: nat) {
    limit == -1 || n <= limit
  }

  /** -1 is the only negative limit. */
  ghost predicate SaneLimits(cfg: Config) {
    forall name ::
      cfg.limits(name).Some? ==> cfg.limits(name).value.maxDomains >= -1 && cfg.limits(name).value.maxSubdomains >= -1
  }

  /** The users table maps names to distinct ids and back, and every site has an owner in it. */
  ghost predicate Keyed(s: State) {
    && s.nextUser > 0
    && (forall n :: n in s.users ==> 0 < s.users[n] < s.nextUser && s.users[n] in s.names && s.names[s.users[n]] == n)
    && (forall i :: i in s.names ==> s.names[i] in s.users && s.users[s.names[i]] == i)
    && (forall d :: d in s.rows ==> s.rows[d].spec.userId in s.names)
  }

  ghost predicate Within(cfg: Config, rows: Rows, name: string, id: nat) {
    cfg.limits(name).Some? ==> forall root :: Fits(LimitFor(cfg.limits(name).value, root), |Owned(rows, id, root)|)
  }

  /** No user has more roots or subdomains than the package allows. */
  ghost predicate WithinQuota(cfg: Config, s: State) {
    Keyed(s) && forall i :: i in s.names ==> Within(cfg, s.rows, s.names[i], i)
  }

  // ---------------------------------------------------------------- counting

  lemma SubsetCount(a: set<string>, b: set<string>)
    requires a <= b
    ensures |a| <= |b|
  {
    assert b == a + (b - a);
  }

  /** Writing row `d` adds at most one site, to its new owner's count of its kind. */
  lemma CountAfterPut(rows: Rows, d: string, r: Site, id: nat, root: bool)
    ensures var n, n' := |Owned(rows, id, root)|, |Owned(rows[d := r], id, root)|;
      var mine := r.spec.userId == id && r.spec.parent.None? == root;
      var was := d in rows && rows[d].spec.userId == id && rows[d].spec.parent.None? == root;
      n' == n + (if mine && !was then 1 else 0) - (if was && !mine then 1 else 0)
  {
    hide Owned;
    SameElsewhere(rows, d, r, id, root);
    SplitAt(Owned(rows, id, root), d);
    SplitAt(Owned(rows[d := r], id, root), d);
  }

  lemma SameElsewhere(rows: Rows, d: string, r: Site, id: nat, root: bool)
    ensures Owned(rows, id, root) - {d} == Owned(rows[d := r], id, root) - {d}
    ensures d in Owned(rows, id, root) <==> d in rows && rows[d].spec.userId == id && rows[d].spec.parent.None? == root
    ensures d in Owned(rows[d := r], id, root) <==> r.spec.userId == id && r.spec.parent.None? == root
  {
    var rows' := rows[d := r];
    var a, b := Owned(rows, id, root), Owned(rows', id, root);
    forall e | e != d ensures e in a <==> e in b {
      assert e in rows <==> e in rows';
    }
  }

  lemma SplitAt(a: set<string>, d: string)
    ensures |a| == |a - {d}| + (if d in a then 1 else 0)
  {
    if d in a { assert a == (a - {d}) + {d}; } else { assert a == a - {d}; }
  }

  lemma CountAfterDrop(rows: Rows, d: string, id: nat, root: bool)
    ensures |Owned(rows - {d}, id, root)| <= |Owned(rows, id, root)|
  {
    SubsetCount(Owned(rows - {d}, id, root), Owned(rows, id, root));
  }

  lemma DropWithin(cfg: Config, s: State, d: string)
    requires WithinQuota(cfg, s)
    ensures WithinQuota(cfg, s.(rows := s.rows - {d}))
  {
    forall i, root | i in s.names
      ensures |Owned(s.rows - {d}, i, root)| <= |Owned(s.rows, i, root)|
    {
      CountAfterDrop(s.rows, d, i, root);
    }
    forall i | i in s.names
      ensures Within(cfg, s.rows - {d}, s.names[i], i)
    {
      assert Within(cfg, s.rows, s.names[i], i);
    }
  }

  /** A new user owns nothing. */
  lemma RegisterWithin(cfg: Config, s: State, name: string)
    requires WithinQuota(cfg, s) && SaneLimits(cfg)
    ensures WithinQuota(cfg, WithUser(s, name))
  {
    if name !in s.users {
      var s' := WithUser(s, name);
      forall i | i in s.names ensures i < s.nextUser { assert s.names[i] in s.users; }
      forall root ensures |Owned(s.rows, s.nextUser, root)| == 0 { assert Owned(s.rows, s.nextUser, root) == {}; }
      forall i | i in s'.names ensures Within(cfg, s'.rows, s'.names[i], i) {
        if i in s.names { assert Within(cfg, s.rows, s.names[i], i); }
      }
    }
  }

  /** The one count that may grow when row `d` is written by `r`: it grows past its limit exactly
      when there was no room and the site did not count there already. */
  lemma PutWithin(cfg: Config, s: State, d: string, r: Site)
    requires WithinQuota(cfg, s) && r.spec.userId in s.names
    ensures var id, root := r.spec.userId, r.spec.parent.None?;
      var limits := cfg.limits(s.names[id]);
      var was := d in s.rows && s.rows[d].spec.userId == id && s.rows[d].spec.parent.None? == root;
      WithinQuota(cfg, s.(rows := s.rows[d := r])) <==>
        (limits.Some? && !was ==> HasRoom(LimitFor(limits.value, root), |Owned(s.rows, id, root)|))
  {
    var rows' := s.rows[d := r];
    var id, root := r.spec.userId, r.spec.parent.None?;
    assert Within(cfg, s.rows, s.names[id], id);
    CountAfterPut(s.rows, d, r, id, root);
    CountAfterPut(s.rows, d, r, id, !root);
    forall i, k | i in s.names && i != id
      ensures |Owned(rows', i, k)| <= |Owned(s.rows, i, k)|
    {
      CountAfterPut(s.rows, d, r, i, k);
    }
    forall i | i in s.names && i != id
      ensures Within(cfg, rows', s.names[i], i)
    {
      assert Within(cfg, s.rows, s.names[i], i);
    }
    PutWithinOwner(cfg, s, d, r);
    if WithinQuota(cfg, s.(rows := rows')) { assert Within(cfg, rows', s.names[id], id); }
  }

  lemma BothKinds(l: Limits, rows: Rows, id: nat, root: bool)
    ensures (forall k :: Fits(LimitFor(l, k), |Owned(rows, id, k)|)) <==>
      Fits(LimitFor(l, root), |Owned(rows, id, root)|) && Fits(LimitFor(l, !root), |Owned(rows, id, !root)|)
  {
    hide Owned, Fits, LimitFor;
    if Fits(LimitFor(l, root), |Owned(rows, id, root)|) && Fits(LimitFor(l, !root), |Owned(rows, id, !root)|) {
      forall k ensures Fits(LimitFor(l, k), |Owned(rows, id, k)|) {
        if k != root { assert k == !root; }
      }
    }
  }

  lemma PutWithinOwner(cfg: Config, s: State, d: string, r: Site)
    requires WithinQuota(cfg, s) && r.spec.userId in s.names
    ensures var id, root := r.spec.userId, r.spec.parent.None?;
      var limits := cfg.limits(s.names[id]);
      var was := d in s.rows && s.rows[d].spec.userId == id && s.rows[d].spec.parent.None? == root;
      Within(cfg, s.rows[d := r], s.names[id], id) <==>
        (limits.Some? && !was ==> HasRoom(LimitFor(limits.value, root), |Owned(s.rows, id, root)|))
  {
    hide Owned;
    var id, root := r.spec.userId, r.spec.parent.None?;
    assert Within(cfg, s.rows, s.names[id], id);
    CountAfterPut(s.rows, d, r, id, root);
    CountAfterPut(s.rows, d, r, id, !root);
    if cfg.limits(s.names[id]).Some? {
      var l := cfg.limits(s.names[id]).value;
      assert Fits(LimitFor(l, root), |Owned(s.rows, id, root)|) && Fits(LimitFor(l, !root), |Owned(s.rows, id, !root)|);
      assert Within(cfg, s.rows[d := r], s.names[id], id) <==>
        Fits(LimitFor(l, root), |Owned(s.rows[d := r], id, root)|) &&
          Fits(LimitFor(l, !root), |Owned(s.rows[d := r], id, !root)|) by
      {
        BothKinds(l, s.rows[d := r], id, root);
      }
    }
  }

  // ---------------------------------------------------------------- the operations

  lemma OwnerRegistered(s: State, name: string)
    requires Keyed(s)
    ensures var s' := WithUser(s, name);
      name in s'.users && s'.users[name] in s'.names && s'.names[s'.users[name]] == name && s'.rows == s.rows
  {
  }

  predicate SameUsers(a: State, b: State) {
    a.users == b.users && a.names == b.names && a.nextUser == b.nextUser
  }

  /** Only the rows and the users matter. */
  lemma OtherFields(cfg: Config, a: State, b: State)
    ensures a.rows == b.rows && SameUsers(a, b) ==> (WithinQuota(cfg, a) <==> WithinQuota(cfg, b))
  {
  }

  lemma AddDnsWithin(cfg: Config, f: Faults, s: State, d: string, p: string, created: bool)
    requires WithinQuota(cfg, s)
    ensures WithinQuota(cfg, AddDns(cfg, f, s, d, p, created).0)
  {
    hide WithinQuota;
    DropWithin(cfg, s, d);
    var s' := AddDns(cfg, f, s, d, p, created).0;
    OtherFields(cfg, s', s);
    OtherFields(cfg, s', s.(rows := s.rows - {d}));
  }

  lemma AddUsers(cfg: Config, f: Faults, req: AddRequest, s: State)
    ensures var s' := Add(cfg, f, req, s).0; var w := WithUser(s, Trim(req.user));
      !AddAccepted(cfg, f, req, s) ==> s' == s || s' == w
  {
    hide AddSyntax, AddSpec, AddDns, Norm, Trim, Stored;
    ChecksIgnoreUsers(cfg, s, WithUser(s, Trim(req.user)), req, AddId(req, s));
  }

  /** Any SiteAdd, of a new or a stored domain, keeps every count within its limit. */
  lemma AddKeepsQuota(cfg: Config, f: Faults, req: AddRequest, s: State)
    requires WithinQuota(cfg, s) && SaneLimits(cfg)
    ensures WithinQuota(cfg, Add(cfg, f, req, s).0)
  {
    hide WithinQuota, Owned, AddAccepted, Add, AddRow, AddDns, Norm, Trim, Keyed;
    var w := WithUser(s, Trim(req.user));
    RegisterWithin(cfg, s, Trim(req.user));
    AddCases(cfg, f, req, s);
    AddUsers(cfg, f, req, s);
    if AddAccepted(cfg, f, req, s) {
      var d, p, r := Norm(req.domain), Norm(req.parent), AddRow(cfg, req, s);
      QuotaKeys(cfg, s);
      OwnerRegistered(s, Trim(req.user));
      AcceptedRow(cfg, f, req, s);
      PutWithin(cfg, w, d, r);
      var w' := w.(rows := s.rows[d := r], clock := s.clock + 1);
      OtherFields(cfg, w', w.(rows := w.rows[d := r]));
      AddDnsWithin(cfg, f, w', d, p, d !in s.rows);
    }
  }

  lemma QuotaKeys(cfg: Config, s: State)
    requires WithinQuota(cfg, s)
    ensures Keyed(s)
  {
  }

  /** Giving a site to another owner is not checked unless it also changes kind. */
  ghost predicate Overfills(cfg: Config, req: EditRequest, s: State) {
    var d := Norm(req.domain);
    d in s.rows &&
    var cur := s.rows[d];
    var id, root, name := EditId(req, s, cur), EditParent(req, cur) == "", EditOwner(s, req, cur);
    id != cur.spec.userId && name.Some? && cfg.limits(name.value).Some? &&
      !HasRoom(LimitFor(cfg.limits(name.value).value, root), |Owned(s.rows, id, root)|)
  }

  lemma EditUsers(cfg: Config, f: Faults, req: EditRequest, s: State)
    requires Keyed(s)
    ensures SameUsers(Edit(cfg, f, req, s).0, s) || SameUsers(Edit(cfg, f, req, s).0, WithUser(s, Trim(req.user)))
    ensures EditAccepted(cfg, f, req, s) ==> Norm(req.domain) in s.rows
    ensures EditAccepted(cfg, f, req, s) ==>
      var s', cur := Edit(cfg, f, req, s).0, s.rows[Norm(req.domain)];
      var u, name := EditId(req, s, cur), EditOwner(s, req, cur);
      name.Some? && u in s'.names && s'.names[u] == name.value
  {
    hide EditChecks, EditSpec, Norm, Trim, IsLikelyFQDN, Stored, Upserted, EditAccepted;
    EditRefused(cfg, f, req, s);
  }

  /** SiteEdit keeps the quotas exactly when it does not hand a site to an owner without room. */
  lemma EditKeepsQuota(cfg: Config, f: Faults, req: EditRequest, s: State)
    requires WithinQuota(cfg, s) && SaneLimits(cfg) && Normal(s.rows)
    ensures WithinQuota(cfg, Edit(cfg, f, req, s).0) <==> !(EditAccepted(cfg, f, req, s) && Overfills(cfg, req, s))
  {
    hide WithinQuota, Owned, Edit, EditAccepted, Norm, Trim, Keyed, EditOwner, EditId, EditParent, WellPlaced, Normal;
    var s' := Edit(cfg, f, req, s).0;
    QuotaKeys(cfg, s);
    RegisterWithin(cfg, s, Trim(req.user));
    EditLeavesOrWrites(cfg, f, req, s);
    EditUsers(cfg, f, req, s);
    var w := s'.(rows := s.rows);
    OtherFields(cfg, w, s);
    OtherFields(cfg, w, WithUser(s, Trim(req.user)));
    if EditAccepted(cfg, f, req, s) {
      EditedRow(cfg, f, req, s);
      var d := Norm(req.domain);
      PutWithin(cfg, w, d, s'.rows[d]);
      OtherFields(cfg, s', w.(rows := w.rows[d := s'.rows[d]]));
    }
  }

  lemma DeleteKeepsQuota(cfg: Config, f: Faults, domain: string, s: State)
    requires WithinQuota(cfg, s)
    ensures WithinQuota(cfg, Delete(cfg, f, domain, s).0)
  {
    hide WithinQuota, Trim, Blocked, DeleteDns, EnsureDns;
    DropWithin(cfg, s, Trim(domain));
    var s' := Delete(cfg, f, domain, s).0;
    OtherFields(cfg, s', s);
    OtherFields(cfg, s', s.(rows := s.rows - {Trim(domain)}));
  }

  lemma ToggleKeepsQuota(cfg: Config, domain: string, enabled: bool, s: State)
    requires WithinQuota(cfg, s)
    ensures WithinQuota(cfg, Toggle(domain, enabled, s))
  {
    hide Trim, Norm, ToggleKey, HasRoom, LimitFor;
    ToggleSpecs(domain, enabled, s);
    var s' := Toggle(domain, enabled, s);
    forall i, root ensures Owned(s'.rows, i, root) == Owned(s.rows, i, root) {}
    forall i | i in s.names ensures Within(cfg, s'.rows, s'.names[i], i) { assert Within(cfg, s.rows, s.names[i], i); }
  }

  // ---------------------------------------------------------------- runs

  lemma AddKeepsNormal(cfg: Config, f: Faults, req: AddRequest, s: State)
    requires Normal(s.rows)
    ensures Normal(Add(cfg, f, req, s).0.rows)
  {
    hide Norm, AddAccepted, AddRow, Add, Owned, Normal, EnsureDns;
    AddCases(cfg, f, req, s);
    if AddAccepted(cfg, f, req, s) { NormalAdded(cfg, f, req, s); }
  }

  lemma NormalAdded(cfg: Config, f: Faults, req: AddRequest, s: State)
    requires Normal(s.rows) && AddAccepted(cfg, f, req, s)
    ensures var rows := s.rows[Norm(req.domain) := AddRow(cfg, req, s)];
      Normal(rows) && Normal(rows - {Norm(req.domain)}) && Normal(s.rows - {Norm(req.domain)})
  {
    hide Norm, AddAccepted, AddRow, WellPlaced, Owned, Trim;
    AcceptedRow(cfg, f, req, s);
  }

  lemma EditKeepsNormal(cfg: Config, f: Faults, req: EditRequest, s: State)
    requires Normal(s.rows)
    ensures Normal(Edit(cfg, f, req, s).0.rows)
  {
    hide Norm, EditAccepted, Edit, WellPlaced, EditParent, EditOwner, EditId, Owned;
    EditLeavesOrWrites(cfg, f, req, s);
    if EditAccepted(cfg, f, req, s) { EditedRow(cfg, f, req, s); }
  }

  lemma DeleteKeepsNormal(cfg: Config, f: Faults, domain: string, s: State)
    requires Normal(s.rows)
    ensures Normal(Delete(cfg, f, domain, s).0.rows)
  {
    hide Norm, Trim, Blocked, DeleteDns, EnsureDns;
  }

  lemma ToggleKeepsNormal(domain: string, enabled: bool, s: State)
    requires Normal(s.rows)
    ensures Normal(Toggle(domain, enabled, s).rows)
  {
    hide Norm, Trim;
  }

  /** Quotas over whole runs: any SiteAdd, owner-preserving SiteEdit (roots turned into subdomains
      and back included), enabling, disabling and deleting, with or without DNS. */
  lemma {:induction false} RunKeepsQuota(cfg: Config, s: State, ops: seq<Op>)
    requires WithinQuota(cfg, s) && SaneLimits(cfg) && Normal(s.rows)
    requires forall n :: 0 <= n < |ops| && ops[n].DoEdit? ==> SameOwner(ops[n].edit, ExecAll(cfg, s, ops[..n]))
    ensures WithinQuota(cfg, ExecAll(cfg, s, ops)) && Normal(ExecAll(cfg, s, ops).rows)
    decreases |ops|
  {
    hide WithinQuota, Normal, Add, Edit, Delete, Toggle, Norm, Trim, EditAccepted, Owned;
    if ops == [] {
    } else {
      var rest, op := ops[..|ops| - 1], ops[|ops| - 1];
      forall n | 0 <= n < |rest| && rest[n].DoEdit?
        ensures SameOwner(rest[n].edit, ExecAll(cfg, s, rest[..n]))
      {
        assert rest[..n] == ops[..n];
      }
      RunKeepsQuota(cfg, s, rest);
      var s1 := ExecAll(cfg, s, rest);
      match op {
        case DoAdd(f, req) => AddKeepsQuota(cfg, f, req, s1); AddKeepsNormal(cfg, f, req, s1);
        case DoEdit(f, req) => EditKeepsQuota(cfg, f, req, s1); EditKeepsNormal(cfg, f, req, s1);
        case DoToggle(d, enabled) => ToggleKeepsQuota(cfg, d, enabled, s1); ToggleKeepsNormal(d, enabled, s1);
        case DoDelete(f, d) => DeleteKeepsQuota(cfg, f, d, s1); DeleteKeepsNormal(cfg, f, d, s1);
      }
    }
  }
}
