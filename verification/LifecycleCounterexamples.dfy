/** Concrete requests of the site lifecycle on which a plausible promise fails. */
module LifecycleCounterexamples {
  import opened Text
  import opened SiteStore
  import opened Lifecycle
  import opened LifecycleFacts
  import opened Hierarchies
  import Quotas
  import opened DnsSagas

  /** Two users, at most `roots` root domains each, and any number of subdomains. */
  function Setup(dns: bool, roots: int): Config {
    Config(dns, true, "/h", "", (n: string) => Some(Limits(roots, -1, [])))
  }

  function Row(owner: nat, parent: Option<string>): Site {
    Site(SiteSpec(owner, parent, "static", "/w", "", false, "", "", ""), true, 1, None, NeverApplied, NoError, "")
  }

  function Store0(rows: Rows, zones: Zones): State {
    State(rows, map["u" := 1, "v" := 2], map[1 := "u", 2 := "v"], 3, zones, 1)
  }

  /** The root b.c of user u with the subdomain a.b.c. */
  function Family(): Rows {
    map["b.c" := Row(1, None), "a.b.c" := Row(1, Some("b.c"))]
  }

  const ALL_WELL := Faults(true, true, true, true, true, true, true, true, true)

  lemma Names()
    ensures Norm("b.c") == "b.c" && Trim("b.c") == "b.c" && Norm("a.b.c") == "a.b.c"
    ensures Norm("") == "" && Trim("") == "" && Trim("v") == "v" && Trim("static") == "static" && Trim("/w") == "/w"
    ensures Norm("d.e") == "d.e"
  {
    assert Trim("d.e") == "d.e" && ToLower("d.e") == "d.e";
    assert Trim("b.c") == "b.c" && Trim("a.b.c") == "a.b.c";
    assert ToLower("b.c") == "b.c" && ToLower("a.b.c") == "a.b.c";
    NormOfEmpty();
  }

  lemma LikelyFQDN()
    ensures IsLikelyFQDN("b.c")
  {
    assert "c"[1..] == "" && Split("", '.') == [""];
    assert ['c'] + "" == "c" && ['b'] + "" == "b";
    assert Split("c", '.') == [['c'] + ""] + [""][1..] == ["c"];
    assert ".c"[1..] == "c" && Split(".c", '.') == ["", "c"];
    assert "b.c"[1..] == ".c" && Split("b.c", '.') == [['b'] + ""] + ["", "c"][1..] == ["b", "c"];
    assert '.' in "b.c" by { assert "b.c"[1] == '.'; }
  }

  lemma FamilyIsWell()
    ensures Hierarchy(Family()) && HasChildren(Family(), "b.c")
  {
    hide Norm;
    Names();
    assert Suffix("a.b.c", 4) == ".b.c" && "." + "b.c" == ".b.c" && "a.b.c"[..1] == "a";
    assert ChildOf("a.b.c", "b.c");
    assert Family()["a.b.c"].spec.parent == Some("b.c");
  }

  /** SiteAdd of a stored parent by another user takes it away from its subdomains. */
  lemma AddOrphans() returns (req: AddRequest)
    ensures Hierarchy(Family()) && !Hierarchy(Add(Setup(false, -1), ALL_WELL, req, Store0(Family(), map[])).0.rows)
  {
    hide Norm, Trim, IsLikelyFQDN, Hierarchy, HasChildren, Owned, Stored;
    Names();
    LikelyFQDN();
    FamilyIsWell();
    req := AddRequest("v", "b.c", "", "static", "", "/w", false, false, "", "", "");
    var cfg, s := Setup(false, -1), Store0(Family(), map[]);
    assert AddAccepted(cfg, ALL_WELL, req, s);
    AddKeepsHierarchy(cfg, ALL_WELL, req, s);
  }

  /** So does giving it to another user. */
  lemma EditOrphans() returns (req: EditRequest)
    ensures Hierarchy(Family()) && !Hierarchy(Edit(Setup(true, -1), ALL_WELL, req, Store0(Family(), map[])).0.rows)
  {
    hide Norm, Trim, IsLikelyFQDN, Hierarchy, HasChildren, Owned, Stored;
    Names();
    LikelyFQDN();
    FamilyIsWell();
    req := EditRequest("b.c", "v", "", false, "", "", "/w", None, None, "", "", "");
    var cfg, s := Setup(true, -1), Store0(Family(), map[]);
    assert EditAccepted(cfg, ALL_WELL, req, s);
    EditKeepsHierarchy(cfg, ALL_WELL, req, s);
  }

  /** Without DNS a parent can be deleted. */
  lemma DeleteOrphans()
    ensures Hierarchy(Family()) && !Hierarchy(Delete(Setup(false, -1), ALL_WELL, "b.c", Store0(Family(), map[])).0.rows)
  {
    hide Norm, Trim, Hierarchy, HasChildren, Delete;
    Names();
    FamilyIsWell();
    DeleteKeepsHierarchy(Setup(false, -1), ALL_WELL, "b.c", Store0(Family(), map[]));
  }

  /** A delete that cannot remove the vhost has taken the zone already. */
  lemma DeleteLosesZone()
    ensures var cfg, s := Setup(true, -1), Store0(map["b.c" := Row(1, None)], map["b.c" := {}]);
      Synced(cfg, s) && !Synced(cfg, Delete(cfg, ALL_WELL.(vhostOk := false), "b.c", s).0)
  {
    hide Norm, Trim, Delete;
    Names();
    DeleteKeepsSync(Setup(true, -1), ALL_WELL.(vhostOk := false), "b.c",
        Store0(map["b.c" := Row(1, None)], map["b.c" := {}]));
  }

  /** So has a delete whose provider call fails after it removed the zone file. */
  lemma FailedDeleteTakesZone()
    ensures var cfg, s := Setup(true, -1), Store0(map["b.c" := Row(1, None)], map["b.c" := {}]);
      var (s', bad) := Delete(cfg, ALL_WELL.(dnsOk := false), "b.c", s);
      Synced(cfg, s) && bad == Some(DnsFailed) && "b.c" in s'.rows && "b.c" !in s'.zones
  {
    hide Norm, Trim, Blocked, HasChildren;
    Names();
    var s := Store0(map["b.c" := Row(1, None)], map["b.c" := {}]);
    LoneRoot(s.rows, "b.c");
  }

  lemma LoneRoot(rows: Rows, d: string)
    requires rows.Keys == {d} && rows[d].spec.parent.None?
    ensures !Blocked(rows, d)
  {
    hide Norm;
  }

  /** A SiteAdd that fails after the provider wrote the zone file takes its row back and leaves the zone. */
  lemma FailedAddLeavesZone() returns (req: AddRequest)
    ensures var (s', bad) := Add(Setup(true, -1), ALL_WELL.(dnsOk := false), req, Store0(map[], map[]));
      bad == Some(DnsFailed) && s'.rows == map[] && "b.c" in s'.zones
  {
    hide Norm, Trim, IsLikelyFQDN, Owned, Stored, Add, AddRow;
    Names();
    LikelyFQDN();
    req := AddRequest("v", "b.c", "", "static", "", "/w", false, false, "", "", "");
    var cfg, f, s := Setup(true, -1), ALL_WELL.(dnsOk := false), Store0(map[], map[]);
    assert AddAccepted(cfg, f, req, s);
    AddCases(cfg, f, req, s);
  }

  /** Each user has one root, which is all they may have. */
  function Full(): Rows {
    map["b.c" := Row(1, None), "d.e" := Row(2, None)]
  }

  lemma FullIsWithin()
    ensures Quotas.WithinQuota(Setup(false, 1), Store0(Full(), map[]))
    ensures |Owned(Full(), 2, true)| == 1
  {
    assert Owned(Full(), 1, true) == {"b.c"} && Owned(Full(), 2, true) == {"d.e"};
    assert Owned(Full(), 1, false) == {} && Owned(Full(), 2, false) == {};
  }

  /** An edit hands the second user a second root. */
  lemma EditOverfills() returns (req: EditRequest)
    ensures var cfg, s := Setup(false, 1), Store0(Full(), map[]);
      Quotas.WithinQuota(cfg, s) && !Quotas.WithinQuota(cfg, Edit(cfg, ALL_WELL, req, s).0)
  {
    hide Norm, Trim, IsLikelyFQDN, Owned, Stored, Quotas.WithinQuota;
    Names();
    LikelyFQDN();
    FullIsWithin();
    req := EditRequest("b.c", "v", "", false, "", "", "/w", None, None, "", "", "");
    var cfg, s := Setup(false, 1), Store0(Full(), map[]);
    assert EditAccepted(cfg, ALL_WELL, req, s);
    assert Quotas.Overfills(cfg, req, s);
    Quotas.EditKeepsQuota(cfg, ALL_WELL, req, s);
  }
}
