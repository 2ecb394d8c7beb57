/** The contents of an archive and the scoped export of internal/backup/backup.go (buildDump). */
module BackupDump {
  import opened Text
  import opened BackupTables

  datatype PanelDump = PanelDump(username: string, hash: string, role: string, enabled: bool, reseller: string,
          systemUser: string)
  datatype UserDump = UserDump(username: string, home: string)
  datatype PackageDump = PackageDump(name: string, limits: Limits)
  datatype SiteDump = SiteDump(owner: string, domain: string, fields: Fields)
  datatype TargetDump = TargetDump(domain: string, target: string, t: Target)

  datatype Dump = Dump(panel: seq<PanelDump>, users: seq<UserDump>, packages: seq<PackageDump>, sites: seq<SiteDump>,
          targets: seq<TargetDump>)

  datatype Scope = ScopeUser(name: string) | ScopeReseller(name: string) | ScopeAll

  /** The panel users of a scope; None when its subject does not exist. */
  ghost function Included(v: View, scope: Scope): Option<set<string>> {
    match scope
    case ScopeUser(n) => if Trim(n) in v.panel then Some({Trim(n)}) else None
    case ScopeReseller(n) =>
      if Trim(n) in v.panel && v.panel[Trim(n)].role == "reseller" then Some({Trim(n)} + Customers(v.panel, Trim(n)))
      else None
    case ScopeAll => Some(v.panel.Keys)
  }

  ghost function Customers(panel: map<string, PanelView>, reseller: string): set<string> {
    set m | m in panel && panel[m].role == "user" && panel[m].reseller == Some(reseller)
  }

  /** The archived form of a panel user; no reseller is the empty name. */
  function PanelDumpOf(n: string, p: PanelView): PanelDump {
    PanelDump(n, p.hash, p.role, p.enabled, if p.reseller.Some? then p.reseller.value else "", p.systemUser)
  }

  /** Of an included panel user also the system user and its sites are exported. */
  predicate Exported(v: View, inc: set<string>, n: string) {
    n in inc && n in v.panel && n in v.users
  }

  ghost predicate PanelListed(d: seq<PanelDump>, v: View, inc: set<string>) {
    && (forall i, j :: 0 <= i < j < |d| ==> Lt(d[i].username, d[j].username))
    && (forall x ::
      x in d <==> x.username in inc && x.username in v.panel && x == PanelDumpOf(x.username, v.panel[x.username]))
  }

  ghost predicate UsersListed(d: seq<UserDump>, v: View, inc: set<string>) {
    && (forall i, j :: 0 <= i < j < |d| ==> Lt(d[i].username, d[j].username))
    && (forall x :: x in d <==> Exported(v, inc, x.username) && v.users[x.username] == x.home)
  }

  ghost predicate PackagesListed(d: seq<PackageDump>, v: View) {
    && (forall i, j :: 0 <= i < j < |d| ==> Lt(d[i].name, d[j].name))
    && (forall x :: x in d <==> x.name in v.packages && v.packages[x.name] == x.limits)
  }

  /** The sites of the exported owners. */
  ghost function SitesExported(v: View, inc: set<string>): set<string> {
    set d | d in v.sites && Exported(v, inc, v.sites[d].owner)
  }

  ghost predicate SitesListed(d: seq<SiteDump>, v: View, domains: set<string>) {
    && (forall i, j :: 0 <= i < j < |d| ==> d[i].domain != d[j].domain)
    && (forall x ::
      x in d <==> x.domain in domains && x.domain in v.sites && v.sites[x.domain] == SiteView(x.owner, x.fields))
  }

  ghost predicate TargetsListed(d: seq<TargetDump>, v: View, domains: set<string>) {
    && (forall i, j :: 0 <= i < j < |d| ==> (d[i].domain, d[i].target) != (d[j].domain, d[j].target))
    && (forall x ::
      x in d <==> x.domain in domains && (x.domain, x.target) in v.targets && v.targets[(x.domain, x.target)] == x.t)
  }

  /** `d` is an export of `v` for the panel users `inc`: every entry exactly once; users and packages
      by name; sites and targets in any order. */
  ghost predicate IsDump(d: Dump, v: View, inc: set<string>) {
    && PanelListed(d.panel, v, inc) && UsersListed(d.users, v, inc) && PackagesListed(d.packages, v)
    && SitesListed(d.sites, v, SitesExported(v, inc)) && TargetsListed(d.targets, v, SitesExported(v, inc))
  }

  // ---------------------------------------------------------------- the tables behind the view

  lemma PanelSeen(db: DB, n: string)
    requires Consistent(db)
    ensures n in ViewOf(db).panel <==> n in db.panel.rows
    ensures n in db.panel.rows ==> ViewOf(db).panel[n] == PanelOf(db.panel.names, db.panel.rows[n])
  {
    hide Keyed, ResellersOk, OwnersOk, TargetsOk, TargetsOf, SitesOf;
  }

  lemma UserSeen(db: DB, n: string)
    requires Consistent(db)
    ensures n in ViewOf(db).users <==> n in db.users.rows
    ensures n in db.users.rows ==> ViewOf(db).users[n] == db.users.rows[n].home
  {
    hide Keyed, ResellersOk, OwnersOk, TargetsOk, TargetsOf, SitesOf;
  }

  lemma PackageSeen(db: DB, n: string)
    requires Consistent(db)
    ensures n in ViewOf(db).packages <==> n in db.packages.rows
    ensures n in db.packages.rows ==> ViewOf(db).packages[n] == db.packages.rows[n].limits
  {
    hide Keyed, ResellersOk, OwnersOk, TargetsOk, TargetsOf, SitesOf;
  }

  lemma SiteSeen(db: DB, d: string)
    requires Consistent(db)
    ensures d in ViewOf(db).sites <==> d in db.sites.rows
    ensures d in db.sites.rows ==> db.sites.rows[d].owner in db.users.names
    ensures d in db.sites.rows ==>
      ViewOf(db).sites[d] == SiteView(db.users.names[db.sites.rows[d].owner], db.sites.rows[d].fields)
  {
    hide Keyed, ResellersOk, TargetsOk, TargetsOf;
  }

  lemma TargetSeen(db: DB, d: string, target: string)
    requires Consistent(db) && d in db.sites.rows
    ensures (d, target) in ViewOf(db).targets <==> (db.sites.rows[d].id, target) in db.targets
    ensures (d, target) in ViewOf(db).targets ==>
      ViewOf(db).targets[(d, target)] == db.targets[(db.sites.rows[d].id, target)]
  {
    hide Keyed, ResellersOk, OwnersOk, SitesOf, TargetsOk, TargetsOf;
    TargetOfSite(db.targets, db.sites, (d, target));
  }

  lemma UserIdNames(db: DB, id: nat)
    requires Consistent(db)
    ensures id in db.users.names ==> db.users.names[id] in db.users.rows && db.users.rows[db.users.names[id]].id == id
    ensures forall n ::
      n in db.users.rows ==> db.users.rows[n].id in db.users.names && db.users.names[db.users.rows[n].id] == n
  {
    hide ResellersOk, OwnersOk, TargetsOk;
    if id in db.users.names { assert USER_ID(db.users.rows[db.users.names[id]]) == id; }
    forall n | n in db.users.rows
      ensures db.users.rows[n].id in db.users.names && db.users.names[db.users.rows[n].id] == n
    {
      OwnerName(db.users, n);
    }
  }

  // ---------------------------------------------------------------- buildDump

  /** The first `n` of a listing. */
  ghost function Upto(ks: seq<string>, n: nat): set<string>
    requires n <= |ks|
  {
    set i | 0 <= i < n :: ks[i]
  }

  lemma PanelAppend(d: seq<PanelDump>, v: View, inc: set<string>, ks: seq<string>, n: nat, x: PanelDump)
    requires StrictlySorted(ks) && n < |ks| && ks[n] in v.panel && PanelListed(d, v, inc * Upto(ks, n))
    requires x == PanelDumpOf(ks[n], v.panel[ks[n]])
    ensures PanelListed(if ks[n] in inc then d + [x] else d, v, inc * Upto(ks, n + 1))
  {
    hide Lt;
    forall i | 0 <= i < |d| ensures d[i].username in Upto(ks, n) { assert d[i] in d; }
    assert Upto(ks, n + 1) == Upto(ks, n) + {ks[n]};
  }

  lemma UsersAppend(d: seq<UserDump>, v: View, inc: set<string>, ks: seq<string>, n: nat)
    requires StrictlySorted(ks) && n < |ks| && UsersListed(d, v, inc * Upto(ks, n))
    ensures UsersListed(if Exported(v, inc, ks[n]) then d + [UserDump(ks[n], v.users[ks[n]])] else d,
                        v, inc * Upto(ks, n + 1))
  {
    hide Lt;
    forall i | 0 <= i < |d| ensures d[i].username in Upto(ks, n) { assert d[i] in d; }
    assert Upto(ks, n + 1) == Upto(ks, n) + {ks[n]};
  }

  lemma SitesAppend(a: seq<SiteDump>, v: View, domains: set<string>, x: SiteDump)
    requires SitesListed(a, v, domains) && x.domain !in domains && x.domain in v.sites
    requires v.sites[x.domain] == SiteView(x.owner, x.fields)
    ensures SitesListed(a + [x], v, domains + {x.domain})
  {
    forall i | 0 <= i < |a| ensures a[i].domain in domains { assert a[i] in a; }
  }

  lemma TargetsAppend(a: seq<TargetDump>, b: seq<TargetDump>, v: View, domains: set<string>, d: string)
    requires TargetsListed(a, v, domains) && TargetsListed(b, v, {d}) && d !in domains
    ensures TargetsListed(a + b, v, domains + {d})
  {
    forall i | 0 <= i < |a| ensures a[i].domain in domains { assert a[i] in a; }
    forall i | 0 <= i < |b| ensures b[i].domain == d { assert b[i] in b; }
  }

  ghost function OwnedBy(db: DB, owners: set<nat>): set<string> {
    set d | d in db.sites.rows && db.sites.rows[d].owner in owners
  }

  /** `owners` are the ids of the exported system users. */
  ghost predicate OwnerIds(db: DB, inc: set<string>, owners: set<nat>)
    requires Consistent(db)
  {
    forall i :: i in owners <==> i in db.users.names && Exported(ViewOf(db), inc, db.users.names[i])
  }

  lemma OwnersAppend(db: DB, inc: set<string>, ks: seq<string>, n: nat, owners: set<nat>)
    requires Consistent(db) && n < |ks| && OwnerIds(db, inc * Upto(ks, n), owners)
    ensures !Exported(ViewOf(db), inc, ks[n]) ==> OwnerIds(db, inc * Upto(ks, n + 1), owners)
    ensures Exported(ViewOf(db), inc, ks[n]) ==>
      ks[n] in db.users.rows && OwnerIds(db, inc * Upto(ks, n + 1), owners + {db.users.rows[ks[n]].id})
  {
    hide Consistent, ViewOf;
    UserSeen(db, ks[n]);
    assert Upto(ks, n + 1) == Upto(ks, n) + {ks[n]};
    forall i | i in db.users.names
      ensures db.users.names[i] == ks[n] ==> ks[n] in db.users.rows && i == db.users.rows[ks[n]].id
    {
      UserIdNames(db, i);
    }
    if ks[n] in db.users.rows { UserIdNames(db, 0); }
  }

  lemma OwnedAreExported(db: DB, inc: set<string>, owners: set<nat>)
    requires Consistent(db) && OwnerIds(db, inc, owners)
    ensures OwnedBy(db, owners) == SitesExported(ViewOf(db), inc)
  {
    hide Consistent, ViewOf, Exported;
    forall d ensures d in OwnedBy(db, owners) <==> d in SitesExported(ViewOf(db), inc) { SiteSeen(db, d); }
  }

  lemma ResellerIs(db: DB, n: string, m: string)
    requires Consistent(db) && n in db.panel.rows && m in db.panel.rows
    ensures db.panel.rows[m].reseller == Some(db.panel.rows[n].id) <==> ViewOf(db).panel[m].reseller == Some(n)
  {
    hide OwnersOk, TargetsOk, SitesOf, TargetsOf;
    PanelName(db.panel, n);
    var r := db.panel.rows[m].reseller;
    if r.Some? { assert PANEL_ID(db.panel.rows[db.panel.names[r.value]]) == r.value; }
  }

  /** The scope switch. */
  method Include(db: DB, scope: Scope) returns (inc: Option<set<string>>)
    requires Consistent(db)
    ensures inc == Included(ViewOf(db), scope)
  {
    hide Consistent, ViewOf, Trim, Keyed;
    forall n ensures n in ViewOf(db).panel <==> n in db.panel.rows { PanelSeen(db, n); }
    match scope
    case ScopeUser(n) =>
      inc := if Trim(n) in db.panel.rows then Some({Trim(n)}) else None;
    case ScopeReseller(n) =>
      PanelSeen(db, Trim(n));
      if Trim(n) !in db.panel.rows || db.panel.rows[Trim(n)].role != "reseller" { return None; }
      var found := ResellerCustomers(db, Trim(n));
      inc := Some({Trim(n)} + found);
    case ScopeAll =>
      assert ViewOf(db).panel.Keys == db.panel.rows.Keys;
      inc := Some(db.panel.rows.Keys);
  }

  method ResellerCustomers(db: DB, reseller: string) returns (found: set<string>)
    requires Consistent(db) && reseller in db.panel.rows
    ensures found == Customers(ViewOf(db).panel, reseller)
  {
    hide Consistent, ViewOf, Keyed;
    forall n ensures n in ViewOf(db).panel <==> n in db.panel.rows { PanelSeen(db, n); }
    var names := SortKeys(db.panel.rows.Keys);
    found := {};
    for n := 0 to |names|
      invariant found == Customers(ViewOf(db).panel, reseller) * Upto(names, n)
    {
      var row := db.panel.rows[names[n]];
      PanelSeen(db, names[n]);
      ResellerIs(db, reseller, names[n]);
      assert Upto(names, n + 1) == Upto(names, n) + {names[n]};
      if row.role == "user" && row.reseller == Some(db.panel.rows[reseller].id) { found := found + {names[n]}; }
    }
    assert Upto(names, |names|) == db.panel.rows.Keys;
  }

  /** The loop over the panel users, in name order. */
  method DumpUsers(db: DB, inc: set<string>) returns (panel: seq<PanelDump>, users: seq<UserDump>, owners: set<nat>)
    requires Consistent(db)
    ensures PanelListed(panel, ViewOf(db), inc) && UsersListed(users, ViewOf(db), inc) && OwnerIds(db, inc, owners)
  {
    hide Consistent, ViewOf, Keyed, PanelListed, UsersListed, OwnerIds, NameOf;
    ghost var v := ViewOf(db);
    var names := SortKeys(db.panel.rows.Keys);
    panel, users, owners := [], [], {};
    NothingListed(db, inc, names);
    for n := 0 to |names|
      invariant PanelListed(panel, v, inc * Upto(names, n)) && UsersListed(users, v, inc * Upto(names, n))
      invariant OwnerIds(db, inc * Upto(names, n), owners)
    {
      var name := names[n];
      var row := db.panel.rows[name];
      PanelSeen(db, name);
      UserSeen(db, name);
      var x := PanelDumpOf(name, PanelOf(db.panel.names, row));
      PanelAppend(panel, v, inc, names, n, x);
      UsersAppend(users, v, inc, names, n);
      OwnersAppend(db, inc, names, n, owners);
      if name in inc {
        panel := panel + [x];
        if name in db.users.rows {
          users := users + [UserDump(name, db.users.rows[name].home)];
          owners := owners + {db.users.rows[name].id};
        }
      }
    }
    AllListed(db, inc, names, panel, users, owners);
  }

  lemma NothingListed(db: DB, inc: set<string>, names: seq<string>)
    requires Consistent(db)
    ensures PanelListed([], ViewOf(db), inc * Upto(names, 0)) && UsersListed([], ViewOf(db), inc * Upto(names, 0))
    ensures OwnerIds(db, inc * Upto(names, 0), {})
  {
    hide Consistent, ViewOf;
  }

  lemma AllListed(db: DB, inc: set<string>, names: seq<string>, panel: seq<PanelDump>, users: seq<UserDump>,
          owners: set<nat>)
    requires Consistent(db) && Lists(names, db.panel.rows.Keys)
    requires var some := inc * Upto(names, |names|);
      PanelListed(panel, ViewOf(db), some) && UsersListed(users, ViewOf(db), some) && OwnerIds(db, some, owners)
    ensures PanelListed(panel, ViewOf(db), inc) && UsersListed(users, ViewOf(db), inc) && OwnerIds(db, inc, owners)
  {
    hide Consistent, ViewOf, Lt;
    forall n ensures n in ViewOf(db).panel <==> n in db.panel.rows { PanelSeen(db, n); }
    assert Upto(names, |names|) == db.panel.rows.Keys;
  }

  method DumpPackages(db: DB) returns (packages: seq<PackageDump>)
    requires Consistent(db)
    ensures PackagesListed(packages, ViewOf(db))
  {
    hide Consistent, ViewOf;
    var names := SortKeys(db.packages.rows.Keys);
    packages := [];
    for n := 0 to |names|
      invariant |packages| == n
      invariant forall i ::
        0 <= i < n ==> packages[i] == PackageDump(names[i], db.packages.rows[names[i]].limits)
    {
      packages := packages + [PackageDump(names[n], db.packages.rows[names[n]].limits)];
    }
    forall x: PackageDump
      ensures x in packages <==> x.name in ViewOf(db).packages && ViewOf(db).packages[x.name] == x.limits
    {
      PackageSeen(db, x.name);
      if x.name in db.packages.rows {
        var i :| 0 <= i < |names| && names[i] == x.name;
        assert packages[i].name == x.name;
      }
    }
  }

  /** ListProxyTargetsBySiteID. */
  method DumpTargets(db: DB, d: string) returns (targets: seq<TargetDump>)
    requires Consistent(db) && d in db.sites.rows
    ensures TargetsListed(targets, ViewOf(db), {d})
  {
    hide Consistent, ViewOf;
    var id := db.sites.rows[d].id;
    var todo := set k | k in db.targets && k.0 == id :: k.1;
    ghost var all := todo;
    targets := [];
    while todo != {}
      invariant todo <= all
      invariant forall i, j :: 0 <= i < j < |targets| ==> targets[i].target != targets[j].target
      invariant forall x ::
        x in targets <==> x.domain == d && x.target in all && x.target !in todo && db.targets[(id, x.target)] == x.t
    {
      var t :| t in todo;
      forall i | 0 <= i < |targets| ensures targets[i].target != t { assert targets[i] in targets; }
      targets := targets + [TargetDump(d, t, db.targets[(id, t)])];
      todo := todo - {t};
    }
    forall x: TargetDump
      ensures x in targets <==>
        x.domain in {d} && (x.domain, x.target) in ViewOf(db).targets && ViewOf(db).targets[(x.domain, x.target)] == x.t
    {
      TargetSeen(db, d, x.target);
    }
  }

  /** ListSitesByUserID. */
  method SitesOfUser(db: DB, owner: nat) returns (domains: seq<string>)
    ensures Lists(domains, OwnedBy(db, {owner}))
  {
    domains := SortKeys(set d | d in db.sites.rows && db.sites.rows[d].owner == owner);
    assert (set d | d in db.sites.rows && db.sites.rows[d].owner == owner) == OwnedBy(db, {owner});
  }

  /** The loop over the exported system users, in any order. */
  method DumpSites(db: DB, owners: set<nat>) returns (sites: seq<SiteDump>, targets: seq<TargetDump>)
    requires Consistent(db)
    ensures SitesListed(sites, ViewOf(db), OwnedBy(db, owners))
    ensures TargetsListed(targets, ViewOf(db), OwnedBy(db, owners))
  {
    hide Consistent, ViewOf, SitesListed, TargetsListed;
    ghost var v := ViewOf(db);
    var todo := owners;
    sites, targets := [], [];
    NoSites(db);
    assert owners - todo == {};
    while todo != {}
      invariant todo <= owners
      invariant SitesListed(sites, v, OwnedBy(db, owners - todo))
      invariant TargetsListed(targets, v, OwnedBy(db, owners - todo))
    {
      var owner :| owner in todo;
      var domains := SitesOfUser(db, owner);
      ghost var before := OwnedBy(db, owners - todo);
      assert before + Upto(domains, 0) == before;
      for n := 0 to |domains|
        invariant SitesListed(sites, v, before + Upto(domains, n))
        invariant TargetsListed(targets, v, before + Upto(domains, n))
      {
        var d := domains[n];
        assert d in OwnedBy(db, {owner});
        SiteSeen(db, d);
        var ts := DumpTargets(db, d);
        var x := SiteDump(db.users.names[db.sites.rows[d].owner], d, db.sites.rows[d].fields);
        SitesAppend(sites, v, before + Upto(domains, n), x);
        TargetsAppend(targets, ts, v, before + Upto(domains, n), d);
        assert before + Upto(domains, n + 1) == before + Upto(domains, n) + {d};
        sites, targets := sites + [x], targets + ts;
      }
      assert Upto(domains, |domains|) == OwnedBy(db, {owner});
      assert owners - (todo - {owner}) == owners - todo + {owner};
      assert before + OwnedBy(db, {owner}) == OwnedBy(db, owners - todo + {owner});
      todo := todo - {owner};
    }
    assert owners - todo == owners;
  }

  lemma NoSites(db: DB)
    requires Consistent(db)
    ensures SitesListed([], ViewOf(db), OwnedBy(db, {})) && TargetsListed([], ViewOf(db), OwnedBy(db, {}))
  {
    hide Consistent, ViewOf;
  }

  /** buildDump: an export of exactly the scope, or an error when its subject does not exist. */
  method BuildDump(db: DB, scope: Scope) returns (d: Option<Dump>)
    requires Consistent(db)
    ensures d.Some? <==> Included(ViewOf(db), scope).Some?
    ensures d.Some? ==> IsDump(d.value, ViewOf(db), Included(ViewOf(db), scope).value)
  {
    hide Consistent, ViewOf, Included, PanelListed, UsersListed, PackagesListed, SitesListed, TargetsListed, OwnedBy,
        SitesExported;
    var inc := Include(db, scope);
    if inc.None? { return None; }
    var panel, users, owners := DumpUsers(db, inc.value);
    var packages := DumpPackages(db);
    var sites, targets := DumpSites(db, owners);
    OwnedAreExported(db, inc.value, owners);
    d := Some(Dump(panel, users, packages, sites, targets));
  }
}
