/** Main results on backup and restore: the round trip, renaming, repetition, order, and where the
    files land. */
module RoundTrip {
  import opened Text
  import opened BackupTables
  import opened BackupDump
  import opened BackupRestore
  import opened RestoreFacts
  import opened RestoreProofs

  /** What an export of all panel users can carry: users and sites that belong to one of them. */
  ghost function Kept(v: View): View {
    View(map n | n in v.panel :: v.panel[n].(systemUser := DefaultSystemUser(v.panel[n].systemUser, n)),
        ImportedUsers(v, v.panel.Keys), v.packages,
         map d | d in v.sites && d in SitesExported(v, v.panel.Keys) :: v.sites[d], ImportedTargets(v, v.panel.Keys))
  }

  predicate Empty(f: View) {
    f.panel == map[] && f.users == map[] && f.sites == map[] && f.targets == map[]
  }

  ghost predicate ResellersFirst(v: View) {
    forall n ::
      n in v.panel && v.panel[n].reseller.Some? ==> v.panel[n].reseller.value != "" && Lt(v.panel[n].reseller.value, n)
  }

  lemma PlainSites(o: Options, v: View, inc: set<string>)
    requires WellStored(v) && o.newUser == ""
    ensures ImportedSites(o, v, inc) == map d | d in v.sites && d in SitesExported(v, inc) :: v.sites[d]
  {
    hide StoredFields, SitesExported, Trim;
    forall d | d in v.sites
      ensures SiteEntry(o, EntryOf(d, v.sites[d])) == v.sites[d]
    {
      assert SiteStored(v.sites[d]);
    }
  }

  lemma FullPanel(v: View)
    requires WellStored(v)
    ensures ImportedPanel(map[], v.panel, v.panel.Keys) == Kept(v).panel <==> ResellersFirst(v)
  {
    hide DefaultSystemUser, Le, SitesExported, SiteStored, Trim;
    var a, b := ImportedPanel(map[], v.panel, v.panel.Keys), Kept(v).panel;
    if a == b {
      forall n | n in v.panel && v.panel[n].reseller.Some?
        ensures v.panel[n].reseller.value != "" && Lt(v.panel[n].reseller.value, n)
      {
        assert a[n] == b[n];
      }
    }
  }

  /** A ScopeAll archive restored into an empty store gives the store back, up to default system users
      and rows that belong to no panel user, exactly if every reseller sorts before its users and the
      store held the seeded packages that the empty store has. */
  lemma FullRoundTrip(o: Options, f: View, v: View, d: Dump)
    requires WellStored(v) && IsDump(d, v, v.panel.Keys) && o.newUser == "" && Empty(f)
    ensures Restored(o, f, d) == Kept(v) <==> ResellersFirst(v) && f.packages.Keys <= v.packages.Keys
  {
    hide IsDump, WellStored, ImportedPanel, ImportedUsers, ImportedSites, ImportedTargets, SitesExported,
        DefaultSystemUser, Le, Restored, ResellersFirst;
    RestoreIsImport(o, f, v, v.panel.Keys, d);
    PlainSites(o, v, v.panel.Keys);
    FullPanel(v);
    var r, k := Import(o, f, v, v.panel.Keys), Kept(v);
    assert r.sites == k.sites && r.users == k.users && r.targets == k.targets;
    assert r.panel == ImportedPanel(map[], v.panel, v.panel.Keys);
    PackagesOver(f.packages, v.packages);
  }

  lemma PackagesOver(f: map<string, Limits>, p: map<string, Limits>)
    ensures f + p == p <==> f.Keys <= p.Keys
  {
    if f + p == p { assert (f + p).Keys == p.Keys; }
  }

  /** The archive carries everything exactly if every system user is a panel user and every panel
      user has its system user filled in. */
  lemma KeptIsAll(v: View)
    requires WellStored(v)
    ensures Kept(v) == v <==> v.users.Keys <= v.panel.Keys && forall n ::
      n in v.panel ==> DefaultSystemUser(v.panel[n].systemUser, n) == v.panel[n].systemUser
  {
    hide DefaultSystemUser, SiteStored, Trim;
    var k := Kept(v);
    if k == v {
      forall n | n in v.users ensures n in v.panel { assert n in k.users; }
      forall n | n in v.panel
        ensures DefaultSystemUser(v.panel[n].systemUser, n) == v.panel[n].systemUser
      {
        assert k.panel[n] == v.panel[n];
      }
    }
    if v.users.Keys <= v.panel.Keys {
      assert SitesExported(v, v.panel.Keys) == v.sites.Keys;
      assert ImportedUsers(v, v.panel.Keys) == v.users;
      assert ImportedTargets(v, v.panel.Keys) == v.targets;
    }
  }

  function Defaulted(p: PanelDump): PanelDump {
    p.(systemUser := DefaultSystemUser(p.systemUser, p.username))
  }

  ghost predicate SamePanel(d: Dump, d': Dump) {
    && (forall x :: x in d.panel ==> Defaulted(x) in d'.panel)
    && (forall x :: x in d'.panel ==> exists y :: y in d.panel && x == Defaulted(y))
  }

  ghost predicate SamePackages(d: Dump, d': Dump) {
    forall x :: x in d'.packages <==> x in d.packages
  }

  ghost predicate SameSites(d: Dump, d': Dump) {
    && (forall x :: x in d'.users <==> x in d.users)
    && (forall x :: x in d'.sites <==> x in d.sites)
    && (forall x :: x in d'.targets <==> x in d.targets)
  }

  /** The two dumps agree as sets, up to the system users that the second one fills in. */
  ghost predicate SameDump(d: Dump, d': Dump) {
    SamePanel(d, d') && SamePackages(d, d') && SameSites(d, d')
  }

  /** Every reseller with a name sorts before its users. */
  ghost predicate NamedResellersFirst(v: View) {
    forall n ::
      n in v.panel && v.panel[n].reseller.Some? && v.panel[n].reseller.value != "" ==> Lt(v.panel[n].reseller.value, n)
  }

  lemma SitesAgain(v: View, r: View, d: Dump, d': Dump)
    requires WellStored(v) && IsDump(d, v, v.panel.Keys) && IsDump(d', r, r.panel.Keys)
    requires r.panel.Keys == v.panel.Keys && r.users == Kept(v).users && r.sites == Kept(v).sites
    requires r.targets == Kept(v).targets
    ensures SameSites(d, d')
  {
    hide DefaultSystemUser, Lt, WellStored, PanelListed, PackagesListed;
    assert SitesExported(r, r.panel.Keys) == SitesExported(v, v.panel.Keys);
  }

  lemma PackagesAgain(f: View, v: View, r: View, d: Dump, d': Dump)
    requires PackagesListed(d.packages, v) && PackagesListed(d'.packages, r) && r.packages == f.packages + v.packages
    ensures SamePackages(d, d') <==> f.packages.Keys <= v.packages.Keys
  {
    hide Lt;
    if SamePackages(d, d') {
      forall n | n in f.packages ensures n in v.packages {
        assert PackageDump(n, r.packages[n]) in d'.packages;
        assert PackageDump(n, r.packages[n]) in d.packages;
      }
    }
  }

  lemma PanelAgain(v: View, r: View, d: Dump, d': Dump)
    requires WellStored(v) && PanelListed(d.panel, v, v.panel.Keys) && PanelListed(d'.panel, r, r.panel.Keys)
    requires r.panel == ImportedPanel(map[], v.panel, v.panel.Keys)
    ensures SamePanel(d, d') <==> NamedResellersFirst(v)
  {
    hide WellStored, PanelListed, SamePanel, NamedResellersFirst;
    if SamePanel(d, d') { SamePanelNeeds(v, r, d, d'); }
    if NamedResellersFirst(v) { ResellersFirstSuffice(v, r, d, d'); }
  }

  lemma SamePanelNeeds(v: View, r: View, d: Dump, d': Dump)
    requires WellStored(v) && PanelListed(d.panel, v, v.panel.Keys) && PanelListed(d'.panel, r, r.panel.Keys)
    requires r.panel == ImportedPanel(map[], v.panel, v.panel.Keys) && SamePanel(d, d')
    ensures NamedResellersFirst(v)
  {
    hide DefaultSystemUser, Le, SiteStored, Trim;
    forall n | n in v.panel && v.panel[n].reseller.Some? && v.panel[n].reseller.value != ""
      ensures Lt(v.panel[n].reseller.value, n)
    {
      assert PanelDumpOf(n, v.panel[n]) in d.panel;
      assert Defaulted(PanelDumpOf(n, v.panel[n])) in d'.panel;
    }
  }

  lemma ResellersFirstSuffice(v: View, r: View, d: Dump, d': Dump)
    requires WellStored(v) && PanelListed(d.panel, v, v.panel.Keys) && PanelListed(d'.panel, r, r.panel.Keys)
    requires r.panel == ImportedPanel(map[], v.panel, v.panel.Keys) && NamedResellersFirst(v)
    ensures SamePanel(d, d')
  {
    hide WellStored, Lt, Defaulted, PanelDumpOf, ImportedPanel, NamedResellersFirst;
    forall n | n in v.panel
      ensures n in r.panel && PanelDumpOf(n, r.panel[n]) == Defaulted(PanelDumpOf(n, v.panel[n]))
    {
      OnePanelAgain(v, r, n);
    }
    forall x | x in d.panel ensures Defaulted(x) in d'.panel {
      OnePanelAgain(v, r, x.username);
    }
    forall x | x in d'.panel ensures exists y :: y in d.panel && x == Defaulted(y) {
      OnePanelAgain(v, r, x.username);
      var y := PanelDumpOf(x.username, v.panel[x.username]);
      assert y in d.panel && x == Defaulted(y);
    }
  }

  lemma OnePanelAgain(v: View, r: View, n: string)
    requires WellStored(v) && r.panel == ImportedPanel(map[], v.panel, v.panel.Keys) && NamedResellersFirst(v)
    ensures n in r.panel <==> n in v.panel
    ensures n in v.panel ==>
      && PanelDumpOf(n, r.panel[n]) == Defaulted(PanelDumpOf(n, v.panel[n]))
      && Defaulted(PanelDumpOf(n, v.panel[n])).username == n && PanelDumpOf(n, v.panel[n]).username == n
  {
    hide Lt, DefaultSystemUser, SiteStored;
  }

  /** Dumping everything, restoring into an empty store and dumping again gives the same users,
      packages, sites, proxy targets and panel users if and only if every named reseller sorts before
      its users and the seeded packages were in the archive. */
  lemma DumpAgain(o: Options, f: View, v: View, d: Dump, d': Dump)
    requires WellStored(v) && IsDump(d, v, v.panel.Keys) && o.newUser == "" && Empty(f)
    requires var r := Restored(o, f, d); IsDump(d', r, r.panel.Keys)
    ensures SameDump(d, d') <==> NamedResellersFirst(v) && f.packages.Keys <= v.packages.Keys
  {
    hide WellStored, Restored, Defaulted, PanelListed, UsersListed, PackagesListed, SitesListed, TargetsListed,
        NamedResellersFirst, SamePanel, SamePackages, SameSites, ImportedPanel, ImportedUsers, ImportedTargets,
        ImportedSites, SitesExported;
    RestoreIsImport(o, f, v, v.panel.Keys, d);
    PlainSites(o, v, v.panel.Keys);
    var r := Import(o, f, v, v.panel.Keys);
    assert r.panel == ImportedPanel(map[], v.panel, v.panel.Keys);
    ImportedNames(v);
    assert r.sites == Kept(v).sites && r.users == Kept(v).users && r.targets == Kept(v).targets;
    SitesAgain(v, r, d, d');
    PackagesAgain(f, v, r, d, d');
    PanelAgain(v, r, d, d');
  }

  lemma ImportedNames(v: View)
    ensures ImportedPanel(map[], v.panel, v.panel.Keys).Keys == v.panel.Keys
  {
  }

  // ---------------------------------------------------------------- repetition

  lemma PanelTwice(o: Options, v: map<string, PanelView>, ps: seq<PanelDump>, x: string)
    requires DistinctPanel(o, ps)
    ensures SameAt(PanelRestored(o, PanelRestored(o, v, ps, |ps|), ps, |ps|), PanelRestored(o, v, ps, |ps|), x)
  {
    hide Mapped, DefaultSystemUser, Seen, DistinctPanel;
    var w := PanelRestored(o, v, ps, |ps|);
    if i :| 0 <= i < |ps| && Mapped(o, ps[i].username) == x {
      PanelAt(o, v, ps, |ps|, i);
      PanelAt(o, w, ps, |ps|, i);
    } else {
      PanelElse(o, w, ps, |ps|, x);
    }
  }

  lemma UsersTwice(o: Options, v: map<string, string>, us: seq<UserDump>, n: nat, x: string)
    requires DistinctUsers(o, us) && n <= |us|
    ensures SameAt(UsersRestored(o, UsersRestored(o, v, us, n), us, n), UsersRestored(o, v, us, n), x)
  {
    hide Mapped, Home, DistinctUsers;
    var w := UsersRestored(o, v, us, n);
    if i :| 0 <= i < n && Mapped(o, us[i].username) == x {
      UserAt(o, v, us, n, i);
      UserAt(o, w, us, n, i);
    } else {
      UserElse(o, w, us, n, x);
    }
  }

  lemma PackagesTwice(v: map<string, Limits>, ps: seq<PackageDump>, x: string)
    requires DistinctPackages(ps)
    ensures SameAt(PackagesRestored(PackagesRestored(v, ps, |ps|), ps, |ps|), PackagesRestored(v, ps, |ps|), x)
  {
    hide DistinctPackages;
    var w := PackagesRestored(v, ps, |ps|);
    if i :| 0 <= i < |ps| && ps[i].name == x {
      PackageAt(v, ps, |ps|, i);
      PackageAt(w, ps, |ps|, i);
    } else {
      PackageElse(w, ps, |ps|, x);
    }
  }

  lemma SitesTwice(o: Options, names: set<string>, v: map<string, SiteView>, ss: seq<SiteDump>, n: nat, x: string)
    requires DistinctSites(ss) && n <= |ss|
    ensures SameAt(SitesRestored(o, names, SitesRestored(o, names, v, ss, n), ss, n), SitesRestored(o, names, v, ss, n),
        x)
  {
    hide SiteEntry, Known, DistinctSites;
    var w := SitesRestored(o, names, v, ss, n);
    if i :| 0 <= i < n && Known(o, names, ss[i]) && ss[i].domain == x {
      SiteAt(o, names, v, ss, n, i);
      SiteAt(o, names, w, ss, n, i);
    } else {
      SiteElse(o, names, w, ss, n, x);
    }
  }

  lemma TargetsTwice(domains: set<string>, v: map<(string, string), Target>, ts: seq<TargetDump>, n: nat,
          x: (string, string))
    requires DistinctTargets(ts) && n <= |ts|
    ensures SameAt(TargetsRestored(domains, TargetsRestored(domains, v, ts, n), ts, n),
        TargetsRestored(domains, v, ts, n), x)
  {
    hide Trim, DistinctTargets;
    var w := TargetsRestored(domains, v, ts, n);
    if i :| 0 <= i < n && ts[i].domain in domains && (ts[i].domain, Trim(ts[i].target)) == x {
      TargetAt(domains, v, ts, n, i);
      TargetAt(domains, w, ts, n, i);
    } else {
      TargetElse(domains, w, ts, n, x);
    }
  }

  /** Restoring an archive a second time changes nothing, even where the first restore stopped at an
      error. */
  lemma RestoreTwice(o: Options, v: View, d: Dump, e: Outcome)
    requires DistinctDump(o, d) && UsersDone(d, e) <= |d.users| && SitesDone(d, e) <= |d.sites|
    ensures RestoredTo(o, RestoredTo(o, v, d, e), d, e) == RestoredTo(o, v, d, e)
  {
    hide SameAt, PanelRestored, UsersRestored, PackagesRestored, SitesRestored, TargetsRestored, UserNames, Domains,
        DistinctPanel, DistinctUsers, DistinctPackages, DistinctSites, DistinctTargets;
    var nu, ns, nt := UsersDone(d, e), SitesDone(d, e), if e.Done? then |d.targets| else 0;
    var names := UserNames(o, d.users, nu);
    var domains := Domains(o, names, d.sites, ns);
    var r := RestoredTo(o, v, d, e);
    forall x { PanelTwice(o, v.panel, d.panel, x); }
    SameEverywhere(PanelRestored(o, r.panel, d.panel, |d.panel|), r.panel);
    forall x { UsersTwice(o, v.users, d.users, nu, x); }
    SameEverywhere(UsersRestored(o, r.users, d.users, nu), r.users);
    forall x { PackagesTwice(v.packages, d.packages, x); }
    SameEverywhere(PackagesRestored(r.packages, d.packages, |d.packages|), r.packages);
    forall x { SitesTwice(o, names, v.sites, d.sites, ns, x); }
    SameEverywhere(SitesRestored(o, names, r.sites, d.sites, ns), r.sites);
    forall x { TargetsTwice(domains, v.targets, d.targets, nt, x); }
    SameEverywhere(TargetsRestored(domains, r.targets, d.targets, nt), r.targets);
  }

  /** Every export is such an archive. */
  lemma ExportsAreDistinct(o: Options, v: View, inc: set<string>, d: Dump)
    requires WellStored(v) && IsDump(d, v, inc) && (o.newUser == "" || inc == {o.subject})
    ensures DistinctDump(o, d)
  {
    hide Le, Trim, SiteStored, SitesExported;
    forall i, j | 0 <= i < j < |d.panel| ensures Mapped(o, d.panel[i].username) != Mapped(o, d.panel[j].username) {
      assert d.panel[i] in d.panel && d.panel[j] in d.panel && Lt(d.panel[i].username, d.panel[j].username);
    }
    forall i, j | 0 <= i < j < |d.users| ensures Mapped(o, d.users[i].username) != Mapped(o, d.users[j].username) {
      assert d.users[i] in d.users && d.users[j] in d.users && Lt(d.users[i].username, d.users[j].username);
    }
    forall i | 0 <= i < |d.targets|
      ensures Trim(d.targets[i].target) == d.targets[i].target
    {
      assert d.targets[i] in d.targets;
    }
  }

  // ---------------------------------------------------------------- order

  lemma {:induction false} SitesMoved(o: Options, names: set<string>, v: map<string, SiteView>, a: seq<SiteDump>,
          b: seq<SiteDump>, x: string)
    requires DistinctSites(a) && DistinctSites(b) && forall s :: s in a <==> s in b
    ensures SameAt(SitesRestored(o, names, v, a, |a|), SitesRestored(o, names, v, b, |b|), x)
    ensures x in Domains(o, names, a, |a|) <==> x in Domains(o, names, b, |b|)
  {
    hide SiteEntry, Known, DistinctSites;
    DomainsAre(o, names, a, |a|, x);
    DomainsAre(o, names, b, |b|, x);
    if i :| 0 <= i < |a| && Known(o, names, a[i]) && a[i].domain == x {
      assert a[i] in b;
      var j :| 0 <= j < |b| && b[j] == a[i];
      SiteAt(o, names, v, a, |a|, i);
      SiteAt(o, names, v, b, |b|, j);
    } else {
      forall j | 0 <= j < |b| && Known(o, names, b[j]) ensures b[j].domain != x {
        assert b[j] in a;
        var i :| 0 <= i < |a| && a[i] == b[j];
      }
      SiteElse(o, names, v, a, |a|, x);
      SiteElse(o, names, v, b, |b|, x);
    }
  }

  /** buildDump lists the sites in map-iteration order: it does not matter. */
  lemma SiteOrder(o: Options, v: View, d: Dump, sites: seq<SiteDump>)
    requires DistinctSites(d.sites) && multiset(sites) == multiset(d.sites)
    ensures Restored(o, v, d.(sites := sites)) == Restored(o, v, d)
  {
    hide SameAt, PanelRestored, UsersRestored, PackagesRestored, SitesRestored, TargetsRestored, UserNames, Domains;
    var names := UserNames(o, d.users, |d.users|);
    forall s ensures s in d.sites <==> s in sites { assert s in d.sites <==> s in multiset(d.sites); }
    StillDistinct(d.sites, sites);
    forall x ensures SameAt(SitesRestored(o, names, v.sites, d.sites, |d.sites|),
        SitesRestored(o, names, v.sites, sites, |sites|), x)
      && (x in Domains(o, names, d.sites, |d.sites|) <==> x in Domains(o, names, sites, |sites|))
    {
      SitesMoved(o, names, v.sites, d.sites, sites, x);
    }
    SameEverywhere(SitesRestored(o, names, v.sites, d.sites, |d.sites|),
        SitesRestored(o, names, v.sites, sites, |sites|));
    assert Domains(o, names, d.sites, |d.sites|) == Domains(o, names, sites, |sites|);
  }

  lemma StillDistinct(a: seq<SiteDump>, b: seq<SiteDump>)
    requires DistinctSites(a) && multiset(a) == multiset(b)
    ensures DistinctSites(b)
  {
    forall i, j | 0 <= i < j < |b| ensures b[i].domain != b[j].domain {
      OnceEach(a, b[i]);
      SameTwice(b, i, j);
      assert b[i] in multiset(b) && b[j] in multiset(b);
      var k :| 0 <= k < |a| && a[k] == b[i];
      var l :| 0 <= l < |a| && a[l] == b[j];
    }
  }

  lemma {:induction false} OnceEach(a: seq<SiteDump>, s: SiteDump)
    requires DistinctSites(a)
    ensures multiset(a)[s] <= 1
  {
    if a == [] {
    } else {
      var n := |a| - 1;
      OnceEach(a[..n], s);
      assert a == a[..n] + [a[n]];
      assert forall i :: 0 <= i < n ==> a[..n][i] == a[i];
    }
  }

  lemma SameTwice(b: seq<SiteDump>, i: nat, j: nat)
    requires i < j < |b|
    ensures b[i] == b[j] ==> multiset(b)[b[i]] >= 2
  {
    assert b == b[..i] + [b[i]] + b[i + 1..j] + [b[j]] + b[j + 1..];
  }

  /** Two exports of one state, sites and targets in any order, restore alike. */
  lemma ExportOrder(o: Options, f: View, v: View, inc: set<string>, a: Dump, b: Dump)
    requires WellStored(v) && IsDump(a, v, inc) && IsDump(b, v, inc) && o.newUser == ""
    ensures Restored(o, f, a) == Restored(o, f, b)
  {
    RestoreIsImport(o, f, v, inc, a);
    RestoreIsImport(o, f, v, inc, b);
  }
}
