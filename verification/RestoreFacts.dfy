/** What the loops of Restore leave at each key. */
module RestoreFacts {
  import opened Text
  import opened BackupTables
  import opened BackupDump
  import opened BackupRestore

  ghost predicate SameAt<K, V>(a: map<K, V>, b: map<K, V>, k: K) {
    (k in a <==> k in b) && (k in a ==> a[k] == b[k])
  }

  lemma SameEverywhere<K, V>(a: map<K, V>, b: map<K, V>)
    requires forall k :: SameAt(a, b, k)
    ensures a == b
  {
    forall k ensures k in a <==> k in b { assert SameAt(a, b, k); }
    forall k | k in a ensures a[k] == b[k] { assert SameAt(a, b, k); }
  }

  // ---------------------------------------------------------------- no key twice

  ghost predicate DistinctPanel(o: Options, ps: seq<PanelDump>) {
    forall i, j :: 0 <= i < j < |ps| ==> Mapped(o, ps[i].username) != Mapped(o, ps[j].username)
  }

  ghost predicate DistinctUsers(o: Options, us: seq<UserDump>) {
    forall i, j :: 0 <= i < j < |us| ==> Mapped(o, us[i].username) != Mapped(o, us[j].username)
  }

  ghost predicate DistinctPackages(ps: seq<PackageDump>) {
    forall i, j :: 0 <= i < j < |ps| ==> ps[i].name != ps[j].name
  }

  ghost predicate DistinctSites(ss: seq<SiteDump>) {
    forall i, j :: 0 <= i < j < |ss| ==> ss[i].domain != ss[j].domain
  }

  ghost predicate DistinctTargets(ts: seq<TargetDump>) {
    forall i, j :: 0 <= i < j < |ts| ==> (ts[i].domain, Trim(ts[i].target)) != (ts[j].domain, Trim(ts[j].target))
  }

  /** No two entries for one row. */
  ghost predicate DistinctDump(o: Options, d: Dump) {
    DistinctPanel(o, d.panel) && DistinctUsers(o, d.users) && DistinctPackages(d.packages) && DistinctSites(d.sites) &&
      DistinctTargets(d.targets)
  }

  // ---------------------------------------------------------------- panel users

  lemma {:induction false} PanelAt(o: Options, v: map<string, PanelView>, ps: seq<PanelDump>, n: nat, i: nat)
    requires i < n <= |ps| && DistinctPanel(o, ps)
    ensures var w := PanelRestored(o, v, ps, n);
      Mapped(o, ps[i].username) in w && w[Mapped(o, ps[i].username)] == PanelEntry(o, v, Seen(o, ps, i), ps[i])
  {
    hide Mapped, DefaultSystemUser, Seen;
    if i < n - 1 { PanelAt(o, v, ps, n - 1, i); } else { PanelElse(o, v, ps, i, Mapped(o, ps[i].username)); }
  }

  lemma {:induction false} PanelElse(o: Options, v: map<string, PanelView>, ps: seq<PanelDump>, n: nat, x: string)
    requires n <= |ps| && forall i :: 0 <= i < n ==> Mapped(o, ps[i].username) != x
    ensures SameAt(PanelRestored(o, v, ps, n), v, x)
  {
    hide Mapped, PanelEntry, Seen;
    if n == 0 {
    } else {
      PanelElse(o, v, ps, n - 1, x);
    }
  }

  // ---------------------------------------------------------------- system users

  lemma {:induction false} UserAt(o: Options, v: map<string, string>, us: seq<UserDump>, n: nat, i: nat)
    requires i < n <= |us| && DistinctUsers(o, us)
    ensures var w := UsersRestored(o, v, us, n);
      Mapped(o, us[i].username) in w && w[Mapped(o, us[i].username)] == Home(o, us[i])
  {
    hide Mapped, Home;
    if i < n - 1 { UserAt(o, v, us, n - 1, i); }
  }

  lemma {:induction false} UserElse(o: Options, v: map<string, string>, us: seq<UserDump>, n: nat, x: string)
    requires n <= |us| && forall i :: 0 <= i < n ==> Mapped(o, us[i].username) != x
    ensures SameAt(UsersRestored(o, v, us, n), v, x)
  {
    hide Mapped, Home;
    if n == 0 {
    } else {
      UserElse(o, v, us, n - 1, x);
    }
  }

  lemma {:induction false} UserNamesAre(o: Options, us: seq<UserDump>, n: nat, x: string)
    requires n <= |us|
    ensures x in UserNames(o, us, n) <==> exists i :: 0 <= i < n && Mapped(o, us[i].username) == x
  {
    hide Mapped;
    if n == 0 {
    } else {
      UserNamesAre(o, us, n - 1, x);
    }
  }

  // ---------------------------------------------------------------- packages

  lemma {:induction false} PackageAt(v: map<string, Limits>, ps: seq<PackageDump>, n: nat, i: nat)
    requires i < n <= |ps| && DistinctPackages(ps)
    ensures var w := PackagesRestored(v, ps, n); ps[i].name in w && w[ps[i].name] == ps[i].limits
  {
    if i < n - 1 { PackageAt(v, ps, n - 1, i); }
  }

  lemma {:induction false} PackageElse(v: map<string, Limits>, ps: seq<PackageDump>, n: nat, x: string)
    requires n <= |ps| && forall i :: 0 <= i < n ==> ps[i].name != x
    ensures SameAt(PackagesRestored(v, ps, n), v, x)
  {
    if n == 0 {
    } else {
      PackageElse(v, ps, n - 1, x);
    }
  }

  // ---------------------------------------------------------------- sites

  predicate Known(o: Options, names: set<string>, s: SiteDump) {
    Mapped(o, s.owner) in names
  }

  lemma {:induction false} SiteAt(o: Options, names: set<string>, v: map<string, SiteView>, ss: seq<SiteDump>, n: nat,
          i: nat)
    requires i < n <= |ss| && DistinctSites(ss) && Known(o, names, ss[i])
    ensures var w := SitesRestored(o, names, v, ss, n); ss[i].domain in w && w[ss[i].domain] == SiteEntry(o, ss[i])
  {
    hide SiteEntry, Mapped;
    if i < n - 1 { SiteAt(o, names, v, ss, n - 1, i); }
  }

  lemma {:induction false} SiteElse(o: Options, names: set<string>, v: map<string, SiteView>, ss: seq<SiteDump>, n: nat,
          x: string)
    requires n <= |ss| && forall i :: 0 <= i < n && Known(o, names, ss[i]) ==> ss[i].domain != x
    ensures SameAt(SitesRestored(o, names, v, ss, n), v, x)
  {
    hide SiteEntry, Mapped;
    if n == 0 {
    } else {
      SiteElse(o, names, v, ss, n - 1, x);
      assert Known(o, names, ss[n - 1]) ==> ss[n - 1].domain != x;
    }
  }

  lemma {:induction false} DomainsAre(o: Options, names: set<string>, ss: seq<SiteDump>, n: nat, x: string)
    requires n <= |ss|
    ensures x in Domains(o, names, ss, n) <==> exists i :: 0 <= i < n && Known(o, names, ss[i]) && ss[i].domain == x
  {
    hide Mapped;
    if n == 0 {
    } else {
      DomainsAre(o, names, ss, n - 1, x);
      if x in Domains(o, names, ss, n) && x !in Domains(o, names, ss, n - 1) { assert Known(o, names, ss[n - 1]); }
    }
  }

  // ---------------------------------------------------------------- proxy targets

  lemma {:induction false} TargetAt(domains: set<string>, v: map<(string, string), Target>, ts: seq<TargetDump>, n: nat,
          i: nat)
    requires i < n <= |ts| && DistinctTargets(ts) && ts[i].domain in domains
    ensures var w := TargetsRestored(domains, v, ts, n);
      (ts[i].domain, Trim(ts[i].target)) in w && w[(ts[i].domain, Trim(ts[i].target))] == ts[i].t
  {
    hide Trim;
    if i < n - 1 { TargetAt(domains, v, ts, n - 1, i); }
  }

  lemma {:induction false} TargetElse(domains: set<string>, v: map<(string, string), Target>, ts: seq<TargetDump>,
          n: nat, x: (string, string))
    requires n <= |ts| && forall i :: 0 <= i < n && ts[i].domain in domains ==> (ts[i].domain, Trim(ts[i].target)) != x
    ensures SameAt(TargetsRestored(domains, v, ts, n), v, x)
  {
    hide Trim;
    if n == 0 {
    } else {
      TargetElse(domains, v, ts, n - 1, x);
    }
  }
}
