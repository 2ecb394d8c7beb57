/** Restore against export: what an archive of one store does to another, the round trip, renaming,
    repetition and order. */
module RestoreProofs {
  import opened Text
  import opened BackupTables
  import opened BackupDump
  import opened BackupRestore
  import opened RestoreFacts

  /** What the store's writes leave in every row: names and paths are there, defaults are filled in. */
  ghost predicate WellStored(v: View) {
    && PanelStored(v.panel)
    && (forall n :: n in v.users ==> n != "" && v.users[n] != "")
    && (forall d :: d in v.sites ==> d != "" && SiteStored(v.sites[d]) && v.sites[d].owner in v.users)
    && (forall k :: k in v.targets ==> k.0 in v.sites && Trim(k.1) == k.1)
  }

  predicate SiteStored(s: SiteView) {
    s.fields.webroot != "" && StoredFields(s.fields) == s.fields
  }

  // ---------------------------------------------------------------- table by table

  lemma SeenAre(o: Options, ps: seq<PanelDump>, v: View, inc: set<string>, i: nat, m: string)
    requires PanelListed(ps, v, inc) && o.newUser == "" && i < |ps|
    ensures m in Seen(o, ps, i) <==> m in inc && m in v.panel && Lt(m, ps[i].username)
  {
    if m in Seen(o, ps, i) {
      var j :| 0 <= j < i && Mapped(o, ps[j].username) == m;
      assert ps[j] in ps;
    }
    if m in inc && m in v.panel && Lt(m, ps[i].username) {
      var x := PanelDumpOf(m, v.panel[m]);
      assert x in ps;
      var j :| 0 <= j < |ps| && ps[j] == x;
      if j > i { LeAntisymmetric(m, ps[i].username); }
      assert Mapped(o, ps[j].username) == m;
    }
  }

  /** A reseller is found again only if it was exported and sorts before its user. */
  function ImportedReseller(f: map<string, PanelView>, v: map<string, PanelView>, inc: set<string>, n: string)
          : Option<string>
    requires n in v
  {
    var r := v[n].reseller;
    if r.Some? && r.value != "" && r.value in inc && r.value in v && Lt(r.value, n) then r
    else if n in f then f[n].reseller else None
  }

  function ImportedPanel(f: map<string, PanelView>, v: map<string, PanelView>, inc: set<string>)
          : map<string, PanelView> {
    map n | n in v && n in inc ::
      v[n].(reseller := ImportedReseller(f, v, inc, n), systemUser := DefaultSystemUser(v[n].systemUser, n))
  }

  lemma {:induction false} PanelImported(o: Options, f: map<string, PanelView>, ps: seq<PanelDump>, v: View,
          inc: set<string>, n: string)
    requires PanelListed(ps, v, inc) && o.newUser == "" && forall m :: m in v.panel ==> v.panel[m].role != ""
    ensures SameAt(PanelRestored(o, f, ps, |ps|), f + ImportedPanel(f, v.panel, inc), n)
  {
    hide DefaultSystemUser, Le, Seen;
    if n in inc && n in v.panel {
      var x := PanelDumpOf(n, v.panel[n]);
      assert x in ps;
      var i :| 0 <= i < |ps| && ps[i] == x;
      PanelAt(o, f, ps, |ps|, i);
      SeenAre(o, ps, v, inc, i, x.reseller);
    } else {
      forall i | 0 <= i < |ps| ensures Mapped(o, ps[i].username) != n { assert ps[i] in ps; }
      PanelElse(o, f, ps, |ps|, n);
    }
  }

  function ImportedUsers(v: View, inc: set<string>): map<string, string> {
    map n | n in v.users && Exported(v, inc, n) :: v.users[n]
  }

  lemma {:induction false} UsersImported(o: Options, f: map<string, string>, us: seq<UserDump>, v: View,
          inc: set<string>, n: string)
    requires UsersListed(us, v, inc) && o.newUser == "" && forall m :: m in v.users ==> v.users[m] != ""
    ensures SameAt(UsersRestored(o, f, us, |us|), f + ImportedUsers(v, inc), n)
  {
    hide Le;
    if n in v.users && Exported(v, inc, n) {
      var x := UserDump(n, v.users[n]);
      assert x in us;
      var i :| 0 <= i < |us| && us[i] == x;
      UserAt(o, f, us, |us|, i);
    } else {
      forall i | 0 <= i < |us| ensures Mapped(o, us[i].username) != n { assert us[i] in us; }
      UserElse(o, f, us, |us|, n);
    }
  }

  lemma PackagesImported(f: map<string, Limits>, ps: seq<PackageDump>, v: View, n: string)
    requires PackagesListed(ps, v)
    ensures SameAt(PackagesRestored(f, ps, |ps|), f + v.packages, n)
  {
    hide Le;
    if n in v.packages {
      var x := PackageDump(n, v.packages[n]);
      assert x in ps;
      var i :| 0 <= i < |ps| && ps[i] == x;
      PackageAt(f, ps, |ps|, i);
    } else {
      forall i | 0 <= i < |ps| ensures ps[i].name != n { assert ps[i] in ps; }
      PackageElse(f, ps, |ps|, n);
    }
  }

  /** Every exported owner is known to the import. */
  lemma OwnersKnown(o: Options, us: seq<UserDump>, v: View, inc: set<string>, s: SiteDump)
    requires UsersListed(us, v, inc) && Exported(v, inc, s.owner)
    ensures Known(o, UserNames(o, us, |us|), s)
  {
    hide Lt, Mapped;
    var x := UserDump(s.owner, v.users[s.owner]);
    assert x in us;
    var i :| 0 <= i < |us| && us[i] == x;
    UserNamesAre(o, us, |us|, Mapped(o, s.owner));
  }

  function EntryOf(d: string, s: SiteView): SiteDump {
    SiteDump(s.owner, d, s.fields)
  }

  ghost function ImportedSites(o: Options, v: View, inc: set<string>): map<string, SiteView> {
    map d | d in v.sites && d in SitesExported(v, inc) :: SiteEntry(o, EntryOf(d, v.sites[d]))
  }

  lemma {:induction false} SitesImported(o: Options, f: map<string, SiteView>, us: seq<UserDump>, ss: seq<SiteDump>,
          v: View, inc: set<string>, d: string)
    requires UsersListed(us, v, inc) && SitesListed(ss, v, SitesExported(v, inc))
    ensures SameAt(SitesRestored(o, UserNames(o, us, |us|), f, ss, |ss|), f + ImportedSites(o, v, inc), d)
    ensures d in Domains(o, UserNames(o, us, |us|), ss, |ss|) <==> d in SitesExported(v, inc)
  {
    hide UsersListed, Exported, SiteEntry, Known;
    var names := UserNames(o, us, |us|);
    DomainsAre(o, names, ss, |ss|, d);
    if d in SitesExported(v, inc) {
      var x := EntryOf(d, v.sites[d]);
      assert x in ss;
      var i :| 0 <= i < |ss| && ss[i] == x;
      OwnersKnown(o, us, v, inc, x);
      SiteAt(o, names, f, ss, |ss|, i);
    } else {
      forall i | 0 <= i < |ss| ensures ss[i].domain != d { assert ss[i] in ss; }
      SiteElse(o, names, f, ss, |ss|, d);
    }
  }

  ghost function ImportedTargets(v: View, inc: set<string>): map<(string, string), Target> {
    map k | k in v.targets && k.0 in SitesExported(v, inc) :: v.targets[k]
  }

  lemma {:induction false} TargetsImported(f: map<(string, string), Target>, ts: seq<TargetDump>, v: View,
          inc: set<string>, k: (string, string))
    requires TargetsListed(ts, v, SitesExported(v, inc)) && forall k :: k in v.targets ==> Trim(k.1) == k.1
    ensures SameAt(TargetsRestored(SitesExported(v, inc), f, ts, |ts|), f + ImportedTargets(v, inc), k)
  {
    hide SitesExported, Trim;
    forall i | 0 <= i < |ts| ensures Trim(ts[i].target) == ts[i].target && ts[i].domain in SitesExported(v, inc) {
      assert ts[i] in ts;
      assert (ts[i].domain, ts[i].target) in v.targets;
    }
    if k in v.targets && k.0 in SitesExported(v, inc) {
      var x := TargetDump(k.0, k.1, v.targets[k]);
      assert x in ts;
      var i :| 0 <= i < |ts| && ts[i] == x;
      TargetAt(SitesExported(v, inc), f, ts, |ts|, i);
    } else {
      forall i | 0 <= i < |ts| ensures (ts[i].domain, ts[i].target) != k { assert ts[i] in ts; }
      TargetElse(SitesExported(v, inc), f, ts, |ts|, k);
    }
  }

  // ---------------------------------------------------------------- what an archive does to a store

  /** The import of the users `inc` of `v` into `f`: a closed form without loops, order or ids. */
  ghost function Import(o: Options, f: View, v: View, inc: set<string>): View {
    View(f.panel + ImportedPanel(f.panel, v.panel, inc), f.users + ImportedUsers(v, inc), f.packages + v.packages,
         f.sites + ImportedSites(o, v, inc), f.targets + ImportedTargets(v, inc))
  }

  lemma SameSitesAndTargets(o: Options, f: View, v: View, inc: set<string>, d: Dump)
    requires WellStored(v) && IsDump(d, v, inc)
    ensures Restored(o, f, d).sites == f.sites + ImportedSites(o, v, inc)
    ensures Restored(o, f, d).targets == f.targets + ImportedTargets(v, inc)
    ensures Restored(o, f, d).packages == f.packages + v.packages
  {
    hide UsersListed, PanelListed, PackagesListed, SitesListed, TargetsListed, SitesExported, ImportedSites,
        ImportedTargets, SitesRestored, TargetsRestored, PackagesRestored, Domains, UserNames, Trim, SiteStored, SameAt;
    var names := UserNames(o, d.users, |d.users|);
    var sites := SitesRestored(o, names, f.sites, d.sites, |d.sites|);
    var targets := TargetsRestored(SitesExported(v, inc), f.targets, d.targets, |d.targets|);
    var packages := PackagesRestored(f.packages, d.packages, |d.packages|);
    forall x
      ensures SameAt(sites, f.sites + ImportedSites(o, v, inc), x)
      ensures (x in Domains(o, names, d.sites, |d.sites|) <==> x in SitesExported(v, inc))
    {
      SitesImported(o, f.sites, d.users, d.sites, v, inc, x);
    }
    SameEverywhere(sites, f.sites + ImportedSites(o, v, inc));
    assert Domains(o, names, d.sites, |d.sites|) == SitesExported(v, inc);
    forall k
      ensures SameAt(targets, f.targets + ImportedTargets(v, inc), k)
    {
      TargetsImported(f.targets, d.targets, v, inc, k);
    }
    SameEverywhere(targets, f.targets + ImportedTargets(v, inc));
    forall n ensures SameAt(packages, f.packages + v.packages, n) { PackagesImported(f.packages, d.packages, v, n); }
    SameEverywhere(packages, f.packages + v.packages);
  }

  /** Restoring any export of `inc`, whatever the order of its sites and targets, is the import. */
  lemma {:induction false} RestoreIsImport(o: Options, f: View, v: View, inc: set<string>, d: Dump)
    requires WellStored(v) && IsDump(d, v, inc) && o.newUser == ""
    ensures Restored(o, f, d) == Import(o, f, v, inc)
  {
    hide UsersListed, PanelListed, PackagesListed, SitesListed, TargetsListed, ImportedSites, ImportedTargets,
        SitesRestored, TargetsRestored, PackagesRestored, Domains, UserNames, PanelRestored, UsersRestored,
        ImportedPanel, ImportedUsers, Trim, SiteStored, SitesExported, SameAt;
    SameSitesAndTargets(o, f, v, inc, d);
    var panel, users := PanelRestored(o, f.panel, d.panel, |d.panel|), UsersRestored(o, f.users, d.users, |d.users|);
    forall n
      ensures SameAt(panel, f.panel + ImportedPanel(f.panel, v.panel, inc), n)
    {
      PanelImported(o, f.panel, d.panel, v, inc, n);
    }
    SameEverywhere(panel, f.panel + ImportedPanel(f.panel, v.panel, inc));
    forall n
      ensures SameAt(users, f.users + ImportedUsers(v, inc), n)
    {
      UsersImported(o, f.users, d.users, v, inc, n);
    }
    SameEverywhere(users, f.users + ImportedUsers(v, inc));
  }

  /** No entry of an export is refused, so such a restore runs to its end. */
  lemma NothingRefused(o: Options, v: View, inc: set<string>, d: Dump, e: Outcome)
    requires WellStored(v) && IsDump(d, v, inc) && Stops(o, d, e)
    ensures e == Done
  {
    hide PanelListed, PackagesListed, TargetsListed, Trim, StoredFields, Lt;
    forall i | 0 <= i < |d.users| ensures !UserRefused(o, d.users[i]) { assert d.users[i] in d.users; }
    forall i | 0 <= i < |d.sites| ensures !SiteRefused(o, UserNames(o, d.users, |d.users|), d.sites[i]) {
      var s := d.sites[i];
      assert s in d.sites && SiteStored(v.sites[s.domain]);
      ReplacedNotEmpty(s.fields.webroot, Join(o.homeRoot, s.owner), Join(o.homeRoot, Mapped(o, s.owner)));
    }
  }

  lemma ReplacedNotEmpty(s: string, was: string, to: string)
    requires s != "" && to != ""
    ensures ReplaceFirst(s, was, to) != ""
  {
  }

  // ---------------------------------------------------------------- every restore leaves well-stored rows

  ghost predicate PanelStored(panel: map<string, PanelView>) {
    forall n :: n in panel ==> panel[n].role != "" && (panel[n].reseller.Some? ==> panel[n].reseller.value in panel)
  }

  lemma PanelEntryStored(o: Options, v: map<string, PanelView>, seen: set<string>, p: PanelDump)
    requires PanelStored(v) && seen <= v.Keys
    ensures PanelStored(v[Mapped(o, p.username) := PanelEntry(o, v, seen, p)])
  {
    hide Mapped, DefaultSystemUser;
  }

  lemma {:induction false} PanelStaysStored(o: Options, v: map<string, PanelView>, ps: seq<PanelDump>, n: nat)
    requires n <= |ps| && PanelStored(v)
    ensures var w := PanelRestored(o, v, ps, n); PanelStored(w) && Seen(o, ps, n) <= w.Keys
  {
    hide Mapped, PanelEntry, PanelStored;
    if n == 0 {
    } else {
      PanelStaysStored(o, v, ps, n - 1);
      PanelEntryStored(o, PanelRestored(o, v, ps, n - 1), Seen(o, ps, n - 1), ps[n - 1]);
    }
  }

  lemma {:induction false} UsersStayStored(o: Options, v: map<string, string>, us: seq<UserDump>, n: nat)
    requires n <= |us| && (forall m :: m in v ==> m != "" && v[m] != "") && forall i ::
      0 <= i < n ==> !UserRefused(o, us[i])
    ensures var w := UsersRestored(o, v, us, n);
      (forall m :: m in w ==> m != "" && w[m] != "") && v.Keys <= w.Keys && UserNames(o, us, n) <= w.Keys
  {
    hide Mapped, Home;
    if n == 0 {
    } else {
      UsersStayStored(o, v, us, n - 1);
      assert !UserRefused(o, us[n - 1]);
    }
  }

  lemma FieldsStored(f: Fields)
    ensures StoredFields(StoredFields(f)) == StoredFields(f) && StoredFields(f).webroot == f.webroot
  {
    if f.parent.Some? { TrimTwice(f.parent.value); }
  }

  lemma {:induction false} SitesStayStored(o: Options, names: set<string>, users: set<string>, v: map<string, SiteView>,
          ss: seq<SiteDump>, n: nat)
    requires n <= |ss| && names <= users && forall i :: 0 <= i < n ==> !SiteRefused(o, names, ss[i])
    requires forall d :: d in v ==> d != "" && SiteStored(v[d]) && v[d].owner in users
    ensures var w := SitesRestored(o, names, v, ss, n);
      (forall d :: d in w ==> d != "" && SiteStored(w[d]) && w[d].owner in users) && v.Keys <= w.Keys &&
        Domains(o, names, ss, n) <= w.Keys
  {
    hide Mapped, StoredFields, Webroot, Trim;
    if n == 0 {
    } else {
      SitesStayStored(o, names, users, v, ss, n - 1);
      assert !SiteRefused(o, names, ss[n - 1]);
      FieldsStored(SiteFields(o, ss[n - 1]));
    }
  }

  lemma {:induction false} TargetsStayStored(domains: set<string>, v: map<(string, string), Target>,
          ts: seq<TargetDump>, n: nat, sites: set<string>)
    requires n <= |ts| && domains <= sites && forall k :: k in v ==> k.0 in sites && Trim(k.1) == k.1
    ensures var w := TargetsRestored(domains, v, ts, n); forall k :: k in w ==> k.0 in sites && Trim(k.1) == k.1
  {
    hide Trim;
    if n == 0 {
    } else {
      TargetsStayStored(domains, v, ts, n - 1, sites);
      TrimTwice(ts[n - 1].target);
    }
  }

  /** Whatever the archive holds and wherever the restore stops, the rows it leaves are well stored. */
  lemma RestoreKeepsStored(o: Options, f: View, d: Dump, e: Outcome)
    requires WellStored(f) && Stops(o, d, e)
    ensures WellStored(RestoredTo(o, f, d, e))
  {
    hide Mapped, PanelRestored, UsersRestored, SitesRestored, TargetsRestored, PackagesRestored, UserNames, Domains,
        Seen, Trim, SiteStored, UserRefused, SiteRefused;
    var nu, ns := UsersDone(d, e), SitesDone(d, e);
    var names := UserNames(o, d.users, nu);
    var r := RestoredTo(o, f, d, e);
    PanelStaysStored(o, f.panel, d.panel, |d.panel|);
    UsersStayStored(o, f.users, d.users, nu);
    SitesStayStored(o, names, r.users.Keys, f.sites, d.sites, ns);
    TargetsStayStored(Domains(o, names, d.sites, ns), f.targets, d.targets, if e.Done? then |d.targets| else 0,
        r.sites.Keys);
  }
}
