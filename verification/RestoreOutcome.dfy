/** What a restore makes of each entry of an archive, field by field. */
module RestoreOutcomes {
  import opened Text
  import opened BackupTables
  import opened BackupDump
  import opened BackupRestore
  import opened RestoreRename

  /** A name under the new user name, if one was given. */
  function To(o: Options, name: string): string {
    if o.newUser != "" && name == o.subject then o.newUser else name
  }

  ghost predicate Distinct(o: Options, d: Dump) {
    && (forall i, j :: 0 <= i < j < |d.panel| ==> To(o, d.panel[i].username) != To(o, d.panel[j].username))
    && (forall i, j :: 0 <= i < j < |d.users| ==> To(o, d.users[i].username) != To(o, d.users[j].username))
    && (forall i, j :: 0 <= i < j < |d.packages| ==> d.packages[i].name != d.packages[j].name)
    && (forall i, j :: 0 <= i < j < |d.sites| ==> d.sites[i].domain != d.sites[j].domain)
    && (forall i, j :: 0 <= i < j < |d.targets| ==>
      (d.targets[i].domain, Trim(d.targets[i].target)) != (d.targets[j].domain, Trim(d.targets[j].target)))
  }

  /** `w` is `v` with values written under their keys, which are distinct. */
  ghost predicate Written<K(!new), V>(v: map<K, V>, w: map<K, V>, keys: seq<K>, vals: seq<V>) {
    && |keys| == |vals| && (forall i :: 0 <= i < |keys| ==> keys[i] in w && w[keys[i]] == vals[i])
    && (forall k :: k !in keys ==> (k in w <==> k in v) && (k in v ==> w[k] == v[k]))
  }

  lemma WriteOne<K(!new), V>(v: map<K, V>, w: map<K, V>, keys: seq<K>, vals: seq<V>, k: K, x: V)
    requires Written(v, w, keys, vals) && k !in keys
    ensures Written(v, w[k := x], keys + [k], vals + [x])
  {
  }

  lemma WriteNone<K(!new), V>(v: map<K, V>)
    ensures Written(v, v, [], [])
  {
  }

  // ---------------------------------------------------------------- replacing in a path

  /** What is replaced is the first occurrence. */
  lemma {:induction false} ReplacesTheFirst(s: string, x: string, was: string, y: string, to: string)
    requires was != "" && s == x + was + y && !Contains(x + was[..|was| - 1], was)
    ensures ReplaceFirst(s, was, to) == x + to + y
    decreases |x|
  {
    if x == [] {
      assert s[..|was|] == was && s[|was|..] == y;
    } else {
      var x' := x[1..];
      assert s[1..] == x' + was + y && (x + was[..|was| - 1])[1..] == x' + was[..|was| - 1];
      NotYet(x, was, y);
      ReplacesTheFirst(s[1..], x', was, y, to);
      assert [s[0]] + (x' + to + y) == x + to + y;
    }
  }

  lemma NotYet(x: string, was: string, y: string)
    requires x != "" && was != "" && !Contains(x + was[..|was| - 1], was)
    ensures !StartsWith(x + was + y, was)
  {
    var s, t := x + was + y, x + was[..|was| - 1];
    assert s[..|was|] == t[..|was|];
  }

  // ---------------------------------------------------------------- panel users

  /** What an entry becomes: the default role if it has none, its own name if it names no system user, and as
      reseller one of the entries before it, or else the one it had. */
  ghost function PanelAfter(o: Options, v: map<string, PanelView>, ps: seq<PanelDump>, i: nat): PanelView
    requires i < |ps|
  {
    var p := ps[i];
    var name := To(o, p.username);
    PanelView(p.hash, if p.role == "" then "admin" else p.role, p.enabled,
              if p.reseller != "" && exists j :: 0 <= j < i && To(o, ps[j].username) == To(o, p.reseller) then
                Some(To(o, p.reseller))
              else if name in v then v[name].reseller else None,
              if Trim(p.systemUser) != "" then To(o, p.systemUser) else name)
  }

  function PanelNames(o: Options, ps: seq<PanelDump>, n: nat): seq<string>
    requires n <= |ps|
  {
    seq(n, i requires 0 <= i < n => To(o, ps[i].username))
  }

  ghost function PanelsAfter(o: Options, v: map<string, PanelView>, ps: seq<PanelDump>, n: nat): seq<PanelView>
    requires n <= |ps|
  {
    seq(n, i requires 0 <= i < n => PanelAfter(o, v, ps, i))
  }

  lemma {:induction false} PanelsHold(o: Options, v: map<string, PanelView>, ps: seq<PanelDump>, n: nat)
    requires n <= |ps| && forall i, j :: 0 <= i < j < |ps| ==> To(o, ps[i].username) != To(o, ps[j].username)
    ensures Written(v, PanelRestored(o, v, ps, n), PanelNames(o, ps, n), PanelsAfter(o, v, ps, n))
    decreases n
  {
    hide PanelAfter, PanelEntry, To, Written, Seen, Mapped;
    if n == 0 {
      WriteNone(v);
      assert PanelNames(o, ps, 0) == [] && PanelsAfter(o, v, ps, 0) == [];
    } else {
      var w, k, x := PanelRestored(o, v, ps, n - 1), To(o, ps[n - 1].username), PanelAfter(o, v, ps, n - 1);
      PanelsHold(o, v, ps, n - 1);
      EntryIs(o, v, w, ps, n - 1);
      assert PanelNames(o, ps, n) == PanelNames(o, ps, n - 1) + [k];
      assert PanelsAfter(o, v, ps, n) == PanelsAfter(o, v, ps, n - 1) + [x];
      WriteOne(v, w, PanelNames(o, ps, n - 1), PanelsAfter(o, v, ps, n - 1), k, x);
    }
  }

  lemma EntryIs(o: Options, v: map<string, PanelView>, w: map<string, PanelView>, ps: seq<PanelDump>, i: nat)
    requires i < |ps| && forall j :: 0 <= j < i ==> To(o, ps[j].username) != To(o, ps[i].username)
    requires Written(v, w, PanelNames(o, ps, i), PanelsAfter(o, v, ps, i))
    ensures PanelEntry(o, w, Seen(o, ps, i), ps[i]) == PanelAfter(o, v, ps, i)
    ensures Mapped(o, ps[i].username) == To(o, ps[i].username)
  {
    hide Trim;
    assert To(o, ps[i].username) !in PanelNames(o, ps, i);
  }

  // ---------------------------------------------------------------- users and packages

  function HomeAfter(o: Options, u: UserDump): string {
    if u.home == "" || (o.newUser != "" && u.username == o.subject) then o.homeRoot + "/" + To(o, u.username)
    else u.home
  }

  /** What the store refuses: a user without a name or a home, and a site of a restored user without a domain or a
      webroot. */
  lemma RefusedExactly(o: Options, names: set<string>, u: UserDump, s: SiteDump)
    ensures UserRefused(o, u) <==> To(o, u.username) == "" || HomeAfter(o, u) == ""
    ensures SiteRefused(o, names, s) <==>
      To(o, s.owner) in names && (s.domain == "" || SiteAfter(o, s).fields.webroot == "")
  {
    hide ReplaceFirst, Trim;
  }

  function SystemNames(o: Options, us: seq<UserDump>, n: nat): seq<string>
    requires n <= |us|
  {
    seq(n, i requires 0 <= i < n => To(o, us[i].username))
  }

  function HomesAfter(o: Options, us: seq<UserDump>, n: nat): seq<string>
    requires n <= |us|
  {
    seq(n, i requires 0 <= i < n => HomeAfter(o, us[i]))
  }

  lemma {:induction false} UsersHold(o: Options, v: map<string, string>, us: seq<UserDump>, n: nat)
    requires n <= |us| && forall i, j :: 0 <= i < j < |us| ==> To(o, us[i].username) != To(o, us[j].username)
    ensures Written(v, UsersRestored(o, v, us, n), SystemNames(o, us, n), HomesAfter(o, us, n))
    ensures forall m :: m in UserNames(o, us, n) <==> m in SystemNames(o, us, n)
    decreases n
  {
    hide To, Home, HomeAfter, Mapped, Written;
    if n == 0 {
      WriteNone(v);
      assert SystemNames(o, us, 0) == [] && HomesAfter(o, us, 0) == [];
    } else {
      var w, u := UsersRestored(o, v, us, n - 1), us[n - 1];
      UsersHold(o, v, us, n - 1);
      HomesAre(o, u);
      assert SystemNames(o, us, n) == SystemNames(o, us, n - 1) + [To(o, u.username)];
      assert HomesAfter(o, us, n) == HomesAfter(o, us, n - 1) + [HomeAfter(o, u)];
      WriteOne(v, w, SystemNames(o, us, n - 1), HomesAfter(o, us, n - 1), To(o, u.username), HomeAfter(o, u));
    }
  }

  lemma HomesAre(o: Options, u: UserDump)
    ensures Home(o, u) == HomeAfter(o, u) && Mapped(o, u.username) == To(o, u.username)
  {
  }

  function PackageNames(ps: seq<PackageDump>, n: nat): seq<string>
    requires n <= |ps|
  {
    seq(n, i requires 0 <= i < n => ps[i].name)
  }

  function PackageLimits(ps: seq<PackageDump>, n: nat): seq<Limits>
    requires n <= |ps|
  {
    seq(n, i requires 0 <= i < n => ps[i].limits)
  }

  lemma {:induction false} PackagesHold(v: map<string, Limits>, ps: seq<PackageDump>, n: nat)
    requires n <= |ps| && forall i, j :: 0 <= i < j < |ps| ==> ps[i].name != ps[j].name
    ensures Written(v, PackagesRestored(v, ps, n), PackageNames(ps, n), PackageLimits(ps, n))
    decreases n
  {
    hide Written;
    if n == 0 {
      WriteNone(v);
      assert PackageNames(ps, 0) == [] && PackageLimits(ps, 0) == [];
    } else {
      PackagesHold(v, ps, n - 1);
      assert PackageNames(ps, n) == PackageNames(ps, n - 1) + [ps[n - 1].name];
      assert PackageLimits(ps, n) == PackageLimits(ps, n - 1) + [ps[n - 1].limits];
      WriteOne(v, PackagesRestored(v, ps, n - 1), PackageNames(ps, n - 1), PackageLimits(ps, n - 1), ps[n - 1].name,
          ps[n - 1].limits);
    }
  }

  // ---------------------------------------------------------------- sites and targets

  /** A site as its entry has it, for the renamed owner with the first mention of the old home replaced, and with
      the defaults of the store. */
  function SiteAfter(o: Options, s: SiteDump): SiteView {
    var renamed := o.newUser != "" && s.owner == o.subject;
    SiteView(To(o, s.owner), s.fields.(
      mode := if s.fields.mode == "" then "php" else s.fields.mode,
      parent := if s.fields.parent == None || Trim(s.fields.parent.value) == "" then None
                else Some(Trim(s.fields.parent.value)),
      webroot := if renamed then
                   ReplaceFirst(s.fields.webroot, o.homeRoot + "/" + o.subject, o.homeRoot + "/" + o.newUser)
                 else s.fields.webroot))
  }

  /** The entries whose owner is among the archived users. */
  function Owned(o: Options, names: set<string>, ss: seq<SiteDump>, n: nat): seq<SiteDump>
    requires n <= |ss|
  {
    if n == 0 then []
    else Owned(o, names, ss, n - 1) + (if To(o, ss[n - 1].owner) in names then [ss[n - 1]] else [])
  }

  function SiteDomains(ss: seq<SiteDump>): seq<string> {
    seq(|ss|, i requires 0 <= i < |ss| => ss[i].domain)
  }

  function SitesAfter(o: Options, ss: seq<SiteDump>): seq<SiteView> {
    seq(|ss|, i requires 0 <= i < |ss| => SiteAfter(o, ss[i]))
  }

  lemma {:induction false} OwnedAre(o: Options, names: set<string>, ss: seq<SiteDump>, n: nat)
    requires n <= |ss|
    ensures forall s :: s in Owned(o, names, ss, n) <==>
      exists i :: 0 <= i < n && ss[i] == s && To(o, s.owner) in names
    decreases n
  {
    hide To;
    if n == 0 {
    } else {
      OwnedAre(o, names, ss, n - 1);
      forall s ensures s in Owned(o, names, ss, n) <==>
        exists i :: 0 <= i < n && ss[i] == s && To(o, s.owner) in names
      {
        if s == ss[n - 1] && To(o, s.owner) in names { assert s in Owned(o, names, ss, n); }
      }
    }
  }

  lemma {:induction false} SitesHold(o: Options, names: set<string>, v: map<string, SiteView>, ss: seq<SiteDump>,
          n: nat)
    requires n <= |ss| && forall i, j :: 0 <= i < j < |ss| ==> ss[i].domain != ss[j].domain
    ensures var kept := Owned(o, names, ss, n);
      && Written(v, SitesRestored(o, names, v, ss, n), SiteDomains(kept), SitesAfter(o, kept))
      && forall d :: d in Domains(o, names, ss, n) <==> d in SiteDomains(kept)
    decreases n
  {
    hide SiteEntry, SiteAfter, To, Written, Mapped;
    if n == 0 {
      WriteNone(v);
      assert SiteDomains([]) == [] && SitesAfter(o, []) == [];
    } else {
      var s, kept := ss[n - 1], Owned(o, names, ss, n - 1);
      SitesHold(o, names, v, ss, n - 1);
      OneSite(o, names, s);
      OwnedAre(o, names, ss, n - 1);
      if To(o, s.owner) in names {
        assert SiteDomains(kept + [s]) == SiteDomains(kept) + [s.domain];
        assert SitesAfter(o, kept + [s]) == SitesAfter(o, kept) + [SiteAfter(o, s)];
        assert s.domain !in SiteDomains(kept) by { NotAmong(kept, s.domain); }
        WriteOne(v, SitesRestored(o, names, v, ss, n - 1), SiteDomains(kept), SitesAfter(o, kept), s.domain,
            SiteAfter(o, s));
      } else {
        assert kept + [] == kept;
      }
    }
  }

  lemma NotAmong(kept: seq<SiteDump>, d: string)
    requires forall s :: s in kept ==> s.domain != d
    ensures d !in SiteDomains(kept)
  {
  }

  lemma OneSite(o: Options, names: set<string>, s: SiteDump)
    ensures SiteEntry(o, s) == SiteAfter(o, s) && Mapped(o, s.owner) == To(o, s.owner)
  {
    hide Trim, ReplaceFirst;
  }

  /** The proxy targets of sites that were restored. */
  function Followed(domains: set<string>, ts: seq<TargetDump>, n: nat): seq<TargetDump>
    requires n <= |ts|
  {
    if n == 0 then [] else Followed(domains, ts, n - 1) + (if ts[n - 1].domain in domains then [ts[n - 1]] else [])
  }

  function TargetKeys(ts: seq<TargetDump>): seq<(string, string)> {
    seq(|ts|, i requires 0 <= i < |ts| => (ts[i].domain, Trim(ts[i].target)))
  }

  function TargetValues(ts: seq<TargetDump>): seq<Target> {
    seq(|ts|, i requires 0 <= i < |ts| => ts[i].t)
  }

  lemma {:induction false} FollowedAre(domains: set<string>, ts: seq<TargetDump>, n: nat)
    requires n <= |ts|
    ensures forall x :: x in Followed(domains, ts, n) <==> exists i :: 0 <= i < n && ts[i] == x && x.domain in domains
    decreases n
  {
    if n == 0 {
    } else {
      FollowedAre(domains, ts, n - 1);
      forall x ensures x in Followed(domains, ts, n) <==> exists i :: 0 <= i < n && ts[i] == x && x.domain in domains {
        if x == ts[n - 1] && x.domain in domains { assert x in Followed(domains, ts, n); }
      }
    }
  }

  lemma {:induction false} TargetsHold(domains: set<string>, v: map<(string, string), Target>, ts: seq<TargetDump>,
          n: nat)
    requires n <= |ts| && forall i, j :: 0 <= i < j < |ts| ==>
      (ts[i].domain, Trim(ts[i].target)) != (ts[j].domain, Trim(ts[j].target))
    ensures var kept := Followed(domains, ts, n);
      Written(v, TargetsRestored(domains, v, ts, n), TargetKeys(kept), TargetValues(kept))
    decreases n
  {
    hide Trim, Written;
    if n == 0 {
      WriteNone(v);
      assert TargetKeys([]) == [] && TargetValues([]) == [];
    } else {
      var t, kept := ts[n - 1], Followed(domains, ts, n - 1);
      TargetsHold(domains, v, ts, n - 1);
      FollowedAre(domains, ts, n - 1);
      if t.domain in domains {
        var k := (t.domain, Trim(t.target));
        assert TargetKeys(kept + [t]) == TargetKeys(kept) + [k];
        assert TargetValues(kept + [t]) == TargetValues(kept) + [t.t];
        assert k !in TargetKeys(kept) by { KeyNotAmong(kept, k); }
        WriteOne(v, TargetsRestored(domains, v, ts, n - 1), TargetKeys(kept), TargetValues(kept), k, t.t);
      } else {
        assert kept + [] == kept;
      }
    }
  }

  lemma KeyNotAmong(kept: seq<TargetDump>, k: (string, string))
    requires forall x :: x in kept ==> (x.domain, Trim(x.target)) != k
    ensures k !in TargetKeys(kept)
  {
    hide Trim;
  }

  /** A whole restore that is refused nowhere, entry by entry; what the archive does not name stays. */
  lemma RestoreOutcome(o: Options, v: View, d: Dump) returns (sites: seq<SiteDump>, targets: seq<TargetDump>)
    requires Distinct(o, d)
    ensures var w := Restored(o, v, d);
      && Written(v.panel, w.panel, PanelNames(o, d.panel, |d.panel|), PanelsAfter(o, v.panel, d.panel, |d.panel|))
      && Written(v.users, w.users, SystemNames(o, d.users, |d.users|), HomesAfter(o, d.users, |d.users|))
      && Written(v.packages, w.packages, PackageNames(d.packages, |d.packages|),
          PackageLimits(d.packages, |d.packages|))
      && Written(v.sites, w.sites, SiteDomains(sites), SitesAfter(o, sites))
      && Written(v.targets, w.targets, TargetKeys(targets), TargetValues(targets))
    ensures forall s :: s in sites <==> s in d.sites && exists u :: u in d.users && To(o, u.username) == To(o, s.owner)
    ensures forall t :: t in targets <==> t in d.targets && exists s :: s in sites && s.domain == t.domain
  {
    hide Written, To, PanelsAfter, HomesAfter, SitesAfter, Trim, PanelRestored, UsersRestored, PackagesRestored,
        SitesRestored, TargetsRestored, UserNames, Domains, Owned, Followed, TargetKeys, TargetValues;
    PanelsHold(o, v.panel, d.panel, |d.panel|);
    UsersHold(o, v.users, d.users, |d.users|);
    PackagesHold(v.packages, d.packages, |d.packages|);
    var names := UserNames(o, d.users, |d.users|);
    SitesHold(o, names, v.sites, d.sites, |d.sites|);
    OwnedAre(o, names, d.sites, |d.sites|);
    sites := Owned(o, names, d.sites, |d.sites|);
    var domains := Domains(o, names, d.sites, |d.sites|);
    TargetsHold(domains, v.targets, d.targets, |d.targets|);
    FollowedAre(domains, d.targets, |d.targets|);
    targets := Followed(domains, d.targets, |d.targets|);
    forall m ensures m in names <==> exists u :: u in d.users && To(o, u.username) == m { NamesAre(o, d.users, m); }
    forall x ensures x in domains <==> exists s :: s in sites && s.domain == x { DomainsAre(sites, x); }
  }

  lemma NamesAre(o: Options, us: seq<UserDump>, m: string)
    ensures m in SystemNames(o, us, |us|) <==> exists u :: u in us && To(o, u.username) == m
  {
    hide To;
    if u :| u in us && To(o, u.username) == m {
      var i :| 0 <= i < |us| && us[i] == u;
      assert SystemNames(o, us, |us|)[i] == m;
    }
  }

  lemma DomainsAre(ss: seq<SiteDump>, d: string)
    ensures d in SiteDomains(ss) <==> exists s :: s in ss && s.domain == d
  {
    if s :| s in ss && s.domain == d {
      var i :| 0 <= i < |ss| && ss[i] == s;
      assert SiteDomains(ss)[i] == d;
    }
  }
}
