/** Restoring one user under a new name, and whether the webroots follow the files. */
module RestoreRename {
  import opened Text
  import opened BackupTables
  import opened BackupDump
  import opened BackupRestore
  import opened RestoreProofs

  /** The archived account under its new name. Its reseller is not in the archive, so a reseller is only
      kept from an account that already has that name. */
  ghost function RenamedAccount(o: Options, f: map<string, PanelView>, p: PanelView): PanelView {
    PanelView(p.hash, p.role, p.enabled, if o.newUser in f then f[o.newUser].reseller else None,
        Mapped(o, DefaultSystemUser(p.systemUser, o.subject)))
  }

  function RenamedSite(o: Options, s: SiteView): SiteView {
    var was, to := Join(o.homeRoot, o.subject), Join(o.homeRoot, o.newUser);
    SiteView(o.newUser, s.fields.(webroot := ReplaceFirst(s.fields.webroot, was, to)))
  }

  /** The archive of `subject` as `newUser` in `f`: a closed form. */
  ghost function Renamed(o: Options, f: View, v: View): View
    requires o.subject in v.panel
  {
    View(f.panel[o.newUser := RenamedAccount(o, f.panel, v.panel[o.subject])],
         if o.subject in v.users then f.users[o.newUser := Join(o.homeRoot, o.newUser)] else f.users,
         f.packages + v.packages,
         f.sites + map d | d in v.sites && d in SitesExported(v, {o.subject}) :: RenamedSite(o, v.sites[d]),
         f.targets + ImportedTargets(v, {o.subject}))
  }

  lemma {:induction false} OnePanel(o: Options, f: map<string, PanelView>, ps: seq<PanelDump>, v: View)
    requires o.newUser != "" && o.subject in v.panel && PanelListed(ps, v, {o.subject}) && v.panel[o.subject].role != ""
    ensures PanelRestored(o, f, ps, |ps|) == f[o.newUser := RenamedAccount(o, f, v.panel[o.subject])]
  {
    hide Le, DefaultSystemUser;
    var x := PanelDumpOf(o.subject, v.panel[o.subject]);
    assert x in ps;
    forall i | 0 <= i < |ps| ensures ps[i].username == o.subject { assert ps[i] in ps; }
    assert |ps| > 1 ==> Lt(ps[0].username, ps[1].username);
    assert ps[0] == x;
    assert PanelRestored(o, f, ps, 0) == f;
  }

  lemma OneUser(o: Options, f: map<string, string>, us: seq<UserDump>, v: View)
    requires o.newUser != "" && o.subject in v.panel && UsersListed(us, v, {o.subject})
    ensures UsersRestored(o, f, us, |us|)
      == if o.subject in v.users then f[o.newUser := Join(o.homeRoot, o.newUser)] else f
  {
    hide Le;
    forall i | 0 <= i < |us| ensures us[i].username == o.subject && o.subject in v.users { assert us[i] in us; }
    assert |us| > 1 ==> Lt(us[0].username, us[1].username);
    if o.subject in v.users {
      assert UserDump(o.subject, v.users[o.subject]) in us;
      assert UsersRestored(o, f, us, 0) == f;
    }
  }

  lemma RenamedSites(o: Options, v: View)
    requires o.newUser != "" && WellStored(v)
    ensures ImportedSites(o, v, {o.subject})
      == map d | d in v.sites && d in SitesExported(v, {o.subject}) :: RenamedSite(o, v.sites[d])
  {
    hide Trim, ReplaceFirst;
    forall d | d in SitesExported(v, {o.subject})
      ensures SiteEntry(o, EntryOf(d, v.sites[d])) == RenamedSite(o, v.sites[d])
    {
      assert SiteStored(v.sites[d]);
      assert v.sites[d].owner == o.subject;
    }
  }

  /** With --new-user a user-scoped archive restores as the dump renamed old to new. */
  lemma RestoreRenames(o: Options, f: View, v: View, d: Dump)
    requires WellStored(v) && o.newUser != "" && o.subject in v.panel && IsDump(d, v, {o.subject})
    ensures Restored(o, f, d) == Renamed(o, f, v)
  {
    hide UsersListed, PanelListed, PackagesListed, SitesListed, TargetsListed, ImportedSites, ImportedTargets,
        SitesRestored, TargetsRestored, PackagesRestored, Domains, UserNames, PanelRestored, UsersRestored, Trim,
        SiteStored, SitesExported, RenamedAccount, RenamedSite;
    SameSitesAndTargets(o, f, v, {o.subject}, d);
    RenamedSites(o, v);
    OnePanel(o, f.panel, d.panel, v);
    OneUser(o, f.users, d.users, v);
  }

  // ---------------------------------------------------------------- files

  /** Create stores the file `path` below the home directory as sites/<user>/<path>, and
      restoreExtractedFiles puts it below the home root of the mapped user. */
  function LandsAt(o: Options, owner: string, path: string): string {
    Join(Join(o.homeRoot, Mapped(o, owner)), path)
  }

  lemma SameTail(a: string, b: string, path: string)
    ensures Join(a, path) == Join(b, path) <==> a == b
  {
    if Join(a, path) == Join(b, path) {
      assert a == Join(a, path)[..|Join(a, path)| - |path| - 1];
      assert b == Join(b, path)[..|Join(b, path)| - |path| - 1];
    }
  }

  /** Without a new name, a webroot below the home directory is where its files land exactly if the
      home directory is the one below the home root. */
  lemma WebrootFollowsFiles(o: Options, owner: string, home: string, path: string)
    requires o.newUser == ""
    ensures Webroot(o, owner, Join(home, path)) == LandsAt(o, owner, path) <==> home == Join(o.homeRoot, owner)
  {
    SameTail(home, Join(o.homeRoot, owner), path);
  }

  predicate StartsWith(s: string, prefix: string) {
    |s| >= |prefix| && s[..|prefix|] == prefix
  }

  predicate Contains(s: string, part: string) {
    StartsWith(s, part) || (s != [] && Contains(s[1..], part))
  }

  lemma {:induction false} NothingToReplace(s: string, was: string, to: string)
    requires !Contains(s, was)
    ensures ReplaceFirst(s, was, to) == s
  {
    if s == [] {
    } else {
      NothingToReplace(s[1..], was, to);
    }
  }

  /** A path element. */
  predicate Element(u: string) {
    u != "" && '/' !in u
  }

  lemma {:induction false} FirstPlace(s: string, was: string, to: string) returns (a: string, rest: string)
    requires Contains(s, was)
    ensures s == a + was + rest && ReplaceFirst(s, was, to) == a + to + rest && (a == "" ==> StartsWith(s, was))
  {
    if StartsWith(s, was) {
      a, rest := "", s[|was|..];
    } else {
      var b;
      b, rest := FirstPlace(s[1..], was, to);
      a := [s[0]] + b;
      Prepend(s[0], b, was, rest);
      Prepend(s[0], b, to, rest);
      assert s == [s[0]] + s[1..];
    }
  }

  lemma Prepend(c: char, a: string, b: string, d: string)
    ensures [c] + a + b + d == [c] + (a + b + d)
  {
  }

  /** A tail that begins with a slash holds the whole last element. */
  lemma TailHoldsElement(x: string, u: string, tail: string)
    requires '/' !in u && |tail| <= |x + "/" + u| && (x + "/" + u)[|x + "/" + u| - |tail|..] == tail && tail != "" &&
      tail[0] == '/'
    ensures |tail| > |u| && tail[|tail| - |u| - 1..] == "/" + u
  {
    var t := x + "/" + u;
    assert t[|t| - |tail|] == tail[0];
    forall i | |t| - |u| <= i < |t| ensures t[i] != '/' { assert t[i] == u[i - (|t| - |u|)]; }
    assert t[|t| - |u| - 1..] == "/" + u;
  }

  lemma SameElement(t: string, u: string, w: string)
    requires '/' !in u && '/' !in w && |t| > |u| && |t| > |w| && t[|t| - |u| - 1..] == "/" + u &&
      t[|t| - |w| - 1..] == "/" + w
    ensures u == w
  {
    assert t[|t| - |u| - 1] == ("/" + u)[0] && t[|t| - |w| - 1] == ("/" + w)[0];
    forall i | |t| - |u| <= i < |t|
      ensures t[i] != '/'
    {
      assert t[i] == ("/" + u)[i - (|t| - |u| - 1)] == u[i - (|t| - |u|)];
    }
    forall i | |t| - |w| <= i < |t|
      ensures t[i] != '/'
    {
      assert t[i] == ("/" + w)[i - (|t| - |w| - 1)] == w[i - (|t| - |w|)];
    }
    assert u == t[|t| - |u|..] && w == t[|t| - |w|..];
  }

  lemma OverlapsTail(a: string, part: string, rest: string, head: string, tail: string)
    requires a + part + rest == head + tail && |head| == |part|
    ensures |tail| >= |a| && (a + part)[|part|..] == tail[..|a|]
  {
    var x := a + part + rest;
    assert x[..|a + part|] == a + part;
    assert x[|part|..] == tail;
    assert x[|part|..|a + part|] == tail[..|a|];
  }

  lemma Joined(a: string, b: string, c: string)
    ensures a + Join(b, c) == a + b + "/" + c && Join(a, c) == a + ("/" + c) && |Join(a, c)| == |a| + 1 + |c|
  {
  }

  /** The replaced name cannot stand further inside: the two results would end in different names. */
  lemma NotFurtherInside(root: string, u: string, w: string, home: string, path: string, a: string, rest: string)
    requires Element(u) && Element(w)
    requires Join(home, path) == a + Join(root, u) + rest && a + Join(root, w) + rest == Join(Join(root, w), path)
    ensures a == "" || u == w
  {
    hide Join;
    var was, to, s := Join(root, u), Join(root, w), "/" + path;
    Joined(home, root, path);
    Joined(to, root, path);
    OverlapsTail(a, was, rest, home, s);
    OverlapsTail(a, to, rest, to, s);
    Joined(a, root, u);
    Joined(a, root, w);
    if a != "" { EndsAlike(a + root, |was|, |to|, s[..|a|], u, w); }
  }

  lemma EndsAlike(x: string, m: nat, n: nat, tail: string, u: string, w: string)
    requires Element(u) && Element(w) && tail != "" && tail[0] == '/'
    requires m <= |x + "/" + u| && (x + "/" + u)[m..] == tail && n <= |x + "/" + w| && (x + "/" + w)[n..] == tail
    ensures u == w
  {
    TailHoldsElement(x, u, tail);
    TailHoldsElement(x, w, tail);
    SameElement(tail, u, w);
  }

  /** Under a new name, a webroot that mentions the old home below the home root follows its files
      exactly if that is the user's home directory; any other follows them exactly if the user's home
      directory is already the new one. */
  lemma RenamedWebrootFollowsFiles(o: Options, home: string, path: string)
    requires Element(o.newUser) && Element(o.subject)
    ensures Webroot(o, o.subject, Join(home, path)) == LandsAt(o, o.subject, path) <==>
      home == (if Contains(Join(home, path), Join(o.homeRoot, o.subject)) then Join(o.homeRoot, o.subject)
               else Join(o.homeRoot, o.newUser))
  {
    hide ReplaceFirst, Contains;
    var was, to, w := Join(o.homeRoot, o.subject), Join(o.homeRoot, o.newUser), Join(home, path);
    assert w == home + ("/" + path) && Join(to, path) == to + ("/" + path);
    if Contains(w, was) {
      var a, rest := FirstPlace(w, was, to);
      if a + to + rest == Join(to, path) {
        NotFurtherInside(o.homeRoot, o.subject, o.newUser, home, path, a, rest);
        if was == to {
          SameTail(home, to, path);
        } else {
          assert to + rest == to + ("/" + path) && rest == (to + rest)[|to|..] == "/" + path;
          SameTail(home, was, path);
        }
      }
      if home == was { PrefixReplaced(was, "/" + path, to); }
    } else {
      NothingToReplace(w, was, to);
      SameTail(home, to, path);
    }
  }

  lemma PrefixReplaced(was: string, rest: string, to: string)
    ensures ReplaceFirst(was + rest, was, to) == to + rest
  {
    assert (was + rest)[..|was|] == was && (was + rest)[|was|..] == rest;
  }

  /** In the restored store: each site of the renamed user whose webroot lay below the archived home
      points at its files, exactly under that condition on the home. */
  lemma RestoredSitesFollowFiles(o: Options, f: View, v: View, d: Dump, x: string, path: string)
    requires WellStored(v) && Element(o.newUser) && Element(o.subject) && o.subject in v.panel
    requires IsDump(d, v, {o.subject})
    requires x in SitesExported(v, {o.subject}) && v.sites[x].fields.webroot == Join(v.users[o.subject], path)
    ensures var home := v.users[o.subject];
      x in Restored(o, f, d).sites &&
      (Restored(o, f, d).sites[x].fields.webroot == LandsAt(o, o.subject, path) <==>
        home == (if Contains(Join(home, path), Join(o.homeRoot, o.subject)) then Join(o.homeRoot, o.subject)
                 else Join(o.homeRoot, o.newUser)))
  {
    hide IsDump, WellStored, Restored, ImportedTargets, RenamedAccount, Contains, ReplaceFirst;
    RestoreRenames(o, f, v, d);
    RenamedWebrootFollowsFiles(o, v.users[o.subject], path);
  }
}
