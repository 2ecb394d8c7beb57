/** The table part of Restore (internal/backup/restore.go), against a specification on the id-free
    view. */
module BackupRestore {
  import opened Text
  import opened BackupTables
  import opened BackupDump

  /** `newUser` is "" without --new-user; `subject` is the user of a user-scoped archive. */
  datatype Options = Options(newUser: string, subject: string, homeRoot: string)

  /** mappedName over the name map of Restore. */
  function Mapped(o: Options, name: string): string {
    if o.newUser != "" && name == o.subject then o.newUser else name
  }

  function DefaultSystemUser(systemUser: string, username: string): string {
    if Trim(systemUser) != "" then systemUser else username
  }

  /** strings.Replace(s, from, to, 1). */
  function ReplaceFirst(s: string, from: string, to: string): string {
    if |s| >= |from| && s[..|from|] == from then to + s[|from|..]
    else if s == [] then []
    else [s[0]] + ReplaceFirst(s[1..], from, to)
  }

  function Webroot(o: Options, owner: string, webroot: string): string {
    if o.newUser != "" && owner == o.subject then
      ReplaceFirst(webroot, Join(o.homeRoot, owner), Join(o.homeRoot, Mapped(o, owner)))
    else webroot
  }

  function Home(o: Options, u: UserDump): string {
    if u.home == "" || (o.newUser != "" && u.username == o.subject) then Join(o.homeRoot, Mapped(o, u.username))
    else u.home
  }

  // ---------------------------------------------------------------- the first n entries, on the view

  /** The names restored before entry `n`, by which resellers are found. */
  function Seen(o: Options, ps: seq<PanelDump>, n: nat): set<string>
    requires n <= |ps|
  {
    set i | 0 <= i < n :: Mapped(o, ps[i].username)
  }

  function PanelEntry(o: Options, v: map<string, PanelView>, seen: set<string>, p: PanelDump): PanelView {
    var name, reseller := Mapped(o, p.username), Mapped(o, p.reseller);
    PanelView(p.hash, if p.role == "" then "admin" else p.role, p.enabled,
              if p.reseller != "" && reseller in seen then Some(reseller)
              else if name in v then v[name].reseller else None,
              Mapped(o, DefaultSystemUser(p.systemUser, p.username)))
  }

  function PanelRestored(o: Options, v: map<string, PanelView>, ps: seq<PanelDump>, n: nat): map<string, PanelView>
    requires n <= |ps|
  {
    if n == 0 then v
    else
      var w := PanelRestored(o, v, ps, n - 1);
      w[Mapped(o, ps[n - 1].username) := PanelEntry(o, w, Seen(o, ps, n - 1), ps[n - 1])]
  }

  function PackagesRestored(v: map<string, Limits>, ps: seq<PackageDump>, n: nat): map<string, Limits>
    requires n <= |ps|
  {
    if n == 0 then v else PackagesRestored(v, ps, n - 1)[ps[n - 1].name := ps[n - 1].limits]
  }

  function UsersRestored(o: Options, v: map<string, string>, us: seq<UserDump>, n: nat): map<string, string>
    requires n <= |us|
  {
    if n == 0 then v else UsersRestored(o, v, us, n - 1)[Mapped(o, us[n - 1].username) := Home(o, us[n - 1])]
  }

  function UserNames(o: Options, us: seq<UserDump>, n: nat): set<string>
    requires n <= |us|
  {
    if n == 0 then {} else UserNames(o, us, n - 1) + {Mapped(o, us[n - 1].username)}
  }

  function SiteFields(o: Options, s: SiteDump): Fields {
    s.fields.(webroot := Webroot(o, s.owner, s.fields.webroot))
  }

  function SiteEntry(o: Options, s: SiteDump): SiteView {
    SiteView(Mapped(o, s.owner), StoredFields(SiteFields(o, s)))
  }

  /** Sites whose owner was not restored are skipped. */
  function SitesRestored(o: Options, names: set<string>, v: map<string, SiteView>, ss: seq<SiteDump>, n: nat)
          : map<string, SiteView>
    requires n <= |ss|
  {
    if n == 0 then v
    else
      var w, s := SitesRestored(o, names, v, ss, n - 1), ss[n - 1];
      if Mapped(o, s.owner) in names then w[s.domain := SiteEntry(o, s)] else w
  }

  function Domains(o: Options, names: set<string>, ss: seq<SiteDump>, n: nat): set<string>
    requires n <= |ss|
  {
    if n == 0 then {}
    else Domains(o, names, ss, n - 1) + (if Mapped(o, ss[n - 1].owner) in names then {ss[n - 1].domain} else {})
  }

  function TargetsRestored(domains: set<string>, v: map<(string, string), Target>, ts: seq<TargetDump>, n: nat)
          : map<(string, string), Target>
    requires n <= |ts|
  {
    if n == 0 then v
    else
      var w, t := TargetsRestored(domains, v, ts, n - 1), ts[n - 1];
      if t.domain in domains then w[(t.domain, Trim(t.target)) := t.t] else w
  }

  // ---------------------------------------------------------------- where a restore stops

  /** EnsureUser and UpsertSite refuse rows without a name, home, domain or webroot. */
  predicate UserRefused(o: Options, u: UserDump) {
    Mapped(o, u.username) == "" || Home(o, u) == ""
  }

  predicate SiteRefused(o: Options, names: set<string>, s: SiteDump) {
    Mapped(o, s.owner) in names && (s.domain == "" || Webroot(o, s.owner, s.fields.webroot) == "")
  }

  datatype Outcome = Done | AtUser(at: nat) | AtSite(at: nat)

  function UsersDone(d: Dump, e: Outcome): nat {
    if e.AtUser? then e.at else |d.users|
  }

  function SitesDone(d: Dump, e: Outcome): nat {
    match e
    case AtUser(_) => 0
    case AtSite(at) => at
    case Done => |d.sites|
  }

  /** `e` is the first entry that the store refuses. */
  ghost predicate Stops(o: Options, d: Dump, e: Outcome) {
    && UsersDone(d, e) <= |d.users| && SitesDone(d, e) <= |d.sites|
    && (forall i :: 0 <= i < UsersDone(d, e) ==> !UserRefused(o, d.users[i]))
    && (e.AtUser? ==> e.at < |d.users| && UserRefused(o, d.users[e.at]))
    && (forall i :: 0 <= i < SitesDone(d, e) ==> !SiteRefused(o, UserNames(o, d.users, |d.users|), d.sites[i]))
    && (e.AtSite? ==> e.at < |d.sites| && SiteRefused(o, UserNames(o, d.users, |d.users|), d.sites[e.at]))
  }

  /** The tables after a restore that ended with `e`. */
  ghost function RestoredTo(o: Options, v: View, d: Dump, e: Outcome): View
    requires UsersDone(d, e) <= |d.users| && SitesDone(d, e) <= |d.sites|
  {
    var names := UserNames(o, d.users, UsersDone(d, e));
    View(PanelRestored(o, v.panel, d.panel, |d.panel|), UsersRestored(o, v.users, d.users, UsersDone(d, e)),
         PackagesRestored(v.packages, d.packages, |d.packages|),
         SitesRestored(o, names, v.sites, d.sites, SitesDone(d, e)),
         TargetsRestored(Domains(o, names, d.sites, SitesDone(d, e)), v.targets, d.targets,
                         if e.Done? then |d.targets| else 0))
  }

  /** The tables after a restore without error. */
  ghost function Restored(o: Options, v: View, d: Dump): View {
    RestoredTo(o, v, d, Done)
  }

  class Archive {
    var db: DB

    constructor (db: DB)
      ensures this.db == db
    {
      this.db := db;
    }

    method RestorePackages(ps: seq<PackageDump>)
      requires Consistent(db)
      modifies this
      ensures Consistent(db)
      ensures ViewOf(db) == ViewOf(old(db)).(packages := PackagesRestored(ViewOf(old(db)).packages, ps, |ps|))
    {
      hide Consistent, ViewOf, PutPackage;
      ghost var v := ViewOf(db);
      for n := 0 to |ps|
        invariant Consistent(db) && ViewOf(db) == v.(packages := PackagesRestored(v.packages, ps, n))
      {
        PutPackageView(db, ps[n].name, ps[n].limits);
        db := db.(packages := PutPackage(db.packages, ps[n].name, ps[n].limits));
      }
    }

    /** CreatePanelUser and UpdatePanelUser for one entry. */
    method RestorePanelUser(o: Options, p: PanelDump, ids: map<string, nat>) returns (id: nat)
      requires Consistent(db) && Held(db.panel, PANEL_ID, ids)
      modifies this
      ensures Consistent(db) && Held(db.panel, PANEL_ID, ids[Mapped(o, p.username) := id])
      ensures var v := ViewOf(old(db));
        ViewOf(db) == v.(panel := v.panel[Mapped(o, p.username) := PanelEntry(o, v.panel, ids.Keys, p)])
    {
      hide ViewOf, Keyed, ResellersOk, OwnersOk, TargetsOk, DefaultSystemUser, PutPanel;
      var name := Mapped(o, p.username);
      var named := Mapped(o, p.reseller);
      var reseller := if p.reseller != "" && named in ids then Some(ids[named]) else None;
      if reseller.Some? { PanelName(db.panel, Mapped(o, p.reseller)); }
      PutPanelView(db, ids, name, p.hash, p.role, p.enabled, reseller,
          Mapped(o, DefaultSystemUser(p.systemUser, p.username)));
      db := db.(panel := PutPanel(db.panel, name, p.hash, p.role, p.enabled, reseller,
          Mapped(o, DefaultSystemUser(p.systemUser, p.username))));
      id := db.panel.rows[name].id;
    }

    method RestorePanel(o: Options, ps: seq<PanelDump>)
      requires Consistent(db)
      modifies this
      ensures Consistent(db)
      ensures ViewOf(db) == ViewOf(old(db)).(panel := PanelRestored(o, ViewOf(old(db)).panel, ps, |ps|))
    {
      hide ViewOf, Consistent, Held, PanelEntry, Mapped;
      ghost var v := ViewOf(db);
      var ids: map<string, nat> := map[];
      NothingHeld(db.panel, PANEL_ID);
      for n := 0 to |ps|
        invariant Consistent(db) && ViewOf(db) == v.(panel := PanelRestored(o, v.panel, ps, n))
        invariant ids.Keys == Seen(o, ps, n) && Held(db.panel, PANEL_ID, ids)
      {
        var id := RestorePanelUser(o, ps[n], ids);
        ids := ids[Mapped(o, ps[n].username) := id];
      }
    }

    /** Stops before the first user that EnsureUser refuses. */
    method RestoreUsers(o: Options, us: seq<UserDump>) returns (ids: map<string, nat>, done: nat)
      requires Consistent(db)
      modifies this
      ensures done <= |us| && (forall i :: 0 <= i < done ==> !UserRefused(o, us[i])) &&
        (done < |us| ==> UserRefused(o, us[done]))
      ensures Consistent(db)
      ensures ViewOf(db) == ViewOf(old(db)).(users := UsersRestored(o, ViewOf(old(db)).users, us, done))
      ensures ids.Keys == UserNames(o, us, done) && Held(db.users, USER_ID, ids)
    {
      hide ViewOf, Consistent, PutUser, Held, Home, Mapped;
      ghost var v := ViewOf(db);
      ids, done := map[], 0;
      NothingHeld(db.users, USER_ID);
      while done < |us| && !UserRefused(o, us[done])
        invariant done <= |us| && forall i :: 0 <= i < done ==> !UserRefused(o, us[i])
        invariant Consistent(db) && ViewOf(db) == v.(users := UsersRestored(o, v.users, us, done))
        invariant ids.Keys == UserNames(o, us, done) && Held(db.users, USER_ID, ids)
      {
        var name, home := Mapped(o, us[done].username), Home(o, us[done]);
        PutUserView(db, ids, name, home);
        db := db.(users := PutUser(db.users, name, home));
        ids := ids[name := db.users.rows[name].id];
        done := done + 1;
      }
    }

    /** UpsertSite for one entry whose owner was restored. */
    method RestoreSite(o: Options, userIDs: map<string, nat>, s: SiteDump, ids: map<string, nat>) returns (id: nat)
      requires Consistent(db) && Held(db.users, USER_ID, userIDs) && Held(db.sites, SITE_ID, ids)
      requires Mapped(o, s.owner) in userIDs
      modifies this
      ensures Consistent(db) && db.users == old(db.users) && Held(db.sites, SITE_ID, ids[s.domain := id])
      ensures ViewOf(db) == ViewOf(old(db)).(sites := ViewOf(old(db)).sites[s.domain := SiteEntry(o, s)])
    {
      hide ViewOf, Consistent, PutSite, StoredFields, Webroot, Mapped;
      PutSiteView(db, ids, s.domain, Mapped(o, s.owner), SiteFields(o, s));
      db := db.(sites := PutSite(db.sites, s.domain, userIDs[Mapped(o, s.owner)], SiteFields(o, s)));
      id := db.sites.rows[s.domain].id;
    }

    /** Stops before the first site that UpsertSite refuses. */
    method RestoreSites(o: Options, userIDs: map<string, nat>, ss: seq<SiteDump>)
          returns (ids: map<string, nat>, done: nat)
      requires Consistent(db) && Held(db.users, USER_ID, userIDs)
      modifies this
      ensures done <= |ss| && (forall i :: 0 <= i < done ==> !SiteRefused(o, userIDs.Keys, ss[i])) &&
        (done < |ss| ==> SiteRefused(o, userIDs.Keys, ss[done]))
      ensures Consistent(db)
      ensures ViewOf(db) == ViewOf(old(db)).(sites := SitesRestored(o, userIDs.Keys, ViewOf(old(db)).sites, ss, done))
      ensures ids.Keys == Domains(o, userIDs.Keys, ss, done) && Held(db.sites, SITE_ID, ids)
    {
      hide ViewOf, Consistent, Held, SiteEntry, Mapped, SiteRefused;
      ghost var v := ViewOf(db);
      ids, done := map[], 0;
      NothingHeld(db.sites, SITE_ID);
      while done < |ss| && !SiteRefused(o, userIDs.Keys, ss[done])
        invariant done <= |ss| && forall i :: 0 <= i < done ==> !SiteRefused(o, userIDs.Keys, ss[i])
        invariant Held(db.users, USER_ID, userIDs)
        invariant Consistent(db) && ViewOf(db) == v.(sites := SitesRestored(o, userIDs.Keys, v.sites, ss, done))
        invariant ids.Keys == Domains(o, userIDs.Keys, ss, done) && Held(db.sites, SITE_ID, ids)
      {
        if Mapped(o, ss[done].owner) in userIDs {
          var id := RestoreSite(o, userIDs, ss[done], ids);
          ids := ids[ss[done].domain := id];
        }
        done := done + 1;
      }
    }

    method RestoreTargets(siteIDs: map<string, nat>, ts: seq<TargetDump>)
      requires Consistent(db) && Held(db.sites, SITE_ID, siteIDs)
      modifies this
      ensures Consistent(db)
      ensures var v := ViewOf(old(db));
        ViewOf(db) == v.(targets := TargetsRestored(siteIDs.Keys, v.targets, ts, |ts|))
    {
      hide ViewOf, Consistent, PutTarget, Trim;
      ghost var v := ViewOf(db);
      for n := 0 to |ts|
        invariant Consistent(db) && ViewOf(db) == v.(targets := TargetsRestored(siteIDs.Keys, v.targets, ts, n))
        invariant Held(db.sites, SITE_ID, siteIDs)
      {
        if ts[n].domain in siteIDs {
          PutTargetView(db, ts[n].domain, ts[n].target, ts[n].t);
          db := db.(targets := PutTarget(db.targets, siteIDs[ts[n].domain], ts[n].target, ts[n].t));
        }
      }
    }

    /** The table part of Restore; it keeps what it wrote before an error. */
    method Restore(o: Options, d: Dump) returns (e: Outcome)
      requires Consistent(db)
      modifies this
      ensures Stops(o, d, e) && Consistent(db) && ViewOf(db) == RestoredTo(o, ViewOf(old(db)), d, e)
    {
      hide ViewOf, Consistent, UserRefused, SiteRefused, Held, Mapped, PanelRestored, UsersRestored, PackagesRestored,
          UserNames, Domains;
      RestorePackages(d.packages);
      RestorePanel(o, d.panel);
      var userIDs, users := RestoreUsers(o, d.users);
      if users < |d.users| { return AtUser(users); }
      var siteIDs, sites := RestoreSites(o, userIDs, d.sites);
      if sites < |d.sites| { return AtSite(sites); }
      RestoreTargets(siteIDs, d.targets);
      e := Done;
    }
  }

  lemma NothingHeld<R>(t: Table<R>, id: R -> nat)
    ensures Held(t, id, map[])
  {
  }
}
