/** The tables that backup and restore work on (internal/store/sqlite/sqlite.go), with their ids, and
    the same tables without ids. Every upsert is shown to do to the id-free view what it says. */
module BackupTables {
  import opened Text

  datatype Limits = Limits(numbers: seq<int>, phpVersions: seq<string>)
  datatype PanelRow = PanelRow(id: nat, hash: string, role: string, enabled: bool, reseller: Option<nat>,
          systemUser: string)
  datatype UserRow = UserRow(id: nat, home: string)
  datatype PackageRow = PackageRow(id: nat, limits: Limits)
  datatype Fields = Fields(parent: Option<string>, mode: string, webroot: string, php: string, http3: bool,
          enabled: bool, clientMax: string, phpRead: string, phpSend: string)
  datatype SiteRow = SiteRow(id: nat, owner: nat, fields: Fields)
  datatype Target = Target(weight: int, backup: bool, enabled: bool)

  /** A table by its unique column, with the primary-key index and the next free id. */
  datatype Table<R> = Table(rows: map<string, R>, names: map<nat, string>, next: nat)

  type Targets = map<(nat, string), Target>

  datatype DB = DB(panel: Table<PanelRow>, users: Table<UserRow>, packages: Table<PackageRow>, sites: Table<SiteRow>,
          targets: Targets)

  ghost predicate Keyed<R>(t: Table<R>, id: R -> nat) {
    && (forall n :: n in t.rows ==> id(t.rows[n]) in t.names && t.names[id(t.rows[n])] == n)
    && (forall i :: i in t.names ==> i < t.next && t.names[i] in t.rows && id(t.rows[t.names[i]]) == i)
  }

  const PANEL_ID: PanelRow -> nat := (r: PanelRow) => r.id
  const USER_ID: UserRow -> nat := (r: UserRow) => r.id
  const SITE_ID: SiteRow -> nat := (r: SiteRow) => r.id

  ghost predicate ResellersOk(t: Table<PanelRow>) {
    forall n :: n in t.rows && t.rows[n].reseller.Some? ==> t.rows[n].reseller.value in t.names
  }

  ghost predicate OwnersOk(rows: map<string, SiteRow>, names: map<nat, string>) {
    forall d :: d in rows ==> rows[d].owner in names
  }

  ghost predicate TargetsOk(targets: Targets, sites: Table<SiteRow>) {
    forall k :: k in targets ==> k.0 in sites.names
  }

  /** Unique columns are unique, ids are fresh, foreign keys resolve. */
  ghost predicate Consistent(db: DB) {
    && Keyed(db.panel, PANEL_ID) && ResellersOk(db.panel)
    && Keyed(db.users, USER_ID)
    && Keyed(db.sites, SITE_ID) && OwnersOk(db.sites.rows, db.users.names)
    && TargetsOk(db.targets, db.sites)
  }

  // ---------------------------------------------------------------- the tables without ids

  datatype PanelView = PanelView(hash: string, role: string, enabled: bool, reseller: Option<string>,
          systemUser: string)
  datatype SiteView = SiteView(owner: string, fields: Fields)

  datatype View = View(panel: map<string, PanelView>, users: map<string, string>, packages: map<string, Limits>,
                       sites: map<string, SiteView>, targets: map<(string, string), Target>)

  function NameOf(names: map<nat, string>, id: Option<nat>): Option<string> {
    if id.Some? && id.value in names then Some(names[id.value]) else None
  }

  function PanelOf(names: map<nat, string>, r: PanelRow): PanelView {
    PanelView(r.hash, r.role, r.enabled, NameOf(names, r.reseller), r.systemUser)
  }

  function PanelsOf(rows: map<string, PanelRow>, names: map<nat, string>): map<string, PanelView> {
    map n | n in rows :: PanelOf(names, rows[n])
  }

  function UsersOf(rows: map<string, UserRow>): map<string, string> {
    map n | n in rows :: rows[n].home
  }

  function PackagesOf(rows: map<string, PackageRow>): map<string, Limits> {
    map n | n in rows :: rows[n].limits
  }

  ghost function SitesOf(rows: map<string, SiteRow>, names: map<nat, string>): map<string, SiteView>
    requires OwnersOk(rows, names)
  {
    map d | d in rows :: SiteView(names[rows[d].owner], rows[d].fields)
  }

  ghost function TargetsOf(targets: Targets, sites: Table<SiteRow>): map<(string, string), Target>
    requires Keyed(sites, SITE_ID) && TargetsOk(targets, sites)
  {
    map k | k in targets :: (sites.names[k.0], k.1) := targets[k]
  }

  ghost function ViewOf(db: DB): View
    requires Consistent(db)
  {
    View(PanelsOf(db.panel.rows, db.panel.names), UsersOf(db.users.rows), PackagesOf(db.packages.rows),
         SitesOf(db.sites.rows, db.users.names), TargetsOf(db.targets, db.sites))
  }

  // ---------------------------------------------------------------- one row

  /** INSERT ... ON CONFLICT DO UPDATE: `row` is what is stored, under the old id or the next one. */
  function Put<R>(t: Table<R>, name: string, row: R): Table<R> {
    if name in t.rows then Table(t.rows[name := row], t.names, t.next)
    else Table(t.rows[name := row], t.names[t.next := name], t.next + 1)
  }

  /** Names of old ids do not change when rows are added. */
  ghost predicate Extends(before: map<nat, string>, after: map<nat, string>) {
    forall i :: i in before ==> i in after && after[i] == before[i]
  }

  lemma PutKeyed<R>(t: Table<R>, name: string, row: R, id: R -> nat)
    requires Keyed(t, id) && id(row) == (if name in t.rows then id(t.rows[name]) else t.next)
    ensures var t' := Put(t, name, row);
      && Keyed(t', id) && Extends(t.names, t'.names) && t'.rows == t.rows[name := row]
      && forall n :: n in t.rows ==> id(t'.rows[n]) == id(t.rows[n])
  {
  }

  /** findPackageByName, then UpdatePackage or CreatePackage. */
  function PutPackage(t: Table<PackageRow>, name: string, limits: Limits): Table<PackageRow> {
    Put(t, name, PackageRow(if name in t.rows then t.rows[name].id else t.next, limits))
  }

  /** CreatePanelUser, which keeps id, reseller and system user of an existing user, followed by
      UpdatePanelUser with the mapped reseller, if any, and the system user. */
  function PutPanel(t: Table<PanelRow>, name: string, hash: string, role: string, enabled: bool, reseller: Option<nat>,
          systemUser: string): Table<PanelRow> {
    var keeps := if name in t.rows then t.rows[name].reseller else None;
    Put(t, name, PanelRow(if name in t.rows then t.rows[name].id else t.next, hash,
                          if role == "" then "admin" else role, enabled,
                          if reseller.Some? then reseller else keeps, systemUser))
  }

  /** EnsureUser. */
  function PutUser(t: Table<UserRow>, name: string, home: string): Table<UserRow> {
    Put(t, name, UserRow(if name in t.rows then t.rows[name].id else t.next, home))
  }

  function StoredFields(f: Fields): Fields {
    f.(mode := if f.mode == "" then "php" else f.mode, parent := NullIfBlank(f.parent))
  }

  /** UpsertSite: an existing site keeps its id, and with it its proxy targets. */
  function PutSite(t: Table<SiteRow>, d: string, owner: nat, f: Fields): Table<SiteRow> {
    Put(t, d, SiteRow(if d in t.rows then t.rows[d].id else t.next, owner, StoredFields(f)))
  }

  lemma PutPackageView(db: DB, name: string, limits: Limits)
    requires Consistent(db)
    ensures var db', v := db.(packages := PutPackage(db.packages, name, limits)), ViewOf(db);
      Consistent(db') && ViewOf(db') == v.(packages := v.packages[name := limits])
  {
    hide Keyed, ResellersOk, OwnersOk, TargetsOk, PanelsOf, SitesOf, TargetsOf, UsersOf;
    assert PackagesOf(PutPackage(db.packages, name, limits).rows) == PackagesOf(db.packages.rows)[name := limits];
  }

  lemma PutPanelRows(t: Table<PanelRow>, names': map<nat, string>, name: string, r: PanelRow)
    requires ResellersOk(t) && Extends(t.names, names')
    ensures PanelsOf(t.rows[name := r], names') == PanelsOf(t.rows, t.names)[name := PanelOf(names', r)]
    ensures name in PanelsOf(t.rows, t.names) <==> name in t.rows
    ensures name in t.rows ==> PanelsOf(t.rows, t.names)[name].reseller == NameOf(t.names, t.rows[name].reseller)
    ensures name in t.rows ==> NameOf(names', t.rows[name].reseller) == NameOf(t.names, t.rows[name].reseller)
  {
  }

  lemma PanelName(t: Table<PanelRow>, n: string)
    requires Keyed(t, PANEL_ID) && n in t.rows
    ensures t.rows[n].id in t.names && t.names[t.rows[n].id] == n
  {
    assert PANEL_ID(t.rows[n]) in t.names;
  }

  /** The view of a panel user that is created or updated. */
  ghost function PutPanelAs(t: Table<PanelRow>, name: string, hash: string, role: string, enabled: bool,
      reseller: Option<nat>, systemUser: string): PanelView
    requires reseller.Some? ==> reseller.value in t.names
  {
    var panels := PanelsOf(t.rows, t.names);
    PanelView(hash, if role == "" then "admin" else role, enabled,
              if reseller.Some? then Some(t.names[reseller.value])
              else if name in panels then panels[name].reseller else None,
              systemUser)
  }

  lemma PutPanelTable(t0: Table<PanelRow>, ids: map<string, nat>, name: string, hash: string, role: string,
          enabled: bool, reseller: Option<nat>, systemUser: string)
    requires Keyed(t0, PANEL_ID) && ResellersOk(t0) && Held(t0, PANEL_ID, ids)
    requires reseller.Some? ==> reseller.value in t0.names
    ensures var t := PutPanel(t0, name, hash, role, enabled, reseller, systemUser);
      && Keyed(t, PANEL_ID) && ResellersOk(t) && name in t.rows && Held(t, PANEL_ID, ids[name := t.rows[name].id])
      && PanelsOf(t.rows, t.names) == PanelsOf(t0.rows, t0.names)[name :=
          PutPanelAs(t0, name, hash, role, enabled, reseller, systemUser)]
  {
    hide Keyed, PanelsOf, Held;
    var t := PutPanel(t0, name, hash, role, enabled, reseller, systemUser);
    var r := PanelRow(if name in t0.rows then t0.rows[name].id else t0.next, hash,
                      if role == "" then "admin" else role, enabled,
                      if reseller.Some? then reseller else if name in t0.rows then t0.rows[name].reseller else None,
                      systemUser);
    PutKeyed(t0, name, r, PANEL_ID);
    PutPanelRows(t0, t.names, name, r);
    PutHeld(t0, name, r, PANEL_ID, ids);
  }

  lemma PutPanelView(db: DB, ids: map<string, nat>, name: string, hash: string, role: string, enabled: bool,
          reseller: Option<nat>, systemUser: string)
    requires Consistent(db) && Held(db.panel, PANEL_ID, ids) && (reseller.Some? ==> reseller.value in db.panel.names)
    ensures var t, v := PutPanel(db.panel, name, hash, role, enabled, reseller, systemUser), ViewOf(db);
      && Consistent(db.(panel := t)) && name in t.rows && Held(t, PANEL_ID, ids[name := t.rows[name].id])
      && ViewOf(db.(panel := t)) == v.(panel := v.panel[name :=
          PanelView(hash, if role == "" then "admin" else role, enabled,
                    if reseller.Some? then Some(db.panel.names[reseller.value])
                    else if name in v.panel then v.panel[name].reseller else None,
                    systemUser)])
  {
    hide Keyed, ResellersOk, OwnersOk, TargetsOk, SitesOf, TargetsOf, UsersOf, PackagesOf, PanelsOf, Held, PutPanel;
    PutPanelTable(db.panel, ids, name, hash, role, enabled, reseller, systemUser);
  }

  /** The ids collected for the names restored so far. */
  ghost predicate Held<R>(t: Table<R>, id: R -> nat, ids: map<string, nat>) {
    forall n :: n in ids ==> n in t.rows && id(t.rows[n]) == ids[n]
  }

  lemma PutHeld<R>(t: Table<R>, name: string, row: R, id: R -> nat, ids: map<string, nat>)
    requires Held(t, id, ids) && (name in t.rows ==> id(row) == id(t.rows[name]))
    ensures Held(Put(t, name, row), id, ids[name := id(row)])
  {
  }

  lemma SameOwners(rows: map<string, SiteRow>, names: map<nat, string>, names': map<nat, string>)
    requires OwnersOk(rows, names) && Extends(names, names')
    ensures OwnersOk(rows, names') && SitesOf(rows, names') == SitesOf(rows, names)
  {
  }

  lemma PutUserView(db: DB, ids: map<string, nat>, name: string, home: string)
    requires Consistent(db) && Held(db.users, USER_ID, ids)
    ensures var t, v := PutUser(db.users, name, home), ViewOf(db);
      && Consistent(db.(users := t)) && name in t.rows && Held(t, USER_ID, ids[name := t.rows[name].id])
      && ViewOf(db.(users := t)) == v.(users := v.users[name := home])
  {
    hide Keyed, ResellersOk, OwnersOk, TargetsOk, PanelsOf, TargetsOf, PackagesOf, SitesOf, Extends, Held;
    var t := PutUser(db.users, name, home);
    var r := UserRow(if name in db.users.rows then db.users.rows[name].id else db.users.next, home);
    PutKeyed(db.users, name, r, USER_ID);
    SameOwners(db.sites.rows, db.users.names, t.names);
    assert UsersOf(t.rows) == UsersOf(db.users.rows)[name := home];
    PutHeld(db.users, name, r, USER_ID, ids);
  }

  lemma SiteName(sites: Table<SiteRow>, d: string)
    requires Keyed(sites, SITE_ID) && d in sites.rows
    ensures sites.rows[d].id in sites.names && sites.names[sites.rows[d].id] == d
  {
    assert SITE_ID(sites.rows[d]) in sites.names;
  }

  /** The proxy targets of a site, by its name. */
  lemma TargetOfSite(targets: Targets, sites: Table<SiteRow>, x: (string, string))
    requires Keyed(sites, SITE_ID) && TargetsOk(targets, sites)
    ensures x in TargetsOf(targets, sites) <==> x.0 in sites.rows && (sites.rows[x.0].id, x.1) in targets
    ensures x in TargetsOf(targets, sites) ==> TargetsOf(targets, sites)[x] == targets[(sites.rows[x.0].id, x.1)]
  {
    if x.0 in sites.rows { SiteName(sites, x.0); }
  }

  lemma IdName(sites: Table<SiteRow>, id: nat)
    requires Keyed(sites, SITE_ID) && id in sites.names
    ensures sites.names[id] in sites.rows && sites.rows[sites.names[id]].id == id
  {
    assert SITE_ID(sites.rows[sites.names[id]]) == id;
  }

  lemma SameTargets(targets: Targets, sites: Table<SiteRow>, sites': Table<SiteRow>)
    requires Keyed(sites, SITE_ID) && TargetsOk(targets, sites) && Keyed(sites', SITE_ID)
    requires Extends(sites.names, sites'.names)
    ensures TargetsOk(targets, sites') && TargetsOf(targets, sites') == TargetsOf(targets, sites)
  {
    hide TargetsOf, Keyed;
    forall x ensures x in TargetsOf(targets, sites) <==> x in TargetsOf(targets, sites')
      ensures x in TargetsOf(targets, sites) ==> TargetsOf(targets, sites)[x] == TargetsOf(targets, sites')[x]
    {
      TargetOfSite(targets, sites, x);
      TargetOfSite(targets, sites', x);
      SameSiteId(targets, sites, sites', x);
    }
  }

  lemma SameSiteId(targets: Targets, sites: Table<SiteRow>, sites': Table<SiteRow>, x: (string, string))
    requires Keyed(sites, SITE_ID) && TargetsOk(targets, sites) && Keyed(sites', SITE_ID)
    requires Extends(sites.names, sites'.names)
    ensures x.0 in sites.rows ==> x.0 in sites'.rows && sites'.rows[x.0].id == sites.rows[x.0].id
    ensures x.0 in sites'.rows && (sites'.rows[x.0].id, x.1) in targets ==> x.0 in sites.rows
  {
    hide Keyed;
    if x.0 in sites.rows {
      SiteName(sites, x.0);
      IdName(sites', sites.rows[x.0].id);
    }
    if x.0 in sites'.rows && (sites'.rows[x.0].id, x.1) in targets {
      SiteName(sites', x.0);
      IdName(sites, sites'.rows[x.0].id);
    }
  }

  lemma PutTargetOf(targets: Targets, sites: Table<SiteRow>, k: (nat, string), t: Target)
    requires Keyed(sites, SITE_ID) && TargetsOk(targets, sites) && k.0 in sites.names
    ensures TargetsOk(targets[k := t], sites)
    ensures TargetsOf(targets[k := t], sites) == TargetsOf(targets, sites)[(sites.names[k.0], k.1) := t]
  {
    hide TargetsOf, Keyed;
    var a, b := TargetsOf(targets, sites)[(sites.names[k.0], k.1) := t], TargetsOf(targets[k := t], sites);
    IdName(sites, k.0);
    forall x ensures (x in a <==> x in b) && (x in a ==> a[x] == b[x]) {
      TargetOfSite(targets, sites, x);
      TargetOfSite(targets[k := t], sites, x);
      if x.0 in sites.rows { SiteName(sites, x.0); }
    }
  }

  lemma PutSiteRows(rows: map<string, SiteRow>, names: map<nat, string>, d: string, r: SiteRow)
    requires OwnersOk(rows, names) && r.owner in names
    ensures OwnersOk(rows[d := r], names)
    ensures SitesOf(rows[d := r], names) == SitesOf(rows, names)[d := SiteView(names[r.owner], r.fields)]
  {
  }

  lemma OwnerName(users: Table<UserRow>, name: string)
    requires Keyed(users, USER_ID) && name in users.rows
    ensures users.rows[name].id in users.names && users.names[users.rows[name].id] == name
  {
    assert USER_ID(users.rows[name]) in users.names;
  }

  lemma PutSiteView(db: DB, ids: map<string, nat>, d: string, owner: string, f: Fields)
    requires Consistent(db) && Held(db.sites, SITE_ID, ids) && owner in db.users.rows
    ensures var t, v := PutSite(db.sites, d, db.users.rows[owner].id, f), ViewOf(db);
      && Consistent(db.(sites := t)) && d in t.rows && Held(t, SITE_ID, ids[d := t.rows[d].id])
      && ViewOf(db.(sites := t)) == v.(sites := v.sites[d := SiteView(owner, StoredFields(f))])
  {
    hide Keyed, ResellersOk, OwnersOk, TargetsOk, PanelsOf, TargetsOf, PackagesOf, UsersOf, SitesOf, StoredFields,
        Extends, Held;
    var id := db.users.rows[owner].id;
    var t := PutSite(db.sites, d, id, f);
    var r := SiteRow(if d in db.sites.rows then db.sites.rows[d].id else db.sites.next, id, StoredFields(f));
    OwnerName(db.users, owner);
    PutKeyed(db.sites, d, r, SITE_ID);
    PutSiteRows(db.sites.rows, db.users.names, d, r);
    SameTargets(db.targets, db.sites, t);
    PutHeld(db.sites, d, r, SITE_ID, ids);
  }

  /** UpsertProxyTarget. */
  function PutTarget(targets: Targets, site: nat, target: string, t: Target): Targets {
    targets[(site, Trim(target)) := t]
  }

  lemma PutTargetView(db: DB, d: string, target: string, t: Target)
    requires Consistent(db) && d in db.sites.rows
    ensures var targets, v := PutTarget(db.targets, db.sites.rows[d].id, target, t), ViewOf(db);
      Consistent(db.(targets := targets)) &&
        ViewOf(db.(targets := targets)) == v.(targets := v.targets[(d, Trim(target)) := t])
  {
    hide Trim, Keyed, ResellersOk, OwnersOk, TargetsOk, PanelsOf, UsersOf, PackagesOf, SitesOf, TargetsOf;
    SiteName(db.sites, d);
    PutTargetOf(db.targets, db.sites, (db.sites.rows[d].id, Trim(target)), t);
  }
}
