/** The sites and users tables of internal/store/sqlite/sqlite.go. */
module SiteStore {
  import opened Text

  /** What the configuration of a site is rendered from. */
  datatype SiteSpec = SiteSpec(
    userId: nat, parent: Option<string>, mode: string, webroot: string, php: string, http3: bool,
    clientMax: string, phpRead: string, phpSend: string)

  datatype ApplyStatus = NeverApplied | AppliedOk | AppliedFail

  datatype ApplyError = NoError | NotFound | DeleteFailed | RenderFailed | PublishFailed | TestRejected | ReloadFailed

  /** A row; the domain is the key of the table. */
  datatype Site = Site(
    spec: SiteSpec, enabled: bool, updatedAt: nat,
    lastAppliedAt: Option<nat>, status: ApplyStatus, error: ApplyError, hash: string)

  type Rows = map<string, Site>

  datatype Listed = Listed(domain: string, site: Site)

  /** SELECT ... FROM sites ORDER BY domain. */
  ghost function SitesOf(rows: Rows): (out: seq<Listed>)
    ensures |out| == |Listing(rows.Keys)|
    ensures forall i ::
      0 <= i < |out| ==>
        out[i].domain == Listing(rows.Keys)[i] && out[i].domain in rows && out[i].site == rows[out[i].domain]
  {
    var ks := Listing(rows.Keys);
    seq(|ks|, i requires 0 <= i < |ks| => assert ks[i] in ks; Listed(ks[i], rows[ks[i]]))
  }

  /** The effect of UpdateApplyResult; a domain without a row matches nothing. */
  function Recorded(rows: Rows, d: string, status: ApplyStatus, error: ApplyError, hash: string, at: nat): (r: Rows)
    ensures r.Keys == rows.Keys
    ensures forall e :: e in rows && e != d ==> r[e] == rows[e]
    ensures d in rows ==> r[d] == rows[d].(status := status, error := error, hash := hash, lastAppliedAt := Some(at))
  {
    if d in rows then rows[d := rows[d].(status := status, error := error, hash := hash, lastAppliedAt := Some(at))]
      else rows
  }

  /** INSERT ... ON CONFLICT(domain) DO UPDATE: a new row has never been applied; an existing one
      keeps its apply result and gets a new updated_at. */
  function Upserted(rows: Rows, d: string, spec: SiteSpec, enabled: bool, at: nat): Rows {
    if d in rows then rows[d := rows[d].(spec := Stored(spec), enabled := enabled, updatedAt := at)]
    else rows[d := Site(Stored(spec), enabled, at, None, NeverApplied, NoError, "")]
  }

  function Stored(spec: SiteSpec): SiteSpec {
    spec.(mode := if spec.mode == "" then "php" else spec.mode, parent := NullIfBlank(spec.parent))
  }

  function Enabling(rows: Rows, d: string, enabled: bool, at: nat): Rows {
    if d in rows then rows[d := rows[d].(enabled := enabled, updatedAt := at)] else rows
  }

  class Store {
    var rows: Rows
    var users: map<string, nat>          // username -> id (UNIQUE)
    var names: map<nat, string>          // id -> username (PRIMARY KEY)
    var nextUser: nat
    var clock: nat

    constructor ()
      ensures rows == map[] && users == map[] && names == map[] && nextUser == 1 && clock == 0
    {
      rows, users, names, nextUser, clock := map[], map[], map[], 1, 0;
    }

    method ListSites() returns (out: seq<Listed>)
      ensures out == SitesOf(rows)
    {
      var ks := SortKeys(rows.Keys);
      ListingUnique(ks, Listing(rows.Keys), rows.Keys);
      out := [];
      for i := 0 to |ks|
        invariant |out| == i
        invariant forall j :: 0 <= j < i ==> out[j] == SitesOf(rows)[j]
      {
        assert ks[i] in ks;
        out := out + [Listed(ks[i], rows[ks[i]])];
      }
    }

    method UpdateApplyResult(d: string, status: ApplyStatus, error: ApplyError, hash: string, tick: nat)
      modifies this`rows, this`clock
      ensures clock == old(clock) + tick
      ensures rows == Recorded(old(rows), d, status, error, hash, clock)
    {
      clock := clock + tick;
      rows := Recorded(rows, d, status, error, hash, clock);
    }

    /** EnsureUser: the id of the username, fresh for a new one. */
    method EnsureUser(name: string) returns (id: nat)
      modifies this`users, this`names, this`nextUser
      ensures name in users && id == users[name]
      ensures name in old(users) ==> users == old(users) && names == old(names) && nextUser == old(nextUser)
      ensures name !in old(users) ==>
        users == old(users)[name := old(nextUser)] && names == old(names)[old(nextUser) := name] &&
          nextUser == old(nextUser) + 1
    {
      if name !in users {
        users, names, nextUser := users[name := nextUser], names[nextUser := name], nextUser + 1;
      }
      id := users[name];
    }

    method UpsertSite(d: string, spec: SiteSpec, enabled: bool, tick: nat) returns (ok: bool)
      modifies this`rows, this`clock
      ensures ok <==> d != "" && spec.userId != 0 && spec.webroot != ""
      ensures ok ==> clock == old(clock) + tick && rows == Upserted(old(rows), d, spec, enabled, clock)
      ensures !ok ==> clock == old(clock) && rows == old(rows)
    {
      if d == "" || spec.userId == 0 || spec.webroot == "" { return false; }
      clock := clock + tick;
      rows := Upserted(rows, d, spec, enabled, clock);
      return true;
    }

    /** EnableSiteByDomain and DisableSiteByDomain. */
    method SetEnabled(d: string, enabled: bool, tick: nat)
      modifies this`rows, this`clock
      ensures clock == old(clock) + tick
      ensures rows == Enabling(old(rows), Trim(d), enabled, clock)
    {
      clock := clock + tick;
      rows := Enabling(rows, Trim(d), enabled, clock);
    }

    /** DeleteSiteByDomain: an error when there is no such row. */
    method DeleteSite(d: string) returns (ok: bool)
      modifies this`rows
      ensures ok <==> Trim(d) in old(rows)
      ensures rows == old(rows) - {Trim(d)}
    {
      ok := Trim(d) in rows;
      rows := rows - {Trim(d)};
    }
  }
}
