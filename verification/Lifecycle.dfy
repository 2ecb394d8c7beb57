/** The site lifecycle of internal/app/site.go: add, edit, enable, disable and delete, with the
    parent/subdomain hierarchy, the package quotas and the DNS compensations. */
module Lifecycle {
  import opened Text
  import opened SiteStore

  datatype Limits = Limits(maxDomains: int, maxSubdomains: int, phpVersions: seq<string>)

  /** `limits` answers for a username; None when there is no such panel user. */
  datatype Config = Config(dns: bool, hasAddress: bool, homeRoot: string, defaultPhp: string,
          limits: string -> Option<Limits>)

  /** For each zone file the names whose address records the panel manages in it. */
  type Zones = map<string, set<string>>

  datatype State = State(rows: Rows, users: map<string, nat>, names: map<nat, string>, nextUser: nat, zones: Zones,
          clock: nat)

  datatype Refusal =
    | MissingUserOrDomain | InvalidDomain | InvalidParent | InvalidMode | NoPanelUser | PhpNotAllowed
    | NotUnderParent | ParentNotFound | ParentNotRoot | ParentNotOwned | LimitReached
    | ProvisionFailed | StoreFailed | DnsFailed | CompensationFailed
    | NoSuchSite | NoOwner | ParentFixed | HasDependents | VhostFailed | NginxReloadFailed | RestoreFailed

  type Verdict = Option<Refusal>

  /** Outcomes of the outside world. A DNS provider call that fails may have replaced or removed its zone
      file before (`dnsWrote`, and `restoreWrote` for the call that puts DNS back). */
  datatype Faults = Faults(provisionOk: bool, upsertOk: bool, dnsOk: bool, dnsWrote: bool, deleteOk: bool,
          restoreOk: bool, restoreWrote: bool, vhostOk: bool, reloadOk: bool)

  // ---------------------------------------------------------------- names

  predicate LabelChar(c: char) {
    'a' <= c <= 'z' || '0' <= c <= '9'
  }

  predicate LabelOk(l: string) {
    1 <= |l| <= 63 && LabelChar(l[0]) && LabelChar(l[|l| - 1]) &&
        forall i :: 0 <= i < |l| ==> LabelChar(l[i]) || l[i] == '-'
  }

  /** isLikelyFQDN, on a normalised name. */
  predicate IsLikelyFQDN(d: string) {
    && d != "" && ' ' !in d && (forall i :: 0 <= i < |d| - 1 ==> !(d[i] == '.' && d[i + 1] == '.'))
    && d[0] != '.' && d[|d| - 1] != '.' && '.' in d
    && forall l :: l in Split(d, '.') ==> LabelOk(l)
  }

  function Suffix(s: string, n: nat): string
    requires n <= |s|
  {
    s[|s| - n..]
  }

  /** validateParentDomain: the refusal, or the label of `d` under `p`. No parent needs no label. */
  function ValidateParent(rows: Rows, owner: nat, d: string, p: string): (Verdict, string) {
    if p == "" then (None, "")
    else if d == p || |d| < |p| + 1 || Suffix(d, |p| + 1) != "." + p then (Some(NotUnderParent), "")
    else
      var l0 := d[..|d| - |p| - 1];
      var stem := if l0 != [] && l0[|l0| - 1] == '.' then l0[..|l0| - 1] else l0;
      if stem == "" || '.' in stem then (Some(NotUnderParent), "")
      else if p !in rows then (Some(ParentNotFound), "")
      else if rows[p].spec.parent.Some? then (Some(ParentNotRoot), "")
      else if rows[p].spec.userId != owner then (Some(ParentNotOwned), "")
      else (None, stem)
  }

  function DeriveDefaultWebroot(home: string, d: string, p: string, stem: string): string {
    if p == "" then Join(Join(Join(home, "sites"), d), "public")
    else Join(Join(Join(Join(Join(home, "sites"), p), "subdomains"), stem), "public")
  }

  function ParentPtr(p: string): Option<string> {
    if p == "" then None else Some(p)
  }

  function OrElse(s: string, default: string): string {
    if Trim(s) == "" then default else Trim(s)
  }

  // ---------------------------------------------------------------- limits

  predicate PhpAllowed(allowed: seq<string>, php: string) {
    allowed == [] || exists i :: 0 <= i < |allowed| && ToLower(Trim(allowed[i])) == ToLower(Trim(php))
  }

  /** CountRootDomainsByUserID and CountSubdomainsByUserID. */
  function Owned(rows: Rows, user: nat, root: bool): set<string> {
    set d | d in rows && rows[d].spec.userId == user && rows[d].spec.parent.None? == root
  }

  function LimitFor(l: Limits, root: bool): int {
    if root then l.maxDomains else l.maxSubdomains
  }

  /** enforceMaxLimit. */
  predicate HasRoom(limit: int, current: nat) {
    limit == -1 || current < limit
  }

  // ---------------------------------------------------------------- DNS provider

  function EnsureRoot(z: Zones, d: string): Zones {
    if d in z then z else z[d := {}]
  }

  function EnsureSub(cfg: Config, z: Zones, d: string, p: string): Option<Zones> {
    if p !in z then None else Some(if cfg.hasAddress then z[p := z[p] + {d}] else z)
  }

  /** What EnsureRootSite or EnsureSubdomainSite sets out to write; None without a zone to write to. */
  function Attempted(cfg: Config, z: Zones, d: string, p: string): Option<Zones> {
    if p == "" then Some(EnsureRoot(z, d)) else EnsureSub(cfg, z, d, p)
  }

  /** EnsureRootSite or EnsureSubdomainSite: the zones after the call, and whether it succeeds. */
  function EnsureDns(cfg: Config, ok: bool, wrote: bool, z: Zones, d: string, p: string): (Zones, bool) {
    var a := Attempted(cfg, z, d, p);
    if a.None? then (z, false) else (if ok || wrote then a.value else z, ok)
  }

  function DeleteDns(z: Zones, d: string, p: string): Zones {
    if p == "" then z - {d} else if p in z then z[p := z[p] - {d}] else z
  }

  /** DeleteRootSite or DeleteSubdomainSite: the zones after the call, and whether it succeeds. */
  function TryDeleteDns(ok: bool, wrote: bool, z: Zones, d: string, p: string): (Zones, bool) {
    (if ok || wrote then DeleteDns(z, d, p) else z, ok)
  }

  // ---------------------------------------------------------------- SiteAdd

  datatype AddRequest = AddRequest(user: string, domain: string, parent: string, mode: string, php: string,
          webroot: string, http3: bool, provision: bool, clientMax: string, phpRead: string, phpSend: string)

  predicate KnownMode(m: string) {
    m == "php" || m == "proxy" || m == "static"
  }

  /** EnsureUser. */
  function WithUser(s: State, name: string): State {
    if name in s.users then s
    else s.(users := s.users[name := s.nextUser], names := s.names[s.nextUser := name], nextUser := s.nextUser + 1)
  }

  /** The checks on the request alone. */
  function AddSyntax(req: AddRequest): (bad: Verdict)
    ensures bad.None? ==> Norm(req.domain) != ""
  {
    var d, p := Norm(req.domain), Norm(req.parent);
    if Trim(req.user) == "" || d == "" then Some(MissingUserOrDomain)
    else if !IsLikelyFQDN(d) then Some(InvalidDomain)
    else if p != "" && !IsLikelyFQDN(p) then Some(InvalidParent)
    else if !KnownMode(OrElse(req.mode, "php")) then Some(InvalidMode)
    else None
  }

  /** The checks against the store, for user id `u`; with the label. */
  function AddChecks(cfg: Config, s: State, req: AddRequest, u: nat): (Verdict, string) {
    var user, d, p := Trim(req.user), Norm(req.domain), Norm(req.parent);
    var limits := cfg.limits(user);
    if limits.None? then (Some(NoPanelUser), "")
    else if !PhpAllowed(limits.value.phpVersions, OrElse(req.php, cfg.defaultPhp)) then (Some(PhpNotAllowed), "")
    else
      var (bad, stem) := ValidateParent(s.rows, u, d, p);
      if bad.Some? then (bad, "")
      else if !HasRoom(LimitFor(limits.value, p == ""), |Owned(s.rows, u, p == "")|) then (Some(LimitReached), "")
      else (None, stem)
  }

  function AddSpec(cfg: Config, req: AddRequest, u: nat, stem: string): (spec: SiteSpec)
    ensures spec.userId == u && spec.parent == ParentPtr(Norm(req.parent))
  {
    var user, d, p := Trim(req.user), Norm(req.domain), Norm(req.parent);
    SiteSpec(u, ParentPtr(p), OrElse(req.mode, "php"),
        OrElse(req.webroot, DeriveDefaultWebroot(Join(cfg.homeRoot, user), d, p, stem)),
             OrElse(req.php, cfg.defaultPhp), req.http3, Trim(req.clientMax), Trim(req.phpRead), Trim(req.phpSend))
  }

  /** The row is written; now DNS follows, or the row of a new domain is taken back. */
  function AddDns(cfg: Config, f: Faults, s: State, d: string, p: string, created: bool): (State, Verdict) {
    if !cfg.dns then (s, None)
    else
      var (z, done) := EnsureDns(cfg, f.dnsOk, f.dnsWrote, s.zones, d, p);
      var s1 := s.(zones := z);
      if done then (s1, None)
      else if !created then (s1, Some(DnsFailed))
      else if !f.deleteOk then (s1, Some(CompensationFailed))
      else (s1.(rows := s.rows - {d}), Some(DnsFailed))
  }

  function Add(cfg: Config, f: Faults, req: AddRequest, s0: State): (State, Verdict) {
    var d, p := Norm(req.domain), Norm(req.parent);
    if AddSyntax(req).Some? then (s0, AddSyntax(req))
    else
      var s := WithUser(s0, Trim(req.user));
      var u := s.users[Trim(req.user)];
      var (bad, stem) := AddChecks(cfg, s, req, u);
      if bad.Some? then (s, bad)
      else if req.provision && !f.provisionOk then (s, Some(ProvisionFailed))
      else
        var spec := AddSpec(cfg, req, u, stem);
        if !f.upsertOk || u == 0 || spec.webroot == "" then (s, Some(StoreFailed))
        else
          var written := s.(rows := Upserted(s.rows, d, spec, true, s.clock + 1), clock := s.clock + 1);
          AddDns(cfg, f, written, d, p, d !in s.rows)
  }

  // ---------------------------------------------------------------- SiteEdit

  datatype EditRequest = EditRequest(domain: string, user: string, parent: string, parentSet: bool, mode: string,
          php: string, webroot: string, http3: Option<bool>, enabled: Option<bool>, clientMax: string, phpRead: string,
          phpSend: string)

  function EditParent(req: EditRequest, cur: Site): string {
    if req.parentSet then Norm(req.parent) else if cur.spec.parent.Some? then cur.spec.parent.value else ""
  }

  /** The owner after the edit; None when it cannot be found. */
  function EditOwner(s: State, req: EditRequest, cur: Site): Option<string> {
    if Trim(req.user) != "" then Some(Trim(req.user))
    else if cur.spec.userId in s.names then Some(s.names[cur.spec.userId]) else None
  }

  /** The checks, in order, for owner `name` with id `u`; with the label. */
  function EditChecks(cfg: Config, s: State, req: EditRequest, cur: Site, name: string, u: nat): (Verdict, string) {
    var d, p := Norm(req.domain), EditParent(req, cur);
    var limits := cfg.limits(name);
    if Trim(req.mode) != "" && !KnownMode(Trim(req.mode)) then (Some(InvalidMode), "")
    else if limits.None? then (Some(NoPanelUser), "")
    else if !PhpAllowed(limits.value.phpVersions, OrElse(req.php, cur.spec.php)) then (Some(PhpNotAllowed), "")
    else if req.parentSet && p != "" && !IsLikelyFQDN(p) then (Some(InvalidParent), "")
    else if cfg.dns && req.parentSet && ParentPtr(p) != cur.spec.parent then (Some(ParentFixed), "")
    else
      var (bad, stem) := ValidateParent(s.rows, u, d, p);
      if bad.Some? then (bad, "")
      else if req.parentSet && cur.spec.parent.None? != (p == "")
        && !HasRoom(LimitFor(limits.value, p == ""), |Owned(s.rows, u, p == "")|) then (Some(LimitReached), "")
      else (None, stem)
  }

  function EditSpec(cfg: Config, req: EditRequest, cur: Site, name: string, u: nat, stem: string): (spec: SiteSpec)
    ensures spec.userId == u && spec.parent == ParentPtr(EditParent(req, cur))
  {
    var d, p, c := Norm(req.domain), EditParent(req, cur), cur.spec;
    var webroot := if Trim(req.webroot) != "" then Trim(req.webroot)
                   else if req.parentSet || Trim(req.user) != "" then
                     DeriveDefaultWebroot(Join(cfg.homeRoot, name), d, p, stem)
                   else c.webroot;
    SiteSpec(u, ParentPtr(p), OrElse(req.mode, c.mode), webroot, OrElse(req.php, c.php),
        if req.http3.Some? then req.http3.value else c.http3,
             OrElse(req.clientMax, c.clientMax), OrElse(req.phpRead, c.phpRead), OrElse(req.phpSend, c.phpSend))
  }

  function Edit(cfg: Config, f: Faults, req: EditRequest, s0: State): (State, Verdict) {
    var d := Norm(req.domain);
    if d == "" then (s0, Some(MissingUserOrDomain))
    else if !IsLikelyFQDN(d) then (s0, Some(InvalidDomain))
    else if d !in s0.rows then (s0, Some(NoSuchSite))
    else
      var cur := s0.rows[d];
      var owner := EditOwner(s0, req, cur);
      if owner.None? then (s0, Some(NoOwner))
      else
        var s := if Trim(req.user) != "" then WithUser(s0, owner.value) else s0;
        var u := if Trim(req.user) != "" then s.users[owner.value] else cur.spec.userId;
        var (bad, stem) := EditChecks(cfg, s, req, cur, owner.value, u);
        if bad.Some? then (s, bad)
        else
          var spec := EditSpec(cfg, req, cur, owner.value, u, stem);
          if !f.upsertOk || u == 0 || spec.webroot == "" then (s, Some(StoreFailed))
          else
            var enabled := if req.enabled.Some? then req.enabled.value else cur.enabled;
            (s.(rows := Upserted(s.rows, d, spec, enabled, s.clock + 1), clock := s.clock + 1), None)
  }

  // ---------------------------------------------------------------- SiteDelete, SiteEnable, SiteDisable

  /** A stored site names `d` as its parent, up to case and blanks. */
  predicate Blocked(rows: Rows, d: string) {
    exists e :: e in rows && rows[e].spec.parent.Some? && Norm(rows[e].spec.parent.value) == ToLower(d)
  }

  function ParentOf(s: Site): string {
    if s.spec.parent.Some? then s.spec.parent.value else ""
  }

  /** The row could not be deleted: DNS is put back. */
  function DeleteUndo(cfg: Config, f: Faults, s: State, d: string, p: string): (State, Verdict) {
    if !cfg.dns then (s, Some(StoreFailed))
    else
      var (z, done) := EnsureDns(cfg, f.restoreOk, f.restoreWrote, s.zones, d, p);
      (s.(zones := z), Some(if done then StoreFailed else RestoreFailed))
  }

  function Delete(cfg: Config, f: Faults, domain: string, s: State): (State, Verdict) {
    var d := Trim(domain);
    if d == "" then (s, Some(MissingUserOrDomain))
    else if d !in s.rows then (s, Some(NoSuchSite))
    else
      var p := ParentOf(s.rows[d]);
      if cfg.dns && p == "" && Blocked(s.rows, d) then (s, Some(HasDependents))
      else
        var (z, done) := if cfg.dns then TryDeleteDns(f.dnsOk, f.dnsWrote, s.zones, d, p) else (s.zones, true);
        var s1 := s.(zones := z);
        if !done then (s1, Some(DnsFailed))
        else if !f.vhostOk then (s1, Some(VhostFailed))
        else if !f.reloadOk then (s1, Some(NginxReloadFailed))
        else if !f.deleteOk then DeleteUndo(cfg, f, s1, d, p)
        else (s1.(rows := s.rows - {d}), None)
  }

  /** SiteDisable lower-cases the name, SiteEnable only trims it. */
  function ToggleKey(domain: string, enabled: bool): string {
    if enabled then Trim(domain) else Norm(domain)
  }

  function Toggle(domain: string, enabled: bool, s: State): State {
    var d := ToggleKey(domain, enabled);
    if d == "" then s else s.(rows := Enabling(s.rows, d, enabled, s.clock + 1), clock := s.clock + 1)
  }

  // ---------------------------------------------------------------- the application object

  class Sites {
    const st: Store
    const cfg: Config
    var zones: Zones

    constructor (st: Store, cfg: Config)
      ensures this.st == st && this.cfg == cfg && zones == map[]
    {
      this.st, this.cfg, zones := st, cfg, map[];
    }

    function Here(): State
      reads this, st
    {
      State(st.rows, st.users, st.names, st.nextUser, zones, st.clock)
    }

    /** The DNS provider as SiteAdd and SiteDelete see it: EnsureRootSite and EnsureSubdomainSite. */
    method EnsureDnsSite(ok: bool, wrote: bool, d: string, p: string) returns (done: bool)
      modifies this`zones
      ensures (zones, done) == EnsureDns(cfg, ok, wrote, old(zones), d, p)
    {
      if p != "" && p !in zones { return false; }
      if !ok && !wrote { return false; }
      if p == "" {
        if d !in zones { zones := zones[d := {}]; }
      } else if cfg.hasAddress {
        zones := zones[p := zones[p] + {d}];
      }
      return ok;
    }

    /** SiteAdd up to the DNS step. */
    method SiteAdd(f: Faults, req: AddRequest) returns (bad: Verdict)
      modifies this`zones, st
      ensures (Here(), bad) == Add(cfg, f, req, old(Here()))
    {
      hide AddSyntax, AddChecks, AddSpec, AddDns, Upserted, Norm, Trim;
      NormIdempotent(req.domain);
      bad := AddSyntax(req);
      if bad.Some? { return; }
      var u := st.EnsureUser(Trim(req.user));
      ghost var s := Here();
      var stem: string;
      bad, stem := CheckAdd(req, u);
      if bad.Some? { return; }
      if req.provision && !f.provisionOk { return Some(ProvisionFailed); }
      if !f.upsertOk { return Some(StoreFailed); }
      var d, p := Norm(req.domain), Norm(req.parent);
      var created := d !in st.rows;
      var written := st.UpsertSite(d, AddSpec(cfg, req, u, stem), true, 1);
      if !written { return Some(StoreFailed); }
      bad := FollowDns(f, d, p, created);
    }

    method CheckAdd(req: AddRequest, u: nat) returns (bad: Verdict, stem: string)
      ensures (bad, stem) == AddChecks(cfg, Here(), req, u)
    {
      var limits := cfg.limits(Trim(req.user));
      if limits.None? { return Some(NoPanelUser), ""; }
      if !PhpAllowed(limits.value.phpVersions, OrElse(req.php, cfg.defaultPhp)) { return Some(PhpNotAllowed), ""; }
      var p := Norm(req.parent);
      var (b, l) := ValidateParent(st.rows, u, Norm(req.domain), p);
      if b.Some? { return b, ""; }
      var current := |Owned(st.rows, u, p == "")|;
      if !HasRoom(LimitFor(limits.value, p == ""), current) { return Some(LimitReached), ""; }
      return None, l;
    }

    /** DNS for a row just written, and the compensation for a new one. */
    method FollowDns(f: Faults, d: string, p: string, created: bool) returns (bad: Verdict)
      requires Trim(d) == d
      modifies this`zones, st`rows
      ensures (Here(), bad) == AddDns(cfg, f, old(Here()), d, p, created)
    {
      if !cfg.dns { return None; }
      var done := EnsureDnsSite(f.dnsOk, f.dnsWrote, d, p);
      if done { return None; }
      if created {
        if !f.deleteOk { return Some(CompensationFailed); }
        var _ := st.DeleteSite(d);
      }
      return Some(DnsFailed);
    }

    method SiteEdit(f: Faults, req: EditRequest) returns (bad: Verdict)
      modifies st
      ensures (Here(), bad) == Edit(cfg, f, req, old(Here()))
    {
      hide EditChecks, EditSpec, Upserted, Norm, Trim, IsLikelyFQDN;
      var d := Norm(req.domain);
      if d == "" { return Some(MissingUserOrDomain); }
      if !IsLikelyFQDN(d) { return Some(InvalidDomain); }
      if d !in st.rows { return Some(NoSuchSite); }
      var cur := st.rows[d];
      var u, name := cur.spec.userId, Trim(req.user);
      if name != "" {
        u := st.EnsureUser(name);
      } else if u in st.names {
        name := st.names[u];
      } else {
        return Some(NoOwner);
      }
      var stem: string;
      bad, stem := CheckEdit(req, cur, name, u);
      if bad.Some? { return; }
      if !f.upsertOk { return Some(StoreFailed); }
      var written := st.UpsertSite(d, EditSpec(cfg, req, cur, name, u, stem),
          if req.enabled.Some? then req.enabled.value else cur.enabled, 1);
      return if written then None else Some(StoreFailed);
    }

    method CheckEdit(req: EditRequest, cur: Site, name: string, u: nat) returns (bad: Verdict, stem: string)
      ensures (bad, stem) == EditChecks(cfg, Here(), req, cur, name, u)
    {
      if Trim(req.mode) != "" && !KnownMode(Trim(req.mode)) { return Some(InvalidMode), ""; }
      var limits := cfg.limits(name);
      if limits.None? { return Some(NoPanelUser), ""; }
      if !PhpAllowed(limits.value.phpVersions, OrElse(req.php, cur.spec.php)) { return Some(PhpNotAllowed), ""; }
      var p := EditParent(req, cur);
      if req.parentSet && p != "" && !IsLikelyFQDN(p) { return Some(InvalidParent), ""; }
      if cfg.dns && req.parentSet && ParentPtr(p) != cur.spec.parent { return Some(ParentFixed), ""; }
      var (b, l) := ValidateParent(st.rows, u, Norm(req.domain), p);
      if b.Some? { return b, ""; }
      if req.parentSet && cur.spec.parent.None? != (p == "") {
        var current := |Owned(st.rows, u, p == "")|;
        if !HasRoom(LimitFor(limits.value, p == ""), current) { return Some(LimitReached), ""; }
      }
      return None, l;
    }

    method SiteDelete(f: Faults, domain: string) returns (bad: Verdict)
      modifies this`zones, st`rows
      ensures (Here(), bad) == Delete(cfg, f, domain, old(Here()))
    {
      var d := Trim(domain);
      if d == "" { return Some(MissingUserOrDomain); }
      if d !in st.rows { return Some(NoSuchSite); }
      var p := ParentOf(st.rows[d]);
      if cfg.dns {
        if p == "" && Blocked(st.rows, d) { return Some(HasDependents); }
        if f.dnsOk || f.dnsWrote { zones := DeleteDns(zones, d, p); }
        if !f.dnsOk { return Some(DnsFailed); }
      }
      if !f.vhostOk { return Some(VhostFailed); }
      if !f.reloadOk { return Some(NginxReloadFailed); }
      if f.deleteOk {
        TrimTwice(domain);
        var _ := st.DeleteSite(d);
        return None;
      }
      if !cfg.dns { return Some(StoreFailed); }
      var done := EnsureDnsSite(f.restoreOk, f.restoreWrote, d, p);
      return Some(if done then StoreFailed else RestoreFailed);
    }

    /** Disabling a site that is not stored goes unnoticed; enabling one is an error. */
    method SetEnabled(domain: string, enabled: bool) returns (bad: Verdict)
      modifies st`rows, st`clock
      ensures Here() == Toggle(domain, enabled, old(Here()))
      ensures bad.None? <==>
        ToggleKey(domain, enabled) != "" && (enabled ==> ToggleKey(domain, enabled) in old(st.rows))
    {
      TrimTwice(domain);
      NormIdempotent(domain);
      var d := ToggleKey(domain, enabled);
      if d == "" { return Some(MissingUserOrDomain); }
      st.SetEnabled(d, enabled, 1);
      return if enabled && d !in st.rows then Some(NoSuchSite) else None;
    }
  }
}
