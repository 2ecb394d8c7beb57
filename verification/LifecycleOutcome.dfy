/** What the site operations accept and what they leave: the written row field by field, users and DNS, without
    the steps by which the operations get there. */
module LifecycleOutcomes {
  import opened Text
  import opened SiteStore
  import opened Lifecycle
  import opened LifecycleFacts

  // ---------------------------------------------------------------- names

  /** Labels with dots between them. */
  function Dotted(ls: seq<string>): string {
    if |ls| == 0 then "" else if |ls| == 1 then ls[0] else ls[0] + "." + Dotted(ls[1..])
  }

  predicate IsAlnum(c: char) {
    'a' <= c <= 'z' || '0' <= c <= '9'
  }

  /** At most 63 letters, digits and hyphens, with no hyphen at either end. */
  predicate IsLabel(l: string) {
    1 <= |l| <= 63 && IsAlnum(l[0]) && IsAlnum(l[|l| - 1]) && forall c :: c in l ==> IsAlnum(c) || c == '-'
  }

  ghost predicate IsDomain(d: string) {
    exists ls :: |ls| >= 2 && d == Dotted(ls) && forall l :: l in ls ==> IsLabel(l)
  }

  lemma LabelsAre(l: string)
    ensures LabelOk(l) <==> IsLabel(l)
    ensures IsLabel(l) ==> '.' !in l && ' ' !in l
  {
    if LabelOk(l) {
      forall c | c in l ensures IsAlnum(c) || c == '-' {
        var i :| 0 <= i < |l| && l[i] == c;
      }
    }
    if IsLabel(l) {
      forall i | 0 <= i < |l| ensures LabelChar(l[i]) || l[i] == '-' { assert l[i] in l; }
    }
  }

  lemma {:induction false} SplitDotted(d: string)
    ensures Dotted(Split(d, '.')) == d && |Split(d, '.')| >= 1
    ensures '.' in d <==> |Split(d, '.')| >= 2
    decreases |d|
  {
    if d == [] {
    } else {
      var rest := Split(d[1..], '.');
      SplitDotted(d[1..]);
      assert d == [d[0]] + d[1..];
      if d[0] == '.' {
        assert ([""] + rest)[1..] == rest;
      } else {
        assert ([[d[0]] + rest[0]] + rest[1..])[1..] == rest[1..];
      }
    }
  }

  lemma {:induction false} SplitLabel(l: string, rest: string)
    requires '.' !in l
    ensures Split(l + "." + rest, '.') == [l] + Split(rest, '.') && Split(l, '.') == [l]
    decreases |l|
  {
    if l == [] {
      assert (l + "." + rest)[1..] == rest;
    } else {
      SplitLabel(l[1..], rest);
      assert (l + "." + rest)[1..] == l[1..] + "." + rest;
      assert l == [l[0]] + l[1..];
      assert ([l[1..]] + Split(rest, '.'))[1..] == Split(rest, '.');
    }
  }

  lemma {:induction false} DottedSplits(ls: seq<string>)
    requires |ls| >= 1 && forall l :: l in ls ==> '.' !in l
    ensures Split(Dotted(ls), '.') == ls
    decreases |ls|
  {
    if |ls| == 1 {
      SplitLabel(ls[0], "");
    } else {
      DottedSplits(ls[1..]);
      SplitLabel(ls[0], Dotted(ls[1..]));
      assert ls == [ls[0]] + ls[1..];
    }
  }

  /** No blank, no empty first. */
  predicate Clean(d: string) {
    && d != "" && ' ' !in d && d[0] != '.' && d[|d| - 1] != '.'
    && forall i :: 0 <= i < |d| - 1 ==> !(d[i] == '.' && d[i + 1] == '.')
  }

  lemma LabelIsClean(l: string)
    requires IsLabel(l)
    ensures Clean(l)
  {
    LabelsAre(l);
    assert l[0] in l && l[|l| - 1] in l;
  }

  lemma LabelDotClean(l: string, d: string)
    requires IsLabel(l) && Clean(d)
    ensures Clean(l + "." + d)
  {
    LabelsAre(l);
    var x := l + "." + d;
    forall i | 0 <= i < |x| - 1 ensures !(x[i] == '.' && x[i + 1] == '.') {
      if i < |l| { assert x[i] in l; } else if i > |l| { assert x[i] == d[i - |l| - 1] && x[i + 1] == d[i - |l|]; }
    }
    assert x[0] in l;
  }

  lemma {:induction false} DottedIsClean(ls: seq<string>)
    requires |ls| >= 1 && forall l :: l in ls ==> IsLabel(l)
    ensures Clean(Dotted(ls))
    decreases |ls|
  {
    hide Clean, IsLabel;
    if |ls| == 1 {
      LabelIsClean(ls[0]);
    } else {
      DottedIsClean(ls[1..]);
      LabelDotClean(ls[0], Dotted(ls[1..]));
    }
  }

  /** A domain is accepted as such exactly if it is two or more labels with dots between them. */
  lemma DomainsExactly(d: string)
    ensures IsLikelyFQDN(d) <==> IsDomain(d)
  {
    hide Split, Dotted, LabelOk, IsLabel;
    SplitDotted(d);
    forall l ensures LabelOk(l) <==> IsLabel(l) { LabelsAre(l); }
    if IsDomain(d) {
      var ls :| |ls| >= 2 && d == Dotted(ls) && forall l :: l in ls ==> IsLabel(l);
      forall l | l in ls ensures '.' !in l { LabelsAre(l); }
      DottedSplits(ls);
      DottedIsClean(ls);
    }
  }

  // ---------------------------------------------------------------- what a request asks for

  function Said(x: string, otherwise: string): string {
    if Trim(x) == "" then otherwise else Trim(x)
  }

  predicate IsMode(m: string) {
    m == "php" || m == "proxy" || m == "static"
  }

  /** Without a list every version is allowed; letter case and blanks do not count. */
  ghost predicate VersionAllowed(allowed: seq<string>, php: string) {
    allowed != [] ==> exists v :: v in allowed && ToLower(Trim(v)) == ToLower(Trim(php))
  }

  /** A stored root of the same owner, of which the domain is a direct subdomain. */
  ghost predicate Beneath(rows: Rows, owner: nat, d: string, p: string) {
    && p in rows && rows[p].spec.parent == None && rows[p].spec.userId == owner
    && exists first :: first != "" && '.' !in first && d == first + "." + p
  }

  ghost predicate RoomFor(rows: Rows, limits: Limits, owner: nat, root: bool) {
    if root then
      limits.maxDomains == -1
      || |set e | e in rows && rows[e].spec.userId == owner && rows[e].spec.parent == None| < limits.maxDomains
    else
      limits.maxSubdomains == -1
      || |set e | e in rows && rows[e].spec.userId == owner && rows[e].spec.parent != None| < limits.maxSubdomains
  }

  function DefaultWebroot(cfg: Config, user: string, d: string, p: string): string {
    if p == "" || |d| <= |p| then cfg.homeRoot + "/" + user + "/sites/" + d + "/public"
    else cfg.homeRoot + "/" + user + "/sites/" + p + "/subdomains/" + d[..|d| - |p| - 1] + "/public"
  }

  function IdOf(s: State, user: string): nat {
    if user in s.users then s.users[user] else s.nextUser
  }

  lemma WebrootIs(cfg: Config, user: string, d: string, p: string, stem: string)
    requires p != "" ==> |d| > |p| && stem == d[..|d| - |p| - 1]
    ensures DeriveDefaultWebroot(Join(cfg.homeRoot, user), d, p, stem) == DefaultWebroot(cfg, user, d, p)
  {
    var h := cfg.homeRoot + "/" + user;
    assert h + "/sites/" == (h + "/") + "sites" + "/";
    if p != "" {
      assert h + "/sites/" + p + "/subdomains/" == (h + "/sites/" + p + "/") + "subdomains" + "/";
      var x := h + "/sites/" + p + "/subdomains/" + stem;
      assert x + "/public" == x + "/" + "public";
    } else {
      var x := h + "/sites/" + d;
      assert x + "/public" == x + "/" + "public";
    }
  }

  lemma VersionsAre(allowed: seq<string>, php: string)
    ensures PhpAllowed(allowed, php) <==> VersionAllowed(allowed, php)
  {
    hide ToLower, Trim;
    if v :| v in allowed && ToLower(Trim(v)) == ToLower(Trim(php)) {
      var i :| 0 <= i < |allowed| && allowed[i] == v;
    }
  }

  lemma RoomIs(rows: Rows, limits: Limits, owner: nat, root: bool)
    ensures HasRoom(LimitFor(limits, root), |Owned(rows, owner, root)|) <==> RoomFor(rows, limits, owner, root)
  {
    assert Owned(rows, owner, true) ==
      set e | e in rows && rows[e].spec.userId == owner && rows[e].spec.parent == None;
    assert Owned(rows, owner, false) ==
      set e | e in rows && rows[e].spec.userId == owner && rows[e].spec.parent != None;
  }

  lemma BelowExactly(d: string, p: string)
    ensures (exists first :: first != "" && '.' !in first && d == first + "." + p) <==> ChildOf(d, p)
  {
    if first :| first != "" && '.' !in first && d == first + "." + p {
      assert |d| == |first| + 1 + |p| && d[..|first|] == first && d[|first|..] == "." + p;
    }
    if ChildOf(d, p) {
      var first := d[..|d| - |p| - 1];
      assert d == first + Suffix(d, |p| + 1) == first + "." + p;
    }
  }

  /** There is no second dot in front of the parent. */
  lemma NoDotAtEnd(d: string, p: string)
    requires IsLikelyFQDN(d) && |d| >= |p| + 1 && Suffix(d, |p| + 1) == "." + p
    ensures var first := d[..|d| - |p| - 1]; first != [] && first[|first| - 1] != '.' && d != p
  {
    hide LabelOk, Split;
    var first := d[..|d| - |p| - 1];
    assert d[|first|] == ("." + p)[0] == '.';
    if first != [] { assert d[|first| - 1] == first[|first| - 1]; }
  }

  /** The parent check passes exactly for these, and hands on the label. */
  lemma ParentExactly(rows: Rows, owner: nat, d: string, p: string)
    requires IsLikelyFQDN(d)
    ensures ValidateParent(rows, owner, d, p).0 == None <==> p == "" || Beneath(rows, owner, d, p)
    ensures p != "" && ValidateParent(rows, owner, d, p).0 == None ==>
      |d| > |p| && ValidateParent(rows, owner, d, p).1 == d[..|d| - |p| - 1]
  {
    hide IsLikelyFQDN;
    BelowExactly(d, p);
    if p != "" && |d| >= |p| + 1 && Suffix(d, |p| + 1) == "." + p { NoDotAtEnd(d, p); }
  }

  // ---------------------------------------------------------------- SiteAdd

  /** What SiteAdd asks of a request, the store and the outside before it writes a row. */
  ghost predicate AddAllowed(cfg: Config, f: Faults, req: AddRequest, s: State) {
    var user, d, p := Trim(req.user), Norm(req.domain), Norm(req.parent);
    && user != "" && IsDomain(d) && IsMode(Said(req.mode, "php"))
    && (p != "" ==> IsDomain(p) && Beneath(s.rows, IdOf(s, user), d, p))
    && cfg.limits(user).Some? && VersionAllowed(cfg.limits(user).value.phpVersions, Said(req.php, cfg.defaultPhp))
    && RoomFor(s.rows, cfg.limits(user).value, IdOf(s, user), p == "")
    && (req.provision ==> f.provisionOk) && f.upsertOk && IdOf(s, user) != 0
    && Said(req.webroot, DefaultWebroot(cfg, user, d, p)) != ""
  }

  /** The row that the request asks for; a rewritten one keeps its apply result. */
  function RowAsked(cfg: Config, req: AddRequest, s: State): Site {
    var user, d, p := Trim(req.user), Norm(req.domain), Norm(req.parent);
    var spec := SiteSpec(IdOf(s, user), if p == "" then None else Some(p), Said(req.mode, "php"),
        Said(req.webroot, DefaultWebroot(cfg, user, d, p)), Said(req.php, cfg.defaultPhp), req.http3,
            Trim(req.clientMax), Trim(req.phpRead), Trim(req.phpSend));
    if d in s.rows then
      Site(spec, true, s.clock + 1, s.rows[d].lastAppliedAt, s.rows[d].status, s.rows[d].error, s.rows[d].hash)
    else Site(spec, true, s.clock + 1, None, NeverApplied, NoError, "")
  }

  lemma AllowedIsAccepted(cfg: Config, f: Faults, req: AddRequest, s: State)
    ensures AddAllowed(cfg, f, req, s) <==> AddAccepted(cfg, f, req, s)
  {
    hide Norm, Trim, IsDomain, IsLikelyFQDN, ValidateParent, Beneath, RoomFor, HasRoom, LimitFor, Owned, PhpAllowed,
        VersionAllowed, DefaultWebroot, DeriveDefaultWebroot, Join;
    var user, d, p, u := Trim(req.user), Norm(req.domain), Norm(req.parent), AddId(req, s);
    DomainsExactly(d);
    DomainsExactly(p);
    NotADomain();
    if IsDomain(d) { ParentExactly(s.rows, u, d, p); }
    if cfg.limits(user).Some? {
      VersionsAre(cfg.limits(user).value.phpVersions, Said(req.php, cfg.defaultPhp));
      RoomIs(s.rows, cfg.limits(user).value, u, p == "");
    }
    var stem := AddChecks(cfg, s, req, u).1;
    if p == "" || (|d| > |p| && stem == d[..|d| - |p| - 1]) { WebrootIs(cfg, user, d, p, stem); }
  }

  lemma NotADomain()
    ensures !IsDomain("")
  {
    DomainsExactly("");
  }

  lemma AcceptedRowIsAsked(cfg: Config, f: Faults, req: AddRequest, s: State)
    requires AddAccepted(cfg, f, req, s)
    ensures AddRow(cfg, req, s) == RowAsked(cfg, req, s)
  {
    hide Norm, IsLikelyFQDN, ValidateParent, HasRoom, LimitFor, Owned, PhpAllowed, DefaultWebroot,
        DeriveDefaultWebroot, Join, Trim;
    var user, d, p, u := Trim(req.user), Norm(req.domain), Norm(req.parent), AddId(req, s);
    NormIdempotent(req.parent);
    ParentExactly(s.rows, u, d, p);
    WebrootIs(cfg, user, d, p, AddChecks(cfg, s, req, u).1);
  }

  /** Known users stay, and a new one has the next id. */
  ghost predicate Registered(s: State, s': State, user: string) {
    if user in s.users then s'.users == s.users && s'.names == s.names && s'.nextUser == s.nextUser
    else
      && s'.users == s.users[user := s.nextUser] && s'.names == s.names[s.nextUser := user]
      && s'.nextUser == s.nextUser + 1
  }

  ghost predicate SameUsers(s: State, s': State) {
    s'.users == s.users && s'.names == s.names && s'.nextUser == s.nextUser
  }

  /** The zones with `d` added: a root gets a zone, a subdomain its name in the zone of its parent, if there is one
      and there is a default address. */
  function WithName(cfg: Config, z: Zones, d: string, p: string): Zones {
    if p == "" then (if d in z then z else z[d := {}])
    else if p in z && cfg.hasAddress then z[p := z[p] + {d}] else z
  }

  function WithoutName(z: Zones, d: string, p: string): Zones {
    if p == "" then z - {d} else if p in z then z[p := z[p] - {d}] else z
  }

  /** The whole of SiteAdd: a request that is not allowed changes no row and no zone; an allowed one writes the
      row it asks for, and takes a new row back when DNS fails, if it can. */
  lemma AddOutcome(cfg: Config, f: Faults, req: AddRequest, s: State)
    ensures var (s', bad) := Add(cfg, f, req, s);
      var d, p := Norm(req.domain), Norm(req.parent);
      var published := f.dnsOk && (p == "" || p in s.zones);
      var takenBack := cfg.dns && !published && d !in s.rows && f.deleteOk;
      if !AddAllowed(cfg, f, req, s) then
        && bad != None && s'.rows == s.rows && s'.zones == s.zones && s'.clock == s.clock
        && (SameUsers(s, s') || Registered(s, s', Trim(req.user)))
      else
        && Registered(s, s', Trim(req.user)) && s'.clock == s.clock + 1
        && s'.rows == (if takenBack then s.rows else s.rows[d := RowAsked(cfg, req, s)])
        && s'.zones == (if cfg.dns && (f.dnsOk || f.dnsWrote) then WithName(cfg, s.zones, d, p) else s.zones)
        && bad == (if !cfg.dns || published then None
                   else if d !in s.rows && !f.deleteOk then Some(CompensationFailed) else Some(DnsFailed))
  {
    hide AddAllowed, RowAsked, Norm, Trim, AddSyntax, AddChecks, AddSpec;
    var d, p := Norm(req.domain), Norm(req.parent);
    AllowedIsAccepted(cfg, f, req, s);
    AddedUsers(cfg, f, req, s);
    hide Add, AddAccepted, AddRow;
    AddCases(cfg, f, req, s);
    if AddAccepted(cfg, f, req, s) {
      AcceptedRowIsAsked(cfg, f, req, s);
      EnsuredZones(cfg, f.dnsOk, f.dnsWrote, s.zones, d, p);
      if d !in s.rows { AddAndTakeBack(s.rows, d, AddRow(cfg, req, s)); }
    }
  }

  lemma AddAndTakeBack(rows: Rows, d: string, r: Site)
    requires d !in rows
    ensures rows[d := r] - {d} == rows
  {
  }

  lemma EnsuredZones(cfg: Config, ok: bool, wrote: bool, z: Zones, d: string, p: string)
    ensures var (z', done) := EnsureDns(cfg, ok, wrote, z, d, p);
      z' == (if ok || wrote then WithName(cfg, z, d, p) else z) && (done <==> ok && (p == "" || p in z))
  {
  }

  lemma AddedUsers(cfg: Config, f: Faults, req: AddRequest, s: State)
    ensures var s' := Add(cfg, f, req, s).0;
      && (SameUsers(s, s') || Registered(s, s', Trim(req.user)))
      && (AddAccepted(cfg, f, req, s) ==> Registered(s, s', Trim(req.user)))
      && (!AddAccepted(cfg, f, req, s) ==> s'.clock == s.clock)
  {
    hide AddSyntax, AddSpec, Norm, Trim, EnsureDns, Upserted, AddChecks;
    ChecksAgree(cfg, s, req);
  }

  lemma ChecksAgree(cfg: Config, s: State, req: AddRequest)
    ensures AddChecks(cfg, WithUser(s, Trim(req.user)), req, AddId(req, s)) == AddChecks(cfg, s, req, AddId(req, s))
  {
    ChecksIgnoreUsers(cfg, WithUser(s, Trim(req.user)), s, req, AddId(req, s));
  }

  /** The first thing wrong with a parent. */
  ghost function WrongParent(rows: Rows, owner: nat, d: string, p: string): Verdict {
    if p == "" || Beneath(rows, owner, d, p) then None
    else if !(exists first :: first != "" && '.' !in first && d == first + "." + p) then Some(NotUnderParent)
    else if p !in rows then Some(ParentNotFound)
    else if rows[p].spec.parent != None then Some(ParentNotRoot) else Some(ParentNotOwned)
  }

  lemma ParentVerdict(rows: Rows, owner: nat, d: string, p: string)
    requires IsLikelyFQDN(d)
    ensures ValidateParent(rows, owner, d, p).0 == WrongParent(rows, owner, d, p)
  {
    hide IsLikelyFQDN;
    ParentExactly(rows, owner, d, p);
    BelowExactly(d, p);
    if p != "" && |d| >= |p| + 1 && Suffix(d, |p| + 1) == "." + p { NoDotAtEnd(d, p); }
  }

  /** The first thing wrong with a request that is not allowed. */
  ghost function WrongAdd(cfg: Config, f: Faults, req: AddRequest, s: State): Refusal {
    var user, d, p := Trim(req.user), Norm(req.domain), Norm(req.parent);
    var limits, u := cfg.limits(user), IdOf(s, user);
    if user == "" || d == "" then MissingUserOrDomain
    else if !IsDomain(d) then InvalidDomain
    else if p != "" && !IsDomain(p) then InvalidParent
    else if !IsMode(Said(req.mode, "php")) then InvalidMode
    else if limits == None then NoPanelUser
    else if !VersionAllowed(limits.value.phpVersions, Said(req.php, cfg.defaultPhp)) then PhpNotAllowed
    else if WrongParent(s.rows, u, d, p) != None then WrongParent(s.rows, u, d, p).value
    else if !RoomFor(s.rows, limits.value, u, p == "") then LimitReached
    else if req.provision && !f.provisionOk then ProvisionFailed else StoreFailed
  }

  lemma AddRefusal(cfg: Config, f: Faults, req: AddRequest, s: State)
    ensures !AddAllowed(cfg, f, req, s) ==> Add(cfg, f, req, s).1 == Some(WrongAdd(cfg, f, req, s))
  {
    hide Norm, Trim, IsDomain, IsLikelyFQDN, ValidateParent, Beneath, WrongParent, RoomFor, HasRoom, LimitFor, Owned,
        PhpAllowed, VersionAllowed, DefaultWebroot, DeriveDefaultWebroot, Join, AddDns, Upserted, AddAllowed;
    var user, d, p, u := Trim(req.user), Norm(req.domain), Norm(req.parent), AddId(req, s);
    AllowedIsAccepted(cfg, f, req, s);
    DomainsExactly(d);
    DomainsExactly(p);
    if IsDomain(d) { ParentVerdict(s.rows, u, d, p); }
    if cfg.limits(user).Some? {
      VersionsAre(cfg.limits(user).value.phpVersions, Said(req.php, cfg.defaultPhp));
      RoomIs(s.rows, cfg.limits(user).value, u, p == "");
    }
    ChecksAgree(cfg, s, req);
  }

  // ---------------------------------------------------------------- SiteEdit

  function ParentAfter(req: EditRequest, was: Site): string {
    if req.parentSet then Norm(req.parent) else if was.spec.parent == None then "" else was.spec.parent.value
  }

  /** The owner's name after the edit; None when it is not known. */
  function OwnerAfter(req: EditRequest, s: State, was: Site): Option<string> {
    if Trim(req.user) != "" then Some(Trim(req.user))
    else if was.spec.userId in s.names then Some(s.names[was.spec.userId]) else None
  }

  function OwnerIdAfter(req: EditRequest, s: State, was: Site): nat {
    if Trim(req.user) == "" then was.spec.userId else IdOf(s, Trim(req.user))
  }

  function WebrootAfter(cfg: Config, req: EditRequest, was: Site, user: string): string {
    if Trim(req.webroot) != "" then Trim(req.webroot)
    else if req.parentSet || Trim(req.user) != "" then
      DefaultWebroot(cfg, user, Norm(req.domain), ParentAfter(req, was))
    else was.spec.webroot
  }

  /** What SiteEdit asks of a request, the row, the store and the outside. */
  ghost predicate EditAllowed(cfg: Config, f: Faults, req: EditRequest, s: State) {
    var d := Norm(req.domain);
    IsDomain(d) && d in s.rows &&
    var was := s.rows[d];
    var p, owner, u := ParentAfter(req, was), OwnerAfter(req, s, was), OwnerIdAfter(req, s, was);
    && owner.Some? && (Trim(req.mode) == "" || IsMode(Trim(req.mode)))
    && cfg.limits(owner.value).Some?
    && VersionAllowed(cfg.limits(owner.value).value.phpVersions, Said(req.php, was.spec.php))
    && (req.parentSet && p != "" ==> IsDomain(p))
    && (cfg.dns && req.parentSet ==> was.spec.parent == if p == "" then None else Some(p))
    && (p != "" ==> Beneath(s.rows, u, d, p))
    && (req.parentSet && (was.spec.parent == None) != (p == "") ==>
      RoomFor(s.rows, cfg.limits(owner.value).value, u, p == ""))
    && f.upsertOk && u != 0 && WebrootAfter(cfg, req, was, owner.value) != ""
  }

  /** The row after an edit: what the request names, trimmed, and everything else as it was. The store fills in an
      empty mode. */
  function RowEdited(cfg: Config, req: EditRequest, s: State, was: Site, user: string): Site {
    var p, mode := ParentAfter(req, was), Said(req.mode, was.spec.mode);
    Site(SiteSpec(OwnerIdAfter(req, s, was), if Trim(p) == "" then None else Some(Trim(p)),
        if mode == "" then "php" else mode, WebrootAfter(cfg, req, was, user), Said(req.php, was.spec.php),
            if req.http3 == None then was.spec.http3 else req.http3.value, Said(req.clientMax, was.spec.clientMax),
            Said(req.phpRead, was.spec.phpRead), Said(req.phpSend, was.spec.phpSend)),
        if req.enabled == None then was.enabled else req.enabled.value, s.clock + 1, was.lastAppliedAt, was.status,
        was.error, was.hash)
  }

  lemma EditAllowedIsAccepted(cfg: Config, f: Faults, req: EditRequest, s: State)
    ensures EditAllowed(cfg, f, req, s) <==> EditAccepted(cfg, f, req, s)
  {
    hide Norm, Trim, IsDomain, IsLikelyFQDN, ValidateParent, Beneath, RoomFor, HasRoom, LimitFor, Owned, PhpAllowed,
        VersionAllowed, DefaultWebroot, DeriveDefaultWebroot, Join;
    var d := Norm(req.domain);
    NotADomain();
    DomainsExactly(d);
    if IsDomain(d) && d in s.rows && EditOwner(s, req, s.rows[d]).Some? {
      EditChecksExactly(cfg, f, req, s, s.rows[d], EditOwner(s, req, s.rows[d]).value);
    }
  }

  lemma EditChecksExactly(cfg: Config, f: Faults, req: EditRequest, s: State, was: Site, user: string)
    requires IsDomain(Norm(req.domain))
    ensures var d, p, u := Norm(req.domain), ParentAfter(req, was), OwnerIdAfter(req, s, was);
      var (bad, stem) := EditChecks(cfg, s, req, was, user, u);
      && (bad == None <==>
        && (Trim(req.mode) == "" || IsMode(Trim(req.mode))) && cfg.limits(user).Some?
        && VersionAllowed(cfg.limits(user).value.phpVersions, Said(req.php, was.spec.php))
        && (req.parentSet && p != "" ==> IsDomain(p))
        && (cfg.dns && req.parentSet ==> was.spec.parent == if p == "" then None else Some(p))
        && (p != "" ==> Beneath(s.rows, u, d, p))
        && (req.parentSet && (was.spec.parent == None) != (p == "") ==>
          RoomFor(s.rows, cfg.limits(user).value, u, p == "")))
      && (bad == None ==> EditSpec(cfg, req, was, user, u, stem).webroot == WebrootAfter(cfg, req, was, user))
  {
    hide Norm, Trim, IsDomain, IsLikelyFQDN, ValidateParent, Beneath, RoomFor, HasRoom, LimitFor, Owned, PhpAllowed,
        VersionAllowed, DefaultWebroot, DeriveDefaultWebroot, Join;
    var d, p, u := Norm(req.domain), ParentAfter(req, was), OwnerIdAfter(req, s, was);
    DomainsExactly(d);
    DomainsExactly(p);
    ParentExactly(s.rows, u, d, p);
    if cfg.limits(user).Some? {
      VersionsAre(cfg.limits(user).value.phpVersions, Said(req.php, was.spec.php));
      RoomIs(s.rows, cfg.limits(user).value, u, p == "");
    }
    var (bad, stem) := EditChecks(cfg, s, req, was, user, u);
    if bad == None { WebrootIs(cfg, user, d, p, stem); }
  }

  lemma EditedSpec(cfg: Config, req: EditRequest, s: State, was: Site, user: string, stem: string)
    requires EditSpec(cfg, req, was, user, OwnerIdAfter(req, s, was), stem).webroot == WebrootAfter(cfg, req, was, user)
    ensures var spec := EditSpec(cfg, req, was, user, OwnerIdAfter(req, s, was), stem);
      Stored(spec) == RowEdited(cfg, req, s, was, user).spec
  {
    hide Norm, Trim, DefaultWebroot, DeriveDefaultWebroot, Join, WebrootAfter;
    NormOfEmpty();
  }

  /** The whole of SiteEdit: an edit that is not allowed changes no row, and no edit changes a zone; an allowed one
      writes the row as `RowEdited` has it. */
  lemma EditOutcome(cfg: Config, f: Faults, req: EditRequest, s: State)
    ensures var (s', bad) := Edit(cfg, f, req, s);
      var d := Norm(req.domain);
      && s'.zones == s.zones && (bad == None <==> EditAllowed(cfg, f, req, s))
      && if !EditAllowed(cfg, f, req, s) then s'.rows == s.rows && s'.clock == s.clock
         else
           && s'.rows == s.rows[d := RowEdited(cfg, req, s, s.rows[d], OwnerAfter(req, s, s.rows[d]).value)]
           && s'.clock == s.clock + 1
           && (if Trim(req.user) == "" then SameUsers(s, s') else Registered(s, s', Trim(req.user)))
  {
    hide Norm, Trim, EditChecks, EditSpec, EditAllowed, RowEdited, IsLikelyFQDN, Stored, EditAccepted;
    EditAllowedIsAccepted(cfg, f, req, s);
    EditRefused(cfg, f, req, s);
    if EditAllowed(cfg, f, req, s) { AllowedEditWrites(cfg, f, req, s); }
  }

  lemma AllowedEditWrites(cfg: Config, f: Faults, req: EditRequest, s: State)
    requires EditAllowed(cfg, f, req, s) && Edit(cfg, f, req, s).1 == None
    ensures var s', d := Edit(cfg, f, req, s).0, Norm(req.domain);
      && s'.rows == s.rows[d := RowEdited(cfg, req, s, s.rows[d], OwnerAfter(req, s, s.rows[d]).value)]
      && s'.clock == s.clock + 1
      && (if Trim(req.user) == "" then SameUsers(s, s') else Registered(s, s', Trim(req.user)))
  {
    hide Norm, Trim, EditChecks, EditSpec, IsLikelyFQDN, Stored, IsDomain, VersionAllowed, Beneath, RoomFor,
        WebrootAfter, IsMode;
    var d := Norm(req.domain);
    var was := s.rows[d];
    var user, u := OwnerAfter(req, s, was).value, OwnerIdAfter(req, s, was);
    var s1 := if Trim(req.user) != "" then WithUser(s, user) else s;
    EditChecksIgnoreUsers(cfg, s1, s, req, was, user, u);
    EditChecksExactly(cfg, f, req, s, was, user);
    EditedSpec(cfg, req, s, was, user, EditChecks(cfg, s, req, was, user, u).1);
  }

  /** An edit that names nothing leaves what the row asks for. */
  lemma EditOfNothing(cfg: Config, f: Faults, req: EditRequest, s: State)
    requires Edit(cfg, f, req, s).1 == None
    requires Trim(req.user) == "" && !req.parentSet && Trim(req.mode) == "" && Trim(req.php) == ""
    requires Trim(req.webroot) == "" && req.http3 == None && req.enabled == None
    requires Trim(req.clientMax) == "" && Trim(req.phpRead) == "" && Trim(req.phpSend) == ""
    requires var d := Norm(req.domain); d in s.rows ==> Stored(s.rows[d].spec) == s.rows[d].spec
    ensures var s', d := Edit(cfg, f, req, s).0, Norm(req.domain);
      && d in s.rows && d in s'.rows
      && s'.rows[d] == s.rows[d].(updatedAt := s.clock + 1) && s'.rows == s.rows[d := s'.rows[d]]
  {
    hide Norm, Trim, Edit, IsDomain, VersionAllowed, Beneath, RoomFor, IsMode;
    EditOutcome(cfg, f, req, s);
    NormOfEmpty();
  }

  // ---------------------------------------------------------------- SiteDelete, SiteEnable, SiteDisable

  /** A stored site names this one as its parent. */
  ghost predicate NamedAsParent(rows: Rows, d: string) {
    exists e :: e in rows && rows[e].spec.parent.Some? && ToLower(Trim(rows[e].spec.parent.value)) == ToLower(d)
  }

  /** The whole of SiteDelete. The row goes if and only if everything succeeds; with DNS the name goes as soon as
      the provider takes it away, and is put back only when nothing but deleting the row failed. */
  lemma DeleteOutcome(cfg: Config, f: Faults, domain: string, s: State)
    ensures var (s', bad) := Delete(cfg, f, domain, s);
      var d := Trim(domain);
      if d == "" || d !in s.rows then s' == s && bad == Some(if d == "" then MissingUserOrDomain else NoSuchSite)
      else
        var p := if s.rows[d].spec.parent == None then "" else s.rows[d].spec.parent.value;
        if cfg.dns && p == "" && NamedAsParent(s.rows, d) then s' == s && bad == Some(HasDependents)
        else
          var taken := if cfg.dns && (f.dnsOk || f.dnsWrote) then WithoutName(s.zones, d, p) else s.zones;
          var rowFails := (cfg.dns ==> f.dnsOk) && f.vhostOk && f.reloadOk && !f.deleteOk;
          var back := cfg.dns && rowFails && (f.restoreOk || f.restoreWrote);
          && bad == (if cfg.dns && !f.dnsOk then Some(DnsFailed)
                     else if !f.vhostOk then Some(VhostFailed)
                     else if !f.reloadOk then Some(NginxReloadFailed)
                     else if f.deleteOk then None
                     else if cfg.dns && !(f.restoreOk && (p == "" || p in taken)) then Some(RestoreFailed)
                     else Some(StoreFailed))
          && s' == s.(rows := if bad == None then s.rows - {d} else s.rows,
                      zones := if back then WithName(cfg, taken, d, p) else taken)
  {
    hide Trim, ToLower, EnsureDns, WithName, WithoutName;
    var d := Trim(domain);
    DependentsAre(s.rows, d);
    hide Blocked, NamedAsParent;
    if d in s.rows {
      var p := ParentOf(s.rows[d]);
      DeletedZones(s.zones, d, p);
      EnsuredZones(cfg, f.restoreOk, f.restoreWrote, if cfg.dns then WithoutName(s.zones, d, p) else s.zones, d, p);
    }
  }

  lemma DependentsAre(rows: Rows, d: string)
    ensures Blocked(rows, d) <==> NamedAsParent(rows, d)
  {
    hide Trim, ToLower;
  }

  lemma DeletedZones(z: Zones, d: string, p: string)
    ensures DeleteDns(z, d, p) == WithoutName(z, d, p)
  {
  }

  /** SiteDisable and SiteEnable write the flag, and the time, of the one row. */
  lemma ToggleOutcome(domain: string, enabled: bool, s: State)
    ensures var s', d := Toggle(domain, enabled, s), if enabled then Trim(domain) else ToLower(Trim(domain));
      && s'.zones == s.zones && SameUsers(s, s')
      && s'.rows == (if d == "" || d !in s.rows then s.rows
                     else s.rows[d := s.rows[d].(enabled := enabled, updatedAt := s.clock + 1)])
  {
    hide Trim, ToLower;
  }

  // ---------------------------------------------------------------- why an edit is refused

  ghost function WrongEdit(cfg: Config, f: Faults, req: EditRequest, s: State): Refusal {
    var d := Norm(req.domain);
    if d == "" then MissingUserOrDomain
    else if !IsDomain(d) then InvalidDomain
    else if d !in s.rows then NoSuchSite
    else
      var was := s.rows[d];
      var p, owner, u := ParentAfter(req, was), OwnerAfter(req, s, was), OwnerIdAfter(req, s, was);
      if owner == None then NoOwner
      else
        var limits := cfg.limits(owner.value);
        if Trim(req.mode) != "" && !IsMode(Trim(req.mode)) then InvalidMode
        else if limits == None then NoPanelUser
        else if !VersionAllowed(limits.value.phpVersions, Said(req.php, was.spec.php)) then PhpNotAllowed
        else if req.parentSet && p != "" && !IsDomain(p) then InvalidParent
        else if cfg.dns && req.parentSet && was.spec.parent != (if p == "" then None else Some(p)) then ParentFixed
        else if WrongParent(s.rows, u, d, p) != None then WrongParent(s.rows, u, d, p).value
        else if req.parentSet && (was.spec.parent == None) != (p == "") && !RoomFor(s.rows, limits.value, u, p == "")
        then LimitReached
        else StoreFailed
  }

  lemma EditRefusal(cfg: Config, f: Faults, req: EditRequest, s: State)
    ensures !EditAllowed(cfg, f, req, s) ==> Edit(cfg, f, req, s).1 == Some(WrongEdit(cfg, f, req, s))
  {
    hide Norm, Trim, IsDomain, IsLikelyFQDN, ValidateParent, WrongParent, RoomFor, HasRoom, LimitFor, Owned,
        PhpAllowed, VersionAllowed, Stored, Upserted, EditAllowed, EditSpec;
    var d := Norm(req.domain);
    EditOutcomeNone(cfg, f, req, s);
    DomainsExactly(d);
    NotADomain();
    if IsDomain(d) && d in s.rows && OwnerAfter(req, s, s.rows[d]).Some? {
      var was := s.rows[d];
      var p, user, u := ParentAfter(req, was), OwnerAfter(req, s, was).value, OwnerIdAfter(req, s, was);
      DomainsExactly(p);
      ParentVerdict(s.rows, u, d, p);
      if cfg.limits(user).Some? {
        VersionsAre(cfg.limits(user).value.phpVersions, Said(req.php, was.spec.php));
        RoomIs(s.rows, cfg.limits(user).value, u, p == "");
      }
      EditChecksIgnoreUsers(cfg, WithUser(s, user), s, req, was, user, u);
    }
  }

  lemma EditOutcomeNone(cfg: Config, f: Faults, req: EditRequest, s: State)
    ensures Edit(cfg, f, req, s).1 == None <==> EditAllowed(cfg, f, req, s)
  {
    hide Edit, EditAllowed, EditAccepted;
    EditAllowedIsAccepted(cfg, f, req, s);
    EditRefused(cfg, f, req, s);
  }
}
