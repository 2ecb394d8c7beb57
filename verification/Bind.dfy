/** The BIND provider of internal/dns/bind/bind.go and namedconf.go over its zones directory. */
module BindProvider {
  import opened Text
  import opened ZoneFiles

  datatype RecordTemplate = RecordTemplate(name: string, rtype: string, value: string, ttl: nat)
  datatype Template = Template(ttl: nat, mname: string, rname: string, nameservers: seq<string>,
          records: seq<RecordTemplate>)

  datatype Header = Header(name: string, rtype: nat, ttl: nat)

  /** The DNS library: how a line reads in the file of a zone, and how records are built (the SOA and NS
      literals, and NewRR on a printed line). `header` is what a printed record says of owner, type and TTL. */
  datatype Codec = Codec(
    header: string -> Header,
    parse: string -> Parser,                                 // by zone
    soa: (Template, string, nat, nat) -> RR,                 // template, owner, ttl, serial
    ns: (string, nat, string) -> RR,                         // owner, ttl, name server
    addr: (string, nat, nat, string) -> RR,                  // owner, ttl, type, address
    custom: (string, nat, string, string) -> Option<RR>)     // owner, ttl, type, value

  /** The record that a text is, going by its printed header. */
  function Plain(header: string -> Header): Parser {
    text => Some(RR(header(text).name, header(text).rtype, header(text).ttl, text))
  }

  /** The text of this record shows its owner, type and TTL. */
  predicate Headed(c: Codec, r: RR) {
    Printed(Plain(c.header), r)
  }

  ghost predicate AllHeaded(c: Codec, rrs: seq<RR>) {
    AllPrinted(Plain(c.header), rrs)
  }

  /** Reading the printed record, if it reads, keeps owner, type and TTL; its data may come back changed. */
  predicate KeepsHeader(parse: Parser, r: RR) {
    parse(r.text).Some? ==>
      var back := parse(r.text).value;
      back.name == r.name && back.rtype == r.rtype && back.ttl == r.ttl
  }

  /** Records have the owner, type and TTL they were built with, and show it. What was read reads back as
      itself, and so does what NewRR gave; the two literals, whose names may be relative, keep their header. */
  ghost predicate Sound(c: Codec) {
    && (forall zone, line :: c.parse(zone)(line).Some? ==> ReadSound(c, zone, c.parse(zone)(line).value))
    && (forall t, o, ttl, serial :: SOASound(c, o, ttl, c.soa(t, o, ttl, serial)))
    && (forall o, ttl, n :: NSSound(c, o, ttl, c.ns(o, ttl, n)))
    && (forall o, ttl, ty, a :: ty == TYPE_A || ty == TYPE_AAAA ==> AddrSound(c, o, ttl, ty, c.addr(o, ttl, ty, a)))
    && (forall o, ttl, ty, v :: c.custom(o, ttl, ty, v).Some? ==> NewSound(c, c.custom(o, ttl, ty, v).value))
  }

  ghost predicate ReadSound(c: Codec, zone: string, r: RR) {
    Headed(c, r) && Printed(c.parse(zone), r)
  }

  ghost predicate LiteralSound(c: Codec, r: RR) {
    Headed(c, r) && forall zone :: KeepsHeader(c.parse(zone), r)
  }

  ghost predicate SOASound(c: Codec, o: string, ttl: nat, r: RR) {
    LiteralSound(c, r) && At(r, o, TYPE_SOA) && r.ttl == ttl
  }

  ghost predicate NSSound(c: Codec, o: string, ttl: nat, r: RR) {
    LiteralSound(c, r) && At(r, o, TYPE_NS) && r.ttl == ttl
  }

  ghost predicate NewSound(c: Codec, r: RR) {
    Headed(c, r) && forall zone :: Printed(c.parse(zone), r)
  }

  ghost predicate AddrSound(c: Codec, o: string, ttl: nat, ty: nat, r: RR) {
    NewSound(c, r) && At(r, o, ty) && r.ttl == ttl
  }

  datatype Config = Config(codec: Codec, templates: map<string, Template>, defaultTemplate: string)

  /** A site as the provider sees it; names are normalised and `parent` is "" for a root. */
  datatype Input = Input(fqdn: string, parent: string, template: string, ip4: string, ip6: string)

  datatype Faults = Faults(write: bool, checkZone: bool, includeFile: bool, checkConf: bool, reconfig: bool,
          reload: bool)

  type Directory = map<string, ZoneFile>

  function TemplateNamed(cfg: Config, name: string): Template {
    if name in cfg.templates then cfg.templates[name] else Template(0, "", "", [], [])
  }

  /** templateFor. */
  function TemplateFor(cfg: Config, name: string): Template {
    if name != "" && name in cfg.templates then cfg.templates[name] else TemplateNamed(cfg, cfg.defaultTemplate)
  }

  function DefaultTTL(cfg: Config): nat {
    OrDefault(TemplateFor(cfg, cfg.defaultTemplate).ttl, 3600)
  }

  // ---------------------------------------------------------------- records of a root zone

  function EnsureAll(rrs: seq<RR>, wanted: seq<RR>): seq<RR> {
    if wanted == [] then rrs else Ensure(EnsureAll(rrs, wanted[..|wanted| - 1]), wanted[|wanted| - 1])
  }

  function Nameservers(c: Codec, origin: string, ttl: nat, ns: seq<string>): seq<RR> {
    seq(|ns|, i requires 0 <= i < |ns| => c.ns(origin, ttl, ns[i]))
  }

  function Addresses(c: Codec, owner: string, ttl: nat, ip4: string, ip6: string): seq<RR> {
    (if ip4 != "" then [c.addr(owner, ttl, TYPE_A, ip4)] else [])
    + (if ip6 != "" then [c.addr(owner, ttl, TYPE_AAAA, ip6)] else [])
  }

  function CustomRR(c: Codec, zone: string, ttl: nat, rec: RecordTemplate): Option<RR> {
    c.custom(if rec.name == "@" || rec.name == "" then zone + "." else rec.name + "." + zone + ".",
             OrDefault(rec.ttl, ttl), rec.rtype, rec.value)
  }

  /** Template records that do not parse are skipped. */
  function Customs(c: Codec, zone: string, ttl: nat, recs: seq<RecordTemplate>): seq<RR> {
    if recs == [] then []
    else
      var r := CustomRR(c, zone, ttl, recs[|recs| - 1]);
      Customs(c, zone, ttl, recs[..|recs| - 1]) + (if r.Some? then [r.value] else [])
  }

  function Wanted(c: Codec, zone: string, ttl: nat, t: Template, i: Input): seq<RR> {
    Nameservers(c, zone + ".", ttl, t.nameservers) + Addresses(c, zone + ".", ttl, i.ip4, i.ip6)
    + Customs(c, zone, ttl, t.records)
  }

  /** ensureRootRecords on the record list. */
  function RootRecords(c: Codec, zone: string, ttl: nat, t: Template, i: Input, serial: nat, rrs: seq<RR>): seq<RR> {
    EnsureAll(Ensure(Without(rrs, zone + ".", TYPE_SOA), c.soa(t, zone + ".", ttl, serial)), Wanted(c, zone, ttl, t, i))
  }

  /** The zone to start from: the file, or a new zone; None when the file does not parse. */
  function RootZone(cfg: Config, dir: Directory, zone: string, t: Template): Option<ZoneModel> {
    if zone in dir then Load(cfg.codec.parse(zone), dir[zone], t.ttl) else Some(ZoneModel(OrDefault(t.ttl, 3600), []))
  }

  function RootFile(cfg: Config, i: Input, serial: nat, z: ZoneModel): ZoneFile {
    var t := TemplateFor(cfg, i.template);
    Write(i.fqdn, ZoneModel(z.ttl, RootRecords(cfg.codec, i.fqdn, z.ttl, t, i, serial, z.rrs)))
  }

  // ---------------------------------------------------------------- records of a subdomain

  function ParentZone(cfg: Config, dir: Directory, parent: string): Option<ZoneModel> {
    if parent in dir then Load(cfg.codec.parse(parent), dir[parent], DefaultTTL(cfg)) else None
  }

  function SubAdded(c: Codec, z: ZoneModel, i: Input): ZoneModel {
    ZoneModel(z.ttl, EnsureAll(z.rrs, Addresses(c, i.fqdn + ".", z.ttl, i.ip4, i.ip6)))
  }

  function SubRemoved(z: ZoneModel, fqdn: string): ZoneModel {
    ZoneModel(z.ttl, Without(Without(z.rrs, fqdn + ".", TYPE_A), fqdn + ".", TYPE_AAAA))
  }

  datatype Status = Zone | Record | Missing | ParseError

  predicate HasAddress(rrs: seq<RR>, fqdn: string) {
    exists k :: 0 <= k < |rrs| && (At(rrs[k], fqdn + ".", TYPE_A) || At(rrs[k], fqdn + ".", TYPE_AAAA))
  }

  /** The status of GetSiteEntry. */
  function StatusOf(cfg: Config, dir: Directory, i: Input): Status {
    var zone := if i.parent == "" then i.fqdn else i.parent;
    if zone !in dir then Missing
    else
      var z := Load(cfg.codec.parse(zone), dir[zone], DefaultTTL(cfg));
      if z.None? then ParseError
      else if i.parent == "" then Zone
      else if HasAddress(z.value.rrs, i.fqdn) then Record else Missing
  }

  lemma EnsureAllAppend(rrs: seq<RR>, a: seq<RR>, b: seq<RR>)
    ensures EnsureAll(rrs, a + b) == EnsureAll(EnsureAll(rrs, a), b)
    decreases |b|
  {
    if b == [] {
      assert a + b == a;
    } else {
      assert (a + b)[..|a + b| - 1] == a + b[..|b| - 1];
      EnsureAllAppend(rrs, a, b[..|b| - 1]);
    }
  }

  lemma EnsureAllOne(rrs: seq<RR>, r: RR)
    ensures EnsureAll(rrs, [r]) == Ensure(rrs, r)
  {
    assert EnsureAll(rrs, [r][..0]) == rrs;
  }

  // ---------------------------------------------------------------- the provider

  class Provider {
    const cfg: Config
    var dir: Directory
    var included: seq<string>       // the zones listed in the generated named.conf include

    constructor (cfg: Config)
      ensures this.cfg == cfg && dir == map[] && included == []
    {
      this.cfg, dir, included := cfg, map[], [];
    }

    /** writeIncludeFile: the sorted image of the zones directory. */
    method WriteIncludeFile()
      modifies this`included
      ensures included == Listing(dir.Keys)
    {
      included := SortKeys(dir.Keys);
      ListingUnique(included, Listing(dir.Keys), dir.Keys);
    }

    method EnsureAddresses(rrs: seq<RR>, owner: string, ttl: nat, i: Input) returns (out: seq<RR>)
      ensures out == EnsureAll(rrs, Addresses(cfg.codec, owner, ttl, i.ip4, i.ip6))
    {
      out := rrs;
      ghost var done: seq<RR> := [];
      if i.ip4 != "" {
        EnsureAllOne(out, cfg.codec.addr(owner, ttl, TYPE_A, i.ip4));
        out := EnsureRR(out, cfg.codec.addr(owner, ttl, TYPE_A, i.ip4));
        done := [cfg.codec.addr(owner, ttl, TYPE_A, i.ip4)];
      }
      if i.ip6 != "" {
        EnsureAllOne(out, cfg.codec.addr(owner, ttl, TYPE_AAAA, i.ip6));
        EnsureAllAppend(rrs, done, [cfg.codec.addr(owner, ttl, TYPE_AAAA, i.ip6)]);
        out := EnsureRR(out, cfg.codec.addr(owner, ttl, TYPE_AAAA, i.ip6));
        done := done + [cfg.codec.addr(owner, ttl, TYPE_AAAA, i.ip6)];
      }
      assert done == Addresses(cfg.codec, owner, ttl, i.ip4, i.ip6);
    }

    method EnsureNameservers(rrs: seq<RR>, origin: string, ttl: nat, ns: seq<string>) returns (out: seq<RR>)
      ensures out == EnsureAll(rrs, Nameservers(cfg.codec, origin, ttl, ns))
    {
      out := rrs;
      for k := 0 to |ns|
        invariant out == EnsureAll(rrs, Nameservers(cfg.codec, origin, ttl, ns[..k]))
      {
        var nsRR := cfg.codec.ns(origin, ttl, ns[k]);
        EnsureAllOne(out, nsRR);
        EnsureAllAppend(rrs, Nameservers(cfg.codec, origin, ttl, ns[..k]), [nsRR]);
        assert Nameservers(cfg.codec, origin, ttl, ns[..k + 1])
            == Nameservers(cfg.codec, origin, ttl, ns[..k]) + [nsRR];
        out := EnsureRR(out, nsRR);
      }
      assert ns[..|ns|] == ns;
    }

    method EnsureCustoms(rrs: seq<RR>, zone: string, ttl: nat, recs: seq<RecordTemplate>) returns (out: seq<RR>)
      ensures out == EnsureAll(rrs, Customs(cfg.codec, zone, ttl, recs))
    {
      out := rrs;
      for k := 0 to |recs|
        invariant out == EnsureAll(rrs, Customs(cfg.codec, zone, ttl, recs[..k]))
      {
        assert recs[..k + 1][..k] == recs[..k];
        var rr := CustomRR(cfg.codec, zone, ttl, recs[k]);
        if rr.Some? {
          EnsureAllOne(out, rr.value);
          EnsureAllAppend(rrs, Customs(cfg.codec, zone, ttl, recs[..k]), [rr.value]);
          out := EnsureRR(out, rr.value);
        } else {
          assert Customs(cfg.codec, zone, ttl, recs[..k]) + [] == Customs(cfg.codec, zone, ttl, recs[..k]);
        }
      }
      assert recs[..|recs|] == recs;
    }

    /** ensureRootRecords. */
    method EnsureRootRecords(rrs: seq<RR>, zone: string, ttl: nat, t: Template, i: Input, serial: nat)
          returns (out: seq<RR>)
      ensures out == RootRecords(cfg.codec, zone, ttl, t, i, serial, rrs)
    {
      var origin := zone + ".";
      out := Remove(rrs, origin, TYPE_SOA);
      out := EnsureRR(out, cfg.codec.soa(t, origin, ttl, serial));
      ghost var base, n, a, c := out, Nameservers(cfg.codec, origin, ttl, t.nameservers),
          Addresses(cfg.codec, origin, ttl, i.ip4, i.ip6), Customs(cfg.codec, zone, ttl, t.records);
      out := EnsureNameservers(out, origin, ttl, t.nameservers);
      out := EnsureAddresses(out, origin, ttl, i);
      out := EnsureCustoms(out, zone, ttl, t.records);
      EnsureAllAppend(base, n, a);
      EnsureAllAppend(base, n + a, c);
    }

    /** EnsureRootSite. A failed check or reload comes after the zone file was replaced. */
    method EnsureRootSite(i: Input, serial: nat, f: Faults) returns (ok: bool)
      modifies this
      ensures var z := RootZone(cfg, old(dir), i.fqdn, TemplateFor(cfg, i.template));
        && dir == (if i.fqdn != "" && z.Some? && f.write then old(dir)[i.fqdn := RootFile(cfg, i, serial, z.value)]
                   else old(dir))
        && (ok <==> i.fqdn != "" && z.Some? && f == Faults(true, true, true, true, true, true))
      ensures ok ==> included == Listing(dir.Keys)
    {
      if i.fqdn == "" { return false; }
      var t := TemplateFor(cfg, i.template);
      var z := RootZone(cfg, dir, i.fqdn, t);
      if z.None? { return false; }
      var rrs := EnsureRootRecords(z.value.rrs, i.fqdn, z.value.ttl, t, i, serial);
      if !f.write { return false; }
      dir := dir[i.fqdn := Write(i.fqdn, ZoneModel(z.value.ttl, rrs))];
      if !f.checkZone || !f.includeFile { return false; }
      WriteIncludeFile();
      return f.checkConf && f.reconfig && f.reload;
    }

    /** EnsureSubdomainSite: the parent zone must exist. */
    method EnsureSubdomainSite(i: Input, f: Faults) returns (ok: bool)
      modifies this`dir
      ensures
        var z := ParentZone(cfg, old(dir), i.parent);
        && dir == (if i.fqdn != "" && i.parent != "" && z.Some? && f.write then
                     old(dir)[i.parent := Write(i.parent, SubAdded(cfg.codec, z.value, i))]
                   else old(dir))
        && (ok <==> i.fqdn != "" && i.parent != "" && z.Some? && f.write && f.checkZone && f.reload)
    {
      if i.fqdn == "" || i.parent == "" || i.parent !in dir { return false; }
      var z := Load(cfg.codec.parse(i.parent), dir[i.parent], DefaultTTL(cfg));
      if z.None? { return false; }
      var rrs := EnsureAddresses(z.value.rrs, i.fqdn + ".", z.value.ttl, i);
      if !f.write { return false; }
      dir := dir[i.parent := Write(i.parent, ZoneModel(z.value.ttl, rrs))];
      return f.checkZone && f.reload;
    }

    /** DeleteSubdomainSite: a missing zone is fine. */
    method DeleteSubdomainSite(i: Input, f: Faults) returns (ok: bool)
      modifies this`dir
      ensures
        var z := ParentZone(cfg, old(dir), i.parent);
        && dir == (if z.Some? && f.write then old(dir)[i.parent := Write(i.parent, SubRemoved(z.value, i.fqdn))]
                   else old(dir))
        && (ok <==> i.parent !in old(dir) || (z.Some? && f.write && f.checkZone && f.reload))
    {
      if i.parent !in dir { return true; }
      var z := Load(cfg.codec.parse(i.parent), dir[i.parent], DefaultTTL(cfg));
      if z.None? { return false; }
      var rrs := Remove(z.value.rrs, i.fqdn + ".", TYPE_A);
      rrs := Remove(rrs, i.fqdn + ".", TYPE_AAAA);
      if !f.write { return false; }
      dir := dir[i.parent := Write(i.parent, ZoneModel(z.value.ttl, rrs))];
      return f.checkZone && f.reload;
    }

    method DeleteRootSite(i: Input, f: Faults) returns (ok: bool)
      modifies this
      ensures dir == if f.write then old(dir) - {i.fqdn} else old(dir)
      ensures ok <==> f.write && f.includeFile && f.checkConf && f.reconfig
      ensures ok ==> included == Listing(dir.Keys)
    {
      if !f.write { return false; }
      dir := dir - {i.fqdn};
      if !f.includeFile { return false; }
      WriteIncludeFile();
      return f.checkConf && f.reconfig;
    }

    /** GetSiteEntry: it counts the address records at the name. */
    method GetSiteEntry(i: Input) returns (status: Status)
      ensures status == StatusOf(cfg, dir, i)
    {
      var zone := if i.parent == "" then i.fqdn else i.parent;
      if zone !in dir { return Missing; }
      var z := Load(cfg.codec.parse(zone), dir[zone], DefaultTTL(cfg));
      if z.None? { return ParseError; }
      if i.parent == "" { return Zone; }
      var rrs := z.value.rrs;
      var a, aaaa := 0, 0;
      for k := 0 to |rrs|
        invariant 0 <= a && 0 <= aaaa
        invariant a + aaaa == 0 <==> !HasAddress(rrs[..k], i.fqdn)
      {
        assert HasAddress(rrs[..k + 1], i.fqdn) <==>
          HasAddress(rrs[..k], i.fqdn) || At(rrs[k], i.fqdn + ".", TYPE_A) || At(rrs[k], i.fqdn + ".", TYPE_AAAA) by {
          AddressPrefix(rrs, k, i.fqdn);
        }
        if rrs[k].name == i.fqdn + "." {
          if rrs[k].rtype == TYPE_A { a := a + 1; } else if rrs[k].rtype == TYPE_AAAA { aaaa := aaaa + 1; }
        }
      }
      assert rrs[..|rrs|] == rrs;
      return if a == 0 && aaaa == 0 then Missing else Record;
    }
  }

  lemma AddressPrefix(rrs: seq<RR>, k: nat, fqdn: string)
    requires k < |rrs|
    ensures HasAddress(rrs[..k + 1], fqdn) <==>
      HasAddress(rrs[..k], fqdn) || At(rrs[k], fqdn + ".", TYPE_A) || At(rrs[k], fqdn + ".", TYPE_AAAA)
  {
    var a, b := rrs[..k], rrs[..k + 1];
    assert b[k] == rrs[k];
    if HasAddress(a, fqdn) {
      var j :| 0 <= j < |a| && (At(a[j], fqdn + ".", TYPE_A) || At(a[j], fqdn + ".", TYPE_AAAA));
      assert b[j] == a[j];
    }
    if HasAddress(b, fqdn) {
      var j :| 0 <= j < |b| && (At(b[j], fqdn + ".", TYPE_A) || At(b[j], fqdn + ".", TYPE_AAAA));
      if j < k { assert a[j] == b[j]; }
    }
  }
}
