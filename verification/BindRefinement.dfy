/** A codec as the BIND theorems assume it, and the provider as the lifecycle uses it: the addresses in the
    zone files follow the managed names of the lifecycle's zone map. */
module BindRefinement {
  import opened Text
  import opened ZoneFiles
  import opened BindProvider
  import opened BindProofs
  import opened BindSettles
  import opened BindOutcomes
  import Lifecycle

  // ---------------------------------------------------------------- a codec

  function Number(n: nat): string {
    if n == 0 then "," else "1" + Number(n - 1)
  }

  function ReadNumber(s: string): Option<(nat, string)> {
    if s == [] then None
    else if s[0] == ',' then Some((0, s[1..]))
    else if s[0] != '1' then None
    else
      var rest := ReadNumber(s[1..]);
      if rest.None? then None else Some((rest.value.0 + 1, rest.value.1))
  }

  lemma {:induction false} ReadBack(n: nat, rest: string)
    ensures ReadNumber(Number(n) + rest) == Some((n, rest))
    decreases n
  {
    if n == 0 {
      assert (Number(n) + rest)[1..] == rest;
    } else {
      ReadBack(n - 1, rest);
      assert (Number(n) + rest)[1..] == Number(n - 1) + rest;
    }
  }

  function Encoded(name: string, rtype: nat, ttl: nat, data: string): RR {
    RR(name, rtype, ttl, Number(rtype) + (Number(ttl) + (Number(|name|) + (name + data))))
  }

  function ReadRecord(line: string): Option<RR> {
    var rtype := ReadNumber(line);
    if rtype.None? then None
    else
      var ttl := ReadNumber(rtype.value.1);
      if ttl.None? then None
      else
        var size := ReadNumber(ttl.value.1);
        if size.None? || |size.value.1| < size.value.0 then None
        else Some(RR(size.value.1[..size.value.0], rtype.value.0, ttl.value.0, line))
  }

  lemma RecordReadsBack(name: string, rtype: nat, ttl: nat, data: string)
    ensures Printed(ReadRecord, Encoded(name, rtype, ttl, data))
    ensures At(Encoded(name, rtype, ttl, data), name, rtype) && Encoded(name, rtype, ttl, data).ttl == ttl
  {
    hide Number, ReadNumber;
    ReadBack(rtype, Number(ttl) + (Number(|name|) + (name + data)));
    ReadBack(ttl, Number(|name|) + (name + data));
    ReadBack(|name|, name + data);
  }

  /** In a zone file a name server without the final dot is read as a name in the zone. */
  function ReadIn(zone: string, line: string): Option<RR> {
    var r := ReadRecord(line);
    if r.Some? && r.value.rtype == TYPE_NS && line[|line| - 1..] != "." then
      Some(r.value.(text := line + ("." + zone + ".")))
    else r
  }

  lemma {:induction false} NumberGoesOn(s: string, x: string)
    requires ReadNumber(s).Some?
    ensures ReadNumber(s + x) == Some((ReadNumber(s).value.0, ReadNumber(s).value.1 + x))
    decreases |s|
  {
    assert (s + x)[1..] == s[1..] + x;
    if s[0] != ',' { NumberGoesOn(s[1..], x); }
  }

  lemma RecordGoesOn(line: string, x: string)
    requires ReadRecord(line).Some?
    ensures line != "" && ReadRecord(line + x) == Some(ReadRecord(line).value.(text := line + x))
  {
    hide ReadNumber;
    NotEmpty(line);
    var rtype := ReadNumber(line).value;
    var ttl := ReadNumber(rtype.1).value;
    var size := ReadNumber(ttl.1).value;
    NumberGoesOn(line, x);
    NumberGoesOn(rtype.1, x);
    NumberGoesOn(ttl.1, x);
    assert (size.1 + x)[..size.0] == size.1[..size.0];
  }

  lemma NotEmpty(s: string)
    ensures ReadNumber(s).Some? ==> s != ""
  {
  }

  function HeaderOf(text: string): Header {
    var r := ReadRecord(text);
    if r.Some? then Header(r.value.name, r.value.rtype, r.value.ttl) else Header("", 0, 0)
  }

  function TextCodec(): Codec {
    Codec(HeaderOf,
          (zone: string) => (line: string) => ReadIn(zone, line),
          (t: Template, o: string, ttl: nat, serial: nat) => Encoded(o, TYPE_SOA, ttl, Number(serial)),
          (o: string, ttl: nat, n: string) => Encoded(o, TYPE_NS, ttl, n),
          (o: string, ttl: nat, ty: nat, a: string) => Encoded(o, ty, ttl, a),
          (o: string, ttl: nat, ty: string, v: string) => if ty == "A" then Some(Encoded(o, TYPE_A, ttl, v)) else None)
  }

  /** The assumption on printing and reading records can be met, with distinct texts for distinct serials,
      name servers and addresses, and with name servers that do not read back as themselves. */
  lemma TextCodecIsSound()
    ensures Sound(TextCodec())
  {
    hide Encoded, ReadRecord, Number, ReadSound, SOASound, NSSound, AddrSound, NewSound;
    var c := TextCodec();
    forall zone, line | c.parse(zone)(line).Some? ensures ReadSound(c, zone, c.parse(zone)(line).value) {
      ReadTwice(zone, line);
    }
    forall t, o, ttl, serial ensures SOASound(c, o, ttl, c.soa(t, o, ttl, serial)) {
      LiteralsAreSound(o, ttl, Number(serial));
    }
    forall o, ttl, n ensures NSSound(c, o, ttl, c.ns(o, ttl, n)) { LiteralsAreSound(o, ttl, n); }
    forall o, ttl, ty, a | ty == TYPE_A || ty == TYPE_AAAA ensures AddrSound(c, o, ttl, ty, c.addr(o, ttl, ty, a)) {
      AddressIsSound(o, ttl, ty, a);
    }
    forall o, ttl, ty, v | c.custom(o, ttl, ty, v).Some? ensures NewSound(c, c.custom(o, ttl, ty, v).value) {
      AddressIsSound(o, ttl, TYPE_A, v);
    }
  }

  lemma ReadInKeeps(zone: string, line: string)
    requires ReadRecord(line).Some?
    ensures var r, back := ReadRecord(line).value, ReadIn(zone, line);
      && r.text == line && back.Some?
      && back.value.name == r.name && back.value.rtype == r.rtype && back.value.ttl == r.ttl
      && (r.rtype != TYPE_NS ==> back == Some(r))
  {
    hide ReadNumber;
  }

  lemma ReadTwice(zone: string, line: string)
    requires ReadIn(zone, line).Some?
    ensures ReadSound(TextCodec(), zone, ReadIn(zone, line).value)
  {
    hide ReadIn, ReadRecord;
    ReadInAgain(zone, line);
    var c, r := TextCodec(), ReadIn(zone, line).value;
    assert c.parse(zone)(r.text) == ReadIn(zone, r.text);
    assert c.header(r.text) == HeaderOf(r.text);
    assert Headed(c, r);
  }

  lemma ReadInAgain(zone: string, line: string)
    requires ReadIn(zone, line).Some?
    ensures var r := ReadIn(zone, line).value; ReadRecord(r.text) == Some(r) && ReadIn(zone, r.text) == Some(r)
  {
    hide ReadRecord;
    ReadRecordText(line);
    RecordGoesOn(line, "." + zone + ".");
    EndsInDot(line, zone);
  }

  lemma ReadRecordText(line: string)
    ensures ReadRecord(line).Some? ==> ReadRecord(line).value.text == line
  {
    hide ReadNumber;
  }

  lemma EndsInDot(line: string, zone: string)
    ensures var s := line + ("." + zone + "."); s != "" && s[|s| - 1..] == "."
  {
  }

  /** A record built by the codec shows its header, reads back with it in every zone, and as itself unless it is a
      name server. */
  lemma EncodedIsSound(o: string, ty: nat, ttl: nat, data: string)
    ensures var c, r := TextCodec(), Encoded(o, ty, ttl, data);
      && Headed(c, r) && At(r, o, ty) && r.ttl == ttl
      && (forall zone :: KeepsHeader(c.parse(zone), r))
      && (ty != TYPE_NS ==> forall zone :: Printed(c.parse(zone), r))
  {
    hide ReadRecord, Encoded, ReadIn;
    var c, r := TextCodec(), Encoded(o, ty, ttl, data);
    RecordReadsBack(o, ty, ttl, data);
    assert c.header(r.text) == HeaderOf(r.text);
    forall zone ensures KeepsHeader(c.parse(zone), r) && (ty != TYPE_NS ==> Printed(c.parse(zone), r)) {
      ReadInKeeps(zone, r.text);
      assert c.parse(zone)(r.text) == ReadIn(zone, r.text);
    }
  }

  lemma LiteralsAreSound(o: string, ttl: nat, data: string)
    ensures SOASound(TextCodec(), o, ttl, Encoded(o, TYPE_SOA, ttl, data))
    ensures NSSound(TextCodec(), o, ttl, Encoded(o, TYPE_NS, ttl, data))
  {
    hide Encoded, TextCodec, Headed, KeepsHeader, Printed;
    EncodedIsSound(o, TYPE_SOA, ttl, data);
    EncodedIsSound(o, TYPE_NS, ttl, data);
  }

  lemma AddressIsSound(o: string, ttl: nat, ty: nat, data: string)
    requires ty == TYPE_A || ty == TYPE_AAAA
    ensures AddrSound(TextCodec(), o, ttl, ty, Encoded(o, ty, ttl, data))
    ensures NewSound(TextCodec(), Encoded(o, ty, ttl, data))
  {
    hide Encoded, TextCodec, Headed, KeepsHeader, Printed;
    EncodedIsSound(o, ty, ttl, data);
  }

  // ---------------------------------------------------------------- the zone map behind the files

  function RecordsOf(c: Codec, dir: Directory, p: string): Option<seq<RR>> {
    if p in dir then ParseAll(c.parse(p), dir[p].lines) else None
  }

  /** The zones of the lifecycle are the zone files. In each of them exactly the managed names have an
      address, besides those that the provider's templates put there (`own`). */
  ghost predicate Follows(c: Codec, dir: Directory, z: Lifecycle.Zones, own: map<string, set<string>>) {
    && dir.Keys == z.Keys == own.Keys
    && forall p :: p in z ==> ZoneFollows(c, dir, p, z[p], own[p])
  }

  ghost predicate ZoneFollows(c: Codec, dir: Directory, p: string, managed: set<string>, own: set<string>) {
    RecordsOf(c, dir, p).Some? && forall e :: HasAddress(RecordsOf(c, dir, p).value, e) <==> e in managed || e in own
  }

  /** The names that records give an address. */
  function Addressed(rrs: seq<RR>): set<string> {
    set r | r in rrs && (r.rtype == TYPE_A || r.rtype == TYPE_AAAA) && r.name != "" && r.name[|r.name| - 1] == '.' ::
      r.name[..|r.name| - 1]
  }

  lemma AddressedAre(rrs: seq<RR>, e: string)
    ensures e in Addressed(rrs) <==> HasAddress(rrs, e)
  {
    if HasAddress(rrs, e) {
      var k :| 0 <= k < |rrs| && (At(rrs[k], e + ".", TYPE_A) || At(rrs[k], e + ".", TYPE_AAAA));
      assert rrs[k] in rrs && (e + ".")[..|e|] == e;
    }
    if e in Addressed(rrs) {
      var r :| r in rrs && (r.rtype == TYPE_A || r.rtype == TYPE_AAAA) && r.name != "" && r.name[|r.name| - 1] == '.' &&
          r.name[..|r.name| - 1] == e;
      assert r.name == e + ".";
      var k :| 0 <= k < |rrs| && rrs[k] == r;
    }
  }

  /** A written file whose records can be read holds the addresses of its records. */
  lemma WrittenAddresses(c: Codec, p: string, z: ZoneModel, dir: Directory, e: string)
    requires p in dir && dir[p] == Write(p, z)
    requires forall r :: r in z.rrs ==> Reads(c.parse(p), r) && KeepsHeader(c.parse(p), r)
    ensures RecordsOf(c, dir, p).Some? && (HasAddress(RecordsOf(c, dir, p).value, e) <==> HasAddress(z.rrs, e))
  {
    hide HasAddress, Ordered, Reads, KeepsHeader, SameHeaders;
    OrderedIsSort(z.rrs);
    SameMembers(z.rrs);
    ParseAllReads(c.parse(p), Ordered(z.rrs));
    HeadersComeBack(c.parse(p), Ordered(z.rrs), RecordsOf(c, dir, p).value);
    SameAddress(Ordered(z.rrs), z.rrs, e);
    SameHeadersAddress(Ordered(z.rrs), RecordsOf(c, dir, p).value, e);
  }

  lemma SameHeadersAddress(a: seq<RR>, b: seq<RR>, e: string)
    requires SameHeaders(a, b)
    ensures HasAddress(a, e) <==> HasAddress(b, e)
  {
  }

  lemma AllPrintedKeep(parse: Parser, rrs: seq<RR>)
    requires AllPrinted(parse, rrs)
    ensures forall r :: r in rrs ==> Reads(parse, r) && KeepsHeader(parse, r)
  {
    hide Reads, KeepsHeader;
    forall r | r in rrs ensures Reads(parse, r) && KeepsHeader(parse, r) { PrintedKeeps(parse, r); }
  }

  /** The SOA and the name servers of the template can be read in the zone; so can, always, all other records. */
  ghost predicate TemplateReads(cfg: Config, i: Input) {
    var t, c, o, parse := TemplateFor(cfg, i.template), cfg.codec, i.fqdn + ".", cfg.codec.parse(i.fqdn);
    && (forall ttl, serial :: Reads(parse, c.soa(t, o, ttl, serial)))
    && (forall ttl :: AllRead(parse, Nameservers(c, o, ttl, t.nameservers)))
  }

  lemma RootAddresses(c: Codec, zone: string, ttl: nat, t: Template, i: Input, serial: nat, rrs: seq<RR>, e: string)
    requires Sound(c) && AllHeaded(c, rrs)
    ensures HasAddress(RootRecords(c, zone, ttl, t, i, serial, rrs), e)
      <==> HasAddress(rrs, e) || e in Addressed(Wanted(c, zone, ttl, t, i))
  {
    hide RootRecords, Without, HasAddress, Wanted, Addressed, Sound, AllHeaded;
    var out, wanted, soa := RootRecords(c, zone, ttl, t, i, serial, rrs), Wanted(c, zone, ttl, t, i),
        c.soa(t, zone + ".", ttl, serial);
    RootRecordsAre(c, zone, ttl, t, i, serial, rrs);
    AddressedAre(wanted, e);
    SOAIsNoAddress(c, t, zone + ".", ttl, serial);
    WithoutMembers(rrs, zone + ".", TYPE_SOA);
    if HasAddress(rrs, e) { RootKeepsAddresses(c, zone, ttl, t, i, serial, rrs, e); }
    if HasAddress(wanted, e) { AddressKept(wanted, out, e); }
    if HasAddress(out, e) {
      FindAddress(out, e);
      var r :| r in out && (At(r, e + ".", TYPE_A) || At(r, e + ".", TYPE_AAAA));
      if r in wanted {
        AddressFound(wanted, r, e);
      } else {
        assert multiset(Without(rrs, zone + ".", TYPE_SOA))[r] > 0;
        AddressFound(rrs, r, e);
      }
    }
  }

  lemma SOAIsNoAddress(c: Codec, t: Template, o: string, ttl: nat, serial: nat)
    requires Sound(c)
    ensures c.soa(t, o, ttl, serial).rtype == TYPE_SOA
  {
    SOAIsAtApex(c, t, o, ttl, serial);
  }

  lemma FindAddress(rrs: seq<RR>, e: string)
    requires HasAddress(rrs, e)
    ensures exists r :: r in rrs && (At(r, e + ".", TYPE_A) || At(r, e + ".", TYPE_AAAA))
  {
  }

  lemma AddressFound(rrs: seq<RR>, r: RR, e: string)
    requires r in rrs && (At(r, e + ".", TYPE_A) || At(r, e + ".", TYPE_AAAA))
    ensures HasAddress(rrs, e)
  {
  }

  lemma SubAddresses(c: Codec, z: ZoneModel, i: Input, e: string)
    requires Sound(c) && AllPrinted(c.parse(i.parent), z.rrs)
    ensures var out := SubAdded(c, z, i).rrs;
      AllPrinted(c.parse(i.parent), out) &&
        (HasAddress(out, e) <==> HasAddress(z.rrs, e) || (e == i.fqdn && (i.ip4 != "" || i.ip6 != "")))
  {
    hide HasAddress, EnsureAll, Addresses, Sound, AllHeaded;
    var addrs := Addresses(c, i.fqdn + ".", z.ttl, i.ip4, i.ip6);
    PrintedIsSound(c, i.parent, z.rrs);
    AddressesSound(c, i.parent, i.fqdn + ".", z.ttl, i.ip4, i.ip6);
    EnsureAllGrows(c, z, i, addrs);
    EnsureAllFacts(c.parse(i.parent), z.rrs, addrs);
    OthersUntouched(c, "", z.ttl, Template(0, "", "", [], []), i, 0, z.rrs, e);
    if e != i.fqdn && HasAddress(EnsureAll(z.rrs, addrs), e) {
      EnsureAllTail(z.rrs, addrs);
      DotInjective(e, i.fqdn);
      var out := EnsureAll(z.rrs, addrs);
      FindAddressAt(out, e);
      var k :| 0 <= k < |out| && (At(out[k], e + ".", TYPE_A) || At(out[k], e + ".", TYPE_AAAA));
      assert z.rrs[k] == out[k];
      AddressFound(z.rrs, out[k], e);
    }
  }

  lemma FindAddressAt(rrs: seq<RR>, e: string)
    requires HasAddress(rrs, e)
    ensures exists k :: 0 <= k < |rrs| && (At(rrs[k], e + ".", TYPE_A) || At(rrs[k], e + ".", TYPE_AAAA))
  {
  }

  // ---------------------------------------------------------------- the calls of the lifecycle

  lemma LoadedRecords(c: Codec, dir: Directory, p: string, fallback: nat)
    requires Sound(c) && p in dir
    ensures Load(c.parse(p), dir[p], fallback).Some? <==> RecordsOf(c, dir, p).Some?
    ensures RecordsOf(c, dir, p).Some? ==> Load(c.parse(p), dir[p], fallback).value.rrs == RecordsOf(c, dir, p).value
    ensures RecordsOf(c, dir, p).Some? ==> AllPrinted(c.parse(p), RecordsOf(c, dir, p).value)
  {
    if RecordsOf(c, dir, p).Some? { ParsedPrinted(c, p, dir[p].lines); }
  }

  /** Writing one zone file is judged on that zone alone. */
  lemma OneZone(c: Codec, dir: Directory, z: Lifecycle.Zones, own: map<string, set<string>>, p: string, file: ZoneFile,
          m: set<string>, o: set<string>)
    requires Follows(c, dir, z, own) && ZoneFollows(c, dir[p := file], p, m, o)
    ensures Follows(c, dir[p := file], z[p := m], own[p := o])
  {
    hide HasAddress;
    forall q | q in z && q != p ensures ZoneFollows(c, dir[p := file], q, z[q], own[q]) {
      assert ZoneFollows(c, dir, q, z[q], own[q]);
    }
  }

  /** The names that the template, and the default addresses, give an address in a root zone. */
  function OwnNames(cfg: Config, dir: Directory, i: Input): set<string> {
    var t := TemplateFor(cfg, i.template);
    var z := RootZone(cfg, dir, i.fqdn, t);
    if z.None? then {} else Addressed(Wanted(cfg.codec, i.fqdn, z.value.ttl, t, i))
  }

  function At0(m: map<string, set<string>>, p: string): set<string> {
    if p in m then m[p] else {}
  }

  lemma RootFollows(cfg: Config, dir: Directory, z: Lifecycle.Zones, own: map<string, set<string>>, i: Input,
          serial: nat)
    requires Sound(cfg.codec) && Follows(cfg.codec, dir, z, own) && TemplateReads(cfg, i)
    ensures var zone := RootZone(cfg, dir, i.fqdn, TemplateFor(cfg, i.template));
      zone.Some? &&
        Follows(cfg.codec, dir[i.fqdn := RootFile(cfg, i, serial, zone.value)], Lifecycle.EnsureRoot(z, i.fqdn),
            own[i.fqdn := At0(own, i.fqdn) + OwnNames(cfg, dir, i)])
  {
    hide HasAddress, RootRecords, Wanted, Addressed, Sound, Load, Write, AllHeaded, Reads, KeepsHeader, Nameservers;
    var c, t, p := cfg.codec, TemplateFor(cfg, i.template), i.fqdn;
    if p in dir {
      assert ZoneFollows(c, dir, p, z[p], own[p]);
      LoadedRecords(c, dir, p, t.ttl);
    }
    var zone := RootZone(cfg, dir, p, t).value;
    var o := At0(own, p) + OwnNames(cfg, dir, i);
    var managed := At0(z, p);
    var dir' := dir[p := RootFile(cfg, i, serial, zone)];
    var out := ZoneModel(zone.ttl, RootRecords(c, p, zone.ttl, t, i, serial, zone.rrs));
    NoRecords(c.parse(p), "");
    PrintedIsSound(c, p, zone.rrs);
    RecordsOfCall(c, p, zone.ttl, t, i, serial, zone.rrs);
    WrittenAddresses(c, p, out, dir', "");
    forall e
      ensures RecordsOf(c, dir', p).Some? && (HasAddress(RecordsOf(c, dir', p).value, e) <==> e in managed || e in o)
    {
      RootAddresses(c, p, zone.ttl, t, i, serial, zone.rrs, e);
      WrittenAddresses(c, p, out, dir', e);
      NoRecords(c.parse(p), e);
    }
    OneZone(c, dir, z, own, p, RootFile(cfg, i, serial, zone), managed, o);
    assert Lifecycle.EnsureRoot(z, p) == z[p := managed];
  }

  lemma NoRecords(parse: Parser, e: string)
    ensures AllPrinted(parse, []) && !HasAddress([], e)
  {
  }

  lemma SubFollows(cfg: Config, dir: Directory, z: Lifecycle.Zones, own: map<string, set<string>>, i: Input)
    requires Sound(cfg.codec) && Follows(cfg.codec, dir, z, own) && i.parent in dir
    ensures var zone := Load(cfg.codec.parse(i.parent), dir[i.parent], DefaultTTL(cfg));
      zone.Some? &&
      var managed := if i.ip4 != "" || i.ip6 != "" then z[i.parent] + {i.fqdn} else z[i.parent];
      Follows(cfg.codec, dir[i.parent := Write(i.parent, SubAdded(cfg.codec, zone.value, i))], z[i.parent := managed],
          own)
  {
    hide HasAddress, SubAdded, Sound, Load, Write, Reads, KeepsHeader;
    var c, p := cfg.codec, i.parent;
    assert ZoneFollows(c, dir, p, z[p], own[p]);
    LoadedRecords(c, dir, p, DefaultTTL(cfg));
    var zone := Load(c.parse(p), dir[p], DefaultTTL(cfg)).value;
    var managed := if i.ip4 != "" || i.ip6 != "" then z[p] + {i.fqdn} else z[p];
    var file := Write(p, SubAdded(c, zone, i));
    SubAddresses(c, zone, i, "");
    AllPrintedKeep(c.parse(p), SubAdded(c, zone, i).rrs);
    WrittenAddresses(c, p, SubAdded(c, zone, i), dir[p := file], "");
    forall e
      ensures (HasAddress(RecordsOf(c, dir[p := file], p).value, e) <==> e in managed || e in own[p])
    {
      SubAddresses(c, zone, i, e);
      WrittenAddresses(c, p, SubAdded(c, zone, i), dir[p := file], e);
    }
    OneZone(c, dir, z, own, p, file, managed, own[p]);
    assert own[p := own[p]] == own && z[p := z[p]] == z;
  }

  lemma RemovedFollows(cfg: Config, dir: Directory, z: Lifecycle.Zones, own: map<string, set<string>>, i: Input)
    requires Sound(cfg.codec) && Follows(cfg.codec, dir, z, own) && i.parent in dir
    ensures var zone := Load(cfg.codec.parse(i.parent), dir[i.parent], DefaultTTL(cfg));
      zone.Some? &&
      Follows(cfg.codec, dir[i.parent := Write(i.parent, SubRemoved(zone.value, i.fqdn))],
          z[i.parent := z[i.parent] - {i.fqdn}],
          own[i.parent := own[i.parent] - {i.fqdn}])
  {
    hide HasAddress, SubRemoved, Sound, Load, Write, Reads, KeepsHeader;
    var c, p := cfg.codec, i.parent;
    assert ZoneFollows(c, dir, p, z[p], own[p]);
    LoadedRecords(c, dir, p, DefaultTTL(cfg));
    var zone := Load(c.parse(p), dir[p], DefaultTTL(cfg)).value;
    var file := Write(p, SubRemoved(zone, i.fqdn));
    RemovedAddresses(c.parse(p), zone, i.fqdn, "");
    AllPrintedKeep(c.parse(p), SubRemoved(zone, i.fqdn).rrs);
    WrittenAddresses(c, p, SubRemoved(zone, i.fqdn), dir[p := file], "");
    forall e
      ensures HasAddress(RecordsOf(c, dir[p := file], p).value, e) <==> e in z[p] - {i.fqdn} || e in own[p] - {i.fqdn}
    {
      RemovedAddresses(c.parse(p), zone, i.fqdn, e);
      WrittenAddresses(c, p, SubRemoved(zone, i.fqdn), dir[p := file], e);
    }
    OneZone(c, dir, z, own, p, file, z[p] - {i.fqdn}, own[p] - {i.fqdn});
  }

  lemma RemovedAddresses(parse: Parser, z: ZoneModel, fqdn: string, e: string)
    requires AllPrinted(parse, z.rrs)
    ensures var out := SubRemoved(z, fqdn).rrs;
      AllPrinted(parse, out) && (HasAddress(out, e) <==> HasAddress(z.rrs, e) && e != fqdn)
  {
    hide HasAddress, Without;
    WithoutPrinted(parse, z.rrs, fqdn + ".", TYPE_A);
    WithoutPrinted(parse, Without(z.rrs, fqdn + ".", TYPE_A), fqdn + ".", TYPE_AAAA);
    if e != fqdn {
      RemovalTakesOwnAddresses(z.ttl, z.rrs, fqdn, e);
    } else {
      NothingLeft(z.rrs, fqdn + ".");
      NoAddressIs(SubRemoved(z, fqdn).rrs, fqdn);
    }
  }

  lemma DroppedFollows(c: Codec, dir: Directory, z: Lifecycle.Zones, own: map<string, set<string>>, p: string)
    requires Follows(c, dir, z, own)
    ensures Follows(c, dir - {p}, z - {p}, own - {p})
  {
    hide HasAddress;
    forall q | q in z && q != p
      ensures ZoneFollows(c, dir - {p}, q, z[q], own[q])
    {
      assert ZoneFollows(c, dir, q, z[q], own[q]);
    }
  }

  /** With a default address the apex has one, in the records read from the file. */
  lemma ApexHasAddress(cfg: Config, dir: Directory, i: Input)
    requires Sound(cfg.codec) && (i.ip4 != "" || i.ip6 != "")
    requires RootZone(cfg, dir, i.fqdn, TemplateFor(cfg, i.template)).Some?
    ensures i.fqdn in OwnNames(cfg, dir, i)
  {
    hide Wanted, Addressed, HasAddress, NewSound, RootZone;
    var c, t, o := cfg.codec, TemplateFor(cfg, i.template), i.fqdn + ".";
    var ttl := RootZone(cfg, dir, i.fqdn, t).value.ttl;
    var a, b := c.addr(o, ttl, TYPE_A, i.ip4), c.addr(o, ttl, TYPE_AAAA, i.ip6);
    assert AddrSound(c, o, ttl, TYPE_A, a) && AddrSound(c, o, ttl, TYPE_AAAA, b);
    WantedIsBrought(c, i.fqdn, ttl, t, i, a);
    WantedIsBrought(c, i.fqdn, ttl, t, i, b);
    if i.ip4 != "" {
      AddressFound(Wanted(c, i.fqdn, ttl, t, i), a, i.fqdn);
    } else {
      AddressFound(Wanted(c, i.fqdn, ttl, t, i), b, i.fqdn);
    }
    AddressedAre(Wanted(c, i.fqdn, ttl, t, i), i.fqdn);
  }

  /** A name of the zone map, or of the template, has an address in the zone file. */
  lemma FollowedHasAddress(c: Codec, dir: Directory, z: Lifecycle.Zones, own: map<string, set<string>>, p: string,
          e: string)
    requires Follows(c, dir, z, own) && p in z && (e in z[p] || e in own[p])
    ensures RecordsOf(c, dir, p).Some? && HasAddress(RecordsOf(c, dir, p).value, e)
  {
    hide HasAddress;
    assert ZoneFollows(c, dir, p, z[p], own[p]);
  }

  const NO_FAULTS := Faults(true, true, true, true, true, true)

  /** What is outside lets the call succeed. */
  predicate Willing(i: Input, f: Faults) {
    if i.parent == "" then f == NO_FAULTS else f.write && f.checkZone && f.reload
  }

  /** The DNS step of SiteAdd and of the restoring in SiteDelete, whatever fails outside: it succeeds, and the
      zone files follow the zone map, as the lifecycle says of a call that may fail before or after writing. */
  method EnsureSite(provider: Provider, lc: Lifecycle.Config, i: Input, serial: nat, f: Faults,
          ghost z: Lifecycle.Zones, ghost own: map<string, set<string>>)
      returns (ok: bool, ghost own': map<string, set<string>>)
    requires Sound(provider.cfg.codec) && Follows(provider.cfg.codec, provider.dir, z, own)
    requires i.fqdn != "" && (lc.hasAddress <==> i.ip4 != "" || i.ip6 != "")
    requires i.parent == "" ==> TemplateReads(provider.cfg, i)
    modifies provider
    ensures ok == Lifecycle.EnsureDns(lc, Willing(i, f), f.write, z, i.fqdn, i.parent).1
    ensures Follows(provider.cfg.codec, provider.dir,
        Lifecycle.EnsureDns(lc, Willing(i, f), f.write, z, i.fqdn, i.parent).0, own')
    ensures own' == if i.parent == "" && f.write then
        own[i.fqdn := At0(own, i.fqdn) + OwnNames(provider.cfg, old(provider.dir), i)] else own
    ensures ok && lc.hasAddress ==>
      var records := RecordsOf(provider.cfg.codec, provider.dir, if i.parent == "" then i.fqdn else i.parent);
      records.Some? && HasAddress(records.value, i.fqdn)
  {
    hide Follows, Sound, Load, Write, RootFile, OwnNames, TemplateReads, HasAddress;
    own' := own;
    FollowsKeys(provider.cfg.codec, provider.dir, z, own);
    if i.parent == "" {
      RootFollows(provider.cfg, provider.dir, z, own, i, serial);
      if f.write { own' := own[i.fqdn := At0(own, i.fqdn) + OwnNames(provider.cfg, provider.dir, i)]; }
      if lc.hasAddress { ApexHasAddress(provider.cfg, provider.dir, i); }
      ok := provider.EnsureRootSite(i, serial, f);
    } else {
      if i.parent in provider.dir {
        SubFollows(provider.cfg, provider.dir, z, own, i);
        assert z[i.parent := z[i.parent]] == z;
      }
      ok := provider.EnsureSubdomainSite(i, f);
    }
    if ok && lc.hasAddress {
      FollowedHasAddress(provider.cfg.codec, provider.dir, Lifecycle.EnsureDns(lc, true, true, z, i.fqdn, i.parent).0,
          own', if i.parent == "" then i.fqdn else i.parent, i.fqdn);
    }
  }

  /** The DNS step of SiteDelete, likewise. A subdomain without a zone needs nothing from outside. */
  method DeleteSite(provider: Provider, i: Input, f: Faults, ghost z: Lifecycle.Zones,
          ghost own: map<string, set<string>>)
      returns (ok: bool, ghost own': map<string, set<string>>)
    requires Sound(provider.cfg.codec) && Follows(provider.cfg.codec, provider.dir, z, own) && i.fqdn != ""
    modifies provider
    ensures ok <==> if i.parent == "" then f.write && f.includeFile && f.checkConf && f.reconfig
      else i.parent in z ==> f.write && f.checkZone && f.reload
    ensures Follows(provider.cfg.codec, provider.dir,
        Lifecycle.TryDeleteDns(ok, f.write, z, i.fqdn, i.parent).0, own')
    ensures own' == if !f.write then own
      else if i.parent == "" then own - {i.fqdn}
      else if i.parent in own then own[i.parent := own[i.parent] - {i.fqdn}] else own
  {
    hide Follows, Sound, Load, Write;
    own' := own;
    FollowsKeys(provider.cfg.codec, provider.dir, z, own);
    if i.parent == "" {
      DroppedFollows(provider.cfg.codec, provider.dir, z, own, i.fqdn);
      if f.write { own' := own - {i.fqdn}; }
      ok := provider.DeleteRootSite(i, f);
    } else {
      if i.parent in provider.dir {
        RemovedFollows(provider.cfg, provider.dir, z, own, i);
        if f.write { own' := own[i.parent := own[i.parent] - {i.fqdn}]; }
      }
      ok := provider.DeleteSubdomainSite(i, f);
    }
  }

  lemma FollowsKeys(c: Codec, dir: Directory, z: Lifecycle.Zones, own: map<string, set<string>>)
    requires Follows(c, dir, z, own)
    ensures dir.Keys == z.Keys == own.Keys
  {
  }
}
