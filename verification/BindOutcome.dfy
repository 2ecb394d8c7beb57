/** What a zone file holds after a call of the provider, record by record. */
module BindOutcomes {
  import opened Text
  import opened ZoneFiles
  import opened BindProvider
  import opened BindProofs
  import opened BindSettles

  /** The template of that name, or the default one, or an empty one. */
  function Chosen(cfg: Config, name: string): Template {
    if name != "" && name in cfg.templates then cfg.templates[name]
    else if cfg.defaultTemplate in cfg.templates then cfg.templates[cfg.defaultTemplate]
    else Template(0, "", "", [], [])
  }

  /** The record that a line of the template asks for. */
  function Asked(c: Codec, zone: string, ttl: nat, rec: RecordTemplate): Option<RR> {
    c.custom(if rec.name == "@" || rec.name == "" then zone + "." else rec.name + "." + zone + ".",
        if rec.ttl == 0 then ttl else rec.ttl, rec.rtype, rec.value)
  }

  /** Everything that a root site brings to its zone, apart from the SOA. */
  ghost predicate Brought(c: Codec, zone: string, ttl: nat, t: Template, i: Input, r: RR) {
    || (exists n :: n in t.nameservers && r == c.ns(zone + ".", ttl, n))
    || (i.ip4 != "" && r == c.addr(zone + ".", ttl, TYPE_A, i.ip4))
    || (i.ip6 != "" && r == c.addr(zone + ".", ttl, TYPE_AAAA, i.ip6))
    || (exists rec :: rec in t.records && Asked(c, zone, ttl, rec) == Some(r))
  }

  lemma NameserversAre(c: Codec, o: string, ttl: nat, ns: seq<string>, r: RR)
    ensures r in Nameservers(c, o, ttl, ns) <==> exists n :: n in ns && r == c.ns(o, ttl, n)
  {
    var all := Nameservers(c, o, ttl, ns);
    if n :| n in ns && r == c.ns(o, ttl, n) {
      var k :| 0 <= k < |ns| && ns[k] == n;
      assert all[k] == r;
    }
    if r in all {
      var k :| 0 <= k < |all| && all[k] == r;
      assert ns[k] in ns;
    }
  }

  lemma {:induction false} CustomsAre(c: Codec, zone: string, ttl: nat, recs: seq<RecordTemplate>, r: RR)
    ensures r in Customs(c, zone, ttl, recs) <==> exists rec :: rec in recs && Asked(c, zone, ttl, rec) == Some(r)
    decreases |recs|
  {
    if recs == [] {
    } else {
      var rest, last := recs[..|recs| - 1], recs[|recs| - 1];
      CustomsAre(c, zone, ttl, rest, r);
      assert recs == rest + [last];
      assert CustomRR(c, zone, ttl, last) == Asked(c, zone, ttl, last);
    }
  }

  lemma WantedIsBrought(c: Codec, zone: string, ttl: nat, t: Template, i: Input, r: RR)
    ensures r in Wanted(c, zone, ttl, t, i) <==> Brought(c, zone, ttl, t, i, r)
  {
    hide Nameservers, Customs, Asked;
    NameserversAre(c, zone + ".", ttl, t.nameservers, r);
    CustomsAre(c, zone, ttl, t.records, r);
  }

  /** After ensuring a root site its zone holds exactly: what was there but for the apex SOA, a fresh SOA, the name
      servers and records of the template, and the default addresses at the apex. */
  lemma RootZoneHolds(c: Codec, zone: string, ttl: nat, t: Template, i: Input, serial: nat, rrs: seq<RR>)
    requires Sound(c) && AllHeaded(c, rrs)
    ensures var out := RootRecords(c, zone, ttl, t, i, serial, rrs);
      forall r :: r in out <==>
        || (r in rrs && !At(r, zone + ".", TYPE_SOA)) || r == c.soa(t, zone + ".", ttl, serial)
        || Brought(c, zone, ttl, t, i, r)
  {
    hide RootRecords, Wanted, Without, Only, Sound, AllHeaded, Brought, At;
    var out := RootRecords(c, zone, ttl, t, i, serial, rrs);
    RootRecordsAre(c, zone, ttl, t, i, serial, rrs);
    FreshSOAStays(c, zone, ttl, t, i, serial, rrs);
    forall r ensures r in out <==>
        || (r in rrs && !At(r, zone + ".", TYPE_SOA)) || r == c.soa(t, zone + ".", ttl, serial)
        || Brought(c, zone, ttl, t, i, r)
    {
      WantedIsBrought(c, zone, ttl, t, i, r);
      InWithout(rrs, r, zone + ".", TYPE_SOA);
    }
  }

  /** After ensuring a subdomain its parent zone holds what was there and the default addresses at its name. */
  lemma SubZoneHolds(c: Codec, z: ZoneModel, i: Input)
    requires Sound(c) && AllHeaded(c, z.rrs)
    ensures var out := SubAdded(c, z, i);
      && out.ttl == z.ttl && z.rrs <= out.rrs
      && forall r :: r in out.rrs <==>
        || r in z.rrs || (i.ip4 != "" && r == c.addr(i.fqdn + ".", z.ttl, TYPE_A, i.ip4))
        || (i.ip6 != "" && r == c.addr(i.fqdn + ".", z.ttl, TYPE_AAAA, i.ip6))
  {
    hide EnsureAll, Sound;
    var addrs := Addresses(c, i.fqdn + ".", z.ttl, i.ip4, i.ip6);
    AddressesSound(c, "", i.fqdn + ".", z.ttl, i.ip4, i.ip6);
    EnsureAllFacts(Plain(c.header), z.rrs, addrs);
  }

  /** After deleting a subdomain its parent zone holds everything but the addresses at its name. */
  lemma SubZoneKeeps(z: ZoneModel, fqdn: string)
    ensures var out := SubRemoved(z, fqdn);
      && out.ttl == z.ttl
      && forall r ::
        r in out.rrs <==> r in z.rrs && !(r.name == fqdn + "." && (r.rtype == TYPE_A || r.rtype == TYPE_AAAA))
  {
    hide Without;
    forall r ensures r in SubRemoved(z, fqdn).rrs <==>
        r in z.rrs && !(r.name == fqdn + "." && (r.rtype == TYPE_A || r.rtype == TYPE_AAAA))
    {
      InWithout(z.rrs, r, fqdn + ".", TYPE_A);
      InWithout(Without(z.rrs, fqdn + ".", TYPE_A), r, fqdn + ".", TYPE_AAAA);
    }
  }

  /** The line reads as an A or AAAA record of the name. */
  predicate IsAddressLine(parse: Parser, line: string, fqdn: string) {
    var r := parse(line);
    r.Some? && r.value.name == fqdn + "." && (r.value.rtype == 1 || r.value.rtype == 28)
  }

  ghost predicate HasAddressLine(parse: Parser, lines: seq<string>, fqdn: string) {
    exists line :: line in lines && IsAddressLine(parse, line, fqdn)
  }

  /** The status of an entry: of a root whether its zone is there and can be read, of a subdomain whether the zone of
      its parent holds an address at its name. */
  lemma StatusExactly(cfg: Config, dir: Directory, i: Input)
    ensures var zone := if i.parent == "" then i.fqdn else i.parent;
      var status := StatusOf(cfg, dir, i);
      var unread := zone in dir && exists line :: line in dir[zone].lines && cfg.codec.parse(zone)(line).None?;
      && (status == ParseError <==> unread)
      && (status == Zone <==> zone in dir && !unread && i.parent == "")
      && (status == Record <==>
        zone in dir && !unread && i.parent != "" && HasAddressLine(cfg.codec.parse(zone), dir[zone].lines, i.fqdn))
      && (status == Missing <==> zone !in dir || (!unread && i.parent != "" && status != Record))
  {
    hide ParseAll, FirstTTL;
    var zone := if i.parent == "" then i.fqdn else i.parent;
    if zone in dir {
      var parse, lines := cfg.codec.parse(zone), dir[zone].lines;
      ParsedIs(parse, lines);
      if ParseAll(parse, lines).Some? { AddressLines(parse, lines, ParseAll(parse, lines).value, i.fqdn); }
    }
  }

  lemma AddressLines(parse: Parser, lines: seq<string>, rrs: seq<RR>, fqdn: string)
    requires ReadsAs(parse, lines, rrs)
    ensures HasAddress(rrs, fqdn) <==> HasAddressLine(parse, lines, fqdn)
  {
    if HasAddress(rrs, fqdn) {
      var k :| 0 <= k < |rrs| && (At(rrs[k], fqdn + ".", TYPE_A) || At(rrs[k], fqdn + ".", TYPE_AAAA));
      assert lines[k] in lines && parse(lines[k]) == Some(rrs[k]);
    }
    if line :| line in lines && IsAddressLine(parse, line, fqdn) {
      var k :| 0 <= k < |lines| && lines[k] == line;
      assert parse(lines[k]) == Some(rrs[k]);
    }
  }

  // ---------------------------------------------------------------- lines of the file

  /** The written order: by name, then by type, then by text. */
  lemma WrittenOrder(rrs: seq<RR>, i: nat, j: nat)
    requires i < j < |Ordered(rrs)|
    ensures var a, b := Ordered(rrs)[i], Ordered(rrs)[j];
      Le(a.name, b.name) && (a.name == b.name ==> a.rtype < b.rtype || (a.rtype == b.rtype && Le(a.text, b.text)))
  {
    hide Le;
    OrderedIsSort(rrs);
    LeReflexive(Ordered(rrs)[i].name);
  }

  lemma LinesOf(zone: string, z: ZoneModel, line: string)
    ensures line in Write(zone, z).lines <==> exists r :: r in z.rrs && r.text == line
  {
    var out := Ordered(z.rrs);
    SameMembers(z.rrs);
    var lines := Texts(out);
    if r :| r in z.rrs && r.text == line {
      assert r in out;
      var k :| 0 <= k < |out| && out[k] == r;
      assert lines[k] == line;
    }
    if line in lines {
      var k :| 0 <= k < |lines| && lines[k] == line;
      assert out[k] in z.rrs;
    }
  }

  /** The TTL of the first record that has one, or else the given one, or else 3600. */
  ghost predicate TTLFrom(rrs: seq<RR>, fallback: nat, ttl: nat) {
    if forall k :: 0 <= k < |rrs| ==> rrs[k].ttl == 0 then ttl == (if fallback == 0 then 3600 else fallback)
    else exists k :: 0 <= k < |rrs| && rrs[k].ttl == ttl > 0 && forall j :: 0 <= j < k ==> rrs[j].ttl == 0
  }

  lemma {:induction false} FirstTTLIs(rrs: seq<RR>)
    ensures FirstTTL(rrs) == 0 <==> forall k :: 0 <= k < |rrs| ==> rrs[k].ttl == 0
    ensures FirstTTL(rrs) > 0 ==>
      exists k :: 0 <= k < |rrs| && rrs[k].ttl == FirstTTL(rrs) && forall j :: 0 <= j < k ==> rrs[j].ttl == 0
    decreases |rrs|
  {
    if rrs == [] {
    } else if rrs[0].ttl == 0 {
      FirstTTLIs(rrs[1..]);
      assert forall k :: 0 <= k < |rrs[1..]| ==> rrs[1..][k] == rrs[k + 1];
      if FirstTTL(rrs[1..]) > 0 {
        var k :| 0 <= k < |rrs[1..]| && rrs[1..][k].ttl == FirstTTL(rrs[1..]) &&
          forall j :: 0 <= j < k ==> rrs[1..][j].ttl == 0;
        assert rrs[k + 1].ttl == FirstTTL(rrs) && forall j :: 0 <= j < k + 1 ==> rrs[j].ttl == 0;
      } else {
        assert forall k :: 0 < k < |rrs| ==> rrs[k] == rrs[1..][k - 1];
      }
    }
  }

  lemma LoadedTTL(parse: Parser, file: ZoneFile, fallback: nat)
    ensures var z := Load(parse, file, fallback); z.Some? ==> TTLFrom(z.value.rrs, fallback, z.value.ttl)
  {
    hide FirstTTL, ParseAll;
    var rrs := ParseAll(parse, file.lines);
    if rrs.Some? { FirstTTLIs(rrs.value); }
  }

  /** The records a zone starts from, and its TTL. */
  lemma StartsFrom(cfg: Config, dir: Directory, i: Input)
    ensures var t, z := Chosen(cfg, i.template), RootZone(cfg, dir, i.fqdn, TemplateFor(cfg, i.template));
      && TemplateFor(cfg, i.template) == t
      && (i.fqdn !in dir ==> z == Some(ZoneModel(if t.ttl == 0 then 3600 else t.ttl, [])))
      && (i.fqdn in dir ==>
        && (z.Some? <==> forall line :: line in dir[i.fqdn].lines ==> cfg.codec.parse(i.fqdn)(line).Some?)
        && (z.Some? ==>
          && ReadsAs(cfg.codec.parse(i.fqdn), dir[i.fqdn].lines, z.value.rrs)
          && TTLFrom(z.value.rrs, t.ttl, z.value.ttl)))
  {
    hide ParseAll, FirstTTL, TTLFrom;
    if i.fqdn in dir {
      ParsedIs(cfg.codec.parse(i.fqdn), dir[i.fqdn].lines);
      LoadedTTL(cfg.codec.parse(i.fqdn), dir[i.fqdn], Chosen(cfg, i.template).ttl);
    }
  }

  /** A subdomain needs the file of its parent; without TTLs there the default template's counts. */
  lemma SubStartsFrom(cfg: Config, dir: Directory, parent: string)
    ensures var z, t := ParentZone(cfg, dir, parent), Chosen(cfg, cfg.defaultTemplate);
      && (z.Some? <==>
        parent in dir && forall line :: line in dir[parent].lines ==> cfg.codec.parse(parent)(line).Some?)
      && (z.Some? ==>
        && ReadsAs(cfg.codec.parse(parent), dir[parent].lines, z.value.rrs)
        && TTLFrom(z.value.rrs, t.ttl, z.value.ttl))
  {
    hide ParseAll, FirstTTL;
    if parent in dir {
      ParsedIs(cfg.codec.parse(parent), dir[parent].lines);
      LoadedTTL(cfg.codec.parse(parent), dir[parent], DefaultTTL(cfg));
    }
  }

  ghost predicate ReadsAs(parse: Parser, lines: seq<string>, rrs: seq<RR>) {
    |rrs| == |lines| && forall k :: 0 <= k < |lines| ==> parse(lines[k]) == Some(rrs[k])
  }

  lemma {:induction false} ParsedIs(parse: Parser, lines: seq<string>)
    ensures ParseAll(parse, lines).Some? <==> forall line :: line in lines ==> parse(line).Some?
    ensures ParseAll(parse, lines).Some? ==> ReadsAs(parse, lines, ParseAll(parse, lines).value)
    decreases |lines|
  {
    if lines == [] {
    } else {
      ParsedIs(parse, lines[1..]);
      assert lines == [lines[0]] + lines[1..];
    }
  }

  /** The file that EnsureRootSite writes, line by line. */
  lemma RootFileHolds(cfg: Config, dir: Directory, i: Input, serial: nat)
    requires Sound(cfg.codec)
    requires RootZone(cfg, dir, i.fqdn, TemplateFor(cfg, i.template)).Some?
    ensures var c, t, o := cfg.codec, Chosen(cfg, i.template), i.fqdn + ".";
      var z := RootZone(cfg, dir, i.fqdn, TemplateFor(cfg, i.template)).value;
      var file := RootFile(cfg, i, serial, z);
      && file.origin == o && file.ttl == z.ttl > 0
      && (i.ip4 != "" ==> c.addr(o, z.ttl, TYPE_A, i.ip4).text in file.lines)
      && (i.ip6 != "" ==> c.addr(o, z.ttl, TYPE_AAAA, i.ip6).text in file.lines)
      && c.soa(t, o, z.ttl, serial).text in file.lines
      && (forall n :: n in t.nameservers ==> c.ns(o, z.ttl, n).text in file.lines)
      && (forall rec :: rec in t.records && Asked(c, i.fqdn, z.ttl, rec).Some? ==>
        Asked(c, i.fqdn, z.ttl, rec).value.text in file.lines)
      && (forall r :: r in z.rrs && !At(r, o, TYPE_SOA) ==> r.text in file.lines)
      && (forall line :: line in file.lines ==> exists r: RR ::
        r.text == line &&
          ((r in z.rrs && !At(r, o, TYPE_SOA)) || r == c.soa(t, o, z.ttl, serial) ||
            Brought(c, i.fqdn, z.ttl, t, i, r)))
  {
    hide RootRecords, Ordered, Texts, Sound, AllHeaded, RootZone, At, Asked;
    var c, t, o := cfg.codec, Chosen(cfg, i.template), i.fqdn + ".";
    var z := RootZone(cfg, dir, i.fqdn, TemplateFor(cfg, i.template)).value;
    StartIsSound(cfg, dir, i);
    RootZoneHolds(c, i.fqdn, z.ttl, t, i, serial, z.rrs);
    var out := ZoneModel(z.ttl, RootRecords(c, i.fqdn, z.ttl, t, i, serial, z.rrs));
    forall line ensures line in Write(i.fqdn, out).lines <==> exists r :: r in out.rrs && r.text == line {
      LinesOf(i.fqdn, out, line);
    }
  }

  lemma StartIsSound(cfg: Config, dir: Directory, i: Input)
    requires Sound(cfg.codec) && RootZone(cfg, dir, i.fqdn, TemplateFor(cfg, i.template)).Some?
    ensures var z := RootZone(cfg, dir, i.fqdn, TemplateFor(cfg, i.template)).value;
      AllHeaded(cfg.codec, z.rrs) && z.ttl > 0
    ensures TemplateFor(cfg, i.template) == Chosen(cfg, i.template)
  {
    hide Sound, ParseAll, FirstTTL;
    if i.fqdn in dir { ParsedPrinted(cfg.codec, i.fqdn, dir[i.fqdn].lines); }
  }
}
