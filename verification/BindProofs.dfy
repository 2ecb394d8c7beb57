/** Root zones keep foreign records and exactly one SOA; adding and deleting a subdomain are inverse. */
module BindProofs {
  import opened Text
  import opened ZoneFiles
  import opened BindProvider

  /** The records of type `rtype` at `name`, in order. */
  function Only(rrs: seq<RR>, name: string, rtype: nat): seq<RR> {
    if rrs == [] then []
    else Only(rrs[..|rrs| - 1], name, rtype) + (if At(rrs[|rrs| - 1], name, rtype) then [rrs[|rrs| - 1]] else [])
  }

  lemma OnlyAppend(rrs: seq<RR>, r: RR, name: string, rtype: nat)
    ensures Only(rrs + [r], name, rtype) == Only(rrs, name, rtype) + (if At(r, name, rtype) then [r] else [])
  {
    assert (rrs + [r])[..|rrs|] == rrs;
  }

  lemma {:induction false} OnlyMembers(rrs: seq<RR>, name: string, rtype: nat)
    ensures forall r :: r in Only(rrs, name, rtype) <==> r in rrs && At(r, name, rtype)
    decreases |rrs|
  {
    if rrs == [] {
    } else {
      OnlyMembers(rrs[..|rrs| - 1], name, rtype);
      assert rrs == rrs[..|rrs| - 1] + [rrs[|rrs| - 1]];
    }
  }

  lemma {:induction false} OnlyOfWithout(rrs: seq<RR>, name: string, rtype: nat)
    ensures Only(Without(rrs, name, rtype), name, rtype) == []
    decreases |rrs|
  {
    if rrs == [] {
    } else {
      var rest, last := rrs[..|rrs| - 1], rrs[|rrs| - 1];
      OnlyOfWithout(rest, name, rtype);
      OnlyAppend(Without(rest, name, rtype), last, name, rtype);
    }
  }

  // ---------------------------------------------------------------- ensuring many records

  /** Nothing is dropped or moved, everything wanted is there, and nothing else is added. */
  lemma {:induction false} EnsureAllFacts(parse: Parser, rrs: seq<RR>, wanted: seq<RR>)
    requires AllPrinted(parse, rrs) && AllPrinted(parse, wanted)
    ensures var out := EnsureAll(rrs, wanted); AllPrinted(parse, out) && rrs <= out
    ensures forall w :: w in wanted ==> w in EnsureAll(rrs, wanted)
    ensures forall r :: r in EnsureAll(rrs, wanted) ==> r in rrs || r in wanted
    decreases |wanted|
  {
    if wanted == [] {
    } else {
      var rest, last := wanted[..|wanted| - 1], wanted[|wanted| - 1];
      EnsureAllFacts(parse, rrs, rest);
      EnsurePrinted(parse, EnsureAll(rrs, rest), last);
      assert wanted == rest + [last];
    }
  }

  lemma {:induction false} EnsureAllPresent(parse: Parser, rrs: seq<RR>, wanted: seq<RR>)
    requires AllPrinted(parse, rrs) && AllPrinted(parse, wanted) && forall w :: w in wanted ==> w in rrs
    ensures EnsureAll(rrs, wanted) == rrs
    decreases |wanted|
  {
    if wanted == [] {
    } else {
      var rest, last := wanted[..|wanted| - 1], wanted[|wanted| - 1];
      assert wanted == rest + [last];
      EnsureAllPresent(parse, rrs, rest);
      EnsurePrinted(parse, rrs, last);
    }
  }

  /** The apex SOA records stay as they are exactly if no wanted SOA differs from them. */
  lemma {:induction false} EnsureAllOnly(parse: Parser, rrs: seq<RR>, wanted: seq<RR>, name: string, rtype: nat)
    requires AllPrinted(parse, rrs) && AllPrinted(parse, wanted)
    ensures Only(rrs, name, rtype) <= Only(EnsureAll(rrs, wanted), name, rtype)
    ensures Only(EnsureAll(rrs, wanted), name, rtype) == Only(rrs, name, rtype) <==>
      forall w :: w in wanted && At(w, name, rtype) ==> w in rrs
    decreases |wanted|
  {
    if wanted == [] {
    } else {
      var rest, last := wanted[..|wanted| - 1], wanted[|wanted| - 1];
      assert wanted == rest + [last];
      EnsureAllOnly(parse, rrs, rest, name, rtype);
      EnsureAllFacts(parse, rrs, rest);
      var mid := EnsureAll(rrs, rest);
      EnsurePrinted(parse, mid, last);
      OnlyAppend(mid, last, name, rtype);
      OnlyMembers(mid, name, rtype);
      OnlyMembers(rrs, name, rtype);
      if last in mid && At(last, name, rtype) && Only(mid, name, rtype) == Only(rrs, name, rtype) {
        assert last in Only(rrs, name, rtype);
      }
    }
  }

  // ---------------------------------------------------------------- root zones

  lemma WantedHeaded(c: Codec, zone: string, ttl: nat, t: Template, i: Input)
    requires Sound(c)
    ensures AllHeaded(c, Wanted(c, zone, ttl, t, i))
  {
    hide Customs;
    CustomsSound(c, zone, zone, ttl, t.records);
    NameserversSound(c, zone + ".", ttl, t.nameservers);
    AddressesSound(c, zone, zone + ".", ttl, i.ip4, i.ip6);
  }

  lemma {:induction false} CustomsSound(c: Codec, z: string, zone: string, ttl: nat, recs: seq<RecordTemplate>)
    requires Sound(c)
    ensures AllHeaded(c, Customs(c, zone, ttl, recs)) && AllPrinted(c.parse(z), Customs(c, zone, ttl, recs))
    decreases |recs|
  {
    if recs == [] {
    } else {
      CustomsSound(c, z, zone, ttl, recs[..|recs| - 1]);
      CustomSound(c, z, zone, ttl, recs[|recs| - 1]);
    }
  }

  lemma CustomSound(c: Codec, z: string, zone: string, ttl: nat, rec: RecordTemplate)
    requires Sound(c)
    ensures var r := CustomRR(c, zone, ttl, rec);
      r.Some? ==> Headed(c, r.value) && Printed(c.parse(z), r.value)
  {
    hide Headed, Printed;
    var r := CustomRR(c, zone, ttl, rec);
    assert r.Some? ==> NewSound(c, r.value);
  }

  lemma NameserversSound(c: Codec, o: string, ttl: nat, ns: seq<string>)
    requires Sound(c)
    ensures AllHeaded(c, Nameservers(c, o, ttl, ns))
  {
    hide Printed, Plain;
    forall k | 0 <= k < |ns| ensures Headed(c, c.ns(o, ttl, ns[k])) { assert NSSound(c, o, ttl, c.ns(o, ttl, ns[k])); }
  }

  lemma AddressesSound(c: Codec, z: string, o: string, ttl: nat, ip4: string, ip6: string)
    requires Sound(c)
    ensures AllHeaded(c, Addresses(c, o, ttl, ip4, ip6)) && AllPrinted(c.parse(z), Addresses(c, o, ttl, ip4, ip6))
  {
    hide Printed, Plain;
    assert AddrSound(c, o, ttl, TYPE_A, c.addr(o, ttl, TYPE_A, ip4));
    assert AddrSound(c, o, ttl, TYPE_AAAA, c.addr(o, ttl, TYPE_AAAA, ip6));
  }

  /** EnsureRootSite keeps every other record in its order, adds every template record, name server
      and address, and leaves exactly one apex SOA, the fresh one, unless the template itself lists a
      different apex SOA. */
  lemma RootRecordsAre(c: Codec, zone: string, ttl: nat, t: Template, i: Input, serial: nat, rrs: seq<RR>)
    requires Sound(c) && AllHeaded(c, rrs)
    ensures var out, soa, wanted := RootRecords(c, zone, ttl, t, i, serial, rrs), c.soa(t, zone + ".", ttl, serial),
        Wanted(c, zone, ttl, t, i);
      && AllHeaded(c, out)
      && Without(rrs, zone + ".", TYPE_SOA) <= out
      && (forall w :: w in wanted ==> w in out)
      && (forall r :: r in out ==> r in Without(rrs, zone + ".", TYPE_SOA) || r == soa || r in wanted)
      && (Only(out, zone + ".", TYPE_SOA) == [soa] <==>
        forall w :: w in wanted && At(w, zone + ".", TYPE_SOA) ==> w == soa)
  {
    hide Wanted, EnsureAll, Only, Without, Ensure, AllPrinted;
    var kept, soa, wanted := Without(rrs, zone + ".", TYPE_SOA), c.soa(t, zone + ".", ttl, serial),
        Wanted(c, zone, ttl, t, i);
    WantedHeaded(c, zone, ttl, t, i);
    FreshSOA(c, zone, ttl, t, serial, rrs);
    AppendPrinted(Plain(c.header), kept, soa);
    EnsureAllFacts(Plain(c.header), kept + [soa], wanted);
    RootSOA(Plain(c.header), kept, soa, wanted, zone + ".");
    assert forall r :: r in kept + [soa] <==> r in kept || r == soa;
  }

  lemma AppendPrinted(parse: Parser, rrs: seq<RR>, r: RR)
    requires AllPrinted(parse, rrs) && Printed(parse, r)
    ensures AllPrinted(parse, rrs + [r])
  {
  }

  lemma RootSOA(parse: Parser, kept: seq<RR>, soa: RR, wanted: seq<RR>, o: string)
    requires AllPrinted(parse, kept + [soa]) && AllPrinted(parse, wanted) && Only(kept + [soa], o, TYPE_SOA) == [soa]
    ensures Only(EnsureAll(kept + [soa], wanted), o, TYPE_SOA) == [soa] <==>
      forall w :: w in wanted && At(w, o, TYPE_SOA) ==> w == soa
  {
    hide EnsureAll, Only, AllPrinted;
    EnsureAllOnly(parse, kept + [soa], wanted, o, TYPE_SOA);
    OnlyMembers(kept + [soa], o, TYPE_SOA);
    assert forall w :: w in [soa] <==> w == soa;
  }

  /** Once the old SOA records are gone the new one is really added. */
  lemma FreshSOA(c: Codec, zone: string, ttl: nat, t: Template, serial: nat, rrs: seq<RR>)
    requires Sound(c) && AllHeaded(c, rrs)
    ensures var kept, soa := Without(rrs, zone + ".", TYPE_SOA), c.soa(t, zone + ".", ttl, serial);
      Ensure(kept, soa) == kept + [soa] && Only(kept + [soa], zone + ".", TYPE_SOA) == [soa] &&
        AllHeaded(c, kept) && Printed(Plain(c.header), soa)
  {
    var o := zone + ".";
    var kept, soa := Without(rrs, o, TYPE_SOA), c.soa(t, o, ttl, serial);
    WithoutPrinted(Plain(c.header), rrs, o, TYPE_SOA);
    EnsurePrinted(Plain(c.header), kept, soa);
    WithoutMembers(rrs, o, TYPE_SOA);
    assert multiset(kept)[soa] == 0;
    OnlyOfWithout(rrs, o, TYPE_SOA);
    OnlyAppend(kept, soa, o, TYPE_SOA);
  }

  /** Running it again on its own records, in whatever order they come back, swaps the serial only. */
  lemma RootRecordsTwice(c: Codec, zone: string, ttl: nat, t: Template, i: Input, s1: nat, s2: nat, rrs: seq<RR>,
          again: seq<RR>)
    requires Sound(c) && AllHeaded(c, rrs)
    requires forall w :: w in Wanted(c, zone, ttl, t, i) ==> !At(w, zone + ".", TYPE_SOA)
    requires multiset(again) == multiset(RootRecords(c, zone, ttl, t, i, s1, rrs))
    ensures var out := RootRecords(c, zone, ttl, t, i, s2, again);
      var soa1, soa2 := c.soa(t, zone + ".", ttl, s1), c.soa(t, zone + ".", ttl, s2);
      multiset(out) == multiset(again) - multiset{soa1} + multiset{soa2}
  {
    hide Wanted, EnsureAll, Only, Without;
    var o := zone + ".";
    var out1, soa1, soa2, wanted := RootRecords(c, zone, ttl, t, i, s1, rrs), c.soa(t, o, ttl, s1),
        c.soa(t, o, ttl, s2), Wanted(c, zone, ttl, t, i);
    RootRecordsAre(c, zone, ttl, t, i, s1, rrs);
    WantedHeaded(c, zone, ttl, t, i);
    MembersPrinted(Plain(c.header), out1, again);
    FreshSOA(c, zone, ttl, t, s2, again);
    var kept := Without(again, o, TYPE_SOA);
    WithoutMembers(again, o, TYPE_SOA);
    forall w | w in wanted ensures w in kept + [soa2] {
      assert w in multiset(out1);
      assert multiset(kept)[w] > 0;
    }
    EnsurePrinted(Plain(c.header), kept, soa2);
    EnsureAllPresent(Plain(c.header), kept + [soa2], wanted);
    OneSOA(out1, soa1, o);
    KeptIsRest(again, kept, soa1, o);
  }

  /** If the only apex SOA is `soa`, it occurs once and nothing else sits at that name and type. */
  lemma {:induction false} OneSOA(rrs: seq<RR>, soa: RR, o: string)
    requires Only(rrs, o, TYPE_SOA) == [soa]
    ensures multiset(rrs)[soa] == 1 && forall r :: r in rrs && At(r, o, TYPE_SOA) ==> r == soa
  {
    OnlyCount(rrs, soa, o, TYPE_SOA);
    OnlyMembers(rrs, o, TYPE_SOA);
    assert multiset([soa])[soa] == 1;
  }

  lemma {:induction false} OnlyCount(rrs: seq<RR>, r: RR, name: string, rtype: nat)
    ensures multiset(Only(rrs, name, rtype))[r] == if At(r, name, rtype) then multiset(rrs)[r] else 0
    decreases |rrs|
  {
    if rrs == [] {
    } else {
      OnlyCount(rrs[..|rrs| - 1], r, name, rtype);
      assert rrs == rrs[..|rrs| - 1] + [rrs[|rrs| - 1]];
    }
  }

  lemma KeptIsRest(again: seq<RR>, kept: seq<RR>, soa: RR, o: string)
    requires At(soa, o, TYPE_SOA) && multiset(again)[soa] == 1
    requires forall r ::
      r in multiset(again) && At(r, o, TYPE_SOA) ==> r == soa
    requires forall r :: multiset(kept)[r] == if At(r, o, TYPE_SOA) then 0 else multiset(again)[r]
    ensures multiset(kept) == multiset(again) - multiset{soa}
  {
  }

  // ---------------------------------------------------------------- subdomains

  ghost predicate NoAddress(rrs: seq<RR>, fqdn: string) {
    forall r :: r in rrs ==> !At(r, fqdn + ".", TYPE_A) && !At(r, fqdn + ".", TYPE_AAAA)
  }

  lemma NoAddressIs(rrs: seq<RR>, fqdn: string)
    ensures NoAddress(rrs, fqdn) <==> !HasAddress(rrs, fqdn)
  {
  }

  /** Deleting right after ensuring gives the records back, in their order, exactly if the name had
      no address records before. */
  lemma EnsureThenDelete(c: Codec, z: ZoneModel, i: Input)
    requires Sound(c) && AllHeaded(c, z.rrs)
    ensures SubRemoved(SubAdded(c, z, i), i.fqdn) == z <==> NoAddress(z.rrs, i.fqdn)
    ensures NoAddress(SubRemoved(SubAdded(c, z, i), i.fqdn).rrs, i.fqdn)
    ensures HasAddress(SubAdded(c, z, i).rrs, i.fqdn) <==> i.ip4 != "" || i.ip6 != "" || HasAddress(z.rrs, i.fqdn)
  {
    hide Without, EnsureAll, Addresses, At;
    var o := i.fqdn + ".";
    var addrs, rrs := Addresses(c, o, z.ttl, i.ip4, i.ip6), SubAdded(c, z, i).rrs;
    EnsureAllGrows(c, z, i, addrs);
    EnsureAllTail(z.rrs, addrs);
    assert rrs == z.rrs + rrs[|z.rrs|..];
    SubRemovedOnAppend(z.rrs, rrs[|z.rrs|..], o);
    RemoveNothing(z.rrs, o);
    NothingLeft(rrs, o);
  }

  lemma NothingLeft(rrs: seq<RR>, o: string)
    ensures forall r ::
      r in Without(Without(rrs, o, TYPE_A), o, TYPE_AAAA) ==> !At(r, o, TYPE_A) && !At(r, o, TYPE_AAAA)
  {
    WithoutMembers(rrs, o, TYPE_A);
    WithoutMembers(Without(rrs, o, TYPE_A), o, TYPE_AAAA);
    var out := Without(Without(rrs, o, TYPE_A), o, TYPE_AAAA);
    forall r | r in out ensures !At(r, o, TYPE_A) && !At(r, o, TYPE_AAAA) { assert multiset(out)[r] > 0; }
  }

  lemma AddressTypes(c: Codec, z: ZoneModel, i: Input)
    requires Sound(c)
    ensures var o := i.fqdn + "."; var addrs := Addresses(c, o, z.ttl, i.ip4, i.ip6);
      forall k :: 0 <= k < |addrs| ==>
        addrs[k].ttl == z.ttl && (At(addrs[k], o, TYPE_A) || At(addrs[k], o, TYPE_AAAA))
  {
    hide NewSound;
    var o := i.fqdn + ".";
    assert AddrSound(c, o, z.ttl, TYPE_A, c.addr(o, z.ttl, TYPE_A, i.ip4));
    assert AddrSound(c, o, z.ttl, TYPE_AAAA, c.addr(o, z.ttl, TYPE_AAAA, i.ip6));
  }

  lemma EnsureAllGrows(c: Codec, z: ZoneModel, i: Input, addrs: seq<RR>)
    requires Sound(c) && AllHeaded(c, z.rrs) && addrs == Addresses(c, i.fqdn + ".", z.ttl, i.ip4, i.ip6)
    ensures forall k ::
      |z.rrs| <= k < |EnsureAll(z.rrs, addrs)| ==>
        || At(EnsureAll(z.rrs, addrs)[k], i.fqdn + ".", TYPE_A)
        || At(EnsureAll(z.rrs, addrs)[k], i.fqdn + ".", TYPE_AAAA)
    ensures HasAddress(EnsureAll(z.rrs, addrs), i.fqdn) <==> i.ip4 != "" || i.ip6 != "" || HasAddress(z.rrs, i.fqdn)
  {
    var o, out := i.fqdn + ".", EnsureAll(z.rrs, addrs);
    EnsureAllTail(z.rrs, addrs);
    AddressesSound(c, i.parent, o, z.ttl, i.ip4, i.ip6);
    AddressTypes(c, z, i);
    EnsureAllFacts(Plain(c.header), z.rrs, addrs);
    if i.ip4 != "" { assert addrs[0] in out; }
    if i.ip6 != "" { assert addrs[|addrs| - 1] in out; }
    if HasAddress(z.rrs, i.fqdn) {
      var k :| 0 <= k < |z.rrs| && (At(z.rrs[k], o, TYPE_A) || At(z.rrs[k], o, TYPE_AAAA));
      assert out[k] == z.rrs[k];
    }
  }

  lemma {:induction false} EnsureAllTail(rrs: seq<RR>, wanted: seq<RR>)
    ensures rrs <= EnsureAll(rrs, wanted)
    ensures forall k ::
      |rrs| <= k < |EnsureAll(rrs, wanted)| ==> EnsureAll(rrs, wanted)[k] in wanted
    decreases |wanted|
  {
    if wanted == [] {
    } else {
      EnsureAllTail(rrs, wanted[..|wanted| - 1]);
      assert wanted == wanted[..|wanted| - 1] + [wanted[|wanted| - 1]];
    }
  }

  lemma {:induction false} SubRemovedOnAppend(rrs: seq<RR>, tail: seq<RR>, o: string)
    requires forall k :: 0 <= k < |tail| ==> At(tail[k], o, TYPE_A) || At(tail[k], o, TYPE_AAAA)
    ensures Without(Without(rrs + tail, o, TYPE_A), o, TYPE_AAAA) == Without(Without(rrs, o, TYPE_A), o, TYPE_AAAA)
    decreases |tail|
  {
    if tail == [] {
      assert rrs + tail == rrs;
    } else {
      var rest, last := tail[..|tail| - 1], tail[|tail| - 1];
      SubRemovedOnAppend(rrs, rest, o);
      assert rrs + tail == (rrs + rest) + [last];
      WithoutAppend(rrs + rest, last, o, TYPE_A);
      WithoutAppend(Without(rrs + rest, o, TYPE_A), last, o, TYPE_AAAA);
    }
  }

  /** The double removal is the identity exactly when neither type occurs. */
  lemma RemoveNothing(rrs: seq<RR>, o: string)
    ensures Without(Without(rrs, o, TYPE_A), o, TYPE_AAAA) == rrs <==>
      forall r :: r in rrs ==> !At(r, o, TYPE_A) && !At(r, o, TYPE_AAAA)
  {
    WithoutNothing(rrs, o, TYPE_A);
    WithoutNothing(rrs, o, TYPE_AAAA);
    WithoutMembers(rrs, o, TYPE_A);
    WithoutMembers(Without(rrs, o, TYPE_A), o, TYPE_AAAA);
    var out := Without(Without(rrs, o, TYPE_A), o, TYPE_AAAA);
    if out == rrs {
      forall r | r in rrs ensures !At(r, o, TYPE_A) && !At(r, o, TYPE_AAAA) { assert multiset(out)[r] > 0; }
    }
  }

  // ---------------------------------------------------------------- the zone file of a subdomain

  lemma {:induction false} InsertKeepsFirstTTL(r: RR, s: seq<RR>)
    requires r.ttl > 0 && (FirstTTL(s) == r.ttl || FirstTTL(s) == 0)
    ensures FirstTTL(ZoneFiles.Insert(r, s)) == r.ttl
    decreases |s|
  {
    if s != [] && Before(s[0], r) && s[0].ttl == 0 {
      InsertKeepsFirstTTL(r, s[1..]);
      assert ([s[0]] + ZoneFiles.Insert(r, s[1..]))[1..] == ZoneFiles.Insert(r, s[1..]);
    }
  }

  lemma {:induction false} AddedKeepsTTL(rrs: seq<RR>, tail: seq<RR>, ttl: nat)
    requires ttl > 0 && (FirstTTL(Ordered(rrs)) == ttl || FirstTTL(Ordered(rrs)) == 0)
    requires forall k :: 0 <= k < |tail| ==> tail[k].ttl == ttl
    ensures FirstTTL(Ordered(rrs + tail)) == ttl || (tail == [] && FirstTTL(Ordered(rrs + tail)) == 0)
    decreases |tail|
  {
    if tail == [] {
      assert rrs + tail == rrs;
    } else {
      var rest, last := tail[..|tail| - 1], tail[|tail| - 1];
      AddedKeepsTTL(rrs, rest, ttl);
      assert (rrs + tail)[..|rrs + tail| - 1] == rrs + rest;
      InsertKeepsFirstTTL(last, Ordered(rrs + rest));
    }
  }

  /** A zone file as this provider writes it. */
  predicate Canonical(cfg: Config, zone: string, file: ZoneFile) {
    var z := Load(cfg.codec.parse(zone), file, DefaultTTL(cfg));
    z.Some? && file == Write(zone, z.value)
  }


  lemma {:induction false} ParsedPrinted(c: Codec, zone: string, lines: seq<string>)
    requires Sound(c) && ParseAll(c.parse(zone), lines).Some?
    ensures var rrs := ParseAll(c.parse(zone), lines).value; AllPrinted(c.parse(zone), rrs) && AllHeaded(c, rrs)
    decreases |lines|
  {
    if lines == [] {
    } else {
      ParsedPrinted(c, zone, lines[1..]);
      assert ReadSound(c, zone, c.parse(zone)(lines[0]).value);
    }
  }

  /** A canonical file holds its records in canonical order, with a TTL. */
  lemma CanonicalRecords(cfg: Config, zone: string, file: ZoneFile)
    requires Sound(cfg.codec) && Canonical(cfg, zone, file)
    ensures var z := Load(cfg.codec.parse(zone), file, DefaultTTL(cfg)).value;
      && AllPrinted(cfg.codec.parse(zone), z.rrs) && AllHeaded(cfg.codec, z.rrs) && Ordered(z.rrs) == z.rrs
      && z.ttl > 0 && (FirstTTL(z.rrs) == z.ttl || FirstTTL(z.rrs) == 0)
      && (FirstTTL(z.rrs) == 0 ==> z.ttl == OrDefault(OrDefault(0, DefaultTTL(cfg)), 3600))
  {
    hide Ordered, Texts, FirstTTL, ParseAll, Sound;
    var z := Load(cfg.codec.parse(zone), file, DefaultTTL(cfg)).value;
    ParsedPrinted(cfg.codec, zone, file.lines);
    LoadWrite(cfg.codec.parse(zone), zone, z, DefaultTTL(cfg));
  }

  /** The file written for a subdomain loads with the same TTL and records. */
  lemma LoadAdded(cfg: Config, i: Input, file: ZoneFile)
    requires Sound(cfg.codec) && Canonical(cfg, i.parent, file)
    ensures var parse := cfg.codec.parse(i.parent);
      var z := Load(parse, file, DefaultTTL(cfg)).value;
      var l := Load(parse, Write(i.parent, SubAdded(cfg.codec, z, i)), DefaultTTL(cfg));
      && l == Some(ZoneModel(z.ttl, Ordered(SubAdded(cfg.codec, z, i).rrs)))
      && AllPrinted(parse, z.rrs) && AllHeaded(cfg.codec, z.rrs)
  {
    hide Ordered, Texts, EnsureAll, FirstTTL, ParseAll, Addresses, Load, Write, Sound;
    var c, parse := cfg.codec, cfg.codec.parse(i.parent);
    var z := Load(parse, file, DefaultTTL(cfg)).value;
    CanonicalRecords(cfg, i.parent, file);
    var addrs := Addresses(c, i.fqdn + ".", z.ttl, i.ip4, i.ip6);
    AddressTypes(c, z, i);
    AddressesSound(c, i.parent, i.fqdn + ".", z.ttl, i.ip4, i.ip6);
    EnsureAllFacts(parse, z.rrs, addrs);
    EnsureAllTail(z.rrs, addrs);
    var rrs := EnsureAll(z.rrs, addrs);
    assert rrs == z.rrs + rrs[|z.rrs|..];
    forall k | 0 <= k < |rrs[|z.rrs|..]| ensures rrs[|z.rrs|..][k].ttl == z.ttl {
      assert rrs[|z.rrs|..][k] == rrs[|z.rrs| + k];
    }
    AddedKeepsTTL(z.rrs, rrs[|z.rrs|..], z.ttl);
    LoadWrite(parse, i.parent, ZoneModel(z.ttl, rrs), DefaultTTL(cfg));
    LoadIsModel(parse, Write(i.parent, ZoneModel(z.ttl, rrs)), DefaultTTL(cfg));
    if rrs[|z.rrs|..] == [] { assert rrs == z.rrs; }
  }

  lemma LoadIsModel(parse: Parser, file: ZoneFile, fallback: nat)
    ensures var l := Load(parse, file, fallback); l.Some? ==> l == Some(ZoneModel(l.value.ttl, l.value.rrs))
  {
  }

  /** Through the files: ensuring and then deleting a subdomain gives the zone file back exactly,
      bytes and all, if and only if the name had no address records; in between the entry is a
      record whenever an address is configured, afterwards it is missing. */
  lemma SubdomainRoundTrip(cfg: Config, i: Input, dir: Directory)
    requires Sound(cfg.codec) && i.parent in dir && Canonical(cfg, i.parent, dir[i.parent]) && i.parent != ""
    ensures var c, d, parse := cfg.codec, DefaultTTL(cfg), cfg.codec.parse(i.parent);
      var z := Load(parse, dir[i.parent], d).value;
      var mid := Write(i.parent, SubAdded(c, z, i)); var z1 := Load(parse, mid, d);
      z1.Some? &&
      var end := Write(i.parent, SubRemoved(z1.value, i.fqdn));
      && (end == dir[i.parent] <==> NoAddress(z.rrs, i.fqdn))
      && StatusOf(cfg, dir[i.parent := mid], i)
        == (if i.ip4 != "" || i.ip6 != "" || HasAddress(z.rrs, i.fqdn) then Record else Missing)
      && StatusOf(cfg, dir[i.parent := end], i) == Missing
  {
    hide Ordered, Texts, EnsureAll, Without, FirstTTL, ParseAll, Addresses, Sound;
    var c, d, o, parse := cfg.codec, DefaultTTL(cfg), i.fqdn + ".", cfg.codec.parse(i.parent);
    var z := Load(parse, dir[i.parent], d).value;
    LoadAdded(cfg, i, dir[i.parent]);
    var added := SubAdded(c, z, i);
    EnsureThenDelete(c, z, i);
    EnsureAllFacts(parse, z.rrs, Addresses(c, o, z.ttl, i.ip4, i.ip6)) by {
      AddressesSound(c, i.parent, o, z.ttl, i.ip4, i.ip6);
    }
    OrderedIsSort(added.rrs);
    MembersPrinted(parse, added.rrs, Ordered(added.rrs));
    SameAddress(added.rrs, Ordered(added.rrs), i.fqdn);
    RemovedPermuted(c, z.ttl, added.rrs, Ordered(added.rrs), i);
    var end := SubRemoved(ZoneModel(z.ttl, Ordered(added.rrs)), i.fqdn);
    WithoutPrinted(parse, Ordered(added.rrs), o, TYPE_A);
    WithoutPrinted(parse, Without(Ordered(added.rrs), o, TYPE_A), o, TYPE_AAAA);
    WriteIsCanonical(parse, i.parent, end, z);
    LoadWrite(parse, i.parent, end, d);
    NoAddressPermuted(SubRemoved(added, i.fqdn).rrs, Ordered(end.rrs), i.fqdn);
    SameMultisetSame(c, z, i);
  }

  lemma SameAddress(a: seq<RR>, b: seq<RR>, fqdn: string)
    requires multiset(a) == multiset(b)
    ensures HasAddress(a, fqdn) <==> HasAddress(b, fqdn)
  {
    NoAddressIs(a, fqdn);
    NoAddressIs(b, fqdn);
    assert forall r :: r in a <==> r in multiset(a);
    assert forall r :: r in b <==> r in multiset(b);
  }

  lemma NoAddressPermuted(a: seq<RR>, b: seq<RR>, fqdn: string)
    requires multiset(a) == multiset(b) && NoAddress(a, fqdn)
    ensures !HasAddress(b, fqdn)
  {
    NoAddressIs(a, fqdn);
    SameAddress(a, b, fqdn);
  }

  lemma RemovedPermuted(c: Codec, ttl: nat, a: seq<RR>, b: seq<RR>, i: Input)
    requires multiset(a) == multiset(b)
    ensures multiset(SubRemoved(ZoneModel(ttl, a), i.fqdn).rrs) == multiset(SubRemoved(ZoneModel(ttl, b), i.fqdn).rrs)
  {
    var o := i.fqdn + ".";
    WithoutMembers(a, o, TYPE_A);
    WithoutMembers(b, o, TYPE_A);
    WithoutMembers(Without(a, o, TYPE_A), o, TYPE_AAAA);
    WithoutMembers(Without(b, o, TYPE_A), o, TYPE_AAAA);
    hide Without;
  }

  /** As multisets, too, the records come back exactly if there was no address at the name. */
  lemma SameMultisetSame(c: Codec, z: ZoneModel, i: Input)
    requires Sound(c) && AllHeaded(c, z.rrs)
    ensures multiset(SubRemoved(SubAdded(c, z, i), i.fqdn).rrs) == multiset(z.rrs) <==> NoAddress(z.rrs, i.fqdn)
  {
    EnsureThenDelete(c, z, i);
    var out := SubRemoved(SubAdded(c, z, i), i.fqdn).rrs;
    hide SubRemoved, SubAdded;
    if multiset(out) == multiset(z.rrs) {
      forall r | r in z.rrs ensures !At(r, i.fqdn + ".", TYPE_A) && !At(r, i.fqdn + ".", TYPE_AAAA) {
        assert r in multiset(out);
      }
    }
  }

  lemma AddressKept(from: seq<RR>, to: seq<RR>, e: string)
    requires HasAddress(from, e)
    requires forall r ::
      r in from && (At(r, e + ".", TYPE_A) || At(r, e + ".", TYPE_AAAA)) ==> r in to
    ensures HasAddress(to, e)
  {
    var k :| 0 <= k < |from| && (At(from[k], e + ".", TYPE_A) || At(from[k], e + ".", TYPE_AAAA));
    assert from[k] in from;
    var j :| 0 <= j < |to| && to[j] == from[k];
  }

  lemma RootKeepsAddresses(c: Codec, zone: string, ttl: nat, t: Template, i: Input, serial: nat, rrs: seq<RR>,
          e: string)
    requires Sound(c) && AllHeaded(c, rrs) && HasAddress(rrs, e)
    ensures HasAddress(RootRecords(c, zone, ttl, t, i, serial, rrs), e)
  {
    hide RootRecords, Without, HasAddress, Wanted;
    WithoutMembers(rrs, zone + ".", TYPE_SOA);
    RootRecordsAre(c, zone, ttl, t, i, serial, rrs);
    forall r | r in rrs && (At(r, e + ".", TYPE_A) || At(r, e + ".", TYPE_AAAA))
      ensures r in RootRecords(c, zone, ttl, t, i, serial, rrs)
    {
      assert multiset(Without(rrs, zone + ".", TYPE_SOA))[r] > 0;
    }
    AddressKept(rrs, RootRecords(c, zone, ttl, t, i, serial, rrs), e);
  }

  lemma RemovalTakesOwnAddresses(ttl: nat, rrs: seq<RR>, fqdn: string, e: string)
    requires e != fqdn
    ensures HasAddress(rrs, e) <==> HasAddress(SubRemoved(ZoneModel(ttl, rrs), fqdn).rrs, e)
  {
    hide Without, HasAddress;
    var o := fqdn + ".";
    var removed := Without(Without(rrs, o, TYPE_A), o, TYPE_AAAA);
    WithoutMembers(rrs, o, TYPE_A);
    WithoutMembers(Without(rrs, o, TYPE_A), o, TYPE_AAAA);
    DotInjective(e, fqdn);
    forall r | r in rrs && (At(r, e + ".", TYPE_A) || At(r, e + ".", TYPE_AAAA))
      ensures r in removed
    {
      assert multiset(removed)[r] > 0;
    }
    forall r | r in removed ensures r in rrs { assert multiset(removed)[r] > 0; }
    if HasAddress(rrs, e) { AddressKept(rrs, removed, e); }
    if HasAddress(removed, e) { AddressKept(removed, rrs, e); }
  }

  /** The promises the lifecycle relies on: ensuring a root or a subdomain takes no address record
      away from any name, and deleting a subdomain takes away only its own. */
  lemma OthersUntouched(c: Codec, zone: string, ttl: nat, t: Template, i: Input, serial: nat, rrs: seq<RR>, e: string)
    requires Sound(c) && AllHeaded(c, rrs)
    ensures HasAddress(rrs, e) ==> HasAddress(RootRecords(c, zone, ttl, t, i, serial, rrs), e)
    ensures HasAddress(rrs, e) ==> HasAddress(SubAdded(c, ZoneModel(ttl, rrs), i).rrs, e)
    ensures e != i.fqdn ==> (HasAddress(rrs, e) <==> HasAddress(SubRemoved(ZoneModel(ttl, rrs), i.fqdn).rrs, e))
  {
    hide RootRecords, HasAddress, SubRemoved, EnsureAll, Addresses;
    EnsureAllTail(rrs, Addresses(c, i.fqdn + ".", ttl, i.ip4, i.ip6));
    var added := SubAdded(c, ZoneModel(ttl, rrs), i).rrs;
    if HasAddress(rrs, e) {
      RootKeepsAddresses(c, zone, ttl, t, i, serial, rrs, e);
      forall r | r in rrs ensures r in added {
        var k :| 0 <= k < |rrs| && rrs[k] == r;
        assert added[k] == r;
      }
      AddressKept(rrs, added, e);
    }
    if e != i.fqdn { RemovalTakesOwnAddresses(ttl, rrs, i.fqdn, e); }
  }

  lemma DotInjective(a: string, b: string)
    ensures a + "." == b + "." <==> a == b
  {
    assert (a + ".")[..|a|] == a;
    assert (b + ".")[..|b|] == b;
    if a + "." == b + "." { assert |a + "."| == |b + "."|; }
  }
}
