/** Ensuring a root site twice: when the zone file settles, when it grows with every call, and when its TTL
    drifts. */
module BindSettles {
  import opened Text
  import opened ZoneFiles
  import opened BindProvider
  import opened BindProofs

  // ---------------------------------------------------------------- ensuring, by type

  /** Ensuring works on each type and name by itself. */
  lemma {:induction false} EnsureAllParts(parse: Parser, rrs: seq<RR>, wanted: seq<RR>, name: string, rtype: nat)
    requires AllPrinted(parse, rrs) && AllPrinted(parse, wanted)
    ensures Without(EnsureAll(rrs, wanted), name, rtype)
      == EnsureAll(Without(rrs, name, rtype), Without(wanted, name, rtype))
    ensures Only(EnsureAll(rrs, wanted), name, rtype) == EnsureAll(Only(rrs, name, rtype), Only(wanted, name, rtype))
    decreases |wanted|
  {
    hide AllPrinted, EnsureAll, Ensure, Only, Without;
    if wanted == [] {
      EnsureAllNone(rrs, name, rtype);
    } else {
      var rest, last := wanted[..|wanted| - 1], wanted[|wanted| - 1];
      assert wanted == rest + [last];
      PrintedParts(parse, rest, last);
      EnsureAllParts(parse, rrs, rest, name, rtype);
      EnsureAllFacts(parse, rrs, rest);
      EnsureParts(parse, EnsureAll(rrs, rest), last, name, rtype);
      WithoutAppend(rest, last, name, rtype);
      OnlyAppend(rest, last, name, rtype);
      EnsureAllLast(rrs, rest, last);
      EnsureAllLast(Without(rrs, name, rtype), Without(rest, name, rtype), last);
      EnsureAllLast(Only(rrs, name, rtype), Only(rest, name, rtype), last);
    }
  }

  lemma EnsureAllNone(rrs: seq<RR>, name: string, rtype: nat)
    ensures forall s: seq<RR> :: EnsureAll(s, []) == s
    ensures Without([], name, rtype) == [] && Only([], name, rtype) == []
  {
  }

  lemma EnsureAllLast(rrs: seq<RR>, rest: seq<RR>, last: RR)
    ensures EnsureAll(rrs, rest + [last]) == Ensure(EnsureAll(rrs, rest), last)
    ensures EnsureAll(rrs, rest + []) == EnsureAll(rrs, rest)
  {
    assert (rest + [last])[..|rest|] == rest;
    assert rest + [] == rest;
  }

  lemma PrintedParts(parse: Parser, rest: seq<RR>, last: RR)
    requires AllPrinted(parse, rest + [last])
    ensures AllPrinted(parse, rest) && Printed(parse, last)
  {
    forall k | 0 <= k < |rest| ensures Printed(parse, rest[k]) { assert (rest + [last])[k] == rest[k]; }
    assert (rest + [last])[|rest|] == last;
  }

  lemma EnsureParts(parse: Parser, rrs: seq<RR>, r: RR, name: string, rtype: nat)
    requires AllPrinted(parse, rrs) && Printed(parse, r)
    ensures Without(Ensure(rrs, r), name, rtype)
      == if At(r, name, rtype) then Without(rrs, name, rtype) else Ensure(Without(rrs, name, rtype), r)
    ensures Only(Ensure(rrs, r), name, rtype)
      == if At(r, name, rtype) then Ensure(Only(rrs, name, rtype), r) else Only(rrs, name, rtype)
  {
    hide AllPrinted, HasText, Printed;
    var kept, only := Without(rrs, name, rtype), Only(rrs, name, rtype);
    WithoutPrinted(parse, rrs, name, rtype);
    OnlyMembers(rrs, name, rtype);
    OnlyPrinted(parse, rrs, name, rtype);
    EnsurePrinted(parse, rrs, r);
    EnsurePrinted(parse, kept, r);
    EnsurePrinted(parse, only, r);
    InWithout(rrs, r, name, rtype);
    WithoutAppend(rrs, r, name, rtype);
    OnlyAppend(rrs, r, name, rtype);
  }

  lemma InWithout(rrs: seq<RR>, r: RR, name: string, rtype: nat)
    ensures r in Without(rrs, name, rtype) <==> r in rrs && !At(r, name, rtype)
  {
    WithoutMembers(rrs, name, rtype);
    assert r in Without(rrs, name, rtype) <==> multiset(Without(rrs, name, rtype))[r] > 0;
    assert r in rrs <==> multiset(rrs)[r] > 0;
  }

  lemma OnlyPrinted(parse: Parser, rrs: seq<RR>, name: string, rtype: nat)
    requires AllPrinted(parse, rrs)
    ensures AllPrinted(parse, Only(rrs, name, rtype))
  {
    OnlyMembers(rrs, name, rtype);
    var only := Only(rrs, name, rtype);
    forall k | 0 <= k < |only| ensures Printed(parse, only[k]) { assert only[k] in only && only[k] in rrs; }
  }

  /** A list is its two parts. */
  lemma {:induction false} PartsMakeWhole(rrs: seq<RR>, name: string, rtype: nat)
    ensures multiset(Without(rrs, name, rtype)) + multiset(Only(rrs, name, rtype)) == multiset(rrs)
    ensures |Without(rrs, name, rtype)| + |Only(rrs, name, rtype)| == |rrs|
    decreases |rrs|
  {
    hide Without, Only;
    if rrs == [] {
      EnsureAllNone(rrs, name, rtype);
    } else {
      var rest, last := rrs[..|rrs| - 1], rrs[|rrs| - 1];
      PartsMakeWhole(rest, name, rtype);
      WithoutAppend(rest, last, name, rtype);
      OnlyAppend(rest, last, name, rtype);
      assert rrs == rest + [last];
      WholeGrows(Without(rest, name, rtype), Only(rest, name, rtype), rest, last);
    }
  }

  lemma WholeGrows(a: seq<RR>, b: seq<RR>, whole: seq<RR>, r: RR)
    requires multiset(a) + multiset(b) == multiset(whole)
    ensures multiset(a + [r]) + multiset(b + []) == multiset(whole + [r])
    ensures multiset(a) + multiset(b + [r]) == multiset(whole + [r])
  {
    assert b + [] == b;
  }

  /** What a call makes of the apex SOA records, and of all the others. */
  lemma RootParts(c: Codec, zone: string, ttl: nat, t: Template, i: Input, serial: nat, rrs: seq<RR>)
    requires Sound(c) && AllHeaded(c, rrs)
    ensures var out, o := RootRecords(c, zone, ttl, t, i, serial, rrs), zone + ".";
      var wanted := Wanted(c, zone, ttl, t, i);
      && Without(out, o, TYPE_SOA) == EnsureAll(Without(rrs, o, TYPE_SOA), Without(wanted, o, TYPE_SOA))
      && Only(out, o, TYPE_SOA) == EnsureAll([c.soa(t, o, ttl, serial)], Only(wanted, o, TYPE_SOA))
  {
    hide Wanted, EnsureAll, Only, Without, Ensure, AllPrinted, Sound;
    var o := zone + ".";
    var kept, soa, wanted := Without(rrs, o, TYPE_SOA), c.soa(t, o, ttl, serial), Wanted(c, zone, ttl, t, i);
    WantedHeaded(c, zone, ttl, t, i);
    FreshSOA(c, zone, ttl, t, serial, rrs);
    SOAIsAtApex(c, t, o, ttl, serial);
    AppendPrinted(Plain(c.header), kept, soa);
    EnsureAllParts(Plain(c.header), kept + [soa], wanted, o, TYPE_SOA);
    WithoutTwice(rrs, o, TYPE_SOA);
    WithoutAppend(kept, soa, o, TYPE_SOA);
  }

  lemma SOAIsAtApex(c: Codec, t: Template, o: string, ttl: nat, serial: nat)
    requires Sound(c)
    ensures SOASound(c, o, ttl, c.soa(t, o, ttl, serial))
  {
  }

  lemma WithoutTwice(rrs: seq<RR>, name: string, rtype: nat)
    ensures Without(Without(rrs, name, rtype), name, rtype) == Without(rrs, name, rtype)
  {
    var kept := Without(rrs, name, rtype);
    forall r | r in kept ensures !At(r, name, rtype) { InWithout(rrs, r, name, rtype); }
    WithoutNothing(kept, name, rtype);
  }

  // ---------------------------------------------------------------- what comes back from a file

  predicate Reads(parse: Parser, r: RR) {
    parse(r.text).Some?
  }

  ghost predicate AllRead(parse: Parser, rrs: seq<RR>) {
    forall r :: r in rrs ==> Reads(parse, r)
  }

  /** The records as they read, by position. */
  ghost predicate ReadAs(parse: Parser, rrs: seq<RR>, back: seq<RR>) {
    |back| == |rrs| && forall k :: 0 <= k < |rrs| ==> parse(rrs[k].text) == Some(back[k])
  }

  lemma {:induction false} ParseAllReads(parse: Parser, rrs: seq<RR>)
    ensures ParseAll(parse, Texts(rrs)).Some? <==> AllRead(parse, rrs)
    ensures ParseAll(parse, Texts(rrs)).Some? ==> ReadAs(parse, rrs, ParseAll(parse, Texts(rrs)).value)
    decreases |rrs|
  {
    if rrs == [] {
    } else {
      assert Texts(rrs)[1..] == Texts(rrs[1..]);
      ParseAllReads(parse, rrs[1..]);
      assert rrs == [rrs[0]] + rrs[1..];
      assert AllRead(parse, rrs) <==> Reads(parse, rrs[0]) && AllRead(parse, rrs[1..]);
    }
  }

  ghost predicate SameHeaders(a: seq<RR>, b: seq<RR>) {
    && |a| == |b|
    && forall k :: 0 <= k < |a| ==> a[k].name == b[k].name && a[k].rtype == b[k].rtype && a[k].ttl == b[k].ttl
  }

  lemma {:induction false} SameFirstTTL(a: seq<RR>, b: seq<RR>)
    requires SameHeaders(a, b)
    ensures FirstTTL(a) == FirstTTL(b)
    decreases |a|
  {
    if a == [] {
    } else {
      SameFirstTTL(a[1..], b[1..]);
    }
  }

  /** Removal goes by the headers. */
  lemma {:induction false} SameWithout(a: seq<RR>, b: seq<RR>, name: string, rtype: nat)
    requires SameHeaders(a, b)
    ensures |Without(a, name, rtype)| == |Without(b, name, rtype)|
    ensures (forall k :: 0 <= k < |a| ==> a[k] == b[k] || At(a[k], name, rtype)) ==>
      Without(a, name, rtype) == Without(b, name, rtype)
    decreases |a|
  {
    if a == [] {
    } else {
      SameWithout(a[..|a| - 1], b[..|b| - 1], name, rtype);
    }
  }

  lemma HeadersComeBack(parse: Parser, rrs: seq<RR>, back: seq<RR>)
    requires ReadAs(parse, rrs, back) && forall r :: r in rrs ==> KeepsHeader(parse, r)
    ensures SameHeaders(rrs, back)
  {
    forall k | 0 <= k < |rrs|
      ensures rrs[k].name == back[k].name && rrs[k].rtype == back[k].rtype && rrs[k].ttl == back[k].ttl
    {
      assert KeepsHeader(parse, rrs[k]);
    }
  }

  lemma ReadBackSound(c: Codec, zone: string, rrs: seq<RR>, back: seq<RR>)
    requires Sound(c) && ReadAs(c.parse(zone), rrs, back)
    ensures AllPrinted(c.parse(zone), back) && AllHeaded(c, back)
  {
    hide Plain, Printed;
    forall k | 0 <= k < |back| ensures ReadSound(c, zone, back[k]) {
      assert c.parse(zone)(rrs[k].text) == Some(back[k]);
    }
  }

  lemma PrintedIsSound(c: Codec, zone: string, rrs: seq<RR>)
    requires Sound(c) && AllPrinted(c.parse(zone), rrs)
    ensures AllHeaded(c, rrs)
  {
    forall k | 0 <= k < |rrs| ensures Headed(c, rrs[k]) {
      assert Printed(c.parse(zone), rrs[k]);
      assert ReadSound(c, zone, rrs[k]);
    }
  }

  // ---------------------------------------------------------------- the records of one call, read again

  /** Only the name servers among the wanted records may come back changed, and they keep their header. */
  lemma WantedReads(c: Codec, zone: string, ttl: nat, t: Template, i: Input)
    requires Sound(c)
    ensures var parse, ns := c.parse(zone), Nameservers(c, zone + ".", ttl, t.nameservers);
      && (forall w ::
        w in ns ==> w in Wanted(c, zone, ttl, t, i) && At(w, zone + ".", TYPE_NS) && KeepsHeader(parse, w))
      && (forall w :: w in Wanted(c, zone, ttl, t, i) ==> w in ns || Printed(parse, w))
  {
    hide Customs, Addresses, KeepsHeader, Headed;
    var o, parse := zone + ".", c.parse(zone);
    var ns := Nameservers(c, o, ttl, t.nameservers);
    CustomsSound(c, zone, zone, ttl, t.records);
    AddressesSound(c, zone, o, ttl, i.ip4, i.ip6);
    forall w | w in ns ensures At(w, o, TYPE_NS) && KeepsHeader(parse, w) {
      var k :| 0 <= k < |t.nameservers| && c.ns(o, ttl, t.nameservers[k]) == w;
      assert NSSound(c, o, ttl, w);
    }
  }

  lemma PrintedKeeps(parse: Parser, r: RR)
    requires Printed(parse, r)
    ensures Reads(parse, r) && KeepsHeader(parse, r)
  {
  }

  lemma FreshSOAStays(c: Codec, zone: string, ttl: nat, t: Template, i: Input, serial: nat, rrs: seq<RR>)
    requires Sound(c) && AllHeaded(c, rrs)
    ensures c.soa(t, zone + ".", ttl, serial) in RootRecords(c, zone, ttl, t, i, serial, rrs)
  {
    hide Wanted, Without, EnsureAll, Sound;
    var kept, soa := Without(rrs, zone + ".", TYPE_SOA), c.soa(t, zone + ".", ttl, serial);
    FreshSOA(c, zone, ttl, t, serial, rrs);
    EnsureAllTail(kept + [soa], Wanted(c, zone, ttl, t, i));
    assert (kept + [soa])[|kept|] == soa;
  }

  lemma RecordsOfCall(c: Codec, zone: string, ttl: nat, t: Template, i: Input, serial: nat, rrs: seq<RR>)
    requires Sound(c) && AllPrinted(c.parse(zone), rrs)
    ensures var out, o, parse := RootRecords(c, zone, ttl, t, i, serial, rrs), zone + ".", c.parse(zone);
      var soa, ns := c.soa(t, o, ttl, serial), Nameservers(c, o, ttl, t.nameservers);
      && AllHeaded(c, rrs) && AllHeaded(c, out) && soa in out && At(soa, o, TYPE_SOA)
      && (forall r :: r in ns ==> r in out)
      && (forall r :: r in out ==> r == soa || r in ns || Printed(parse, r))
      && (forall r :: r in out ==> KeepsHeader(parse, r))
      && (AllRead(parse, out) <==> Reads(parse, soa) && AllRead(parse, ns))
  {
    hide RootRecords, Wanted, Without, Only, KeepsHeader, Reads, Sound, AllHeaded, Nameservers, Printed;
    var out, o, parse := RootRecords(c, zone, ttl, t, i, serial, rrs), zone + ".", c.parse(zone);
    PrintedIsSound(c, zone, rrs);
    RootRecordsAre(c, zone, ttl, t, i, serial, rrs);
    FreshSOAStays(c, zone, ttl, t, i, serial, rrs);
    WantedReads(c, zone, ttl, t, i);
    SOAKeeps(c, zone, t, o, ttl, serial);
    forall r | r in out
      ensures r == c.soa(t, o, ttl, serial) || r in Nameservers(c, o, ttl, t.nameservers) || Printed(parse, r)
      ensures KeepsHeader(parse, r)
    {
      if r in Without(rrs, o, TYPE_SOA) {
        InWithout(rrs, r, o, TYPE_SOA);
        assert Printed(parse, r) by { var k :| 0 <= k < |rrs| && rrs[k] == r; }
      }
      if Printed(parse, r) { PrintedKeeps(parse, r); }
    }
    forall r | Printed(parse, r) ensures Reads(parse, r) { PrintedKeeps(parse, r); }
  }

  lemma SOAKeeps(c: Codec, zone: string, t: Template, o: string, ttl: nat, serial: nat)
    requires Sound(c)
    ensures KeepsHeader(c.parse(zone), c.soa(t, o, ttl, serial)) && At(c.soa(t, o, ttl, serial), o, TYPE_SOA)
  {
    hide KeepsHeader, Headed;
    assert SOASound(c, o, ttl, c.soa(t, o, ttl, serial));
  }

  /** Everything but the apex SOA comes back in place, and unchanged if the name servers read back as themselves. */
  lemma RestComesBack(c: Codec, zone: string, ttl: nat, t: Template, i: Input, serial: nat, rrs: seq<RR>, back: seq<RR>)
    requires Sound(c) && AllPrinted(c.parse(zone), rrs)
    requires ReadAs(c.parse(zone), Ordered(RootRecords(c, zone, ttl, t, i, serial, rrs)), back)
    ensures var out, o := Ordered(RootRecords(c, zone, ttl, t, i, serial, rrs)), zone + ".";
      && SameHeaders(out, back) && |Without(back, o, TYPE_SOA)| == |Without(out, o, TYPE_SOA)|
      && (AllPrinted(c.parse(zone), Nameservers(c, o, ttl, t.nameservers)) ==>
        Without(back, o, TYPE_SOA) == Without(out, o, TYPE_SOA))
  {
    hide RootRecords, Wanted, Without, KeepsHeader, Sound, AllHeaded, Nameservers, SameHeaders, Ordered, AllRead, At;
    var o, parse := zone + ".", c.parse(zone);
    var first := RootRecords(c, zone, ttl, t, i, serial, rrs);
    var out, ns := Ordered(first), Nameservers(c, o, ttl, t.nameservers);
    RecordsOfCall(c, zone, ttl, t, i, serial, rrs);
    SameMembers(first);
    HeadersComeBack(parse, out, back);
    if AllPrinted(parse, ns) {
      forall k | 0 <= k < |out| ensures out[k] == back[k] || At(out[k], o, TYPE_SOA) {
        assert out[k] in out;
        if out[k] in ns { assert Printed(parse, out[k]) by { var j :| 0 <= j < |ns| && ns[j] == out[k]; } }
      }
    }
    SameWithout(out, back, o, TYPE_SOA);
  }

  lemma SameMembers(rrs: seq<RR>)
    ensures forall r :: r in Ordered(rrs) <==> r in rrs
    ensures |Ordered(rrs)| == |rrs|
  {
    OrderedIsSort(rrs);
    assert forall r :: r in rrs <==> r in multiset(rrs);
    assert forall r :: r in Ordered(rrs) <==> r in multiset(Ordered(rrs));
    assert |multiset(rrs)| == |rrs| && |multiset(Ordered(rrs))| == |Ordered(rrs)|;
  }

  /** With name servers that read back as themselves, the next call puts the new SOA records where the old ones
      were and changes nothing else. */
  lemma SecondCallSettles(c: Codec, zone: string, ttl: nat, t: Template, i: Input, s1: nat, s2: nat, rrs: seq<RR>,
          back: seq<RR>)
    requires Sound(c) && AllPrinted(c.parse(zone), rrs)
    requires ReadAs(c.parse(zone), Ordered(RootRecords(c, zone, ttl, t, i, s1, rrs)), back)
    requires AllPrinted(c.parse(zone), Nameservers(c, zone + ".", ttl, t.nameservers))
    ensures var o, first := zone + ".", RootRecords(c, zone, ttl, t, i, s1, rrs);
      var second := RootRecords(c, zone, ttl, t, i, s2, back);
      && Without(second, o, TYPE_SOA) == Without(Ordered(first), o, TYPE_SOA)
      && Only(second, o, TYPE_SOA)
        == EnsureAll([c.soa(t, o, ttl, s2)], Only(Wanted(c, zone, ttl, t, i), o, TYPE_SOA))
      && (s1 == s2 ==> multiset(second) == multiset(first))
  {
    hide RootRecords, Wanted, Without, Only, Sound, AllHeaded, Nameservers, Ordered, EnsureAll, At;
    var o, first := zone + ".", RootRecords(c, zone, ttl, t, i, s1, rrs);
    var out, wanted := Ordered(first), Wanted(c, zone, ttl, t, i);
    RecordsOfCall(c, zone, ttl, t, i, s1, rrs);
    RestComesBack(c, zone, ttl, t, i, s1, rrs, back);
    ReadBackSound(c, zone, out, back);
    RootParts(c, zone, ttl, t, i, s1, rrs);
    RootParts(c, zone, ttl, t, i, s2, back);
    WantedStays(c, zone, ttl, t, i, s1, rrs, back);
    PartsMakeWhole(first, o, TYPE_SOA);
    PartsMakeWhole(RootRecords(c, zone, ttl, t, i, s2, back), o, TYPE_SOA);
    OrderedIsSort(first);
    WithoutPermuted(first, out, o, TYPE_SOA);
  }

  lemma WithoutPermuted(a: seq<RR>, b: seq<RR>, name: string, rtype: nat)
    requires multiset(a) == multiset(b)
    ensures multiset(Without(a, name, rtype)) == multiset(Without(b, name, rtype))
    ensures |Without(a, name, rtype)| == |Without(b, name, rtype)|
  {
    WithoutMembers(a, name, rtype);
    WithoutMembers(b, name, rtype);
    assert |multiset(Without(a, name, rtype))| == |Without(a, name, rtype)|;
    assert |multiset(Without(b, name, rtype))| == |Without(b, name, rtype)|;
  }

  /** What was wanted and came back is not added again. */
  lemma WantedStays(c: Codec, zone: string, ttl: nat, t: Template, i: Input, serial: nat, rrs: seq<RR>, back: seq<RR>)
    requires Sound(c) && AllHeaded(c, rrs) && AllHeaded(c, back)
    requires Without(back, zone + ".", TYPE_SOA)
      == Without(Ordered(RootRecords(c, zone, ttl, t, i, serial, rrs)), zone + ".", TYPE_SOA)
    ensures var kept := Without(back, zone + ".", TYPE_SOA);
      EnsureAll(kept, Without(Wanted(c, zone, ttl, t, i), zone + ".", TYPE_SOA)) == kept
  {
    hide RootRecords, Wanted, Without, Sound, AllPrinted, Ordered, EnsureAll, At;
    var o, first, wanted := zone + ".", RootRecords(c, zone, ttl, t, i, serial, rrs), Wanted(c, zone, ttl, t, i);
    RootRecordsAre(c, zone, ttl, t, i, serial, rrs);
    SameMembers(first);
    WantedHeaded(c, zone, ttl, t, i);
    WithoutPrinted(Plain(c.header), wanted, o, TYPE_SOA);
    WithoutPrinted(Plain(c.header), back, o, TYPE_SOA);
    forall w | w in Without(wanted, o, TYPE_SOA) ensures w in Without(Ordered(first), o, TYPE_SOA) {
      InWithout(wanted, w, o, TYPE_SOA);
      InWithout(Ordered(first), w, o, TYPE_SOA);
    }
    EnsureAllPresent(Plain(c.header), Without(back, o, TYPE_SOA), Without(wanted, o, TYPE_SOA));
  }

  /** A name server that does not read back as itself is written once more by the next call. */
  lemma SecondCallGrows(c: Codec, zone: string, ttl: nat, t: Template, i: Input, s1: nat, s2: nat, rrs: seq<RR>,
          back: seq<RR>)
    requires Sound(c) && AllPrinted(c.parse(zone), rrs)
    requires ReadAs(c.parse(zone), Ordered(RootRecords(c, zone, ttl, t, i, s1, rrs)), back)
    requires !AllPrinted(c.parse(zone), Nameservers(c, zone + ".", ttl, t.nameservers))
    ensures var o, first := zone + ".", RootRecords(c, zone, ttl, t, i, s1, rrs);
      var second := RootRecords(c, zone, ttl, t, i, s2, back);
      |Without(second, o, TYPE_SOA)| > |Without(first, o, TYPE_SOA)| && (s1 == s2 ==> |second| > |first|)
  {
    hide RootRecords, Wanted, Without, Only, Sound, AllHeaded, Nameservers, Ordered, EnsureAll;
    var o, parse, first := zone + ".", c.parse(zone), RootRecords(c, zone, ttl, t, i, s1, rrs);
    var out, ns, wanted := Ordered(first), Nameservers(c, o, ttl, t.nameservers), Wanted(c, zone, ttl, t, i);
    var k :| 0 <= k < |ns| && !Printed(parse, ns[k]);
    RecordsOfCall(c, zone, ttl, t, i, s1, rrs);
    RestComesBack(c, zone, ttl, t, i, s1, rrs, back);
    ReadBackSound(c, zone, out, back);
    RootParts(c, zone, ttl, t, i, s1, rrs);
    RootParts(c, zone, ttl, t, i, s2, back);
    WantedReads(c, zone, ttl, t, i);
    WantedHeaded(c, zone, ttl, t, i);
    InWithout(wanted, ns[k], o, TYPE_SOA);
    AddedIsLonger(c, zone, back, wanted, ns[k], o);
    PartsMakeWhole(first, o, TYPE_SOA);
    PartsMakeWhole(RootRecords(c, zone, ttl, t, i, s2, back), o, TYPE_SOA);
    OrderedIsSort(first);
    WithoutPermuted(first, out, o, TYPE_SOA);
  }

  lemma AddedIsLonger(c: Codec, zone: string, back: seq<RR>, wanted: seq<RR>, w: RR, o: string)
    requires AllPrinted(c.parse(zone), back) && AllHeaded(c, back) && AllHeaded(c, wanted)
    requires w in Without(wanted, o, TYPE_SOA) && !Printed(c.parse(zone), w)
    ensures |EnsureAll(Without(back, o, TYPE_SOA), Without(wanted, o, TYPE_SOA))| > |Without(back, o, TYPE_SOA)|
  {
    hide Without, EnsureAll, Printed;
    var kept, more := Without(back, o, TYPE_SOA), Without(wanted, o, TYPE_SOA);
    WithoutPrinted(Plain(c.header), back, o, TYPE_SOA);
    WithoutPrinted(Plain(c.header), wanted, o, TYPE_SOA);
    EnsureAllFacts(Plain(c.header), kept, more);
    InWithout(back, w, o, TYPE_SOA);
    assert w !in back;
  }

  // ---------------------------------------------------------------- through the zone file

  /** The zone TTL that the next call goes by: that of the first record that has one. */
  function NextTTL(first: seq<RR>, t: Template): nat {
    OrDefault(OrDefault(FirstTTL(Ordered(first)), t.ttl), 3600)
  }

  /** `dir` is what a call of EnsureRootSite on the zone model `z` wrote. */
  ghost predicate Called(cfg: Config, i: Input, serial: nat, dir: Directory, z: ZoneModel) {
    && Sound(cfg.codec) && AllPrinted(cfg.codec.parse(i.fqdn), z.rrs) && z.ttl > 0
    && i.fqdn in dir && dir[i.fqdn] == RootFile(cfg, i, serial, z)
  }

  ghost predicate NameserversReadBack(cfg: Config, i: Input, ttl: nat) {
    var t := TemplateFor(cfg, i.template);
    AllPrinted(cfg.codec.parse(i.fqdn), Nameservers(cfg.codec, i.fqdn + ".", ttl, t.nameservers))
  }

  /** The file of a call can be read by the next exactly if its SOA and its name servers can. */
  lemma CalledReads(cfg: Config, i: Input, serial: nat, dir: Directory, z: ZoneModel)
    requires Called(cfg, i, serial, dir, z)
    ensures var t, c, o := TemplateFor(cfg, i.template), cfg.codec, i.fqdn + ".";
      var first, z' := RootRecords(c, i.fqdn, z.ttl, t, i, serial, z.rrs), RootZone(cfg, dir, i.fqdn, t);
      && (z'.Some? <==>
        Reads(c.parse(i.fqdn), c.soa(t, o, z.ttl, serial)) &&
          AllRead(c.parse(i.fqdn), Nameservers(c, o, z.ttl, t.nameservers)))
      && (z'.Some? ==>
        && ReadAs(c.parse(i.fqdn), Ordered(first), z'.value.rrs) && z'.value.ttl == NextTTL(first, t)
        && AllPrinted(c.parse(i.fqdn), z'.value.rrs) && AllHeaded(c, z'.value.rrs))
  {
    hide RootRecords, Nameservers, Ordered, Sound, AllHeaded, Texts, FirstTTL, ParseAll, AllPrinted, ReadAs, Reads,
        SameHeaders;
    var t, c, parse := TemplateFor(cfg, i.template), cfg.codec, cfg.codec.parse(i.fqdn);
    var first, z' := RootRecords(c, i.fqdn, z.ttl, t, i, serial, z.rrs), RootZone(cfg, dir, i.fqdn, t);
    RecordsOfCall(c, i.fqdn, z.ttl, t, i, serial, z.rrs);
    SameMembers(first);
    ParseAllReads(parse, Ordered(first));
    if z'.Some? {
      ReadBackSound(c, i.fqdn, Ordered(first), z'.value.rrs);
      RestComesBack(c, i.fqdn, z.ttl, t, i, serial, z.rrs, z'.value.rrs);
      SameFirstTTL(Ordered(first), z'.value.rrs);
    }
  }

  ghost predicate NoSOAWanted(cfg: Config, i: Input, ttl: nat) {
    forall w ::
      w in Wanted(cfg.codec, i.fqdn, ttl, TemplateFor(cfg, i.template), i) ==> !At(w, i.fqdn + ".", TYPE_SOA)
  }

  lemma {:induction false} OnlyNone(rrs: seq<RR>, name: string, rtype: nat)
    requires forall r :: r in rrs ==> !At(r, name, rtype)
    ensures Only(rrs, name, rtype) == []
    decreases |rrs|
  {
    if rrs == [] {
    } else {
      OnlyNone(rrs[..|rrs| - 1], name, rtype);
    }
  }

  lemma NoOther(c: Codec, wanted: seq<RR>, soa: RR, o: string)
    requires forall w :: w in wanted ==> !At(w, o, TYPE_SOA)
    ensures EnsureAll([soa], Only(wanted, o, TYPE_SOA)) == [soa]
  {
    OnlyNone(wanted, o, TYPE_SOA);
  }

  /** When the records of a call read back as themselves and the zone keeps its TTL, the next call leaves
      everything but the apex SOA as it is; without an SOA in the template it exchanges the serial and nothing
      else, and with the same serial it writes the same file. */
  lemma EnsureRootTwice(cfg: Config, i: Input, s1: nat, s2: nat, dir: Directory, z: ZoneModel)
    requires Called(cfg, i, s1, dir, z)
    requires var t, c := TemplateFor(cfg, i.template), cfg.codec;
      && Reads(c.parse(i.fqdn), c.soa(t, i.fqdn + ".", z.ttl, s1)) && NameserversReadBack(cfg, i, z.ttl)
      && NextTTL(RootRecords(c, i.fqdn, z.ttl, t, i, s1, z.rrs), t) == z.ttl
    ensures var t, c, o := TemplateFor(cfg, i.template), cfg.codec, i.fqdn + ".";
      var z' := RootZone(cfg, dir, i.fqdn, t);
      z'.Some? && z'.value.ttl == z.ttl &&
      var first, second := RootRecords(c, i.fqdn, z.ttl, t, i, s1, z.rrs),
          RootRecords(c, i.fqdn, z.ttl, t, i, s2, z'.value.rrs);
      && RootFile(cfg, i, s2, z'.value) == Write(i.fqdn, ZoneModel(z.ttl, second))
      && Without(second, o, TYPE_SOA) == Without(Ordered(first), o, TYPE_SOA)
      && (NoSOAWanted(cfg, i, z.ttl) ==>
        multiset(second) == multiset(first) - multiset{c.soa(t, o, z.ttl, s1)} + multiset{c.soa(t, o, z.ttl, s2)})
      && (s1 == s2 ==> RootFile(cfg, i, s2, z'.value) == dir[i.fqdn])
  {
    hide RootRecords, Wanted, Nameservers, Ordered, Sound, AllHeaded, AllPrinted, ReadAs, Reads, Without, Only,
        EnsureAll, Write, NextTTL;
    var t, c, o := TemplateFor(cfg, i.template), cfg.codec, i.fqdn + ".";
    CalledReads(cfg, i, s1, dir, z);
    ReadableNameservers(c.parse(i.fqdn), Nameservers(c, o, z.ttl, t.nameservers));
    var back := RootZone(cfg, dir, i.fqdn, t).value.rrs;
    var first, second := RootRecords(c, i.fqdn, z.ttl, t, i, s1, z.rrs), RootRecords(c, i.fqdn, z.ttl, t, i, s2, back);
    SecondCallSettles(c, i.fqdn, z.ttl, t, i, s1, s2, z.rrs, back);
    PrintedIsSound(c, i.fqdn, z.rrs);
    RootParts(c, i.fqdn, z.ttl, t, i, s1, z.rrs);
    if NoSOAWanted(cfg, i, z.ttl) {
      NoOther(c, Wanted(c, i.fqdn, z.ttl, t, i), c.soa(t, o, z.ttl, s1), o);
      NoOther(c, Wanted(c, i.fqdn, z.ttl, t, i), c.soa(t, o, z.ttl, s2), o);
      PartsMakeWhole(first, o, TYPE_SOA);
      PartsMakeWhole(second, o, TYPE_SOA);
      OrderedIsSort(first);
      WithoutPermuted(first, Ordered(first), o, TYPE_SOA);
    }
    if s1 == s2 { SameRecordsSameFile(c, i.fqdn, z.ttl, t, i, s1, z.rrs, back); }
  }

  lemma ReadableNameservers(parse: Parser, rrs: seq<RR>)
    requires AllPrinted(parse, rrs)
    ensures AllRead(parse, rrs)
  {
  }

  lemma SameRecordsSameFile(c: Codec, zone: string, ttl: nat, t: Template, i: Input, serial: nat, a: seq<RR>,
          b: seq<RR>)
    requires Sound(c) && AllHeaded(c, a) && AllHeaded(c, b)
    requires multiset(RootRecords(c, zone, ttl, t, i, serial, a))
      == multiset(RootRecords(c, zone, ttl, t, i, serial, b))
    ensures Write(zone, ZoneModel(ttl, RootRecords(c, zone, ttl, t, i, serial, a)))
      == Write(zone, ZoneModel(ttl, RootRecords(c, zone, ttl, t, i, serial, b)))
  {
    hide RootRecords, Wanted, Sound, AllPrinted, Write;
    RootRecordsAre(c, zone, ttl, t, i, serial, a);
    RootRecordsAre(c, zone, ttl, t, i, serial, b);
    WriteIsCanonical(Plain(c.header), zone, ZoneModel(ttl, RootRecords(c, zone, ttl, t, i, serial, a)),
        ZoneModel(ttl, RootRecords(c, zone, ttl, t, i, serial, b)));
  }

  /** Exactly when calling again with the same serial writes the same file: the file can be read, every name
      server reads back as itself, and the first record with a TTL carries the one of the zone. */
  lemma RootSettlesExactly(cfg: Config, i: Input, serial: nat, dir: Directory, z: ZoneModel)
    requires Called(cfg, i, serial, dir, z)
    ensures var t, c := TemplateFor(cfg, i.template), cfg.codec;
      var z' := RootZone(cfg, dir, i.fqdn, t);
      z'.Some? && RootFile(cfg, i, serial, z'.value) == dir[i.fqdn] <==>
        && Reads(c.parse(i.fqdn), c.soa(t, i.fqdn + ".", z.ttl, serial)) && NameserversReadBack(cfg, i, z.ttl)
        && NextTTL(RootRecords(c, i.fqdn, z.ttl, t, i, serial, z.rrs), t) == z.ttl
  {
    hide RootRecords, Wanted, Nameservers, Ordered, Sound, AllHeaded, AllPrinted, ReadAs, Reads, FirstTTL;
    var t, c, o := TemplateFor(cfg, i.template), cfg.codec, i.fqdn + ".";
    var z' := RootZone(cfg, dir, i.fqdn, t);
    CalledReads(cfg, i, serial, dir, z);
    if z'.Some? && RootFile(cfg, i, serial, z'.value) == dir[i.fqdn] {
      assert z'.value.ttl == z.ttl;
      if !NameserversReadBack(cfg, i, z.ttl) { RootGrows(cfg, i, serial, serial, dir, z); }
    } else if Reads(c.parse(i.fqdn), c.soa(t, o, z.ttl, serial)) && NameserversReadBack(cfg, i, z.ttl)
      && NextTTL(RootRecords(c, i.fqdn, z.ttl, t, i, serial, z.rrs), t) == z.ttl {
      EnsureRootTwice(cfg, i, serial, serial, dir, z);
    }
  }

  /** With a name server that does not read back as itself, the next call adds a record, and a line to the file
      unless the template brings SOA records of its own and the serial changed. */
  lemma RootGrows(cfg: Config, i: Input, s1: nat, s2: nat, dir: Directory, z: ZoneModel)
    requires Called(cfg, i, s1, dir, z) && !NameserversReadBack(cfg, i, z.ttl)
    requires var t := TemplateFor(cfg, i.template);
      && RootZone(cfg, dir, i.fqdn, t).Some?
      && NextTTL(RootRecords(cfg.codec, i.fqdn, z.ttl, t, i, s1, z.rrs), t) == z.ttl
    ensures var t, c, o := TemplateFor(cfg, i.template), cfg.codec, i.fqdn + ".";
      var z' := RootZone(cfg, dir, i.fqdn, t).value;
      && |Without(RootRecords(c, i.fqdn, z.ttl, t, i, s2, z'.rrs), o, TYPE_SOA)|
        > |Without(RootRecords(c, i.fqdn, z.ttl, t, i, s1, z.rrs), o, TYPE_SOA)|
      && (s1 == s2 || NoSOAWanted(cfg, i, z.ttl) ==>
        |RootFile(cfg, i, s2, z').lines| > |dir[i.fqdn].lines|)
  {
    hide RootRecords, Wanted, Nameservers, Ordered, Sound, AllHeaded, AllPrinted, ReadAs, Without, Only, EnsureAll,
        NextTTL;
    var t, c, o := TemplateFor(cfg, i.template), cfg.codec, i.fqdn + ".";
    CalledReads(cfg, i, s1, dir, z);
    var back := RootZone(cfg, dir, i.fqdn, t).value.rrs;
    var first, second := RootRecords(c, i.fqdn, z.ttl, t, i, s1, z.rrs), RootRecords(c, i.fqdn, z.ttl, t, i, s2, back);
    SecondCallGrows(c, i.fqdn, z.ttl, t, i, s1, s2, z.rrs, back);
    if NoSOAWanted(cfg, i, z.ttl) {
      PrintedIsSound(c, i.fqdn, z.rrs);
      RootParts(c, i.fqdn, z.ttl, t, i, s1, z.rrs);
      RootParts(c, i.fqdn, z.ttl, t, i, s2, back);
      NoOther(c, Wanted(c, i.fqdn, z.ttl, t, i), c.soa(t, o, z.ttl, s1), o);
      NoOther(c, Wanted(c, i.fqdn, z.ttl, t, i), c.soa(t, o, z.ttl, s2), o);
      PartsMakeWhole(first, o, TYPE_SOA);
      PartsMakeWhole(second, o, TYPE_SOA);
    }
    SameMembers(first);
    SameMembers(second);
  }

  /** With a first record of another TTL the zone takes that one over, and every name server is there twice: as it
      was read, and again with the new TTL. */
  lemma RootTTLDrifts(cfg: Config, i: Input, s1: nat, s2: nat, dir: Directory, z: ZoneModel)
    requires Called(cfg, i, s1, dir, z) && RootZone(cfg, dir, i.fqdn, TemplateFor(cfg, i.template)).Some?
    ensures var t, c, o := TemplateFor(cfg, i.template), cfg.codec, i.fqdn + ".";
      var ttl, z' := NextTTL(RootRecords(c, i.fqdn, z.ttl, t, i, s1, z.rrs), t), RootZone(cfg, dir, i.fqdn, t).value;
      var second := RootRecords(c, i.fqdn, ttl, t, i, s2, z'.rrs);
      && RootFile(cfg, i, s2, z') == Write(i.fqdn, ZoneModel(ttl, second)) && RootFile(cfg, i, s2, z').ttl == ttl
      && forall n :: n in t.nameservers ==>
        var was := c.parse(i.fqdn)(c.ns(o, z.ttl, n).text);
        && c.ns(o, ttl, n) in second && c.ns(o, ttl, n).ttl == ttl
        && was.Some? && was.value in second && was.value.ttl == z.ttl && At(was.value, o, TYPE_NS)
  {
    hide RootRecords, Wanted, Ordered, Sound, AllHeaded, AllPrinted, FirstTTL, Only, Without, At, Texts;
    var t, c, o := TemplateFor(cfg, i.template), cfg.codec, i.fqdn + ".";
    CalledReads(cfg, i, s1, dir, z);
    var z' := RootZone(cfg, dir, i.fqdn, t).value;
    var first := RootRecords(c, i.fqdn, z.ttl, t, i, s1, z.rrs);
    forall n | n in t.nameservers
      ensures var was := c.parse(i.fqdn)(c.ns(o, z.ttl, n).text);
        && c.ns(o, z'.ttl, n) in RootRecords(c, i.fqdn, z'.ttl, t, i, s2, z'.rrs) && c.ns(o, z'.ttl, n).ttl == z'.ttl
        && was.Some? && was.value in RootRecords(c, i.fqdn, z'.ttl, t, i, s2, z'.rrs)
        && was.value.ttl == z.ttl && At(was.value, o, TYPE_NS)
    {
      NameserverStays(c, i.fqdn, z, z', t, i, s1, s2, n);
    }
  }

  lemma IsNameserver(c: Codec, o: string, ttl: nat, ns: seq<string>, n: string)
    requires Sound(c) && n in ns
    ensures c.ns(o, ttl, n) in Nameservers(c, o, ttl, ns)
    ensures At(c.ns(o, ttl, n), o, TYPE_NS) && c.ns(o, ttl, n).ttl == ttl
  {
    hide Headed;
    var k :| 0 <= k < |ns| && ns[k] == n;
    assert Nameservers(c, o, ttl, ns)[k] == c.ns(o, ttl, n);
    assert NSSound(c, o, ttl, c.ns(o, ttl, n));
  }

  lemma NameserverStays(c: Codec, zone: string, z: ZoneModel, z': ZoneModel, t: Template, i: Input, s1: nat, s2: nat,
          n: string)
    requires Sound(c) && AllPrinted(c.parse(zone), z.rrs) && AllHeaded(c, z'.rrs) && n in t.nameservers
    requires ReadAs(c.parse(zone), Ordered(RootRecords(c, zone, z.ttl, t, i, s1, z.rrs)), z'.rrs)
    ensures var o, second := zone + ".", RootRecords(c, zone, z'.ttl, t, i, s2, z'.rrs);
      var was := c.parse(zone)(c.ns(o, z.ttl, n).text);
      && c.ns(o, z'.ttl, n) in second && c.ns(o, z'.ttl, n).ttl == z'.ttl
      && was.Some? && was.value in second && was.value.ttl == z.ttl && At(was.value, o, TYPE_NS)
  {
    hide RootRecords, Wanted, Ordered, AllHeaded, AllPrinted, Only, Without, Headed;
    var o, first := zone + ".", RootRecords(c, zone, z.ttl, t, i, s1, z.rrs);
    IsNameserver(c, o, z.ttl, t.nameservers, n);
    IsNameserver(c, o, z'.ttl, t.nameservers, n);
    hide Sound, Nameservers;
    RecordsOfCall(c, zone, z.ttl, t, i, s1, z.rrs);
    SameMembers(first);
    var j :| 0 <= j < |Ordered(first)| && Ordered(first)[j] == c.ns(o, z.ttl, n);
    var was := z'.rrs[j];
    assert was in z'.rrs && KeepsHeader(c.parse(zone), Ordered(first)[j]);
    InWithout(z'.rrs, was, o, TYPE_SOA);
    WantedReads(c, zone, z'.ttl, t, i);
    RootRecordsAre(c, zone, z'.ttl, t, i, s2, z'.rrs);
  }
}
