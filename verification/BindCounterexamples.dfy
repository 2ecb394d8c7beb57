/** Concrete templates with which the zone file of a root site never settles. */
module BindCounterexamples {
  import opened Text
  import opened ZoneFiles
  import opened BindProvider
  import opened BindProofs
  import opened BindSettles
  import opened BindRefinement

  const ZONE_TTL: nat := 3600

  function Setup(nameservers: seq<string>, records: seq<RecordTemplate>): BindProvider.Config {
    BindProvider.Config(TextCodec(), map["t" := Template(ZONE_TTL, "", "", nameservers, records)], "t")
  }

  const SITE := Input("z", "", "t", "", "")
  const EMPTY := ZoneModel(ZONE_TTL, [])

  /** The zone file that the first call for a new site writes. */
  function AfterFirst(cfg: BindProvider.Config, serial: nat): Directory {
    map["z" := RootFile(cfg, SITE, serial, EMPTY)]
  }

  lemma FirstIsCalled(nameservers: seq<string>, records: seq<RecordTemplate>, serial: nat)
    ensures var cfg := Setup(nameservers, records); Called(cfg, SITE, serial, AfterFirst(cfg, serial), EMPTY)
    ensures TemplateFor(Setup(nameservers, records), "t") == Template(ZONE_TTL, "", "", nameservers, records)
  {
    hide Sound, RootFile;
    TextCodecIsSound();
  }

  /** The records of the first call are the SOA and what the template lists. */
  lemma FirstRecords(nameservers: seq<string>, records: seq<RecordTemplate>, serial: nat)
    ensures var c, t := TextCodec(), Template(ZONE_TTL, "", "", nameservers, records);
      var out := RootRecords(c, "z", ZONE_TTL, t, SITE, serial, []);
      var soa := c.soa(t, "z" + ".", ZONE_TTL, serial);
      && soa in out && soa.ttl == ZONE_TTL && At(soa, "z" + ".", TYPE_SOA)
      && (forall r :: r in Customs(c, "z", ZONE_TTL, records) ==> r in out)
      && forall r :: r in out ==>
        r == soa || (r.ttl == ZONE_TTL && At(r, "z" + ".", TYPE_NS)) || r in Customs(c, "z", ZONE_TTL, records)
  {
    hide Sound, RootRecords, Customs, Headed, KeepsHeader;
    var c, t := TextCodec(), Template(ZONE_TTL, "", "", nameservers, records);
    TextCodecIsSound();
    RootRecordsAre(c, "z", ZONE_TTL, t, SITE, serial, []);
    FreshSOAStays(c, "z", ZONE_TTL, t, SITE, serial, []);
    SOAIsAtApex(c, t, "z" + ".", ZONE_TTL, serial);
    forall n | n in nameservers
      ensures At(c.ns("z" + ".", ZONE_TTL, n), "z" + ".", TYPE_NS) && c.ns("z" + ".", ZONE_TTL, n).ttl == ZONE_TTL
    {
      IsNameserver(c, "z" + ".", ZONE_TTL, nameservers, n);
    }
  }

  lemma FirstHasOneTTL(nameservers: seq<string>, serial: nat)
    ensures var t := Template(ZONE_TTL, "", "", nameservers, []);
      NextTTL(RootRecords(TextCodec(), "z", ZONE_TTL, t, SITE, serial, []), t) == ZONE_TTL
  {
    hide RootRecords, Ordered;
    var t := Template(ZONE_TTL, "", "", nameservers, []);
    var out := RootRecords(TextCodec(), "z", ZONE_TTL, t, SITE, serial, []);
    FirstRecords(nameservers, [], serial);
    SameMembers(out);
    assert Ordered(out)[0] in Ordered(out);
  }

  /** A name server without the final dot is read back as a name in the zone, so the next call adds it again. */
  lemma RelativeNameserverGrows(s1: nat, s2: nat)
    ensures var cfg := Setup(["ns"], []); var dir := AfterFirst(cfg, s1);
      var z' := RootZone(cfg, dir, "z", TemplateFor(cfg, "t"));
      z'.Some? && |RootFile(cfg, SITE, s2, z'.value).lines| > |dir["z"].lines|
  {
    hide Sound, RootRecords, RootFile, NextTTL, ReadIn, ReadRecord, Encoded, Wanted;
    var cfg, c := Setup(["ns"], []), TextCodec();
    var dir, t := AfterFirst(cfg, s1), Template(ZONE_TTL, "", "", ["ns"], []);
    FirstIsCalled(["ns"], [], s1);
    FirstHasOneTTL(["ns"], s1);
    NameserverChanges();
    FirstReads("ns", [], s1);
    assert Nameservers(c, "z" + ".", ZONE_TTL, ["ns"]) == [c.ns("z" + ".", ZONE_TTL, "ns")];
    assert !Printed(c.parse("z"), Nameservers(c, "z" + ".", ZONE_TTL, ["ns"])[0]);
    assert NoSOAWanted(cfg, SITE, ZONE_TTL) by { OnlyNameserver(t); }
    RootGrows(cfg, SITE, s1, s2, dir, EMPTY);
  }

  lemma NameserverChanges()
    ensures !Printed(TextCodec().parse("z"), TextCodec().ns("z" + ".", ZONE_TTL, "ns"))
  {
    hide ReadRecord, Number;
    var r := Encoded("z" + ".", TYPE_NS, ZONE_TTL, "ns");
    RecordReadsBack("z" + ".", TYPE_NS, ZONE_TTL, "ns");
    assert r.text[|r.text| - 1..] == "s";
    assert ReadIn("z", r.text).value.text == r.text + ("." + "z" + ".");
  }

  lemma LiteralsRead(t: Template, serial: nat, n: string)
    ensures var c, parse := TextCodec(), TextCodec().parse("z");
      Reads(parse, c.soa(t, "z" + ".", ZONE_TTL, serial)) && Reads(parse, c.ns("z" + ".", ZONE_TTL, n))
  {
    hide ReadRecord, Encoded, ReadIn;
    var soa, ns := Encoded("z" + ".", TYPE_SOA, ZONE_TTL, Number(serial)), Encoded("z" + ".", TYPE_NS, ZONE_TTL, n);
    RecordReadsBack("z" + ".", TYPE_SOA, ZONE_TTL, Number(serial));
    RecordReadsBack("z" + ".", TYPE_NS, ZONE_TTL, n);
    ReadInKeeps("z", soa.text);
    ReadInKeeps("z", ns.text);
  }

  /** So the next call gets to the zone. */
  lemma FirstReads(n: string, records: seq<RecordTemplate>, serial: nat)
    ensures var cfg := Setup([n], records);
      RootZone(cfg, AfterFirst(cfg, serial), "z", TemplateFor(cfg, "t")).Some?
  {
    hide Sound, RootRecords, RootFile, NextTTL, ReadIn, ReadRecord, Encoded, Wanted;
    var cfg, t := Setup([n], records), Template(ZONE_TTL, "", "", [n], records);
    FirstIsCalled([n], records, serial);
    LiteralsRead(t, serial, n);
    CalledReads(cfg, SITE, serial, AfterFirst(cfg, serial), EMPTY);
  }

  lemma OnlyNameserver(t: Template)
    requires t.nameservers == ["ns"] && t.records == []
    ensures forall w :: w in Wanted(TextCodec(), "z", ZONE_TTL, t, SITE) ==> !At(w, "z" + ".", TYPE_SOA)
  {
  }

  /** A template record with a TTL of its own whose name sorts before the zone makes that the TTL of the zone, and
      the name servers are written a second time with it. */
  lemma ShortTTLTakesOver(s1: nat, s2: nat)
    ensures var cfg := Setup(["ns."], [RecordTemplate("a", "A", "v", 60)]); var dir := AfterFirst(cfg, s1);
      var z' := RootZone(cfg, dir, "z", TemplateFor(cfg, "t"));
      z'.Some? && dir["z"].ttl == ZONE_TTL && RootFile(cfg, SITE, s2, z'.value).ttl == 60
  {
    hide Sound, RootRecords, NextTTL, ReadIn, ReadRecord, Encoded, Wanted;
    var records := [RecordTemplate("a", "A", "v", 60)];
    var cfg := Setup(["ns."], records);
    FirstIsCalled(["ns."], records, s1);
    ShortTTLIsFirst(s1);
    FirstReads("ns.", records, s1);
    RootTTLDrifts(cfg, SITE, s1, s2, AfterFirst(cfg, s1), EMPTY);
  }

  lemma ShortTTLIsFirst(serial: nat)
    ensures var t := Template(ZONE_TTL, "", "", ["ns."], [RecordTemplate("a", "A", "v", 60)]);
      NextTTL(RootRecords(TextCodec(), "z", ZONE_TTL, t, SITE, serial, []), t) == 60
  {
    hide RootRecords, Ordered, Customs;
    var records := [RecordTemplate("a", "A", "v", 60)];
    var t := Template(ZONE_TTL, "", "", ["ns."], records);
    var out := RootRecords(TextCodec(), "z", ZONE_TTL, t, SITE, serial, []);
    FirstRecords(["ns."], records, serial);
    ShortRecord(records);
    OrderedIsSort(out);
    SameMembers(out);
    var short := Customs(TextCodec(), "z", ZONE_TTL, records)[0];
    FirstIsLeast(Ordered(out), short);
    assert Ordered(out)[0] in Ordered(out);
  }

  lemma ShortRecord(records: seq<RecordTemplate>)
    requires records == [RecordTemplate("a", "A", "v", 60)]
    ensures var all := Customs(TextCodec(), "z", ZONE_TTL, records);
      |all| == 1 && all[0].ttl == 60 && all[0].name[..1] == "a"
  {
    hide Number;
    assert records[..0] == [] && Customs(TextCodec(), "z", ZONE_TTL, []) == [];
  }
}
