/** Zone files of internal/dns/bind/zonefile.go: loading, canonical writing (master files of
    sections 5.1 and 5.2 of RFC 1035), insert-if-absent and in-place removal of records. */
module ZoneFiles {
  import opened Text

  const TYPE_A: nat := 1
  const TYPE_NS: nat := 2
  const TYPE_SOA: nat := 6
  const TYPE_AAAA: nat := 28

  /** A resource record with its printed form. */
  datatype RR = RR(name: string, rtype: nat, ttl: nat, text: string)

  /** How one line of a zone file reads. */
  type Parser = string -> Option<RR>

  /** Printing and reading agree on this record, so its text determines it. */
  predicate Printed(parse: Parser, r: RR) {
    parse(r.text) == Some(r)
  }

  ghost predicate AllPrinted(parse: Parser, rrs: seq<RR>) {
    forall i :: 0 <= i < |rrs| ==> Printed(parse, rrs[i])
  }

  datatype ZoneModel = ZoneModel(ttl: nat, rrs: seq<RR>)
  datatype ZoneFile = ZoneFile(origin: string, ttl: nat, lines: seq<string>)

  // ---------------------------------------------------------------- the three-key order

  /** The less-or-equal of orderedRRs: name, then type, then text. */
  predicate Before(a: RR, b: RR) {
    if a.name != b.name then Le(a.name, b.name)
    else if a.rtype != b.rtype then a.rtype < b.rtype
    else Le(a.text, b.text)
  }

  lemma BeforeTotal(a: RR, b: RR)
    ensures Before(a, b) || Before(b, a)
  {
    LeTotal(a.name, b.name);
    LeTotal(a.text, b.text);
  }

  lemma BeforeTransitive(a: RR, b: RR, c: RR)
    requires Before(a, b) && Before(b, c)
    ensures Before(a, c)
  {
    if a.name == b.name == c.name {
      if a.rtype == b.rtype == c.rtype { LeTransitive(a.text, b.text, c.text); }
    } else if a.name != b.name && b.name != c.name {
      LeTransitive(a.name, b.name, c.name);
      if a.name == c.name { LeAntisymmetric(a.name, b.name); }
    }
  }

  lemma BeforeAntisymmetric(parse: Parser, a: RR, b: RR)
    requires Before(a, b) && Before(b, a) && Printed(parse, a) && Printed(parse, b)
    ensures a == b
  {
    if a.name != b.name { LeAntisymmetric(a.name, b.name); }
    LeAntisymmetric(a.text, b.text);
  }

  ghost predicate Sorted(s: seq<RR>) {
    forall i, j :: 0 <= i < j < |s| ==> Before(s[i], s[j])
  }

  /** Stable insertion: after everything that does not have to come later. */
  function Insert(r: RR, s: seq<RR>): seq<RR> {
    if s == [] then [r]
    else if Before(s[0], r) then [s[0]] + Insert(r, s[1..])
    else [r] + s
  }

  /** orderedRRs: a stable sort of a copy. */
  function Ordered(rrs: seq<RR>): seq<RR> {
    if rrs == [] then [] else Insert(rrs[|rrs| - 1], Ordered(rrs[..|rrs| - 1]))
  }

  lemma {:induction false} InsertContents(r: RR, s: seq<RR>)
    ensures multiset(Insert(r, s)) == multiset(s) + multiset{r}
    decreases |s|
  {
    if s == [] {
    } else {
      assert s == [s[0]] + s[1..];
      if Before(s[0], r) { InsertContents(r, s[1..]); }
    }
  }

  lemma {:induction false} InsertSorted(r: RR, s: seq<RR>)
    requires Sorted(s)
    ensures Sorted(Insert(r, s))
    decreases |s|
  {
    if s == [] {
    } else {
      if Before(s[0], r) {
        InsertSorted(r, s[1..]);
        var t := Insert(r, s[1..]);
        InsertContents(r, s[1..]);
        forall j | 0 <= j < |t| ensures Before(s[0], t[j]) {
          assert t[j] in multiset(t);
          if t[j] != r { assert t[j] in s[1..]; }
        }
      } else {
        BeforeTotal(s[0], r);
        forall j | 0 <= j < |s| ensures Before(r, s[j]) {
          if j > 0 { BeforeTransitive(r, s[0], s[j]); }
        }
      }
    }
  }

  /** Sorting permutes and sorts. */
  lemma {:induction false} OrderedIsSort(rrs: seq<RR>)
    ensures multiset(Ordered(rrs)) == multiset(rrs) && Sorted(Ordered(rrs))
    decreases |rrs|
  {
    if rrs == [] {
    } else {
      var rest := rrs[..|rrs| - 1];
      OrderedIsSort(rest);
      InsertContents(rrs[|rrs| - 1], Ordered(rest));
      InsertSorted(rrs[|rrs| - 1], Ordered(rest));
      assert rrs == rest + [rrs[|rrs| - 1]];
    }
  }

  lemma FirstIsLeast(s: seq<RR>, r: RR)
    requires Sorted(s) && r in s
    ensures Before(s[0], r)
  {
    LeReflexive(r.text);
  }

  lemma MembersPrinted(parse: Parser, a: seq<RR>, b: seq<RR>)
    requires multiset(a) == multiset(b) && AllPrinted(parse, a)
    ensures AllPrinted(parse, b) && |a| == |b|
  {
    forall i | 0 <= i < |b| ensures Printed(parse, b[i]) {
      assert b[i] in multiset(b);
      assert b[i] in a;
    }
    assert |multiset(a)| == |a| && |multiset(b)| == |b|;
  }

  /** There is one sorted arrangement of a multiset of records. */
  lemma {:induction false} SortedUnique(parse: Parser, a: seq<RR>, b: seq<RR>)
    requires Sorted(a) && Sorted(b) && multiset(a) == multiset(b) && AllPrinted(parse, a)
    ensures a == b
    decreases |a|
  {
    hide Sorted, Before, AllPrinted;
    MembersPrinted(parse, a, b);
    if a == [] {
    } else {
      assert a[0] in multiset(b) && b[0] in multiset(a);
      FirstIsLeast(a, b[0]);
      FirstIsLeast(b, a[0]);
      BeforeAntisymmetric(parse, a[0], b[0]);
      TailOf(a);
      TailOf(b);
      TailPrinted(parse, a);
      SortedUnique(parse, a[1..], b[1..]);
    }
  }

  lemma TailOf(a: seq<RR>)
    requires a != []
    ensures a == [a[0]] + a[1..] && multiset(a[1..]) == multiset(a) - multiset{a[0]} && (Sorted(a) ==> Sorted(a[1..]))
  {
    hide Before;
    assert a == [a[0]] + a[1..];
  }

  lemma TailPrinted(parse: Parser, a: seq<RR>)
    requires a != [] && AllPrinted(parse, a)
    ensures AllPrinted(parse, a[1..])
  {
  }

  // ---------------------------------------------------------------- writing and loading

  function Texts(rrs: seq<RR>): seq<string> {
    seq(|rrs|, i requires 0 <= i < |rrs| => rrs[i].text)
  }

  function OrDefault(ttl: nat, fallback: nat): nat {
    if ttl == 0 then fallback else ttl
  }

  /** writeZone. */
  function Write(zone: string, z: ZoneModel): ZoneFile {
    ZoneFile(zone + ".", OrDefault(z.ttl, 3600), Texts(Ordered(z.rrs)))
  }

  /** The TTL of the first record that has one. */
  function FirstTTL(rrs: seq<RR>): nat {
    if rrs == [] then 0 else if rrs[0].ttl > 0 then rrs[0].ttl else FirstTTL(rrs[1..])
  }

  function ParseAll(parse: Parser, lines: seq<string>): Option<seq<RR>> {
    if lines == [] then Some([])
    else
      var r, rest := parse(lines[0]), ParseAll(parse, lines[1..]);
      if r.None? || rest.None? then None else Some([r.value] + rest.value)
  }

  /** loadZone on an existing file; None is a parse error. */
  function Load(parse: Parser, file: ZoneFile, fallback: nat): Option<ZoneModel> {
    var rrs := ParseAll(parse, file.lines);
    if rrs.None? then None
    else Some(ZoneModel(OrDefault(OrDefault(FirstTTL(rrs.value), fallback), 3600), rrs.value))
  }

  lemma {:induction false} ParseTexts(parse: Parser, rrs: seq<RR>)
    requires AllPrinted(parse, rrs)
    ensures ParseAll(parse, Texts(rrs)) == Some(rrs)
    decreases |rrs|
  {
    if rrs == [] {
    } else {
      assert Texts(rrs)[1..] == Texts(rrs[1..]);
      assert Printed(parse, rrs[0]);
      ParseTexts(parse, rrs[1..]);
      assert rrs == [rrs[0]] + rrs[1..];
    }
  }

  /** What is written loads as the same records in canonical order. */
  lemma LoadWrite(parse: Parser, zone: string, z: ZoneModel, fallback: nat)
    requires AllPrinted(parse, z.rrs)
    ensures var l := Load(parse, Write(zone, z), fallback);
      l.Some? && l.value.rrs == Ordered(z.rrs) && multiset(l.value.rrs) == multiset(z.rrs) &&
        AllPrinted(parse, l.value.rrs)
      && l.value.ttl == OrDefault(OrDefault(FirstTTL(Ordered(z.rrs)), fallback), 3600)
  {
    OrderedIsSort(z.rrs);
    MembersPrinted(parse, z.rrs, Ordered(z.rrs));
    ParseTexts(parse, Ordered(z.rrs));
  }

  /** Writing is canonical: the file is determined by, and determines, the TTL and the multiset of
      records; the order in which they were collected leaves no trace. */
  lemma WriteIsCanonical(parse: Parser, zone: string, y: ZoneModel, z: ZoneModel)
    requires AllPrinted(parse, y.rrs) && AllPrinted(parse, z.rrs)
    ensures Write(zone, y) == Write(zone, z) <==>
      OrDefault(y.ttl, 3600) == OrDefault(z.ttl, 3600) && multiset(y.rrs) == multiset(z.rrs)
  {
    OrderedIsSort(y.rrs);
    OrderedIsSort(z.rrs);
    LoadWrite(parse, zone, y, 0);
    LoadWrite(parse, zone, z, 0);
    if multiset(y.rrs) == multiset(z.rrs) {
      MembersPrinted(parse, y.rrs, Ordered(y.rrs));
      SortedUnique(parse, Ordered(y.rrs), Ordered(z.rrs));
    }
  }

  // ---------------------------------------------------------------- single records

  predicate HasText(rrs: seq<RR>, text: string) {
    exists i :: 0 <= i < |rrs| && rrs[i].text == text
  }

  /** ensureRR, as a function of the records. */
  function Ensure(rrs: seq<RR>, wanted: RR): seq<RR> {
    if HasText(rrs, wanted.text) then rrs else rrs + [wanted]
  }

  predicate At(r: RR, name: string, rtype: nat) {
    r.name == name && r.rtype == rtype
  }

  /** The records that are not `rtype` at `name`, in order. */
  function Without(rrs: seq<RR>, name: string, rtype: nat): seq<RR> {
    if rrs == [] then []
    else
      var kept := Without(rrs[..|rrs| - 1], name, rtype);
      if At(rrs[|rrs| - 1], name, rtype) then kept else kept + [rrs[|rrs| - 1]]
  }

  method EnsureRR(rrs: seq<RR>, wanted: RR) returns (out: seq<RR>)
    ensures out == Ensure(rrs, wanted)
  {
    for i := 0 to |rrs|
      invariant forall j :: 0 <= j < i ==> rrs[j].text != wanted.text
    {
      if rrs[i].text == wanted.text { return rrs; }
    }
    return rrs + [wanted];
  }

  /** removeRROnNameAndType and removeRROnNameAndTypeAndData with an always-true match: compaction
      into the front of the same backing array. The kept records are exactly the filter of the old
      ones, and nothing behind them was written. */
  method RemoveInPlace(rrs: array<RR>, name: string, rtype: nat) returns (kept: nat)
    modifies rrs
    ensures kept <= rrs.Length
    ensures rrs[..kept] == Without(old(rrs[..]), name, rtype)
    ensures rrs[kept..] == old(rrs[kept..])
  {
    ghost var was := rrs[..];
    kept := 0;
    for i := 0 to rrs.Length
      invariant kept <= i
      invariant rrs[..kept] == Without(was[..i], name, rtype)
      invariant forall j :: kept <= j < rrs.Length ==> rrs[j] == was[j]
    {
      assert was[..i + 1][..i] == was[..i];
      if !At(rrs[i], name, rtype) {
        rrs[kept] := rrs[i];
        kept := kept + 1;
      }
    }
    assert was[..rrs.Length] == was;
  }

  /** The slice of a zone model with some records removed. */
  method Remove(rrs: seq<RR>, name: string, rtype: nat) returns (out: seq<RR>)
    ensures out == Without(rrs, name, rtype)
  {
    var slice := new RR[|rrs|](i requires 0 <= i < |rrs| => rrs[i]);
    assert slice[..] == rrs;
    var kept := RemoveInPlace(slice, name, rtype);
    return slice[..kept];
  }

  // ---------------------------------------------------------------- facts about the two

  lemma {:induction false} WithoutMembers(rrs: seq<RR>, name: string, rtype: nat)
    ensures forall r :: multiset(Without(rrs, name, rtype))[r] == if At(r, name, rtype) then 0 else multiset(rrs)[r]
    decreases |rrs|
  {
    if rrs == [] {
    } else {
      WithoutMembers(rrs[..|rrs| - 1], name, rtype);
      assert rrs == rrs[..|rrs| - 1] + [rrs[|rrs| - 1]];
    }
  }

  lemma {:induction false} KeepsAll(rrs: seq<RR>, name: string, rtype: nat)
    requires forall i :: 0 <= i < |rrs| ==> !At(rrs[i], name, rtype)
    ensures Without(rrs, name, rtype) == rrs
    decreases |rrs|
  {
    if rrs == [] {
    } else {
      KeepsAll(rrs[..|rrs| - 1], name, rtype);
    }
  }

  /** Removal is the identity exactly when there is nothing to remove. */
  lemma WithoutNothing(rrs: seq<RR>, name: string, rtype: nat)
    ensures Without(rrs, name, rtype) == rrs <==> forall r :: r in rrs ==> !At(r, name, rtype)
  {
    if forall r :: r in rrs ==> !At(r, name, rtype) { KeepsAll(rrs, name, rtype); }
    WithoutMembers(rrs, name, rtype);
    assert forall r :: r in rrs <==> multiset(rrs)[r] > 0;
  }

  lemma WithoutAppend(rrs: seq<RR>, r: RR, name: string, rtype: nat)
    ensures Without(rrs + [r], name, rtype) == if At(r, name, rtype) then Without(rrs, name, rtype)
      else Without(rrs, name, rtype) + [r]
  {
    assert (rrs + [r])[..|rrs|] == rrs;
  }

  lemma EnsurePrinted(parse: Parser, rrs: seq<RR>, wanted: RR)
    requires AllPrinted(parse, rrs) && Printed(parse, wanted)
    ensures AllPrinted(parse, Ensure(rrs, wanted)) && rrs <= Ensure(rrs, wanted) && wanted in Ensure(rrs, wanted)
    ensures wanted in rrs <==> HasText(rrs, wanted.text)
  {
    if HasText(rrs, wanted.text) {
      var i :| 0 <= i < |rrs| && rrs[i].text == wanted.text;
      assert Printed(parse, rrs[i]);
      assert rrs[i] == wanted;
    }
  }

  lemma {:induction false} WithoutPrinted(parse: Parser, rrs: seq<RR>, name: string, rtype: nat)
    requires AllPrinted(parse, rrs)
    ensures AllPrinted(parse, Without(rrs, name, rtype))
    decreases |rrs|
  {
    if rrs == [] {
    } else {
      WithoutPrinted(parse, rrs[..|rrs| - 1], name, rtype);
    }
  }
}
