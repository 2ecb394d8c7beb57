/** Strings as the control plane uses them: trimming, lower-casing, the byte order used by
    SQL `ORDER BY` and Go's `sort.Strings`, and strictly sorted listings of a key set. */
module Text {

  datatype Option<+T> = None | Some(value: T)

  /** Go's unicode.IsSpace. */
  predicate IsSpace(c: char) {
    || '\t' <= c <= '\r' || c == ' ' || c == '\U{85}' || c == '\U{A0}' || c == '\U{1680}' ||
      '\U{2000}' <= c <= '\U{200A}'
    || c == '\U{2028}' || c == '\U{2029}' || c == '\U{202F}' || c == '\U{205F}' || c == '\U{3000}'
  }

  predicate Blank(s: string) {
    forall i :: 0 <= i < |s| ==> IsSpace(s[i])
  }

  predicate Trimmed(s: string) {
    s != [] ==> !IsSpace(s[0]) && !IsSpace(s[|s| - 1])
  }

  function TrimLeft(s: string): string {
    if s != [] && IsSpace(s[0]) then TrimLeft(s[1..]) else s
  }

  function TrimRight(s: string): string {
    if s != [] && IsSpace(s[|s| - 1]) then TrimRight(s[..|s| - 1]) else s
  }

  /** strings.TrimSpace. */
  function Trim(s: string): string {
    TrimRight(TrimLeft(s))
  }

  lemma TrimLeftSplits(s: string) returns (margin: string)
    ensures s == margin + TrimLeft(s) && Blank(margin)
    ensures TrimLeft(s) != [] ==> !IsSpace(TrimLeft(s)[0])
  {
    if s != [] && IsSpace(s[0]) {
      var m := TrimLeftSplits(s[1..]);
      margin := [s[0]] + m;
    } else {
      margin := [];
    }
  }

  lemma TrimRightSplits(s: string) returns (margin: string)
    ensures s == TrimRight(s) + margin && Blank(margin)
    ensures TrimRight(s) != [] ==> !IsSpace(TrimRight(s)[|TrimRight(s)| - 1])
  {
    if s != [] && IsSpace(s[|s| - 1]) {
      var m := TrimRightSplits(s[..|s| - 1]);
      margin := m + [s[|s| - 1]];
      assert s == s[..|s| - 1] + [s[|s| - 1]];
    } else {
      margin := [];
    }
  }

  /** What TrimSpace keeps has no blank at either end and sits between two blank margins. */
  lemma TrimSplits(s: string) returns (left: string, right: string)
    ensures s == left + Trim(s) + right && Blank(left) && Blank(right) && Trimmed(Trim(s))
  {
    left := TrimLeftSplits(s);
    right := TrimRightSplits(TrimLeft(s));
    assert Trim(s) <= TrimLeft(s);
  }

  lemma TrimTrimmed(s: string)
    requires Trimmed(s)
    ensures Trim(s) == s
  {
  }

  lemma TrimTwice(s: string)
    ensures Trim(Trim(s)) == Trim(s)
  {
    var _, _ := TrimSplits(s);
    TrimTrimmed(Trim(s));
  }

  /** normalizeNullableString: the text column is NULL for a missing or blank value. */
  function NullIfBlank(p: Option<string>): Option<string> {
    if p.Some? && Trim(p.value) != "" then Some(Trim(p.value)) else None
  }

  /** filepath.Join on clean parts. */
  function Join(a: string, b: string): string {
    a + "/" + b
  }

  function Lower(c: char): char {
    if 'A' <= c <= 'Z' then (c as int + 32) as char else c
  }

  function ToLower(s: string): string {
    seq(|s|, i requires 0 <= i < |s| => Lower(s[i]))
  }

  /** normalizeDomain. */
  function Norm(s: string): string {
    ToLower(Trim(s))
  }

  lemma LowerIdempotent(c: char)
    ensures Lower(Lower(c)) == Lower(c) && IsSpace(Lower(c)) == IsSpace(c)
  {
    if 'A' <= c <= 'Z' {
      assert 'a' <= Lower(c) <= 'z';
    }
  }

  /** A normalised name has no blanks around it, and normalising it again changes nothing. */
  lemma NormIdempotent(s: string)
    ensures Norm(Norm(s)) == Norm(s) && Trim(Norm(s)) == Norm(s)
  {
    var t := Trim(s);
    var n := ToLower(t);
    var _, _ := TrimSplits(s);
    if t != [] {
      LowerIdempotent(t[0]);
      LowerIdempotent(t[|t| - 1]);
    }
    TrimTrimmed(n);
    forall i | 0 <= i < |t| ensures Lower(n[i]) == n[i] { LowerIdempotent(t[i]); }
    assert ToLower(n) == n;
  }

  /** strings.Split on one character. */
  function Split(s: string, sep: char): (r: seq<string>)
    ensures r != []
  {
    if s == [] then [[]]
    else
      var rest := Split(s[1..], sep);
      if s[0] == sep then [[]] + rest else [[s[0]] + rest[0]] + rest[1..]
  }

  // ---------------------------------------------------------------- order

  /** The order of SQL text columns and of Go strings. */
  predicate Le(a: string, b: string) {
    a == [] || (b != [] && (a[0] < b[0] || (a[0] == b[0] && Le(a[1..], b[1..]))))
  }

  predicate Lt(a: string, b: string) {
    Le(a, b) && a != b
  }

  /** The strings first differ at `k`, and `a` is smaller there. */
  predicate SmallerAt(a: string, b: string, k: nat) {
    k < |a| && k < |b| && a[..k] == b[..k] && a[k] < b[k]
  }

  lemma SmallerBehind(a: string, b: string, k: nat)
    requires a != [] && b != [] && a[0] == b[0]
    ensures SmallerAt(a, b, k + 1) <==> SmallerAt(a[1..], b[1..], k)
    ensures !SmallerAt(a, b, 0) && (a <= b <==> a[1..] <= b[1..])
  {
    assert a == [a[0]] + a[1..] && b == [b[0]] + b[1..];
    if k < |a[1..]| && k < |b[1..]| {
      assert a[..k + 1] == [a[0]] + a[1..][..k] && b[..k + 1] == [b[0]] + b[1..][..k];
      assert a[1..][..k] == a[..k + 1][1..] && b[1..][..k] == b[..k + 1][1..];
    }
  }

  /** The order of Go strings: a prefix comes first, and otherwise the first difference decides. */
  lemma {:induction false} LeExactly(a: string, b: string)
    ensures Le(a, b) <==> a <= b || exists k: nat :: SmallerAt(a, b, k)
    decreases |a|
  {
    hide SmallerAt;
    if a == [] || b == [] {
      NoneSmaller(a, b);
    } else if a[0] == b[0] {
      LeExactly(a[1..], b[1..]);
      SmallerBehind(a, b, 0);
      if k: nat :| SmallerAt(a, b, k) { SmallerBehind(a, b, k - 1); }
      if k: nat :| SmallerAt(a[1..], b[1..], k) { SmallerBehind(a, b, k); }
    } else {
      DiffersAtHead(a, b);
    }
  }

  lemma NoneSmaller(a: string, b: string)
    requires a == [] || b == []
    ensures forall k :: !SmallerAt(a, b, k)
  {
  }

  lemma DiffersAtHead(a: string, b: string)
    requires a != [] && b != [] && a[0] != b[0]
    ensures (exists k: nat :: SmallerAt(a, b, k)) <==> a[0] < b[0]
  {
    assert SmallerAt(a, b, 0) <==> a[0] < b[0];
    forall k: nat | SmallerAt(a, b, k) ensures k == 0 { SameHead(a, b, k); }
  }

  lemma SameHead(a: string, b: string, k: nat)
    requires k < |a| && k < |b| && a[..k] == b[..k]
    ensures k > 0 ==> a[0] == b[0]
  {
    assert k > 0 ==> a[..k][0] == a[0] && b[..k][0] == b[0];
  }

  lemma LeReflexive(a: string)
    ensures Le(a, a)
  {
  }

  lemma LeTotal(a: string, b: string)
    ensures Le(a, b) || Le(b, a)
  {
  }

  lemma LeAntisymmetric(a: string, b: string)
    requires Le(a, b) && Le(b, a)
    ensures a == b
  {
    if a != [] && b != [] {
      LeAntisymmetric(a[1..], b[1..]);
      assert a == [a[0]] + a[1..] && b == [b[0]] + b[1..];
    }
  }

  lemma LeTransitive(a: string, b: string, c: string)
    requires Le(a, b) && Le(b, c)
    ensures Le(a, c)
  {
    if a != [] && a[0] == b[0] == c[0] {
      LeTransitive(a[1..], b[1..], c[1..]);
    }
  }

  // ---------------------------------------------------------------- sorted listings

  ghost predicate StrictlySorted(ks: seq<string>) {
    forall i, j :: 0 <= i < j < |ks| ==> Lt(ks[i], ks[j])
  }

  /** `ks` lists the set exactly once each, in increasing order. */
  ghost predicate Lists(ks: seq<string>, keys: set<string>) {
    StrictlySorted(ks) && (forall k :: k in ks <==> k in keys)
  }

  /** A set has at most one sorted listing: every sorted image of it is canonical. */
  lemma {:induction false} ListingUnique(a: seq<string>, b: seq<string>, keys: set<string>)
    requires Lists(a, keys) && Lists(b, keys)
    ensures a == b
    decreases |a|
  {
    if a == [] {
      HeadIsMember(b);
    } else {
      assert a[0] in keys;
      HeadIsLeast(a, b[0]);
      HeadIsLeast(b, a[0]);
      LeAntisymmetric(a[0], b[0]);
      TailLists(a, keys);
      TailLists(b, keys);
      ListingUnique(a[1..], b[1..], keys - {a[0]});
      assert a == [a[0]] + a[1..] && b == [b[0]] + b[1..];
    }
  }

  lemma HeadIsMember(b: seq<string>)
    ensures b == [] || exists k :: k in b
  {
    if b != [] {
      assert b[0] in b;
    }
  }

  lemma HeadIsLeast(a: seq<string>, k: string)
    requires StrictlySorted(a) && k in a
    ensures Le(a[0], k)
  {
    LeReflexive(k);
  }

  lemma TailLists(a: seq<string>, keys: set<string>)
    requires Lists(a, keys) && a != []
    ensures Lists(a[1..], keys - {a[0]})
  {
    forall k ensures k in a[1..] <==> k in keys - {a[0]} {
      if k in a[1..] {
        var i :| 0 <= i < |a[1..]| && a[1..][i] == k;
        assert a[i + 1] == k && Lt(a[0], a[i + 1]);
        assert k in a;
      }
      if k in keys - {a[0]} {
        var i :| 0 <= i < |a| && a[i] == k;
        assert a[1..][i - 1] == k;
      }
    }
  }

  /** sort.Strings on distinct keys, one insertion at a time. */
  function Insert(k: string, ks: seq<string>): (r: seq<string>)
    requires StrictlySorted(ks) && k !in ks
    ensures StrictlySorted(r)
    ensures forall x :: x in r <==> x == k || x in ks
  {
    LeTotalAll(k, ks);
    if ks == [] then [k]
    else if Le(k, ks[0]) then
      InsertFront(k, ks);
      [k] + ks
    else
      InsertTail(k, ks);
      var t := Insert(k, ks[1..]);
      assert forall i :: 0 <= i < |t| ==> t[i] in t;
      [ks[0]] + t
  }

  lemma LeTotalAll(k: string, ks: seq<string>)
    ensures forall i :: 0 <= i < |ks| ==> Le(k, ks[i]) || Le(ks[i], k)
  {
    forall i | 0 <= i < |ks| ensures Le(k, ks[i]) || Le(ks[i], k) { LeTotal(k, ks[i]); }
  }

  lemma InsertFront(k: string, ks: seq<string>)
    requires StrictlySorted(ks) && k !in ks && ks != [] && Le(k, ks[0])
    ensures StrictlySorted([k] + ks)
  {
    forall i | 0 <= i < |ks| ensures Lt(k, ks[i]) {
      if i > 0 { LeTransitive(k, ks[0], ks[i]); }
    }
  }

  lemma InsertTail(k: string, ks: seq<string>)
    requires StrictlySorted(ks) && k !in ks && ks != [] && !Le(k, ks[0])
    ensures Lt(ks[0], k)
    ensures StrictlySorted(ks[1..]) && k !in ks[1..]
    ensures forall x :: x in ks[1..] ==> Lt(ks[0], x)
    ensures forall x :: x in ks <==> x == ks[0] || x in ks[1..]
  {
    LeTotal(k, ks[0]);
    assert ks == [ks[0]] + ks[1..];
  }

  /** Collect the keys of a table in order: SELECT ... ORDER BY, or keys + sort.Strings. */
  method SortKeys(keys: set<string>) returns (ks: seq<string>)
    ensures Lists(ks, keys)
  {
    ks := [];
    var todo := keys;
    while todo != {}
      invariant todo <= keys
      invariant Lists(ks, keys - todo)
      decreases |todo|
    {
      var k :| k in todo;
      ks := Insert(k, ks);
      todo := todo - {k};
    }
  }

  lemma ListingExists(keys: set<string>) returns (ks: seq<string>)
    ensures Lists(ks, keys)
    decreases |keys|
  {
    if keys == {} {
      ks := [];
    } else {
      var k :| k in keys;
      var rest := ListingExists(keys - {k});
      ks := Insert(k, rest);
    }
  }

  /** The sorted listing, as a value. */
  ghost function Listing(keys: set<string>): (ks: seq<string>)
    ensures Lists(ks, keys)
  {
    ListingExistsAny(keys);
    var ks :| Lists(ks, keys);
    ks
  }

  lemma ListingExistsAny(keys: set<string>)
    ensures exists ks :: Lists(ks, keys)
  {
    var ks := ListingExists(keys);
  }
}
