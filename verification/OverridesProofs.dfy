/** The override text: normalising it for the file does not change what it means, printing maps and
    parsing them back is the identity, and later text wins over earlier text. */
module OverridesProofs {
  import opened Text
  import opened Overrides

  // ---------------------------------------------------------------- parsing is about tokens

  /** The trimmed, non-blank lines. */
  function Tokens(lines: seq<string>): seq<string> {
    if lines == [] then []
    else
      var rest, t := Tokens(lines[..|lines| - 1]), Trim(lines[|lines| - 1]);
      if t == "" then rest else rest + [t]
  }

  lemma {:induction false} ParseIsTokens(p: Parsed, lines: seq<string>)
    ensures ParseLines(p, lines) == ParseLines(p, Tokens(lines))
    decreases |lines|
  {
    hide ParseContent, Trim;
    if lines == [] {
    } else {
      var rest, last := lines[..|lines| - 1], lines[|lines| - 1];
      ParseIsTokens(p, rest);
      TrimTwice(last);
      assert (Tokens(rest) + [Trim(last)])[..|Tokens(rest)|] == Tokens(rest);
    }
  }

  lemma TokensAppend(a: seq<string>, b: seq<string>)
    ensures Tokens(a + b) == Tokens(a) + Tokens(b)
    decreases |b|
  {
    hide Trim;
    if b == [] {
      assert a + b == a;
    } else {
      assert (a + b)[..|a + b| - 1] == a + b[..|b| - 1];
      TokensAppend(a, b[..|b| - 1]);
    }
  }

  lemma TokensOne(l: string)
    ensures Tokens([l]) == if Trim(l) == "" then [] else [Trim(l)]
  {
    hide Trim;
    assert [l][..0] == [];
  }

  lemma TokensCons(l: string, ls: seq<string>)
    ensures Tokens([l] + ls) == Tokens([l]) + Tokens(ls)
  {
    TokensAppend([l], ls);
  }

  function TokensOf(text: string): seq<string> {
    Tokens(Split(text, '\n'))
  }

  // ---------------------------------------------------------------- blank margins do not matter

  lemma {:induction false} BlankAhead(w: string, s: string)
    requires Blank(w)
    ensures TokensOf(w + s) == TokensOf(s)
    decreases |w|
  {
    if w == [] {
      assert w + s == s;
    } else {
      assert (w + s)[1..] == w[1..] + s;
      BlankAhead(w[1..], s);
      BlankCharAhead(w[0], w[1..] + s);
      assert [w[0]] + (w[1..] + s) == w + s;
    }
  }

  lemma BlankCharAhead(c: char, s: string)
    requires IsSpace(c)
    ensures TokensOf([c] + s) == TokensOf(s)
  {
    var rest := Split(s, '\n');
    assert ([c] + s)[1..] == s;
    if c == '\n' {
      TokensCons([], rest);
      TokensOne([]);
    } else {
      assert ([c] + rest[0])[1..] == rest[0];
      assert Trim([c] + rest[0]) == Trim(rest[0]);
      TokensCons([c] + rest[0], rest[1..]);
      TokensCons(rest[0], rest[1..]);
      TokensOne([c] + rest[0]);
      TokensOne(rest[0]);
      assert [rest[0]] + rest[1..] == rest;
    }
  }

  /** The split of a text with one more character at the front, or at the back. */
  function Ahead(c: char, r: seq<string>): seq<string>
    requires r != []
  {
    if c == '\n' then [[]] + r else [[c] + r[0]] + r[1..]
  }

  function Behind(r: seq<string>, c: char): seq<string>
    requires r != []
  {
    if c == '\n' then r + [[]] else r[..|r| - 1] + [r[|r| - 1] + [c]]
  }

  lemma AheadBehind(c: char, r: seq<string>, d: char)
    requires r != []
    ensures Ahead(c, Behind(r, d)) == Behind(Ahead(c, r), d)
  {
    if |r| == 1 {
      assert r == [r[0]];
      assert ([c] + r[0]) + [d] == [c] + (r[0] + [d]);
    }
  }

  lemma SplitAhead(c: char, s: string)
    ensures Split([c] + s, '\n') == Ahead(c, Split(s, '\n'))
  {
    assert ([c] + s)[1..] == s;
  }

  lemma {:induction false} SplitSnoc(s: string, c: char)
    ensures Split(s + [c], '\n') == Behind(Split(s, '\n'), c)
    decreases |s|
  {
    if s == [] {
      SplitAhead(c, []);
      assert [] + [c] == [c] + [];
      assert [c] + [] == [] + [c];
    } else {
      hide Split;
      SplitSnoc(s[1..], c);
      SplitAhead(s[0], s[1..] + [c]);
      SplitAhead(s[0], s[1..]);
      assert [s[0]] + (s[1..] + [c]) == s + [c] && [s[0]] + s[1..] == s;
      AheadBehind(s[0], Split(s[1..], '\n'), c);
    }
  }

  lemma TrimSnoc(s: string, c: char)
    requires IsSpace(c)
    ensures Trim(s + [c]) == Trim(s)
    decreases |s|
  {
    if s == [] {
      assert TrimLeft([c]) == TrimLeft([c][1..]) == [];
    } else if IsSpace(s[0]) {
      assert (s + [c])[1..] == s[1..] + [c];
      TrimSnoc(s[1..], c);
    } else {
      assert (s + [c])[..|s|] == s;
    }
  }

  lemma BlankCharBehind(s: string, c: char)
    requires IsSpace(c)
    ensures TokensOf(s + [c]) == TokensOf(s)
  {
    hide Trim;
    var a := Split(s, '\n');
    SplitSnoc(s, c);
    if c == '\n' {
      TokensAppend(a, [[]]);
      TokensOne([]);
      TrimEmpty();
    } else {
      var l := a[|a| - 1];
      assert a == a[..|a| - 1] + [l];
      TokensAppend(a[..|a| - 1], [l]);
      TokensAppend(a[..|a| - 1], [l + [c]]);
      TokensOne(l);
      TokensOne(l + [c]);
      TrimSnoc(l, c);
    }
  }

  lemma TrimEmpty()
    ensures Trim([]) == []
  {
  }

  lemma {:induction false} BlankBehind(s: string, w: string)
    requires Blank(w)
    ensures TokensOf(s + w) == TokensOf(s)
    decreases |w|
  {
    if w == [] {
      assert s + w == s;
    } else {
      var rest, c := w[..|w| - 1], w[|w| - 1];
      BlankBehind(s, rest);
      BlankCharBehind(s + rest, c);
      assert (s + rest) + [c] == s + w;
    }
  }

  /** Trimming the whole text, and ending it with a newline, keeps its tokens. */
  lemma TrimKeepsTokens(s: string)
    ensures TokensOf(Trim(s)) == TokensOf(s) && TokensOf(Trim(s) + "\n") == TokensOf(s)
  {
    var left, right := TrimSplits(s);
    hide Trim, Split, Tokens;
    BlankAhead(left, Trim(s) + right);
    assert left + (Trim(s) + right) == s;
    BlankBehind(Trim(s), right);
    BlankBehind(Trim(s), "\n");
  }

  // ---------------------------------------------------------------- line ends

  predicate NoReturn(s: string) {
    forall i :: 0 <= i < |s| ==> s[i] != '\r'
  }

  lemma {:induction false} NewlinesIdentity(s: string)
    requires NoReturn(s)
    ensures Newlines(s) == s
    decreases |s|
  {
    if s == [] {
    } else {
      NewlinesIdentity(s[1..]);
      var t := DropCRLF(s[1..]);
      assert t == s[1..] by { DropCRLFIdentity(s[1..]); }
      assert ([s[0]] + t)[1..] == t;
    }
  }

  lemma {:induction false} DropCRLFIdentity(s: string)
    requires NoReturn(s)
    ensures DropCRLF(s) == s
    decreases |s|
  {
    if s == [] {
    } else {
      DropCRLFIdentity(s[1..]);
    }
  }

  lemma {:induction false} DropCRNoReturn(s: string)
    ensures NoReturn(DropCR(s))
    decreases |s|
  {
    if s == [] {
    } else {
      DropCRNoReturn(s[1..]);
    }
  }

  lemma TrimNoReturn(s: string)
    requires NoReturn(s)
    ensures NoReturn(Trim(s) + "\n")
  {
    var left, right := TrimSplits(s);
    hide Trim;
    var t := Trim(s);
    forall i | 0 <= i < |t| ensures t[i] != '\r' { assert s[|left| + i] == t[i]; }
  }

  /** The stored file means what the submitted text means, warnings included. */
  lemma StoredParsesAlike(raw: string)
    ensures Parse(if Stored(raw).Some? then Stored(raw).value else "") == Parse(raw)
  {
    hide Trim, Split, ParseLines, DropCR, DropCRLF;
    var n := Newlines(raw);
    DropCRNoReturn(DropCRLF(raw));
    TrimNoReturn(n);
    NewlinesIdentity(Trim(n) + "\n");
    NewlinesIdentity("");
    TrimKeepsTokens(n);
    ParseIsTokens(NOTHING, Split(n, '\n'));
    ParseIsTokens(NOTHING, Split(Trim(n) + "\n", '\n'));
    ParseIsTokens(NOTHING, Split("", '\n'));
  }

  /** Storing what was stored changes nothing. */
  lemma StoringTwice(raw: string)
    requires Stored(raw).Some?
    ensures Stored(Stored(raw).value) == Stored(raw)
  {
    hide Trim, DropCR, DropCRLF;
    var n := Newlines(raw);
    DropCRNoReturn(DropCRLF(raw));
    TrimNoReturn(n);
    NewlinesIdentity(Trim(n) + "\n");
    TrimSnoc(Trim(n), '\n');
    TrimTwice(n);
  }

  // ---------------------------------------------------------------- later text wins

  /** What `b` says on top of what `a` says. */
  function Over(a: Parsed, b: Parsed): Parsed {
    Parsed(a.admin + b.admin, a.normal + b.normal, a.warnings + b.warnings)
  }

  lemma WarnOver(a: Parsed, b: Parsed, w: Warning)
    ensures Over(a, b).(warnings := Over(a, b).warnings + [w]) == Over(a, b.(warnings := b.warnings + [w]))
  {
    assert (a.warnings + b.warnings) + [w] == a.warnings + (b.warnings + [w]);
  }

  lemma SetOver(a: map<string, string>, b: map<string, string>, k: string, v: string)
    ensures (a + b)[k := v] == a + b[k := v]
  {
  }

  lemma AssignOver(a: Parsed, b: Parsed, key: string, val: string)
    ensures Assign(Over(a, b), key, val) == Over(a, Assign(b, key, val))
  {
    hide Trim, Route, LegalKey;
    var k := Trim(Route(key).1);
    var b1 := if val == "" then b.(warnings := b.warnings + [EmptyValue(key)]) else b;
    WarnOver(a, b, EmptyValue(key));
    WarnOver(a, b1, BadKey(k));
    SetOver(a.admin, b.admin, k, val);
    SetOver(a.normal, b.normal, k, val);
  }

  lemma ContentOver(a: Parsed, b: Parsed, l: string)
    ensures ParseContent(Over(a, b), l) == Over(a, ParseContent(b, l))
  {
    hide Trim, Assign, Over;
    var i := Index(l, '=');
    WarnOver(a, b, NoEquals(l));
    WarnOver(a, b, EmptyKey(l));
    if i < |l| { AssignOver(a, b, Trim(l[..i]), Trim(l[i + 1..])); }
  }

  lemma {:induction false} LinesOver(a: Parsed, lines: seq<string>)
    ensures ParseLines(a, lines) == Over(a, ParseLines(NOTHING, lines))
    decreases |lines|
  {
    hide ParseContent, Trim;
    if lines == [] {
      assert Over(a, NOTHING) == a;
    } else {
      LinesOver(a, lines[..|lines| - 1]);
      ContentOver(a, ParseLines(NOTHING, lines[..|lines| - 1]), Trim(lines[|lines| - 1]));
    }
  }

  lemma {:induction false} LinesConcat(p: Parsed, a: seq<string>, b: seq<string>)
    ensures ParseLines(p, a + b) == ParseLines(ParseLines(p, a), b)
    decreases |b|
  {
    hide ParseLine;
    if b == [] {
      assert a + b == a;
    } else {
      assert (a + b)[..|a + b| - 1] == a + b[..|b| - 1];
      LinesConcat(p, a, b[..|b| - 1]);
    }
  }

  lemma {:induction false} SplitConcat(a: string, b: string)
    ensures Split(a + "\n" + b, '\n') == Split(a, '\n') + Split(b, '\n')
    decreases |a|
  {
    if a == [] {
      SplitAhead('\n', b);
      assert a + "\n" + b == ['\n'] + b;
    } else {
      hide Split;
      SplitConcat(a[1..], b);
      SplitAhead(a[0], a[1..]);
      SplitAhead(a[0], a[1..] + "\n" + b);
      assert [a[0]] + a[1..] == a && [a[0]] + (a[1..] + "\n" + b) == a + "\n" + b;
      AheadConcat(a[0], Split(a[1..], '\n'), Split(b, '\n'));
    }
  }

  lemma AheadConcat(c: char, r: seq<string>, t: seq<string>)
    requires r != []
    ensures Ahead(c, r + t) == Ahead(c, r) + t
  {
    assert (r + t)[1..] == r[1..] + t;
  }

  /** Line ends are normalised part by part; a carriage return before the newline goes with it. */
  function WithoutReturn(a: string): string {
    if a != [] && a[|a| - 1] == '\r' then a[..|a| - 1] else a
  }

  /** The first line end or character of a text. */
  lemma NewlinesFirst(a: string)
    requires a != []
    ensures Newlines("") == ""
    ensures |a| > 1 && a[0] == '\r' && a[1] == '\n' ==> Newlines(a) == "\n" + Newlines(a[2..])
    ensures !(|a| > 1 && a[0] == '\r' && a[1] == '\n') ==>
      Newlines(a) == [if a[0] == '\r' then '\n' else a[0]] + Newlines(a[1..])
  {
    if |a| > 1 && a[0] == '\r' && a[1] == '\n' {
      assert (['\n'] + DropCRLF(a[2..]))[1..] == DropCRLF(a[2..]);
    } else {
      assert ([a[0]] + DropCRLF(a[1..]))[1..] == DropCRLF(a[1..]);
    }
  }

  lemma {:induction false} NewlinesJoin(a: string, b: string)
    ensures Newlines(a + "\n" + b) == Newlines(WithoutReturn(a)) + "\n" + Newlines(b)
    decreases |a|
  {
    hide Newlines;
    var w, t := WithoutReturn(a), a + "\n" + b;
    NewlinesFirst(t);
    if w == [] {
      assert t[if a == [] then 1 else 2..] == b;
    } else {
      var step := if |a| > 1 && a[0] == '\r' && a[1] == '\n' then 2 else 1;
      NewlinesFirst(w);
      assert t[step..] == a[step..] + "\n" + b;
      assert w[step..] == WithoutReturn(a[step..]);
      NewlinesJoin(a[step..], b);
    }
  }

  lemma ReturnIsBlank(a: string)
    ensures Tokens(Split(Newlines(WithoutReturn(a)), '\n')) == Tokens(Split(Newlines(a), '\n'))
  {
    if WithoutReturn(a) != a {
      assert a == WithoutReturn(a) + ['\r'];
      NewlinesOfReturn(WithoutReturn(a));
      BlankCharBehind(Newlines(WithoutReturn(a)), '\n');
    }
  }

  lemma {:induction false} NewlinesOfReturn(a: string)
    ensures Newlines(a + ['\r']) == Newlines(a) + "\n"
    decreases |a|
  {
    hide Newlines;
    NewlinesFirst(a + ['\r']);
    if a == [] {
      assert (a + ['\r'])[1..] == "";
    } else {
      var step := if |a| > 1 && a[0] == '\r' && a[1] == '\n' then 2 else 1;
      NewlinesFirst(a);
      assert (a + ['\r'])[step..] == a[step..] + ['\r'];
      NewlinesOfReturn(a[step..]);
    }
  }

  /** The last accepted line wins: text read after other text overrides it key by key, in each of
      the two maps, and warnings accumulate. */
  lemma LaterTextWins(a: string, b: string)
    ensures Parse(a + "\n" + b) == Over(Parse(a), Parse(b))
  {
    hide ParseLines, Split, Newlines, WithoutReturn;
    var a', b' := Newlines(WithoutReturn(a)), Newlines(b);
    NewlinesJoin(a, b);
    ReturnIsBlank(a);
    ParseIsTokens(NOTHING, Split(a', '\n'));
    ParseIsTokens(NOTHING, Split(Newlines(a), '\n'));
    SplitConcat(a', b');
    LinesConcat(NOTHING, Split(a', '\n'), Split(b', '\n'));
    LinesOver(ParseLines(NOTHING, Split(a', '\n')), Split(b', '\n'));
  }

  // ---------------------------------------------------------------- printing and parsing

  /** A value that fits on one line and has no blanks around it. */
  predicate PlainValue(v: string) {
    Trimmed(v) && NoReturn(v) && forall i :: 0 <= i < |v| ==> v[i] != '\n'
  }

  predicate Printable(kvs: seq<KV>) {
    forall i :: 0 <= i < |kvs| ==> LegalKey(kvs[i].key) && PlainValue(kvs[i].value)
  }

  function PrintLine(value: bool, kv: KV): string {
    (if value then "value:" else "admin:") + kv.key + " = " + kv.value
  }

  function Print(value: bool, kvs: seq<KV>): string {
    if kvs == [] then "" else Print(value, kvs[..|kvs| - 1]) + PrintLine(value, kvs[|kvs| - 1]) + "\n"
  }

  lemma KeyCharsPlain(k: string)
    requires LegalKey(k)
    ensures Trimmed(k) && NoReturn(k)
    ensures forall i ::
      0 <= i < |k| ==> k[i] != '\n' && k[i] != '=' && k[i] != ':' && !IsSpace(k[i])
  {
    forall i | 0 <= i < |k| ensures !IsSpace(k[i]) { assert KeyChar(k[i]); }
  }

  lemma IndexOf(a: string, c: char, b: string)
    requires forall i :: 0 <= i < |a| ==> a[i] != c
    ensures Index(a + [c] + b, c) == |a|
  {
    var s := a + [c] + b;
    assert s[|a|] == c;
    forall i | 0 <= i < |a| ensures s[i] != c { assert s[i] == a[i]; }
  }

  /** The prefixed key goes where the prefix says. */
  lemma RoutePrefixed(value: bool, k: string)
    requires LegalKey(k)
    ensures Route((if value then "value" else "admin") + ":" + k) == (value, k)
  {
    var pre := if value then "value" else "admin";
    var key := pre + [':'] + k;
    IndexOf(pre, ':', k);
    KeyCharsPlain(k);
    TrimTrimmed(k);
    assert key[..|pre|] == pre && key[|pre| + 1..] == k;
    TrimTrimmed(pre);
    assert ToLower("value") == "value" && ToLower("admin") == "admin";
  }

  lemma SplitAtEquals(key: string, v: string)
    requires forall i :: 0 <= i < |key| ==> key[i] != '='
    ensures var l := key + " = " + v;
      Index(l, '=') == |key| + 1 && l[..|key| + 1] == key + [' '] && l[|key| + 2..] == [' '] + v
  {
    assert key + " = " + v == (key + [' ']) + ['='] + ([' '] + v);
    IndexOf(key + [' '], '=', [' '] + v);
  }

  lemma TrimSpaced(key: string, v: string)
    requires Trimmed(key) && Trimmed(v)
    ensures Trim(key + [' ']) == key && Trim([' '] + v) == v
  {
    TrimSnoc(key, ' ');
    TrimTrimmed(key);
    TrimTrimmed(v);
    assert ([' '] + v)[1..] == v;
    assert Trim([' '] + v) == Trim(v);
  }

  /** One printed assignment, read as content: the value is set, with a warning if it is empty. */
  lemma ContentOfPrinted(p: Parsed, value: bool, kv: KV)
    requires LegalKey(kv.key) && PlainValue(kv.value)
    ensures var q := ParseContent(p, PrintLine(value, kv));
      && q.admin == (if value then p.admin else p.admin[kv.key := kv.value])
      && q.normal == (if value then p.normal[kv.key := kv.value] else p.normal)
      && q.warnings
        == (if kv.value == "" then p.warnings + [EmptyValue((if value then "value:" else "admin:") + kv.key)]
            else p.warnings)
  {
    hide Trim, Route, Index, LegalKey;
    var key := (if value then "value" else "admin") + ":" + kv.key;
    PrefixedKey(value, kv.key);
    SplitAtEquals(key, kv.value);
    TrimSpaced(key, kv.value);
    RoutePrefixed(value, kv.key);
    KeyCharsPlain(kv.key);
    TrimTrimmed(kv.key);
    assert PrintLine(value, kv) == key + " = " + kv.value;
  }

  lemma PrefixedKey(value: bool, k: string)
    requires LegalKey(k)
    ensures var key := (if value then "value" else "admin") + ":" + k;
      key == (if value then "value:" else "admin:") + k && Trimmed(key) &&
        (forall i :: 0 <= i < |key| ==> key[i] != '=' && key[i] != '\n' && key[i] != '\r') && key[0] != '#' &&
          key[0] != ';'
  {
    KeyCharsPlain(k);
  }

  /** A line without a value ends in a blank, which trimming removes; nothing else changes. */
  lemma TrimPrinted(value: bool, kv: KV)
    requires LegalKey(kv.key) && PlainValue(kv.value)
    ensures var l := PrintLine(value, kv); var t := Trim(l);
      t != "" && t[0] != '#' && t[0] != ';' && (kv.value != "" ==> t == l) && (kv.value == "" ==> t == l[..|l| - 1])
  {
    var key := (if value then "value" else "admin") + ":" + kv.key;
    PrefixedKey(value, kv.key);
    var l := PrintLine(value, kv);
    assert l == key + " = " + kv.value;
    assert l[0] == key[0];
    if kv.value == "" {
      assert l == (key + " =") + [' '];
      TrimSnoc(key + " =", ' ');
      TrimTrimmed(key + " =");
    } else {
      TrimTrimmed(l);
    }
  }

  lemma ContentWithoutBlank(p: Parsed, value: bool, k: string)
    requires LegalKey(k)
    ensures var l := PrintLine(value, KV(k, "")); ParseContent(p, l[..|l| - 1]) == ParseContent(p, l)
  {
    hide Trim, Route, LegalKey, Assign;
    var key := (if value then "value" else "admin") + ":" + k;
    PrefixedKey(value, k);
    var l := PrintLine(value, KV(k, ""));
    assert l == key + " = " + "";
    SplitAtEquals(key, "");
    var s := l[..|l| - 1];
    assert s == (key + [' ']) + ['='] + [];
    IndexOf(key + [' '], '=', []);
    assert s[..|key| + 1] == key + [' '] && s[|key| + 2..] == [];
    TrimSpaced(key, "");
    TrimEmpty();
  }

  lemma LineOfPrinted(p: Parsed, value: bool, kv: KV)
    requires LegalKey(kv.key) && PlainValue(kv.value)
    ensures ParseLine(p, PrintLine(value, kv)) == ParseContent(p, PrintLine(value, kv))
  {
    hide Trim, ParseContent, PrintLine, LegalKey, PlainValue;
    TrimPrinted(value, kv);
    if kv.value == "" {
      ContentWithoutBlank(p, value, kv.key);
      assert kv == KV(kv.key, "");
    }
  }

  lemma PrintedPlain(value: bool, kv: KV)
    requires LegalKey(kv.key) && PlainValue(kv.value)
    ensures NoReturn(PrintLine(value, kv))
    ensures forall i ::
      0 <= i < |PrintLine(value, kv)| ==> PrintLine(value, kv)[i] != '\n'
  {
    var key := (if value then "value" else "admin") + ":" + kv.key;
    PrefixedKey(value, kv.key);
    assert PrintLine(value, kv) == key + " = " + kv.value;
  }

  lemma {:induction false} PrintNoReturn(value: bool, kvs: seq<KV>)
    requires Printable(kvs)
    ensures NoReturn(Print(value, kvs))
    decreases |kvs|
  {
    if kvs == [] {
    } else {
      PrintNoReturn(value, kvs[..|kvs| - 1]);
      PrintedPlain(value, kvs[|kvs| - 1]);
      hide PrintLine;
    }
  }

  /** The map updates of a printed listing, on top of `p`. */
  ghost predicate Adds(p: Parsed, q: Parsed, value: bool, kvs: seq<KV>) {
    && q.admin == (if value then p.admin else p.admin + MapOf(kvs))
    && q.normal == (if value then p.normal + MapOf(kvs) else p.normal)
  }

  lemma AddsOne(p: Parsed, q: Parsed, q': Parsed, value: bool, kvs: seq<KV>)
    requires kvs != [] && Adds(p, q, value, kvs[..|kvs| - 1])
    requires var kv := kvs[|kvs| - 1];
      && q'.admin == (if value then q.admin else q.admin[kv.key := kv.value])
      && q'.normal == (if value then q.normal[kv.key := kv.value] else q.normal)
    ensures Adds(p, q', value, kvs)
  {
    var m, kv := MapOf(kvs[..|kvs| - 1]), kvs[|kvs| - 1];
    hide MapOf;
    SetOver(p.admin, m, kv.key, kv.value);
    SetOver(p.normal, m, kv.key, kv.value);
    assert MapOf(kvs) == m[kv.key := kv.value] by { MapOfLast(kvs); }
  }

  lemma MapOfLast(kvs: seq<KV>)
    requires kvs != []
    ensures MapOf(kvs) == MapOf(kvs[..|kvs| - 1])[kvs[|kvs| - 1].key := kvs[|kvs| - 1].value]
  {
  }

  /** Reading one more complete line. */
  lemma AppendLine(p: Parsed, before: string, l: string)
    requires var a := Split(before, '\n'); a[|a| - 1] == ""
    requires forall i :: 0 <= i < |l| ==> l[i] != '\n'
    ensures ParseLines(p, Split(before + l + "\n", '\n')) == ParseLine(ParseLines(p, Split(before, '\n')), l)
  {
    hide ParseLine, ParseLines, Split;
    var a := Split(before, '\n');
    SplitLast(before, l);
    BlankTail(p, a[..|a| - 1]);
    assert a == a[..|a| - 1] + [""];
    LinesConcat(p, a[..|a| - 1], [l, ""]);
    TwoLines(ParseLines(p, a), l);
  }

  lemma {:induction false} PrintedLines(p: Parsed, value: bool, kvs: seq<KV>)
    requires Printable(kvs)
    ensures Adds(p, ParseLines(p, Split(Print(value, kvs), '\n')), value, kvs)
    decreases |kvs|
  {
    if kvs == [] {
      assert Split("", '\n') == [""] && [""][..0] == [];
      assert ParseLines(p, [""]) == ParseLine(p, "") == p by { TrimEmpty(); }
    } else {
      var rest, last := kvs[..|kvs| - 1], kvs[|kvs| - 1];
      PrintedLines(p, value, rest);
      PrintedStep(p, value, kvs);
    }
  }

  lemma PrintedStep(p: Parsed, value: bool, kvs: seq<KV>)
    requires Printable(kvs) && kvs != []
    requires Adds(p, ParseLines(p, Split(Print(value, kvs[..|kvs| - 1]), '\n')), value, kvs[..|kvs| - 1])
    ensures Adds(p, ParseLines(p, Split(Print(value, kvs), '\n')), value, kvs)
  {
    hide ParseLine, ParseLines, ParseContent, PrintLine, Split, Trim, Adds;
    var rest, last := kvs[..|kvs| - 1], kvs[|kvs| - 1];
    var before, l := Print(value, rest), PrintLine(value, last);
    var q := ParseLines(p, Split(before, '\n'));
    PrintedPlain(value, last);
    PrintEndsLine(value, rest);
    AppendLine(p, before, l);
    LineOfPrinted(q, value, last);
    ContentOfPrinted(q, value, last);
    AddsOne(p, q, ParseLine(q, l), value, kvs);
  }

  /** A printed listing is empty or ends its last line. */
  lemma PrintEndsLine(value: bool, kvs: seq<KV>)
    requires Printable(kvs)
    ensures var a := Split(Print(value, kvs), '\n'); a[|a| - 1] == ""
  {
    if kvs == [] {
      assert Split("", '\n') == [""];
    } else {
      SplitSnoc(Print(value, kvs[..|kvs| - 1]) + PrintLine(value, kvs[|kvs| - 1]), '\n');
    }
  }

  lemma {:induction false} SplitLast(before: string, l: string)
    requires var a := Split(before, '\n'); a[|a| - 1] == ""
    requires forall i :: 0 <= i < |l| ==> l[i] != '\n'
    ensures var a := Split(before, '\n'); Split(before + l + "\n", '\n') == a[..|a| - 1] + [l, ""]
  {
    hide Split;
    SplitGrow(before, l);
    SplitSnoc(before + l, '\n');
    assert "" + l == l;
  }

  lemma {:induction false} SplitGrow(before: string, l: string)
    requires forall i :: 0 <= i < |l| ==> l[i] != '\n'
    ensures var a := Split(before, '\n'); Split(before + l, '\n') == a[..|a| - 1] + [a[|a| - 1] + l]
    decreases |l|
  {
    var a := Split(before, '\n');
    if l == [] {
      assert before + l == before;
      assert a[|a| - 1] + l == a[|a| - 1];
      assert a == a[..|a| - 1] + [a[|a| - 1]];
    } else {
      var rest := l[..|l| - 1];
      SplitGrow(before, rest);
      SplitSnoc(before + rest, l[|l| - 1]);
      assert (before + rest) + [l[|l| - 1]] == before + l;
      assert (a[|a| - 1] + rest) + [l[|l| - 1]] == a[|a| - 1] + l;
    }
  }

  lemma BlankTail(p: Parsed, ls: seq<string>)
    ensures ParseLines(p, ls + [""]) == ParseLines(p, ls)
  {
    assert (ls + [""])[..|ls|] == ls;
    TrimEmpty();
  }

  lemma TwoLines(q: Parsed, l: string)
    ensures ParseLines(q, [l, ""]) == ParseLine(q, l)
  {
    hide ParseContent, Trim;
    TrimEmpty();
    assert [l, ""][..1] == [l] && [l][..0] == [];
    assert ParseLines(q, []) == q;
    assert ParseLines(q, [l]) == ParseLine(q, l);
  }

  lemma NoReturnBoth(a: string, b: string)
    requires NoReturn(a) && NoReturn(b)
    ensures Newlines(a + b) == a + b
  {
    NewlinesIdentity(a + b);
  }

  /** A text that ends its last line, read before another. */
  lemma ParseBoth(a: string, b: string)
    requires NoReturn(a) && NoReturn(b)
    requires var la := Split(a, '\n'); la[|la| - 1] == ""
    ensures Parse(a + b) == ParseLines(ParseLines(NOTHING, Split(a, '\n')), Split(b, '\n'))
  {
    hide ParseLines, Split, NoReturn, Newlines;
    var la, lb := Split(a, '\n'), Split(b, '\n');
    NoReturnBoth(a, b);
    SplitJoin(a, b);
    assert la == la[..|la| - 1] + [""];
    BlankTail(NOTHING, la[..|la| - 1]);
    LinesConcat(NOTHING, la[..|la| - 1], lb);
  }

  /** Printing the two maps and parsing the text gives the two maps back. */
  lemma PrintParse(admin: seq<KV>, normal: seq<KV>)
    requires Printable(admin) && Printable(normal)
    ensures var q := Parse(Print(false, admin) + Print(true, normal));
      q.admin == MapOf(admin) && q.normal == MapOf(normal)
  {
    hide Parse, ParseLines, Split, Print, MapOf, NoReturn, Printable;
    PrintNoReturn(false, admin);
    PrintNoReturn(true, normal);
    PrintEndsLine(false, admin);
    ParseBoth(Print(false, admin), Print(true, normal));
    PrintedLines(NOTHING, false, admin);
    PrintedLines(ParseLines(NOTHING, Split(Print(false, admin), '\n')), true, normal);
    assert map[] + MapOf(admin) == MapOf(admin) && map[] + MapOf(normal) == MapOf(normal);
  }

  lemma {:induction false} SplitJoin(a: string, b: string)
    requires var la := Split(a, '\n'); la[|la| - 1] == ""
    ensures var la := Split(a, '\n'); Split(a + b, '\n') == la[..|la| - 1] + Split(b, '\n')
    decreases |a|
  {
    if a == [] {
      assert a + b == b && Split(a, '\n') == [""];
    } else {
      SplitJoinTail(a, b);
    }
  }

  lemma {:induction false} SplitJoinTail(a: string, b: string)
    requires a != [] && var la := Split(a, '\n'); la[|la| - 1] == ""
    ensures var la := Split(a, '\n'); Split(a + b, '\n') == la[..|la| - 1] + Split(b, '\n')
    decreases |a|, 0
  {
    hide Split;
    var la, ra := Split(a, '\n'), Split(a[1..], '\n');
    SplitAhead(a[0], a[1..]);
    SplitAhead(a[0], a[1..] + b);
    assert a == [a[0]] + a[1..] && a + b == [a[0]] + (a[1..] + b);
    SplitJoin(a[1..], b);
    if a[0] == '\n' {
      assert ([[]] + ra)[..|ra|] == [[]] + ra[..|ra| - 1];
    } else {
      assert |ra| > 1;
      assert ([[a[0]] + ra[0]] + ra[1..])[..|ra| - 1] == [[a[0]] + ra[0]] + ra[1..|ra| - 1];
      assert (ra[..|ra| - 1] + Split(b, '\n'))[1..] == ra[1..|ra| - 1] + Split(b, '\n');
    }
  }

  ghost predicate PrintableMap(m: map<string, string>) {
    forall k :: k in m ==> LegalKey(k) && PlainValue(m[k])
  }

  /** In particular for two maps listed by sortedPairs. */
  lemma PrintParseMaps(admin: map<string, string>, normal: map<string, string>)
    requires PrintableMap(admin) && PrintableMap(normal)
    ensures var a, n := Pairs(admin, Listing(admin.Keys)), Pairs(normal, Listing(normal.Keys));
      var q := Parse(Print(false, a) + Print(true, n));
      q.admin == admin && q.normal == normal
  {
    hide Parse, Print, MapOf;
    var ka, kn := Listing(admin.Keys), Listing(normal.Keys);
    forall i | 0 <= i < |ka|
      ensures LegalKey(Pairs(admin, ka)[i].key) && PlainValue(Pairs(admin, ka)[i].value)
    {
      assert ka[i] in ka;
    }
    forall i | 0 <= i < |kn|
      ensures LegalKey(Pairs(normal, kn)[i].key) && PlainValue(Pairs(normal, kn)[i].value)
    {
      assert kn[i] in kn;
    }
    PairsOfListing(admin, ka);
    PairsOfListing(normal, kn);
    PrintParse(Pairs(admin, ka), Pairs(normal, kn));
  }
}
