/** php.ini overrides: the parser of internal/app/template.go, the text normalisation of
    writePHPOverridesFile (internal/app/site.go) and the sorted listing of internal/fpm/pools.go. */
module Overrides {
  import opened Text

  datatype Warning = NoEquals(line: string) | EmptyKey(line: string) | EmptyValue(key: string) | BadKey(key: string)

  datatype Parsed = Parsed(admin: map<string, string>, normal: map<string, string>, warnings: seq<Warning>)

  const NOTHING := Parsed(map[], map[], [])

  // ---------------------------------------------------------------- line ends

  /** strings.ReplaceAll(s, "\r\n", "\n"). */
  function DropCRLF(s: string): string {
    if s == [] then []
    else if |s| > 1 && s[0] == '\r' && s[1] == '\n' then ['\n'] + DropCRLF(s[2..])
    else [s[0]] + DropCRLF(s[1..])
  }

  /** strings.ReplaceAll(s, "\r", "\n"). */
  function DropCR(s: string): string {
    if s == [] then [] else [if s[0] == '\r' then '\n' else s[0]] + DropCR(s[1..])
  }

  function Newlines(s: string): string {
    DropCR(DropCRLF(s))
  }

  // ---------------------------------------------------------------- one line

  function Index(s: string, c: char): (i: nat)
    ensures i <= |s| && (forall j :: 0 <= j < i ==> s[j] != c) && (i < |s| ==> s[i] == c)
  {
    if s == [] || s[0] == c then 0 else 1 + Index(s[1..], c)
  }

  predicate KeyChar(c: char) {
    'A' <= c <= 'Z' || 'a' <= c <= 'z' || '0' <= c <= '9' || c == '_' || c == '.' || c == '-'
  }

  /** The expression ^[A-Za-z0-9_.-]+$. */
  predicate LegalKey(k: string) {
    k != "" && forall i :: 0 <= i < |k| ==> KeyChar(k[i])
  }

  /** The prefix routing: the destination (true for php_value) and the key. */
  function Route(key: string): (bool, string) {
    var p := Index(key, ':');
    if p == 0 || p == |key| then (false, key)
    else
      var pref, rest := ToLower(Trim(key[..p])), Trim(key[p + 1..]);
      if pref == "admin" || pref == "php_admin_value" then (false, rest)
      else if pref == "value" || pref == "php_value" then (true, rest)
      else (false, key)
  }

  function Assign(p: Parsed, key: string, val: string): Parsed {
    var p1 := if val == "" then p.(warnings := p.warnings + [EmptyValue(key)]) else p;
    var (value, k0) := Route(key);
    var k := Trim(k0);
    if !LegalKey(k) then p1.(warnings := p1.warnings + [BadKey(k)])
    else if value then p1.(normal := p1.normal[k := val])
    else p1.(admin := p1.admin[k := val])
  }

  /** A trimmed line that is neither blank nor a comment. */
  function ParseContent(p: Parsed, l: string): Parsed {
    var i := Index(l, '=');
    if i == |l| then p.(warnings := p.warnings + [NoEquals(l)])
    else
      var key, val := Trim(l[..i]), Trim(l[i + 1..]);
      if key == "" then p.(warnings := p.warnings + [EmptyKey(l)]) else Assign(p, key, val)
  }

  function ParseLine(p: Parsed, line: string): Parsed {
    var l := Trim(line);
    if l == "" || l[0] == '#' || l[0] == ';' then p else ParseContent(p, l)
  }

  function ParseLines(p: Parsed, lines: seq<string>): Parsed {
    if lines == [] then p else ParseLine(ParseLines(p, lines[..|lines| - 1]), lines[|lines| - 1])
  }

  function Parse(raw: string): Parsed {
    ParseLines(NOTHING, Split(Newlines(raw), '\n'))
  }

  /** parsePHPIniOverrides. */
  method ParsePHPIniOverrides(raw: string)
        returns (admin: map<string, string>, normal: map<string, string>, warnings: seq<Warning>)
    ensures Parsed(admin, normal, warnings) == Parse(raw)
  {
    hide ParseContent, Newlines, Split;
    admin, normal, warnings := map[], map[], [];
    var lines := Split(Newlines(raw), '\n');
    for n := 0 to |lines|
      invariant Parsed(admin, normal, warnings) == ParseLines(NOTHING, lines[..n])
    {
      assert lines[..n + 1][..n] == lines[..n];
      var l := Trim(lines[n]);
      if l == "" || l[0] == '#' || l[0] == ';' { continue; }
      var r := Accept(Parsed(admin, normal, warnings), l);
      admin, normal, warnings := r.admin, r.normal, r.warnings;
    }
    assert lines[..|lines|] == lines;
  }

  /** The rest of the loop body, for a line with content. */
  method Accept(p: Parsed, l: string) returns (r: Parsed)
    ensures r == ParseContent(p, l)
  {
    var i := Index(l, '=');
    if i == |l| { return p.(warnings := p.warnings + [NoEquals(l)]); }
    var key, val := Trim(l[..i]), Trim(l[i + 1..]);
    if key == "" { return p.(warnings := p.warnings + [EmptyKey(l)]); }
    r := p;
    if val == "" { r := r.(warnings := r.warnings + [EmptyValue(key)]); }
    var (value, k0) := Route(key);
    var k := Trim(k0);
    if !LegalKey(k) { return r.(warnings := r.warnings + [BadKey(k)]); }
    if value { r := r.(normal := r.normal[k := val]); } else { r := r.(admin := r.admin[k := val]); }
  }

  /** The file written by writePHPOverridesFile: none for blank text. */
  function Stored(raw: string): Option<string> {
    var t := Trim(Newlines(raw));
    if t == "" then None else Some(t + "\n")
  }

  // ---------------------------------------------------------------- listings

  datatype KV = KV(key: string, value: string)

  function MapOf(kvs: seq<KV>): map<string, string> {
    if kvs == [] then map[] else MapOf(kvs[..|kvs| - 1])[kvs[|kvs| - 1].key := kvs[|kvs| - 1].value]
  }

  function Pairs(m: map<string, string>, keys: seq<string>): seq<KV>
    requires forall k :: k in keys ==> k in m
  {
    seq(|keys|, i requires 0 <= i < |keys| => assert keys[i] in keys; KV(keys[i], m[keys[i]]))
  }

  lemma {:induction false} MapOfPairs(m: map<string, string>, keys: seq<string>)
    requires forall k :: k in keys ==> k in m
    ensures MapOf(Pairs(m, keys)) == map k | k in keys :: m[k]
    decreases |keys|
  {
    if keys == [] {
    } else {
      var rest, last := keys[..|keys| - 1], keys[|keys| - 1];
      assert keys == rest + [last];
      MapOfPairs(m, rest);
      assert Pairs(m, keys)[..|keys| - 1] == Pairs(m, rest);
    }
  }

  lemma PairsOfListing(m: map<string, string>, keys: seq<string>)
    requires Lists(keys, m.Keys)
    ensures MapOf(Pairs(m, keys)) == m
  {
    MapOfPairs(m, keys);
    assert m == map k | k in keys :: m[k];
  }

  /** sortedPairs: the whole map, each key once, in strictly increasing key order. */
  method SortedPairs(m: map<string, string>) returns (out: seq<KV>)
    ensures forall i, j :: 0 <= i < j < |out| ==> Lt(out[i].key, out[j].key)
    ensures MapOf(out) == m && |out| == |Listing(m.Keys)|
  {
    var keys := SortKeys(m.Keys);
    ListingUnique(keys, Listing(m.Keys), m.Keys);
    PairsOfListing(m, keys);
    hide MapOf;
    out := [];
    for n := 0 to |keys|
      invariant out == Pairs(m, keys)[..n]
    {
      assert keys[n] in keys;
      out := out + [KV(keys[n], m[keys[n]])];
    }
    assert out == Pairs(m, keys);
  }
}
