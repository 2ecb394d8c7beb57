/** What one line of a php.ini override text means: which map it writes, under which key, and what it warns of. */
module OverridesOutcomes {
  import opened Text
  import opened Overrides
  import opened OverridesProofs

  /** One or more letters, digits, underscores, dots and hyphens. */
  predicate LegalName(k: string) {
    k != "" && forall c :: c in k ==>
      'A' <= c <= 'Z' || 'a' <= c <= 'z' || '0' <= c <= '9' || c == '_' || c == '.' || c == '-'
  }

  predicate ToAdmin(prefix: string) {
    ToLower(Trim(prefix)) == "admin" || ToLower(Trim(prefix)) == "php_admin_value"
  }

  predicate ToNormal(prefix: string) {
    ToLower(Trim(prefix)) == "value" || ToLower(Trim(prefix)) == "php_value"
  }

  /** `q` is `p` with `val` under `name` in one of the maps, or with a warning about the name; either way an empty
      value is warned of under the full key. */
  ghost predicate Assigned(p: Parsed, q: Parsed, normal: bool, key: string, name: string, val: string) {
    var said := p.warnings + if val == "" then [EmptyValue(key)] else [];
    if !LegalName(name) then q == Parsed(p.admin, p.normal, said + [BadKey(name)])
    else if normal then q == Parsed(p.admin, p.normal[name := val], said)
    else q == Parsed(p.admin[name := val], p.normal, said)
  }

  /** The key `prefix:rest` goes where its prefix says. */
  ghost predicate Routed(p: Parsed, q: Parsed, prefix: string, rest: string, val: string) {
    var key := prefix + ":" + rest;
    if ToAdmin(prefix) then Assigned(p, q, false, key, Trim(rest), val)
    else if ToNormal(prefix) then Assigned(p, q, true, key, Trim(rest), val)
    else Assigned(p, q, false, key, key, val) && !LegalName(key)
  }

  lemma NamesAre(k: string)
    ensures LegalKey(k) <==> LegalName(k)
    ensures LegalName(k) ==> ':' !in k
  {
    if LegalKey(k) {
      forall c | c in k ensures KeyChar(c) { var i :| 0 <= i < |k| && k[i] == c; }
    }
    if LegalName(k) {
      forall i | 0 <= i < |k| ensures KeyChar(k[i]) { assert k[i] in k; }
    }
  }

  /** Blank lines and comments mean nothing, and a line without an equals sign is warned of. */
  lemma NoAssignment(p: Parsed, line: string)
    ensures var l := Trim(line);
      && (l == "" || l[0] == '#' || l[0] == ';' ==> ParseLine(p, line) == p)
      && (l != "" && l[0] != '#' && l[0] != ';' && '=' !in l ==>
        ParseLine(p, line) == Parsed(p.admin, p.normal, p.warnings + [NoEquals(l)]))
  {
    hide Trim, Assign;
  }

  lemma FirstOf(a: string, c: char, b: string)
    requires c !in a
    ensures var s := a + [c] + b; Index(s, c) == |a| < |s| && s[..|a|] == a && s[|a| + 1..] == b
  {
    IndexOf(a, c, b);
  }

  /** An assignment, split at its first equals sign: without a prefix it goes to php_admin_value; a prefix, in any
      case and with blanks around it, sends it to either map; any other prefix makes a bad key. */
  lemma AssignmentMeans(p: Parsed, line: string, a: string, b: string)
    requires Trim(line) == a + "=" + b && '=' !in a && (a == "" || (a[0] != '#' && a[0] != ';'))
    ensures var q, key, val := ParseLine(p, line), Trim(a), Trim(b);
      && (key == "" ==> q == Parsed(p.admin, p.normal, p.warnings + [EmptyKey(a + "=" + b)]))
      && (key != "" && ':' !in key ==> Assigned(p, q, false, key, key, val))
      && forall prefix, rest :: key == prefix + ":" + rest && ':' !in prefix ==> Routed(p, q, prefix, rest, val)
  {
    hide Trim, Route, ToLower, LegalKey, LegalName, Assign, Assigned, ParseLine, Routed;
    var key, val := Trim(a), Trim(b);
    FirstOf(a, '=', b);
    TrimTwice(a);
    LineIsAssign(p, line, a, b);
    if key != "" && ':' !in key { Unprefixed(p, key, val); }
    forall prefix, rest | key == prefix + ":" + rest && ':' !in prefix
      ensures Routed(p, ParseLine(p, line), prefix, rest, val)
    {
      assert key[|prefix|] == ':';
      Prefixed(p, prefix, rest, val);
    }
  }

  lemma LineIsAssign(p: Parsed, line: string, a: string, b: string)
    requires Trim(line) == a + "=" + b && '=' !in a && (a == "" || (a[0] != '#' && a[0] != ';'))
    ensures ParseLine(p, line) == if Trim(a) == "" then Parsed(p.admin, p.normal, p.warnings + [EmptyKey(a + "=" + b)])
      else Assign(p, Trim(a), Trim(b))
  {
    hide Trim, Assign;
    FirstOf(a, '=', b);
    var l := a + "=" + b;
    assert l != "" && (a != "" ==> l[0] == a[0]) && (a == "" ==> l[0] == '=');
  }

  lemma Unprefixed(p: Parsed, key: string, val: string)
    requires key != "" && ':' !in key && Trim(key) == key
    ensures Assigned(p, Assign(p, key, val), false, key, key, val)
  {
    hide Trim, ToLower, LegalKey, LegalName;
    NamesAre(key);
  }

  lemma Prefixed(p: Parsed, prefix: string, rest: string, val: string)
    requires ':' !in prefix && Trim(prefix + ":" + rest) == prefix + ":" + rest
    ensures Routed(p, Assign(p, prefix + ":" + rest, val), prefix, rest, val)
  {
    hide Trim, ToLower, LegalKey, LegalName;
    var key := prefix + ":" + rest;
    FirstOf(prefix, ':', rest);
    NamesAre(key);
    NamesAre(Trim(rest));
    TrimTwice(rest);
    BlankPrefix(prefix);
    assert ':' in key by { assert key[|prefix|] == ':'; }
  }

  lemma BlankPrefix(prefix: string)
    ensures prefix == "" ==> !ToAdmin(prefix) && !ToNormal(prefix)
  {
    TrimEmpty();
  }

  /** So a printed line without a prefix sets the key for php_admin_value, and nothing else. */
  lemma UnprefixedText(k: string, v: string)
    requires LegalName(k) && PlainValue(v) && v != ""
    ensures Parse(k + " = " + v) == Parsed(map[k := v], map[], [])
  {
    hide Trim, LegalName, ParseLine, LegalKey, Parse, PlainValue;
    NamesAre(k);
    KeyCharsPlain(k);
    LegalStart(k);
    OneLine(k, v);
    PlainIsTrimmed(v);
    TrimSpaced(k, v);
    var line, a, b := k + " = " + v, k + [' '], [' '] + v;
    assert line == a + "=" + b && line[0] == k[0] && line[|line| - 1] == v[|v| - 1];
    TrimTrimmed(line);
    assert '=' !in a && a[0] == k[0];
    AssignmentMeans(NOTHING, line, a, b);
  }

  lemma PlainIsTrimmed(v: string)
    requires PlainValue(v)
    ensures Trimmed(v)
  {
  }

  lemma LegalStart(k: string)
    requires LegalName(k)
    ensures k != "" && k[0] != '#' && k[0] != ';' && !IsSpace(k[0])
  {
    assert k[0] in k;
  }

  lemma OneLine(k: string, v: string)
    requires LegalKey(k) && PlainValue(v)
    ensures Parse(k + " = " + v) == ParseLine(NOTHING, k + " = " + v)
  {
    hide ParseLine, LegalKey, Newlines, Split;
    KeyCharsPlain(k);
    var line := k + " = " + v;
    forall i | 0 <= i < |line| ensures line[i] != '\n' && line[i] != '\r' {
      if i < |k| { assert line[i] == k[i]; } else if i >= |k| + 3 { assert line[i] == v[i - |k| - 3]; }
    }
    NewlinesIdentity(line);
    NoBreak(line);
    assert [line][..0] == [];
    assert ParseLines(NOTHING, [line][..0]) == NOTHING;
  }

  lemma {:induction false} NoBreak(s: string)
    requires forall i :: 0 <= i < |s| ==> s[i] != '\n'
    ensures Split(s, '\n') == [s]
    decreases |s|
  {
    if s == [] {
    } else {
      NoBreak(s[1..]);
      assert s == [s[0]] + s[1..];
    }
  }
}
