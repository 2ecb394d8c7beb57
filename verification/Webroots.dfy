/** Whose webroot it is: inferUserFromWebroot (internal/app/template.go), which picks the PHP pool, against
    the webroots that the lifecycle derives and that a restore rewrites. */
module Webroots {
  import opened Text
  import opened Lifecycle
  import opened BackupRestore
  import opened RestoreRename

  /** strings.TrimRight(s, "/"). */
  function TrimSlashes(s: string): string {
    if s != [] && s[|s| - 1] == '/' then TrimSlashes(s[..|s| - 1]) else s
  }

  function InferUser(homeRoot: string, webroot: string): Option<string> {
    var root := TrimSlashes(homeRoot);
    var prefix := root + "/";
    if root == "" || |webroot| < |prefix| || webroot[..|prefix|] != prefix then None
    else
      var first := Split(webroot[|prefix|..], '/')[0];
      if first == "" then None else Some(first)
  }

  /** The first element of a path is what comes before its first slash. */
  lemma {:induction false} FirstElement(rest: string, u: string)
    ensures Split(rest, '/')[0] == u <==>
      '/' !in u && (rest == u || (|rest| > |u| && rest[..|u|] == u && rest[|u|] == '/'))
  {
    if rest == [] {
    } else {
      if rest[0] == '/' {
        if u != [] && |rest| > |u| && rest[..|u|] == u { assert u[0] == rest[0]; }
        if u == "" { assert rest[..0] == u; }
      } else if u != [] {
        FirstElement(rest[1..], u[1..]);
        assert u == [u[0]] + u[1..] && rest == [rest[0]] + rest[1..];
        assert '/' in u <==> u[0] == '/' || '/' in u[1..];
      }
    }
  }

  lemma NoSlashToTrim(root: string)
    requires root != "" && root[|root| - 1] != '/'
    ensures TrimSlashes(root) == root
  {
  }

  /** Slashes at the end of the home root do not count. */
  lemma TrailingSlash(homeRoot: string, webroot: string)
    ensures InferUser(homeRoot + "/", webroot) == InferUser(homeRoot, webroot)
  {
    hide Split;
    assert (homeRoot + "/")[..|homeRoot|] == homeRoot;
  }

  /** A path below the home root is of whoever is its first element. */
  lemma InferredBelow(homeRoot: string, rest: string, u: string)
    requires homeRoot != "" && homeRoot[|homeRoot| - 1] != '/'
    ensures InferUser(homeRoot, Join(homeRoot, rest)) == Some(u) <==> Split(rest, '/')[0] == u && u != ""
  {
    hide Split;
    NoSlashToTrim(homeRoot);
    var prefix, path := homeRoot + "/", Join(homeRoot, rest);
    assert path == prefix + rest;
    assert path[..|prefix|] == prefix && path[|prefix|..] == rest;
  }

  /** Nothing else is of anybody. */
  lemma InferredOnlyBelow(homeRoot: string, webroot: string)
    requires homeRoot != "" && homeRoot[|homeRoot| - 1] != '/' && InferUser(homeRoot, webroot).Some?
    ensures |webroot| > |homeRoot| && webroot == Join(homeRoot, webroot[|homeRoot| + 1..])
  {
    hide Split;
    NoSlashToTrim(homeRoot);
    var prefix := homeRoot + "/";
    assert webroot == webroot[..|prefix|] + webroot[|prefix|..];
  }

  lemma JoinedTwice(a: string, b: string, c: string)
    ensures Join(Join(a, b), c) == Join(a, Join(b, c))
  {
    assert a + "/" + b + "/" + c == a + "/" + (b + "/" + c);
  }

  /** A path whose first element is `u` is `u` or lies below it. */
  lemma BelowFirst(rest: string, u: string)
    ensures Split(rest, '/')[0] == u <==> '/' !in u && (rest == u || exists path :: rest == Join(u, path))
  {
    FirstElement(rest, u);
    if |rest| > |u| && rest[..|u|] == u && rest[|u|] == '/' { assert rest == Join(u, rest[|u| + 1..]); }
    if path :| rest == Join(u, path) { assert rest[..|u|] == u; }
  }

  /** Exactly the paths homeRoot/u and homeRoot/u/... belong to u. */
  lemma InferredExactly(homeRoot: string, webroot: string, u: string)
    requires homeRoot != "" && homeRoot[|homeRoot| - 1] != '/'
    ensures InferUser(homeRoot, webroot) == Some(u) <==>
      Element(u) && (webroot == Join(homeRoot, u) || exists path :: webroot == Join(Join(homeRoot, u), path))
  {
    hide InferUser, Join, Split;
    if InferUser(homeRoot, webroot) == Some(u) {
      InferredOnlyBelow(homeRoot, webroot);
      var rest := webroot[|homeRoot| + 1..];
      InferredBelow(homeRoot, rest, u);
      BelowFirst(rest, u);
      if path :| rest == Join(u, path) { JoinedTwice(homeRoot, u, path); }
    } else if Element(u) {
      if webroot == Join(homeRoot, u) {
        InferredBelow(homeRoot, u, u);
        BelowFirst(u, u);
      }
      if path :| webroot == Join(Join(homeRoot, u), path) {
        JoinedTwice(homeRoot, u, path);
        InferredBelow(homeRoot, Join(u, path), u);
        BelowFirst(Join(u, path), u);
      }
    }
  }

  /** The webroot derived for a site of `user` runs in the pool of `user`. */
  lemma DerivedWebrootIsOwn(homeRoot: string, user: string, d: string, p: string, stem: string)
    requires homeRoot != "" && homeRoot[|homeRoot| - 1] != '/' && Element(user)
    ensures InferUser(homeRoot, DeriveDefaultWebroot(Join(homeRoot, user), d, p, stem)) == Some(user)
  {
    hide InferUser, Join;
    var home := Join(homeRoot, user);
    var dir := if p == "" then Join(Join(home, "sites"), d)
               else Join(Join(Join(Join(home, "sites"), p), "subdomains"), stem);
    var below := if p == "" then Join("sites", d) else Join(Join(Join("sites", p), "subdomains"), stem);
    JoinedTwice(home, "sites", d);
    JoinedTwice(home, "sites", p);
    JoinedTwice(home, Join("sites", p), "subdomains");
    JoinedTwice(home, Join(Join("sites", p), "subdomains"), stem);
    assert dir == Join(home, below);
    JoinedTwice(home, below, "public");
    InferredExactly(homeRoot, Join(home, Join(below, "public")), user);
  }

  /** A site restored under a new name moves to the pool of the new user. */
  lemma RenamedWebrootMoves(o: Options, path: string)
    requires o.homeRoot != "" && o.homeRoot[|o.homeRoot| - 1] != '/' && Element(o.subject) && Element(o.newUser)
    ensures InferUser(o.homeRoot, Join(Join(o.homeRoot, o.subject), path)) == Some(o.subject)
    ensures InferUser(o.homeRoot, Webroot(o, o.subject, Join(Join(o.homeRoot, o.subject), path))) == Some(o.newUser)
  {
    var was, to := Join(o.homeRoot, o.subject), Join(o.homeRoot, o.newUser);
    InferredExactly(o.homeRoot, Join(was, path), o.subject);
    assert Join(was, path)[..|was|] == was;
    assert to + Join(was, path)[|was|..] == Join(to, path);
    InferredExactly(o.homeRoot, Join(to, path), o.newUser);
  }
}
