/** Which files of a site an archive holds (Create in internal/backup/backup.go, addTree in tar.go), and where a
    restore puts them. Paths are clean and absolute; a file is named by its path below the directory that is walked. */
module SiteFiles {
  import opened Text
  import opened Lifecycle
  import opened BackupRestore
  import opened RestoreRename
  import opened Webroots

  /** filepath.Dir. */
  function Dir(p: string): string {
    if p == [] then [] else if p[|p| - 1] == '/' then p[..|p| - 1] else Dir(p[..|p| - 1])
  }

  /** filepath.Rel, as far as the prefix test on ".." lets it through; "" stands for ".". */
  function RelBelow(home: string, dir: string): Option<string> {
    if dir == home then Some("")
    else if StartsWith(dir, home + "/") && |dir| > |home| + 1 && !StartsWith(dir[|home| + 1..], "..") then
      Some(dir[|home| + 1..])
    else None
  }

  /** The skip function of addTree. */
  predicate IsLog(file: string) {
    file == "logs" || StartsWith(file, "logs/")
  }

  lemma LogsAre(file: string)
    ensures IsLog(file) <==> file == "logs" || exists rest :: file == "logs/" + rest
  {
    if StartsWith(file, "logs/") { assert file == "logs/" + file[5..]; }
    if rest :| file == "logs/" + rest { assert file[..5] == "logs/"; }
  }

  /** The name below sites/<user> under which `file`, a path below the parent of the webroot, is archived. */
  function ArchivedAt(home: string, webroot: string, file: string): Option<string> {
    var rel := RelBelow(home, Dir(webroot));
    if rel.None? || IsLog(file) then None
    else if rel.value == "" then Some(file) else Some(Join(rel.value, file))
  }

  /** The directory is the home, or lies below it under a first name that does not begin with two dots. */
  ghost predicate InHome(home: string, dir: string) {
    dir == home || exists rest :: rest != "" && dir == Join(home, rest) && !StartsWith(rest, "..")
  }

  lemma JoinInjective(a: string, b: string, c: string)
    ensures Join(a, b) == Join(a, c) <==> b == c
  {
    assert Join(a, b)[|a| + 1..] == b && Join(a, c)[|a| + 1..] == c;
  }

  lemma RelIsPath(home: string, dir: string)
    ensures RelBelow(home, dir).Some? ==>
      dir == home || (dir == Join(home, RelBelow(home, dir).value) && InHome(home, dir))
    ensures RelBelow(home, dir) == Some("") <==> dir == home
  {
    var prefix := home + "/";
    if dir != home && RelBelow(home, dir).Some? {
      assert dir == dir[..|prefix|] + dir[|prefix|..];
    }
  }

  lemma PathIsRel(home: string, rest: string)
    requires rest != "" && !StartsWith(rest, "..")
    ensures RelBelow(home, Join(home, rest)) == Some(rest)
  {
    var dir := Join(home, rest);
    assert dir[..|home| + 1] == home + "/" && dir[|home| + 1..] == rest;
    assert |dir| > |home|;
  }

  /** A file is archived exactly if it is not a log and the parent of the webroot is the home or lies below it,
      and then under its own path below the home. A site with its webroot elsewhere has no files in the archive. */
  lemma ArchivedExactly(home: string, webroot: string, file: string, path: string)
    ensures ArchivedAt(home, webroot, file) == Some(path) <==>
      Join(home, path) == Join(Dir(webroot), file) && InHome(home, Dir(webroot)) && !IsLog(file)
  {
    hide Join, IsLog, Dir, RelBelow, StartsWith;
    var dir := Dir(webroot);
    RelIsPath(home, dir);
    if dir == home {
      JoinInjective(home, path, file);
    } else if InHome(home, dir) {
      var rest :| rest != "" && dir == Join(home, rest) && !StartsWith(rest, "..");
      PathIsRel(home, rest);
      JoinedTwice(home, rest, file);
      JoinInjective(home, path, Join(rest, file));
    }
  }

  lemma {:induction false} DirOfJoin(a: string, b: string)
    requires '/' !in b
    ensures Dir(Join(a, b)) == a
    decreases |b|
  {
    if b == [] {
      assert Join(a, b) == a + "/";
    } else {
      var c := b[..|b| - 1];
      DirOfJoin(a, c);
      assert Join(a, b)[..|Join(a, b)| - 1] == Join(a, c);
      assert Join(a, b)[|Join(a, b)| - 1] == b[|b| - 1];
    }
  }

  lemma BelowIsArchived(home: string, rest: string, base: string, file: string)
    requires rest != "" && !StartsWith(rest, "..") && '/' !in base
    ensures ArchivedAt(home, Join(Join(home, rest), base), file) == if IsLog(file) then None else Some(Join(rest, file))
  {
    hide Join, IsLog, Dir, RelBelow, StartsWith;
    DirOfJoin(Join(home, rest), base);
    PathIsRel(home, rest);
  }

  /** The files below a webroot in the home are archived, and land below the place where the webroot's own path
      lands: so they are in the restored webroot exactly as `WebrootFollowsFiles` and
      `RenamedWebrootFollowsFiles` say of that path. */
  lemma WebrootFilesArchived(o: Options, owner: string, home: string, path: string, base: string, file: string)
    requires Element(base) && base != "logs" && path != "" && !StartsWith(path, "..")
    ensures var at := ArchivedAt(home, Join(home, Join(path, base)), Join(base, file));
      && at == Some(Join(Join(path, base), file))
      && LandsAt(o, owner, at.value) == Join(LandsAt(o, owner, Join(path, base)), file)
  {
    hide Join, Dir, IsLog, RelBelow, StartsWith, Mapped, ArchivedAt;
    JoinedTwice(home, path, base);
    BelowIsArchived(home, path, base, Join(base, file));
    JoinedTwice(path, base, file);
    JoinedTwice(Join(o.homeRoot, Mapped(o, owner)), Join(path, base), file);
    NotLogs(base, file);
  }

  lemma NotLogs(base: string, file: string)
    requires Element(base) && base != "logs"
    ensures !IsLog(Join(base, file))
  {
    hide Split;
    var f := Join(base, file);
    assert f[..|base|] == base && f[|base|] == '/';
    FirstElement(f, base);
    FirstElement(f, "logs");
  }

  /** Every file below the parent of a derived webroot is archived, the logs aside. */
  lemma DerivedIsArchived(home: string, d: string, p: string, stem: string, file: string)
    ensures ArchivedAt(home, DeriveDefaultWebroot(home, d, p, stem), file).Some? <==> !IsLog(file)
  {
    hide Join, Dir, IsLog, RelBelow, StartsWith, ArchivedAt;
    var rest := if p == "" then Join("sites", d) else Join("sites", Join(p, Join("subdomains", stem)));
    if p == "" {
      JoinedTwice(home, "sites", d);
      InSites(d);
    } else {
      JoinedTwice(home, "sites", p);
      JoinedTwice(home, Join("sites", p), "subdomains");
      JoinedTwice(home, Join(Join("sites", p), "subdomains"), stem);
      JoinedTwice("sites", p, "subdomains");
      JoinedTwice("sites", Join(p, "subdomains"), stem);
      JoinedTwice(p, "subdomains", stem);
      InSites(Join(p, Join("subdomains", stem)));
    }
    BelowIsArchived(home, rest, "public", file);
  }

  lemma InSites(path: string)
    ensures Join("sites", path) != "" && !StartsWith(Join("sites", path), "..")
  {
    assert Join("sites", path)[0] == 's';
  }
}
