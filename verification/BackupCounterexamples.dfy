/** Concrete archives on which a plausible promise of the restore fails. */
module BackupCounterexamples {
  import opened Text
  import opened BackupTables
  import opened BackupDump
  import opened BackupRestore
  import opened RestoreProofs
  import opened RestoreRename
  import opened SiteFiles

  const PLAIN := Options("", "", "/home")
  const NOTHING := View(map[], map[], map[], map[], map[])

  /** A user whose reseller sorts after it. */
  function Late(): View {
    View(map["a" := PanelView("h", "user", true, Some("b"), "a"), "b" := PanelView("h", "reseller", true, None, "b")],
        map[], map[], map[], map[])
  }

  function LateDump(): Dump {
    Dump([PanelDumpOf("a", Late().panel["a"]), PanelDumpOf("b", Late().panel["b"])], [], [], [], [])
  }

  /** It loses its reseller in a full round trip. */
  lemma LateResellerIsLost()
    ensures WellStored(Late()) && IsDump(LateDump(), Late(), Late().panel.Keys)
    ensures var r := Restored(PLAIN, NOTHING, LateDump()); "a" in r.panel && r.panel["a"].reseller == None
  {
    var v, d := Late(), LateDump();
    assert d.panel[0].username == "a" && d.panel[1].username == "b";
    assert Le("a", "b") && !Le("b", "a");
    assert PanelListed(d.panel, v, v.panel.Keys);
    RestoreIsImport(PLAIN, NOTHING, v, v.panel.Keys, d);
    assert ImportedReseller(map[], v.panel, v.panel.Keys, "a") == None;
  }

  /** The home of "u" is not below the home root: the restored webroot and the restored files part. */
  lemma HomeElsewhereLosesFiles()
    ensures Webroot(PLAIN, "u", "/srv/u/site") != LandsAt(PLAIN, "u", "site")
  {
    assert "/srv/u/site" == Join("/srv/u", "site");
    WebrootFollowsFiles(PLAIN, "u", "/srv/u", "site");
    assert "/srv/u"[1] != Join("/home", "u")[1];
  }

  /** A webroot outside the home is not archived, and neither is one in a directory of the home whose name begins
      with two dots. */
  lemma NotArchived(file: string)
    ensures ArchivedAt("/home/u", "/srv/u/public", file) == None
    ensures ArchivedAt("/home/u", "/home/u/..data/public", file) == None
  {
    hide Dir, IsLog;
    DirOfJoin("/srv/u", "public");
    DirOfJoin("/home/u/..data", "public");
    assert Join("/srv/u", "public") == "/srv/u/public" && Join("/home/u/..data", "public") == "/home/u/..data/public";
    assert "/home/u/..data"[8..] == "..data" && "..data"[..2] == "..";
  }
}
