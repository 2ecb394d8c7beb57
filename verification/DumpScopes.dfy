/** Which entries an export holds, scope by scope. */
module DumpScopes {
  import opened Text
  import opened BackupTables
  import opened BackupDump

  /** `d` is an export of that scope. */
  ghost predicate ExportOf(d: Dump, v: View, scope: Scope) {
    Included(v, scope).Some? && IsDump(d, v, Included(v, scope).value)
  }

  /** Who belongs to a scope. */
  predicate Belongs(v: View, scope: Scope, m: string)
    requires m in v.panel
  {
    match scope
    case ScopeUser(n) => m == Trim(n)
    case ScopeReseller(n) => m == Trim(n) || (v.panel[m].role == "user" && v.panel[m].reseller == Some(Trim(n)))
    case ScopeAll => true
  }

  /** An export fails exactly if its subject is not a panel user, or not a reseller. */
  lemma ScopesFail(v: View, scope: Scope)
    ensures Included(v, scope).None? <==> match scope
      case ScopeUser(n) => Trim(n) !in v.panel
      case ScopeReseller(n) => Trim(n) !in v.panel || v.panel[Trim(n)].role != "reseller"
      case ScopeAll => false
  {
    hide Trim;
  }

  lemma IncludedBelong(v: View, scope: Scope, m: string)
    requires Included(v, scope).Some?
    ensures m in v.panel ==> (m in Included(v, scope).value <==> Belongs(v, scope, m))
    ensures m in Included(v, scope).value ==> m in v.panel
  {
    hide Trim;
  }

  /** An export has exactly the panel users of its scope, with all that is stored of them, the homes of those with a
      system user, the sites of these, the proxy targets of these, and every package. */
  lemma ScopeHolds(d: Dump, v: View, scope: Scope)
    requires ExportOf(d, v, scope)
    ensures forall x ::
      x in d.panel <==>
        x.username in v.panel && Belongs(v, scope, x.username) &&
        var p := v.panel[x.username];
        x == PanelDump(x.username, p.hash, p.role, p.enabled, if p.reseller == None then "" else p.reseller.value,
            p.systemUser)
    ensures forall x ::
      x in d.users <==>
        x.username in v.panel && Belongs(v, scope, x.username) && x.username in v.users && v.users[x.username] == x.home
    ensures forall x ::
      x in d.sites <==>
        x.owner in v.panel && Belongs(v, scope, x.owner) && x.owner in v.users && x.domain in v.sites &&
          v.sites[x.domain] == SiteView(x.owner, x.fields)
    ensures forall x ::
      x in d.targets <==>
        (x.domain, x.target) in v.targets && v.targets[(x.domain, x.target)] == x.t && x.domain in v.sites &&
        var owner := v.sites[x.domain].owner;
        owner in v.panel && Belongs(v, scope, owner) && owner in v.users
    ensures forall x :: x in d.packages <==> x.name in v.packages && v.packages[x.name] == x.limits
  {
    hide Included, Belongs, Lt;
    forall m ensures m in v.panel ==> (m in Included(v, scope).value <==> Belongs(v, scope, m)) {
      IncludedBelong(v, scope, m);
    }
  }

  /** A user's export has one panel user. */
  lemma UserScopeIsOne(d: Dump, v: View, n: string)
    requires ExportOf(d, v, ScopeUser(n))
    ensures |d.panel| == 1 && d.panel[0].username == Trim(n)
  {
    hide Trim, PanelDumpOf, UsersListed, PackagesListed, SitesListed, TargetsListed;
    var m := Trim(n);
    assert PanelDumpOf(m, v.panel[m]).username == m by { PanelName(m, v.panel[m]); }
    assert PanelDumpOf(m, v.panel[m]) in d.panel;
    forall i | 0 <= i < |d.panel| ensures d.panel[i].username == m { assert d.panel[i] in d.panel; }
    assert |d.panel| > 1 ==> Lt(d.panel[0].username, d.panel[1].username);
  }

  lemma PanelName(m: string, p: PanelView)
    ensures PanelDumpOf(m, p).username == m
  {
  }

  /** Nobody belongs to two resellers. */
  lemma OneReseller(v: View, a: string, b: string, m: string)
    requires Included(v, ScopeReseller(a)).Some? && Included(v, ScopeReseller(b)).Some? && Trim(a) != Trim(b)
    requires m in v.panel && Belongs(v, ScopeReseller(a), m)
    ensures !Belongs(v, ScopeReseller(b), m)
  {
    hide Trim;
    ScopesFail(v, ScopeReseller(a));
    ScopesFail(v, ScopeReseller(b));
  }

  /** So the exports of two resellers share no panel user, home, site or proxy target. */
  lemma ResellersShareNothing(d: Dump, e: Dump, v: View, a: string, b: string)
    requires ExportOf(d, v, ScopeReseller(a)) && ExportOf(e, v, ScopeReseller(b)) && Trim(a) != Trim(b)
    ensures forall x, y :: x in d.panel && y in e.panel ==> x.username != y.username
    ensures forall x, y :: x in d.users && y in e.users ==> x.username != y.username
    ensures forall x, y :: x in d.sites && y in e.sites ==> x.domain != y.domain && x.owner != y.owner
    ensures forall x, y :: x in d.targets && y in e.targets ==> x.domain != y.domain
  {
    hide Trim, Included, Belongs, IsDump;
    ScopeHolds(d, v, ScopeReseller(a));
    ScopeHolds(e, v, ScopeReseller(b));
    forall m | m in v.panel && Belongs(v, ScopeReseller(a), m) ensures !Belongs(v, ScopeReseller(b), m) {
      OneReseller(v, a, b, m);
    }
  }
}
