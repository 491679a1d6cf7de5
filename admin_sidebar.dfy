/** The admin navigation (frontend/components/AdminSidebar.tsx): the fixed list of links, which
    of them is highlighted for the current path, and signing out. */
module AdminSidebar {
  import opened Common
  import ApiClient

  datatype NavLink = NavLink(name: string, href: string)

  const Links: seq<NavLink> := [
    NavLink("Dashboard", "/admin/dashboard"),
    NavLink("Campaigns", "/admin/campaigns"),
    NavLink("Site Content", "/admin/cms"),
    NavLink("Media Gallery", "/admin/gallery"),
    NavLink("Messages", "/admin/messages"),
    NavLink("Donations", "/admin/donations")
  ]

  /** A link is highlighted on its own path and on every path below it, but not on a path that
      merely begins with the same letters. */
  function IsActive(path: string, href: string): (b: bool)
    ensures b ==> StartsWith(path, href)
    ensures b && path != href ==> |path| > |href| && path[|href|] == '/'
  {
    assert StartsWith(path, href + "/") ==> path[..|href|] == (href + "/")[..|href|] == href;
    path == href || StartsWith(path, href + "/")
  }

  /** The highlight of each link, in order. */
  function ActiveFlags(path: string): (flags: seq<bool>)
    ensures |flags| == |Links|
    ensures forall i :: 0 <= i < |Links| ==> (flags[i] <==> IsActive(path, Links[i].href))
  {
    seq(|Links|, i requires 0 <= i < |Links| => IsActive(path, Links[i].href))
  }

  /** `a` and `b` differ at some position both have, so neither extends the other. */
  ghost predicate Diverge(a: string, b: string) {
    exists k :: 0 <= k < |a| && k < |b| && a[k] != b[k]
  }

  /** Any two of the paths diverge. */
  ghost predicate Separated(hrefs: seq<string>) {
    forall i, j :: 0 <= i < |hrefs| && 0 <= j < |hrefs| && i != j ==> Diverge(hrefs[i], hrefs[j])
  }

  /** An active link's path is a prefix of the current path. */
  lemma ActiveIsPrefix(path: string, href: string)
    requires IsActive(path, href)
    ensures |href| <= |path| && path[..|href|] == href
  {
    if path != href {
      assert path[..|href|] == (href + "/")[..|href|];
    }
  }

  /** For paths of which none extends another, at most one is active for any current path. */
  lemma AtMostOneActiveAmong(hrefs: seq<string>, path: string, i: nat, j: nat)
    requires Separated(hrefs)
    requires i < |hrefs| && j < |hrefs|
    requires IsActive(path, hrefs[i]) && IsActive(path, hrefs[j])
    ensures i == j
  {
    ActiveIsPrefix(path, hrefs[i]);
    ActiveIsPrefix(path, hrefs[j]);
  }

  /** The paths of the sidebar. */
  function Hrefs(): (hs: seq<string>)
    ensures |hs| == |Links|
    ensures forall i :: 0 <= i < |Links| ==> hs[i] == Links[i].href
  {
    seq(|Links|, i requires 0 <= i < |Links| => Links[i].href)
  }

  /** The eighth and ninth characters of each path, in the order of the links. */
  const Keys: seq<(char, char)> := [('d', 'a'), ('c', 'a'), ('c', 'm'), ('g', 'a'), ('m', 'e'), ('d', 'o')]

  lemma KeysDistinct()
    ensures |Keys| == 6
    ensures forall i, j :: 0 <= i < 6 && 0 <= j < 6 && i != j ==> Keys[i] != Keys[j]
  {
  }

  lemma LinkKeys()
    ensures |Links| == 6
    ensures forall i :: 0 <= i < 6 ==> |Links[i].href| > 9 && (Links[i].href[7], Links[i].href[8]) == Keys[i]
  {
  }

  /** Paths whose eighth and ninth characters differ pairwise are separated. */
  lemma SeparatedByKeys(hs: seq<string>)
    requires |hs| == |Keys|
    requires forall i :: 0 <= i < |hs| ==> |hs[i]| > 9 && (hs[i][7], hs[i][8]) == Keys[i]
    requires forall i, j :: 0 <= i < |hs| && 0 <= j < |hs| && i != j ==> Keys[i] != Keys[j]
    ensures Separated(hs)
  {
    forall i, j | 0 <= i < |hs| && 0 <= j < |hs| && i != j
      ensures Diverge(hs[i], hs[j])
    {
      assert Keys[i] != Keys[j];
      if hs[i][7] != hs[j][7] {
        assert hs[i][7] != hs[j][7];
      } else {
        assert hs[i][8] != hs[j][8];
      }
    }
  }

  /** The six paths of the sidebar are separated. */
  lemma LinksSeparated()
    ensures Separated(Hrefs())
  {
    LinkKeys();
    KeysDistinct();
    SeparatedByKeys(Hrefs());
  }

  /** Whatever the path, at most one link of the sidebar is highlighted; and the six paths are
      pairwise distinct. */
  lemma AtMostOneActive(path: string, i: nat, j: nat)
    requires i < |Links| && j < |Links|
    ensures ActiveFlags(path)[i] && ActiveFlags(path)[j] ==> i == j
    ensures i != j ==> Links[i].href != Links[j].href
  {
    LinksSeparated();
    var hs := Hrefs();
    if ActiveFlags(path)[i] && ActiveFlags(path)[j] {
      AtMostOneActiveAmong(hs, path, i, j);
    }
    if i != j {
      assert Diverge(hs[i], hs[j]);
    }
  }

  /** A page below Campaigns highlights Campaigns; a path that only begins with the same letters
      highlights nothing of it. */
  lemma SubRoutes()
    ensures IsActive("/admin/campaigns/new", "/admin/campaigns")
    ensures !IsActive("/admin/campaignsX", "/admin/campaigns")
  {
    assert ("/admin/campaigns/new")[..17] == "/admin/campaigns" + "/";
    assert ("/admin/campaignsX")[16] != ("/admin/campaigns" + "/")[16];
  }

  /** "Sign Out": the stored token is removed and the browser goes to the login page. */
  function SignOut(storage: map<string, string>): (r: (map<string, string>, string))
    ensures "token" !in r.0
    ensures forall k :: k in storage && k != "token" ==> k in r.0 && r.0[k] == storage[k]
    ensures forall k :: k in r.0 ==> k in storage
    ensures r.1 == "/admin/login"
  {
    (storage - {"token"}, "/admin/login")
  }

  /** `localStorage.getItem(key)`: null for a missing key. */
  function GetItem(storage: map<string, string>, key: string): (v: Option<string>)
    ensures v.Some? <==> key in storage
    ensures v.Some? ==> v.value == storage[key]
  {
    if key in storage then Some(storage[key]) else None
  }

  /** After signing out, the API client sends requests without an Authorization header. */
  lemma SignedOutSendsNoToken(storage: map<string, string>, headers: map<string, string>, inBrowser: bool)
    ensures ApiClient.WithToken(headers, inBrowser, GetItem(SignOut(storage).0, "token")) == headers
  {
  }
}
