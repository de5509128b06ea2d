/** The sidebar: the table of routes and when each entry is highlighted for the
    current pathname. */
module SidebarNav {

  import opened Seqs
  import opened Text

  datatype SubItem = SubItem(href: string, title: string)

  /** An entry is a plain link or a group whose sub-links are listed under it. */
  datatype NavItem =
    | Leaf(href: string, title: string)
    | Group(href: string, title: string, subItems: seq<SubItem>)

  /** `navItems`. */
  const NavItems: seq<NavItem> := [
    Leaf("/", "Dashboard"),
    Leaf("/journal", "Journal"),
    Leaf("/mood-tracker", "Mood Tracker"),
    Group("/wellness", "Wellness Toolkit", [
      SubItem("/wellness/affirmations", "Affirmations"),
      SubItem("/wellness/mindfulness", "Mindfulness"),
      SubItem("/wellness/meditations", "Meditations")
    ]),
    Leaf("/insights", "Insights"),
    Leaf("/chat", "AI Companion"),
    Leaf("/settings", "Settings")
  ]

  /** A group is highlighted on every path that starts with its href, except
      that a group at the root would never be. */
  predicate GroupActive(pathname: string, href: string) {
    StartsWith(pathname, href) && href != "/"
  }

  /** Sub-links and plain links are highlighted only on their exact path. */
  predicate ExactActive(pathname: string, href: string) {
    pathname == href
  }

  /** The highlight rule of a top-level entry. */
  predicate ItemActive(item: NavItem, pathname: string) {
    match item
      case Leaf(href, _) => ExactActive(pathname, href)
      case Group(href, _, _) => GroupActive(pathname, href)
  }

  function SubHrefs(subs: seq<SubItem>): (r: seq<string>)
    ensures |r| == |subs|
    ensures forall j :: 0 <= j < |subs| ==> r[j] == subs[j].href
    decreases |subs|
  {
    if subs == [] then [] else [subs[0].href] + SubHrefs(subs[1..])
  }

  /** The hrefs an entry contributes to exact matching: a plain link its own,
      a group those of its sub-links (the group's own href is a prefix test). */
  function ItemHrefs(item: NavItem): seq<string> {
    match item
      case Leaf(href, _) => [href]
      case Group(_, _, subs) => SubHrefs(subs)
  }

  /** The hrefs highlighted by exact match: the plain links and every
      sub-link, in table order. */
  function ExactHrefs(items: seq<NavItem>): seq<string>
    decreases |items|
  {
    if items == [] then [] else ItemHrefs(items[0]) + ExactHrefs(items[1..])
  }

  /** Every plain link and every sub-link has its href in the list. */
  lemma {:induction false} ExactHrefsCover(items: seq<NavItem>)
    ensures forall i :: 0 <= i < |items| && items[i].Leaf? ==> items[i].href in ExactHrefs(items)
    ensures forall i, j :: 0 <= i < |items| && items[i].Group? && 0 <= j < |items[i].subItems| ==>
      items[i].subItems[j].href in ExactHrefs(items)
    decreases |items|
  {
    if items != [] {
      ExactHrefsCover(items[1..]);
      assert forall i :: 1 <= i < |items| ==> items[i] == items[1..][i - 1];
    }
  }

  const TableHrefs: seq<string> := ["/", "/journal", "/mood-tracker",
    "/wellness/affirmations", "/wellness/mindfulness", "/wellness/meditations",
    "/insights", "/chat", "/settings"]

  /** The exact-match hrefs of the table, written out. */
  lemma ExactHrefsOfTable()
    ensures ExactHrefs(NavItems) == TableHrefs
  {
    var t := NavItems;
    assert ExactHrefs(t[6..]) == ["/settings"];
    assert ExactHrefs(t[5..]) == ["/chat"] + ExactHrefs(t[6..]);
    assert ExactHrefs(t[4..]) == ["/insights"] + ExactHrefs(t[5..]);
    assert ItemHrefs(t[3]) == ["/wellness/affirmations", "/wellness/mindfulness", "/wellness/meditations"];
    assert ExactHrefs(t[3..]) == ItemHrefs(t[3]) + ExactHrefs(t[4..]);
    assert ExactHrefs(t[2..]) == ["/mood-tracker"] + ExactHrefs(t[3..]);
    assert ExactHrefs(t[1..]) == ["/journal"] + ExactHrefs(t[2..]);
    assert ExactHrefs(t) == ["/"] + ExactHrefs(t[1..]);
  }

  /** No two exact-match entries share an href. */
  lemma ExactHrefsDistinct()
    ensures Distinct(ExactHrefs(NavItems))
  {
    ExactHrefsOfTable();
    var hs := TableHrefs;
    forall i, j | 0 <= i < j < |hs|
      ensures hs[i] != hs[j]
    {
      DistinctAt(i, j);
    }
  }

  /** Two entries of the table differ in length, or (the two equal-length
      pairs) at one visible position. */
  lemma DistinctAt(i: nat, j: nat)
    requires i < j < |TableHrefs|
    ensures TableHrefs[i] != TableHrefs[j]
  {
    var hs := TableHrefs;
    if i == 4 && j == 5 {
      assert hs[i][11] != hs[j][11];
    } else if i == 6 && j == 8 {
      assert hs[i][1] != hs[j][1];
    } else {
      assert |hs[i]| != |hs[j]|;
    }
  }

  /** For any pathname, at most one plain link or sub-link is highlighted. */
  lemma AtMostOneExact(pathname: string, i: nat, j: nat)
    requires i < |ExactHrefs(NavItems)| && j < |ExactHrefs(NavItems)|
    requires ExactActive(pathname, ExactHrefs(NavItems)[i])
    requires ExactActive(pathname, ExactHrefs(NavItems)[j])
    ensures i == j
  {
    ExactHrefsDistinct();
  }

  /** The dashboard is highlighted only on the root. */
  lemma DashboardOnlyOnRoot(pathname: string)
    ensures ItemActive(NavItems[0], pathname) <==> pathname == "/"
  {
  }

  /** A group at the root is never highlighted, whatever the path. */
  lemma RootGroupNeverActive(pathname: string, title: string, subs: seq<SubItem>)
    ensures !ItemActive(Group("/", title, subs), pathname)
  {
  }

  /** The wellness group is highlighted whenever one of its sub-links is. */
  lemma SubActiveImpliesGroupActive(pathname: string, k: nat)
    requires k < |NavItems[3].subItems|
    requires ExactActive(pathname, NavItems[3].subItems[k].href)
    ensures ItemActive(NavItems[3], pathname)
  {
    var sub := NavItems[3].subItems[k].href;
    assert sub[..|"/wellness"|] == "/wellness";
  }

  /** The group test is a plain prefix test, so a path that merely begins with
      the same letters also highlights the group. */
  lemma GroupPrefixMatch()
    ensures ItemActive(NavItems[3], "/wellness-extra")
  {
    assert "/wellness-extra"[..9] == "/wellness";
  }
}
