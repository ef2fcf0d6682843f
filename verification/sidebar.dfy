/**
 * The side navigation (`src/components/layout/Sidebar.tsx`): three fixed
 * lists of links. The personal ones are filtered by authentication, the
 * Library heading is shown only when some survive, and a link is
 * highlighted when the current path is exactly its target.
 */
module Sidebar {
  import opened Wrappers

  /** One link. `requiresAuth` is `false` where the source leaves it unset. */
  datatype NavItem = NavItem(title: string, href: string, requiresAuth: bool)

  function MainItems(): seq<NavItem> {
    [NavItem("Home", "/", false), NavItem("Explore", "/explore", false)]
  }

  function PersonalItems(): seq<NavItem> {
    [NavItem("History", "/history", true),
     NavItem("Watch Later", "/watch-later", true),
     NavItem("Liked Videos", "/liked", true)]
  }

  function ExploreItems(): seq<NavItem> {
    [NavItem("Trending", "/trending", false),
     NavItem("Music", "/category/music", false),
     NavItem("Movies", "/category/movies", false),
     NavItem("Gaming", "/category/gaming", false),
     NavItem("News", "/category/news", false),
     NavItem("Sports", "/category/sports", false),
     NavItem("Learning", "/category/learning", false),
     NavItem("Fashion", "/category/fashion", false)]
  }

  /** The filter's test: the link needs no sign-in, or the viewer is signed in. */
  predicate Visible(item: NavItem, isAuthenticated: bool) {
    !item.requiresAuth || isAuthenticated
  }

  /** `a` is `b` with some elements left out, the rest in their order. */
  predicate IsSubsequence<T(==)>(a: seq<T>, b: seq<T>)
    decreases |b|
  {
    if |a| == 0 then true
    else if |b| == 0 then false
    else if a[0] == b[0] then IsSubsequence(a[1..], b[1..])
    else IsSubsequence(a, b[1..])
  }

  /**
   * `items.filter(item => !item.requiresAuth || isAuthenticated)`: a link
   * is kept exactly when it is visible.
   */
  function Filter(items: seq<NavItem>, isAuthenticated: bool): (r: seq<NavItem>)
    ensures |r| <= |items|
    ensures forall x :: x in r <==> x in items && Visible(x, isAuthenticated)
  {
    if |items| == 0 then []
    else
      var rest := Filter(items[1..], isAuthenticated);
      assert forall x :: x in items <==> x == items[0] || x in items[1..];
      if Visible(items[0], isAuthenticated) then [items[0]] + rest else rest
  }

  /** The filter keeps the surviving links in their order. */
  lemma {:induction false} FilterIsSubsequence(items: seq<NavItem>, isAuthenticated: bool)
    ensures IsSubsequence(Filter(items, isAuthenticated), items)
  {
    if |items| > 0 {
      FilterIsSubsequence(items[1..], isAuthenticated);
    }
  }

  /** A signed-in viewer sees every link of a list. */
  lemma {:induction false} SignedInKeepsAll(items: seq<NavItem>)
    ensures Filter(items, true) == items
  {
    if |items| > 0 {
      SignedInKeepsAll(items[1..]);
      assert [items[0]] + items[1..] == items;
    }
  }

  /** A guest sees none of a list whose every link needs a sign-in. */
  lemma {:induction false} GuestKeepsNone(items: seq<NavItem>)
    requires forall x :: x in items ==> x.requiresAuth
    ensures Filter(items, false) == []
  {
    if |items| > 0 {
      GuestKeepsNone(items[1..]);
    }
  }

  /** The Library section: its links, or nothing when none survive the filter. */
  function Library(isAuthenticated: bool): (r: Option<seq<NavItem>>)
    ensures r.Some? ==> |r.value| > 0
    ensures r.Some? ==> forall x :: x in r.value <==> x in PersonalItems() && Visible(x, isAuthenticated)
  {
    var kept := Filter(PersonalItems(), isAuthenticated);
    if |kept| > 0 then Some(kept) else None
  }

  /**
   * Every personal link needs a sign-in, so a guest gets no Library
   * section and a signed-in viewer gets all three links.
   */
  lemma LibraryFollowsSignIn(isAuthenticated: bool)
    ensures forall x :: x in PersonalItems() ==> x.requiresAuth
    ensures !isAuthenticated ==> Library(isAuthenticated).None?
    ensures isAuthenticated ==> Library(isAuthenticated) == Some(PersonalItems())
  {
    SignedInKeepsAll(PersonalItems());
    GuestKeepsNone(PersonalItems());
  }

  /** Every link the sidebar shows, top to bottom. */
  function Shown(isAuthenticated: bool): (r: seq<NavItem>)
    ensures forall x :: x in r <==>
      x in MainItems() || x in ExploreItems() || (x in PersonalItems() && Visible(x, isAuthenticated))
  {
    var library := Library(isAuthenticated);
    MainItems() + (if library.Some? then library.value else []) + ExploreItems()
  }

  /** A link is highlighted exactly when the current path is its target. */
  predicate Active(pathname: string, item: NavItem) {
    pathname == item.href
  }

  /** The targets of a list of links, in order. */
  function Targets(items: seq<NavItem>): (r: seq<string>)
    ensures |r| == |items|
    ensures forall i :: 0 <= i < |items| ==> r[i] == items[i].href
  {
    if |items| == 0 then [] else [items[0].href] + Targets(items[1..])
  }

  /** No two links of a list share a target. */
  predicate Distinct(ts: seq<string>) {
    forall i, j :: 0 <= i < j < |ts| ==> ts[i] != ts[j]
  }

  /** The sidebar shows the main links, then the Library links if any, then the explore links. */
  lemma ShownLayout(isAuthenticated: bool)
    ensures isAuthenticated ==> Shown(isAuthenticated) == MainItems() + PersonalItems() + ExploreItems()
    ensures !isAuthenticated ==> Shown(isAuthenticated) == MainItems() + ExploreItems()
  {
    LibraryFollowsSignIn(isAuthenticated);
  }

  /** No two links of a list share a target. */
  predicate DistinctTargets(items: seq<NavItem>) {
    forall i, j | 0 <= i < j < |items| :: items[i].href != items[j].href
  }

  lemma MainTargetsDistinct()
    ensures DistinctTargets(MainItems())
  {
  }

  lemma PersonalTargetsDistinct()
    ensures DistinctTargets(PersonalItems())
  {
  }

  lemma ExploreTargetsDistinct()
    ensures DistinctTargets(ExploreItems())
  {
  }

  /** Two lists with distinct targets and no target in common join into one. */
  lemma DistinctAppend(a: seq<NavItem>, b: seq<NavItem>)
    requires DistinctTargets(a) && DistinctTargets(b)
    requires forall x, y | x in a && y in b :: x.href != y.href
    ensures DistinctTargets(a + b)
  {
    forall i, j | 0 <= i < j < |a + b|
      ensures (a + b)[i].href != (a + b)[j].href
    {
      if j < |a| {
      } else if i >= |a| {
        assert (a + b)[i] == b[i - |a|] && (a + b)[j] == b[j - |a|];
      } else {
        assert (a + b)[i] in a && (a + b)[j] in b;
      }
    }
  }

  /** The link tables name no target twice, with or without the Library links. */
  lemma TablesTargetsDistinct()
    ensures DistinctTargets(MainItems() + PersonalItems() + ExploreItems())
    ensures DistinctTargets(MainItems() + ExploreItems())
  {
    MainTargetsDistinct();
    PersonalTargetsDistinct();
    ExploreTargetsDistinct();
    DistinctAppend(MainItems(), PersonalItems());
    DistinctAppend(MainItems() + PersonalItems(), ExploreItems());
    DistinctAppend(MainItems(), ExploreItems());
  }

  /** No two links the sidebar shows share a target, signed in or not. */
  lemma ShownTargetsDistinct(isAuthenticated: bool)
    ensures Distinct(Targets(Shown(isAuthenticated)))
  {
    ShownLayout(isAuthenticated);
    TablesTargetsDistinct();
    var items := Shown(isAuthenticated);
    assert DistinctTargets(items);
    var ts := Targets(items);
    forall i, j | 0 <= i < j < |ts|
      ensures ts[i] != ts[j]
    {
      assert ts[i] == items[i].href && ts[j] == items[j].href;
    }
  }

  /** Whatever the path, at most one link is highlighted. */
  lemma AtMostOneActive(pathname: string, isAuthenticated: bool, i: nat, j: nat)
    requires i < |Shown(isAuthenticated)| && j < |Shown(isAuthenticated)|
    requires Active(pathname, Shown(isAuthenticated)[i]) && Active(pathname, Shown(isAuthenticated)[j])
    ensures i == j
  {
    ShownTargetsDistinct(isAuthenticated);
    var ts := Targets(Shown(isAuthenticated));
    assert ts[i] == pathname && ts[j] == pathname;
  }
}
