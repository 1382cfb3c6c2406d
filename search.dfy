/** The navigation search endpoint: a case-insensitive title filter over a fixed list. */
module NavigationSearch {
  import opened Wrappers
  import opened JsString
  import opened Sequences

  /** A navigation entry; `kind` is the JSON field `type`. */
  datatype NavItem = NavItem(id: string, title: string, kind: string, url: string)

  /** `navigationItems`. */
  const NavigationItems: seq<NavItem> := [
    NavItem("nav-1", "Home", "navigation", "/"),
    NavItem("nav-2", "Report Waste", "navigation", "/report"),
    NavItem("nav-3", "Collect Waste", "navigation", "/collect"),
    NavItem("nav-4", "Rewards", "navigation", "/rewards"),
    NavItem("nav-5", "Leaderboard", "navigation", "/leaderboard")
  ]

  /** `searchParams.get('q')?.toLowerCase() ?? ''`; `None` is an absent `q`. */
  function Query(q: Option<string>): string
  {
    match q
    case None => ""
    case Some(s) => Lower(s)
  }

  /** The entry's lower-cased title includes `query`. */
  predicate TitleMatches(item: NavItem, query: string)
  {
    Contains(Lower(item.title), query)
  }

  /** `items.filter(item => item.title.toLowerCase().includes(query))`. */
  function FilterByTitle(items: seq<NavItem>, query: string): (r: seq<NavItem>)
    ensures IsSubsequence(r, items)
    ensures forall x :: x in r <==> x in items && TitleMatches(x, query)
    ensures |r| <= |items|
    // every matching entry keeps all its copies, every other entry loses them
    ensures forall x :: multiset(r)[x] == if TitleMatches(x, query) then multiset(items)[x] else 0
  {
    if items == [] then []
    else
      assert items == [items[0]] + items[1..];
      var rest := FilterByTitle(items[1..], query);
      if TitleMatches(items[0], query) then [items[0]] + rest else rest
  }

  /** `GET /api/search?q=...`: the matching navigation entries, in their original order. */
  function Search(q: Option<string>): (r: seq<NavItem>)
    ensures IsSubsequence(r, NavigationItems)
    ensures forall x :: x in r <==> x in NavigationItems && TitleMatches(x, Query(q))
    ensures |r| <= 5
  {
    FilterByTitle(NavigationItems, Query(q))
  }

  /** The empty query keeps every entry. */
  lemma {:induction false} EmptyQueryKeepsAll(items: seq<NavItem>)
    ensures FilterByTitle(items, "") == items
  {
    if items != [] {
      ContainsEmpty(Lower(items[0].title));
      EmptyQueryKeepsAll(items[1..]);
    }
  }

  /** Without `q`, all five entries are returned. */
  lemma MissingQueryReturnsAll()
    ensures Search(None) == NavigationItems
    ensures |Search(None)| == 5
  {
    EmptyQueryKeepsAll(NavigationItems);
  }

  /** Two queries that agree once lower-cased give the same results. */
  lemma SearchIgnoresCase(q1: string, q2: string)
    requires Lower(q1) == Lower(q2)
    ensures Search(Some(q1)) == Search(Some(q2))
  {
  }

  /** Lower-casing the query changes nothing. */
  lemma LowerQuerySameResults(q: string)
    ensures Search(Some(Lower(q))) == Search(Some(q))
  {
    LowerIdempotent(q);
  }
}
