/** The items screen (frontend/src/routes/_layout/items.tsx): one tab per
    language, seven items per page, and a search box and category filter
    applied to the page on screen. */
module ItemsRoute {
  import opened Common
  import opened ClientModels
  import opened Pagination

  const ItemsPerPage: nat := 7
  const AllCategories: string := "all"

  /** The request for a page of one language's items and the key it is
      cached under. */
  datatype ItemsQuery = ItemsQuery(language: string, paging: PageQuery, keyLanguage: string, keyPage: int)

  function ItemsQueryFor(page: int, language: string): (q: ItemsQuery)
    ensures q.language == language && q.keyLanguage == language && q.keyPage == page
    ensures q.paging.limit == ItemsPerPage
    ensures q.paging.skip + ItemsPerPage == page * ItemsPerPage
  {
    ItemsQuery(language, QueryFor(page, ItemsPerPage), language, page)
  }

  /** Different pages of one language are cached under different keys and
      ask for windows of rows that do not overlap. */
  lemma {:induction false} DistinctPagesAskDisjointRows(p1: int, p2: int, language: string)
    requires p1 >= 1 && p2 >= 1 && p1 != p2
    ensures var q1, q2 := ItemsQueryFor(p1, language), ItemsQueryFor(p2, language);
      && q1.keyPage != q2.keyPage
      && (q1.paging.skip + ItemsPerPage <= q2.paging.skip || q2.paging.skip + ItemsPerPage <= q1.paging.skip)
  {
    if p1 < p2 {
      MulMonotone(p1, p2 - 1, ItemsPerPage);
    } else {
      MulMonotone(p2, p1 - 1, ItemsPerPage);
    }
  }

  /** `hasNextPage`: fresh data whose `Data` is an array of seven items. */
  predicate ItemsHaveNextPage(isPlaceholder: bool, data: Option<seq<ItemPublic>>)
  {
    HasNextPage(isPlaceholder, if data.Some? then Some(|data.value|) else None, ItemsPerPage)
  }

  /** The search matches the lower-cased title or category. */
  predicate MatchesSearch(item: ItemPublic, query: string)
  {
    Contains(Lower(item.title), Lower(query)) || Contains(Lower(item.category), Lower(query))
  }

  /** The category filter is "all" or the item's own category. */
  predicate MatchesCategory(item: ItemPublic, selected: string)
  {
    selected == AllCategories || item.category == selected
  }

  /** `filteredItems`: the rows of the page (none when `Data` is missing)
      that match both, in their order. */
  function FilteredItems(data: Option<seq<ItemPublic>>, query: string, selected: string): (r: seq<ItemPublic>)
    ensures forall x :: x in r <==> x in ValueOr(data, []) && MatchesSearch(x, query) && MatchesCategory(x, selected)
    ensures Subsequence(r, ValueOr(data, []))
  {
    var keep := (x: ItemPublic) => MatchesSearch(x, query) && MatchesCategory(x, selected);
    FilterIsSubsequence(ValueOr(data, []), keep);
    Filter(ValueOr(data, []), keep)
  }

  /** The initial search ("" and "all") shows the whole page. */
  lemma InitialFilterKeepsEverything(data: Option<seq<ItemPublic>>)
    ensures FilteredItems(data, "", AllCategories) == ValueOr(data, [])
  {
    var rows := ValueOr(data, []);
    var keep := (x: ItemPublic) => MatchesSearch(x, "") && MatchesCategory(x, AllCategories);
    forall x | x in rows
      ensures keep(x)
    {
      EmptyIsContained(Lower(x.title));
    }
    FilterKeepsAll(rows, keep);
  }

  /** The page's categories after `.filter(Boolean)`: the non-empty ones, in
      row order. */
  function NonEmptyCategories(data: Option<seq<ItemPublic>>): (r: seq<string>)
    ensures forall c :: c in r <==> c != "" && exists x :: x in ValueOr(data, []) && x.category == c
  {
    var rows := ValueOr(data, []);
    var all := seq(|rows|, i requires 0 <= i < |rows| => rows[i].category);
    assert forall c :: c in all <==> exists x :: x in rows && x.category == c by {
      forall c | c in all
        ensures exists x :: x in rows && x.category == c
      {
        var i :| 0 <= i < |all| && all[i] == c;
        assert rows[i] in rows;
      }
      forall c | exists x :: x in rows && x.category == c
        ensures c in all
      {
        var x :| x in rows && x.category == c;
        var i :| 0 <= i < |rows| && rows[i] == x;
        assert all[i] == c;
      }
    }
    Filter(all, (c: string) => c != "")
  }

  /** `categories`: each non-empty category once, in order of first appearance. */
  function Categories(data: Option<seq<ItemPublic>>): (r: seq<string>)
    ensures NoDuplicates(r)
    ensures forall c :: c in r <==> c != "" && exists x :: x in ValueOr(data, []) && x.category == c
  {
    Distinct(NonEmptyCategories(data))
  }

  /** The order of the categories is the order in which they first appear. */
  lemma CategoriesInFirstAppearanceOrder(data: Option<seq<ItemPublic>>, i: int, j: int)
    requires 0 <= i < j < |Categories(data)|
    ensures var cs := NonEmptyCategories(data);
      Categories(data)[i] in cs && Categories(data)[j] in cs
      && FirstIndex(cs, Categories(data)[i]) < FirstIndex(cs, Categories(data)[j])
  {
    DistinctKeepsFirstAppearanceOrder(NonEmptyCategories(data), i, j);
  }

  /** The screen's tab state: the languages shown as tabs and the active one. */
  class LanguageTabs {
    var languages: seq<string>
    var activeTab: int

    constructor ()
      ensures languages == [] && activeTab == 0
    {
      languages := [];
      activeTab := 0;
    }

    /** The effect on fetched languages: the tabs become that list. */
    method Sync(fetched: seq<string>)
      modifies this`languages
      ensures languages == fetched
    {
      languages := fetched;
    }

    /** A tab clicked. */
    method SelectTab(index: int)
      modifies this`activeTab
      ensures activeTab == index
    {
      activeTab := index;
    }

    /** `onNewLanguage`: a language not yet shown is appended and becomes
        the active tab; a known one changes nothing. */
    method OnNewLanguage(lang: string)
      modifies this`languages, this`activeTab
      ensures lang in old(languages) ==> languages == old(languages) && activeTab == old(activeTab)
      ensures lang !in old(languages) ==>
                languages == old(languages) + [lang] && activeTab == |old(languages)|
      ensures lang in languages
      ensures lang !in old(languages) ==> 0 <= activeTab < |languages| && languages[activeTab] == lang
      ensures NoDuplicates(old(languages)) ==> NoDuplicates(languages)
    {
      if lang !in languages {
        activeTab := |languages|;
        languages := languages + [lang];
      }
    }
  }
}
