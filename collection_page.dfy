/** The collection page's URL filter state: what the page reads from the
    query string, the query it sends to the catalog service, and the
    transitions its controls make to the parameters (each builds a fresh
    `URLSearchParams` from the current ones and pushes the result). */
module CollectionPage {
  import opened JsRuntime
  import opened JsArray
  import opened ProductTypes
  import opened ProductSort
  import opened ProductService
  import opened SearchParams

  /** Products per page; also the limit sent with every query. */
  const PageSize: int := 12

  const DefaultSort: string := "rating:desc"

  /** The names that are not counted as active filters. */
  const ReservedKeys: set<string> := {"category", "collection", "search", "sort", "page"}

  /** The sort menu: label and `field:direction` value. */
  const SortOptions: seq<(string, string)> := [
    ("Most Popular", "rating:desc"),
    ("Best Rating", "rating:desc"),
    ("Newest", "createdAt:desc"),
    ("Price: Low to High", "price:asc"),
    ("Price: High to Low", "price:desc")]

  /** Every menu value is a non-empty `field:direction` over a product field,
      so choosing it sorts the catalog by that field. */
  lemma SortOptionsAreKeys(i: int)
    requires 0 <= i < |SortOptions|
    ensures SortOptions[i].1 != ""
    ensures ParseSortKey(SortOptions[i].1).field in ProductFields
    ensures ParseSortKey(SortOptions[i].1).ascending <==> (i == 3)
  {
    if i <= 1 {
      ParseSortKeyOf("rating", "desc");
      assert SortOptions[i].1 == "rating" + ":" + "desc";
    } else if i == 2 {
      ParseSortKeyOf("createdAt", "desc");
      assert SortOptions[i].1 == "createdAt" + ":" + "desc";
    } else if i == 3 {
      ParseSortKeyOf("price", "asc");
      assert SortOptions[i].1 == "price" + ":" + "asc";
    } else {
      ParseSortKeyOf("price", "desc");
      assert SortOptions[i].1 == "price" + ":" + "desc";
    }
  }

  // ---------------------------------------------------------------------
  // Reading the URL

  /** What the page reads from its parameters. `page` is `parseInt` of the
      value, so `None` stands for NaN. */
  datatype PageView = PageView(
    category: Option<string>,
    collection: Option<string>,
    search: Option<string>,
    sort: string,
    minPrice: Option<string>,
    maxPrice: Option<string>,
    page: Option<int>)

  /** `get(k) || fallback`. */
  function GetOr(ps: seq<Pair>, k: string, fallback: string): string {
    var v := Get(ps, k);
    if TruthyString(v) then v.value else fallback
  }

  /** `parseInt(get('page') || '1')`. */
  function PageNumber(ps: seq<Pair>): Option<int> {
    ParseInt(GetOr(ps, "page", "1"))
  }

  function ReadView(ps: seq<Pair>): (v: PageView)
    ensures v.sort != ""
  {
    PageView(Get(ps, "category"), Get(ps, "collection"), Get(ps, "search"),
      GetOr(ps, "sort", DefaultSort), Get(ps, "minPrice"), Get(ps, "maxPrice"),
      PageNumber(ps))
  }

  /** Without a usable `page` the page is 1, and without a `sort` the order
      is `rating:desc`. */
  lemma ReadViewDefaults(ps: seq<Pair>)
    ensures !TruthyString(Get(ps, "page")) ==> PageNumber(ps) == Some(1)
    ensures !TruthyString(Get(ps, "sort")) ==> ReadView(ps).sort == DefaultSort
  {
    ParseIntRoundTrip(1);
    assert IntToString(1) == "1";
  }

  /** The query sent to the catalog: the three filters and the sort, each
      only when truthy, and always twelve products. */
  function QueryFor(v: PageView): QueryParams {
    QueryParams(OrUndefined(v.category), OrUndefined(v.collection), OrUndefined(v.search),
      OrUndefined(Some(v.sort)), Some(PageSize))
  }

  /** The query always sorts and always asks for one page's worth. */
  lemma QueryForSortsAndLimits(ps: seq<Pair>)
    ensures QueryFor(ReadView(ps)).sort == Some(ReadView(ps).sort)
    ensures QueryFor(ReadView(ps)).limit == Some(PageSize)
  {
  }

  /** The names the query never depends on. */
  const IgnoredByQuery: set<string> := {"page", "minPrice", "maxPrice"}

  /** The query depends only on the first `category`, `collection`,
      `search` and `sort` values. */
  lemma QueryDependsOnFilters(ps: seq<Pair>, qs: seq<Pair>)
    requires Get(ps, "category") == Get(qs, "category")
    requires Get(ps, "collection") == Get(qs, "collection")
    requires Get(ps, "search") == Get(qs, "search")
    requires Get(ps, "sort") == Get(qs, "sort")
    ensures QueryFor(ReadView(ps)) == QueryFor(ReadView(qs))
  {
  }

  /** `page`, `minPrice` and `maxPrice` are never passed on: removing them
      does not change the query, so neither does any value they hold. */
  lemma QueryIgnoresPageAndPrice(ps: seq<Pair>)
    ensures QueryFor(ReadView(Without(ps, IgnoredByQuery))) == QueryFor(ReadView(ps))
  {
    var qs := Without(ps, IgnoredByQuery);
    assert Get(qs, "category") == Get(ps, "category") by { GetWithout(ps, IgnoredByQuery, "category"); }
    assert Get(qs, "collection") == Get(ps, "collection") by { GetWithout(ps, IgnoredByQuery, "collection"); }
    assert Get(qs, "search") == Get(ps, "search") by { GetWithout(ps, IgnoredByQuery, "search"); }
    assert Get(qs, "sort") == Get(ps, "sort") by { GetWithout(ps, IgnoredByQuery, "sort"); }
    QueryDependsOnFilters(qs, ps);
  }

  lemma QueryIgnoresPageValue(ps: seq<Pair>, page: string)
    ensures QueryFor(ReadView(Set(ps, "page", page))) == QueryFor(ReadView(ps))
  {
    QueryIgnoresPageAndPrice(ps);
    QueryIgnoresPageAndPrice(Set(ps, "page", page));
    SetKeepsOthers(ps, "page", page, IgnoredByQuery);
  }

  // ---------------------------------------------------------------------
  // updateFilter

  /** `updateFilter(key, value)`: set a truthy value, otherwise delete the
      name; then drop `page` so the listing starts again at page 1. */
  function UpdatedFilter(ps: seq<Pair>, key: string, value: Option<string>): seq<Pair> {
    var a := if TruthyString(value) then Set(ps, key, value.value) else Delete(ps, key);
    Delete(a, "page")
  }

  method UpdateFilter(current: seq<Pair>, key: string, value: Option<string>) returns (next: seq<Pair>)
    ensures next == UpdatedFilter(current, key, value)
  {
    var params := new UrlSearchParams(current);
    if TruthyString(value) {
      params.SetValue(key, value.value);
    } else {
      params.DeleteKey(key);
    }
    params.DeleteKey("page");
    next := params.entries;
  }

  /** After `updateFilter` no `page` remains; a truthy value leaves exactly
      one pair for the name, holding it; a null or empty value leaves none;
      every pair with another name stays, in order. */
  lemma UpdatedFilterEffect(ps: seq<Pair>, key: string, value: Option<string>)
    ensures var next := UpdatedFilter(ps, key, value);
      && GetAll(next, "page") == []
      && (key != "page" ==> GetAll(next, key) == if TruthyString(value) then [value.value] else [])
      && Without(next, {key, "page"}) == Without(ps, {key, "page"})
  {
    var a := if TruthyString(value) then Set(ps, key, value.value) else Delete(ps, key);
    DeleteKeepsOthers(a, "page", {"page"});
    if TruthyString(value) {
      SetGetAll(ps, key, value.value);
      SetKeepsOthers(ps, key, value.value, {key, "page"});
    } else {
      DeleteKeepsOthers(ps, key, {key});
      DeleteKeepsOthers(ps, key, {key, "page"});
    }
    GetAllWithout(a, {"page"}, key);
    DeleteKeepsOthers(a, "page", {key, "page"});
  }

  /** A new truthy `sort` value changes only the sort of the query. */
  lemma QueryWithNewSort(ps: seq<Pair>, qs: seq<Pair>, value: string)
    requires value != ""
    requires Get(ps, "category") == Get(qs, "category")
    requires Get(ps, "collection") == Get(qs, "collection")
    requires Get(ps, "search") == Get(qs, "search")
    requires Get(qs, "sort") == Some(value)
    ensures ReadView(qs).sort == value
    ensures QueryFor(ReadView(qs)) == QueryFor(ReadView(ps)).(sort := Some(value))
  {
  }

  /** Choosing a sort option changes the order of the next query and leaves
      its filters alone. */
  lemma SortSelectSetsSort(ps: seq<Pair>, value: string)
    requires value != ""
    ensures ReadView(UpdatedFilter(ps, "sort", Some(value))).sort == value
    ensures var before := QueryFor(ReadView(ps));
      var after := QueryFor(ReadView(UpdatedFilter(ps, "sort", Some(value))));
      after == before.(sort := Some(value))
  {
    var next := UpdatedFilter(ps, "sort", Some(value));
    var keys := {"sort", "page"};
    assert Without(next, keys) == Without(ps, keys) && GetAll(next, "sort") == [value] by {
      UpdatedFilterEffect(ps, "sort", Some(value));
    }
    assert Get(next, "sort") == Some(value) by { GetIsFirstOfGetAll(next, "sort"); }
    assert Get(next, "category") == Get(ps, "category") by { GetAgrees(next, ps, keys, "category"); }
    assert Get(next, "collection") == Get(ps, "collection") by { GetAgrees(next, ps, keys, "collection"); }
    assert Get(next, "search") == Get(ps, "search") by { GetAgrees(next, ps, keys, "search"); }
    QueryWithNewSort(ps, next, value);
  }

  // ---------------------------------------------------------------------
  // The facet checkboxes

  /** A checkbox starts checked when its value is among the section's values. */
  predicate DefaultChecked(ps: seq<Pair>, sectionId: string, optionValue: string) {
    optionValue in GetAll(ps, sectionId)
  }

  /** A checkbox change: a price option selects a range; any other option,
      checked, replaces the section's value; unchecked, removes it. */
  function CheckboxChange(ps: seq<Pair>, sectionId: string, optionValue: string, checked: bool): seq<Pair> {
    if sectionId == "price" then PriceRangeSelected(ps, optionValue)
    else if checked then UpdatedFilter(ps, sectionId, Some(optionValue))
    else UpdatedFilter(ps, sectionId, None)
  }

  /** Unchecking any option of a facet removes the facet entirely; checking
      one leaves that option as the facet's only value. */
  lemma CheckboxChangeEffect(ps: seq<Pair>, sectionId: string, optionValue: string, checked: bool)
    requires sectionId != "price" && sectionId != "page"
    ensures var next := CheckboxChange(ps, sectionId, optionValue, checked);
      GetAll(next, sectionId) == if checked && optionValue != "" then [optionValue] else []
    ensures checked && optionValue != "" ==> forall w ::
      DefaultChecked(CheckboxChange(ps, sectionId, optionValue, checked), sectionId, w) <==> w == optionValue
  {
    UpdatedFilterEffect(ps, sectionId, if checked then Some(optionValue) else None);
  }

  // ---------------------------------------------------------------------
  // handlePriceRangeSelect

  /** `range.split('-').map(Number)` destructured into `[min, max]`; a
      missing second piece is `undefined`, which is NaN to `isNaN`. */
  function PriceBounds(range: string): (Option<nat>, Option<nat>) {
    var parts := Split(range, '-');
    (ToNumber(parts[0]), if |parts| >= 2 then ToNumber(parts[1]) else None)
  }

  /** Set each bound that is a number, then drop `page`. */
  function PriceRangeSelected(ps: seq<Pair>, range: string): seq<Pair> {
    var (lo, hi) := PriceBounds(range);
    var a := if lo.Some? then Set(ps, "minPrice", NatToString(lo.value)) else ps;
    var b := if hi.Some? then Set(a, "maxPrice", NatToString(hi.value)) else a;
    Delete(b, "page")
  }

  method HandlePriceRangeSelect(current: seq<Pair>, range: string) returns (next: seq<Pair>)
    ensures next == PriceRangeSelected(current, range)
  {
    var parts := Split(range, '-');
    var lo := ToNumber(parts[0]);
    var hi := if |parts| >= 2 then ToNumber(parts[1]) else None;
    var params := new UrlSearchParams(current);
    if lo.Some? {
      params.SetValue("minPrice", NatToString(lo.value));
    }
    if hi.Some? {
      params.SetValue("maxPrice", NatToString(hi.value));
    }
    params.DeleteKey("page");
    next := params.entries;
  }

  lemma NatToStringHasNoDash(n: nat)
    ensures '-' !in NatToString(n)
  {
  }

  /** The names a price range may touch. */
  const PriceKeys: set<string> := {"minPrice", "maxPrice", "page"}

  /** A range `a-b` sets both bounds, drops `page`, and keeps everything else. */
  lemma PriceRangeBoth(ps: seq<Pair>, lo: nat, hi: nat)
    ensures var next := PriceRangeSelected(ps, NatToString(lo) + "-" + NatToString(hi));
      && GetAll(next, "minPrice") == [NatToString(lo)]
      && GetAll(next, "maxPrice") == [NatToString(hi)]
      && GetAll(next, "page") == []
      && Without(next, PriceKeys) == Without(ps, PriceKeys)
  {
    var range := NatToString(lo) + "-" + NatToString(hi);
    NatToStringHasNoDash(lo);
    NatToStringHasNoDash(hi);
    assert range == NatToString(lo) + ['-'] + NatToString(hi);
    SplitAround(NatToString(lo), NatToString(hi), '-');
    SplitNoSeparator(NatToString(hi), '-');
    NumberRoundTrip(lo);
    NumberRoundTrip(hi);
    assert PriceBounds(range) == (Some(lo), Some(hi));
    var a := Set(ps, "minPrice", NatToString(lo));
    var b := Set(a, "maxPrice", NatToString(hi));
    SetGetAll(ps, "minPrice", NatToString(lo));
    SetKeepsOthers(a, "maxPrice", NatToString(hi), {"maxPrice"});
    GetAllWithout(b, {"maxPrice"}, "minPrice");
    GetAllWithout(a, {"maxPrice"}, "minPrice");
    SetGetAll(a, "maxPrice", NatToString(hi));
    DeleteKeepsOthers(b, "page", {"page"});
    GetAllWithout(b, {"page"}, "minPrice");
    GetAllWithout(b, {"page"}, "maxPrice");
    SetKeepsOthers(ps, "minPrice", NatToString(lo), PriceKeys);
    SetKeepsOthers(a, "maxPrice", NatToString(hi), PriceKeys);
    DeleteKeepsOthers(b, "page", PriceKeys);
  }

  /** A range with no dash sets only the lower bound: an old `maxPrice`
      stays as it was. */
  lemma PriceRangeSingle(ps: seq<Pair>, lo: nat)
    ensures var next := PriceRangeSelected(ps, NatToString(lo));
      && GetAll(next, "minPrice") == [NatToString(lo)]
      && GetAll(next, "maxPrice") == GetAll(ps, "maxPrice")
      && GetAll(next, "page") == []
      && Without(next, PriceKeys) == Without(ps, PriceKeys)
  {
    NatToStringHasNoDash(lo);
    SplitNoSeparator(NatToString(lo), '-');
    NumberRoundTrip(lo);
    var a := Set(ps, "minPrice", NatToString(lo));
    SetGetAll(ps, "minPrice", NatToString(lo));
    SetKeepsOthers(ps, "minPrice", NatToString(lo), {"minPrice"});
    GetAllWithout(a, {"minPrice"}, "maxPrice");
    GetAllWithout(ps, {"minPrice"}, "maxPrice");
    DeleteKeepsOthers(a, "page", {"page"});
    GetAllWithout(a, {"page"}, "minPrice");
    GetAllWithout(a, {"page"}, "maxPrice");
    SetKeepsOthers(ps, "minPrice", NatToString(lo), PriceKeys);
    DeleteKeepsOthers(a, "page", PriceKeys);
  }

  /** Whatever the range, `page` goes and only the two bounds can change. */
  lemma PriceRangeTouchesOnlyBounds(ps: seq<Pair>, range: string)
    ensures GetAll(PriceRangeSelected(ps, range), "page") == []
    ensures Without(PriceRangeSelected(ps, range), PriceKeys) == Without(ps, PriceKeys)
  {
    var (lo, hi) := PriceBounds(range);
    var a := if lo.Some? then Set(ps, "minPrice", NatToString(lo.value)) else ps;
    var b := if hi.Some? then Set(a, "maxPrice", NatToString(hi.value)) else a;
    if lo.Some? {
      SetKeepsOthers(ps, "minPrice", NatToString(lo.value), PriceKeys);
    }
    if hi.Some? {
      SetKeepsOthers(a, "maxPrice", NatToString(hi.value), PriceKeys);
    }
    DeleteKeepsOthers(b, "page", PriceKeys);
  }

  // ---------------------------------------------------------------------
  // clearAllFilters

  /** The parameters kept by "Clear all": the truthy category, collection
      and search, in that order. */
  function ClearedFilters(v: PageView): seq<Pair> {
    var a := if TruthyString(v.category) then Set([], "category", v.category.value) else [];
    var b := if TruthyString(v.collection) then Set(a, "collection", v.collection.value) else a;
    if TruthyString(v.search) then Set(b, "search", v.search.value) else b
  }

  /** `clearAllFilters`: the kept parameters, and whether the new URL has a
      `?` (only when there is a parameter to write). */
  method ClearAllFilters(v: PageView) returns (next: seq<Pair>, withQuery: bool)
    ensures next == ClearedFilters(v)
    ensures withQuery <==> next != []
  {
    var params := new UrlSearchParams([]);
    if TruthyString(v.category) {
      params.SetValue("category", v.category.value);
    }
    if TruthyString(v.collection) {
      params.SetValue("collection", v.collection.value);
    }
    if TruthyString(v.search) {
      params.SetValue("search", v.search.value);
    }
    next := params.entries;
    withQuery := !params.IsEmpty();
  }

  /** The pair kept for a name: one when its value is truthy, else none. */
  function Kept(k: string, o: Option<string>): seq<Pair> {
    if TruthyString(o) then [(k, o.value)] else []
  }

  /** Each `set` adds a name not yet present, so it appends. */
  lemma ClearedFiltersAppend(v: PageView)
    ensures ClearedFilters(v) == Kept("category", v.category) + Kept("collection", v.collection) + Kept("search", v.search)
  {
    var a := Kept("category", v.category);
    var b := a + Kept("collection", v.collection);
    assert (if TruthyString(v.category) then Set([], "category", v.category.value) else []) == a;
    assert !Has(a, "collection");
    assert !Has(b, "search") by {
      forall i | 0 <= i < |b| ensures b[i].0 != "search" {
      }
    }
  }

  lemma GetAllKept(j: string, o: Option<string>, k: string)
    ensures GetAll(Kept(j, o), k) == if j == k && TruthyString(o) then [o.value] else []
  {
  }

  /** The kept list, stated on the page's view: only the three names, each
      name's values are those of its own kept pair, and it is empty exactly
      when none of the three is truthy. */
  lemma ClearedView(v: PageView, k: string)
    ensures forall i :: 0 <= i < |ClearedFilters(v)| ==> ClearedFilters(v)[i].0 in {"category", "collection", "search"}
    ensures GetAll(ClearedFilters(v), k)
      == GetAll(Kept("category", v.category), k) + GetAll(Kept("collection", v.collection), k)
         + GetAll(Kept("search", v.search), k)
    ensures ClearedFilters(v) == [] <==>
      !TruthyString(v.category) && !TruthyString(v.collection) && !TruthyString(v.search)
  {
    ClearedFiltersAppend(v);
    var a, b, c := Kept("category", v.category), Kept("collection", v.collection), Kept("search", v.search);
    var kept := a + b + c;
    forall i | 0 <= i < |kept|
      ensures kept[i].0 in {"category", "collection", "search"}
    {
      if i < |a| {
        assert kept[i] == a[i];
      } else if i < |a| + |b| {
        assert kept[i] == b[i - |a|];
      } else {
        assert kept[i] == c[i - |a| - |b|];
      }
    }
    GetAllAppend(a + b, c, k);
    GetAllAppend(a, b, k);
  }

  /** After "Clear all" only `category`, `collection` and `search` remain,
      each exactly once when it was truthy before and not at all otherwise;
      the list is empty, and the URL gets no `?`, when none of them was. */
  lemma ClearedFiltersKeepEssentials(ps: seq<Pair>, k: string)
    ensures var next := ClearedFilters(ReadView(ps));
      && (forall i :: 0 <= i < |next| ==> next[i].0 in {"category", "collection", "search"})
      && (k in {"category", "collection", "search"} ==>
            GetAll(next, k) == if TruthyString(Get(ps, k)) then [Get(ps, k).value] else [])
      && (next == [] <==> !TruthyString(Get(ps, "category")) && !TruthyString(Get(ps, "collection"))
                           && !TruthyString(Get(ps, "search")))
  {
    var v := ReadView(ps);
    assert v.category == Get(ps, "category") && v.collection == Get(ps, "collection") && v.search == Get(ps, "search");
    ClearedView(v, k);
    GetAllKept("category", v.category, k);
    GetAllKept("collection", v.collection, k);
    GetAllKept("search", v.search, k);
  }

  // ---------------------------------------------------------------------
  // Active filters and the title

  predicate IsActiveFilter(p: Pair) { p.0 !in ReservedKeys }

  /** `hasActiveFilters`: some entry has a name outside the reserved ones. */
  predicate HasActiveFilters(ps: seq<Pair>) {
    exists i :: 0 <= i < |ps| && IsActiveFilter(ps[i])
  }

  /** `activeFilterCount`: the number of such entries, not of distinct names. */
  function ActiveFilterCount(ps: seq<Pair>): nat {
    |Filter(ps, IsActiveFilter)|
  }

  lemma HasActiveFiltersIffCount(ps: seq<Pair>)
    ensures HasActiveFilters(ps) <==> ActiveFilterCount(ps) > 0
  {
    var f := Filter(ps, IsActiveFilter);
    if HasActiveFilters(ps) {
      var i :| 0 <= i < |ps| && IsActiveFilter(ps[i]);
      assert ps[i] in f;
    }
    if |f| > 0 {
      assert f[0] in ps && IsActiveFilter(f[0]);
      var i :| 0 <= i < |ps| && ps[i] == f[0];
    }
  }

  /** Each extra entry counts, even when its name is already present. */
  lemma ActiveFilterCountCountsEntries(ps: seq<Pair>, k: string, v: string)
    requires k !in ReservedKeys
    ensures ActiveFilterCount(ps + [(k, v)]) == ActiveFilterCount(ps) + 1
  {
    FilterAppend(ps, [(k, v)], IsActiveFilter);
  }

  /** The reserved names never count. */
  lemma ActiveFilterCountIgnoresReserved(ps: seq<Pair>)
    ensures ActiveFilterCount(ps) == ActiveFilterCount(Without(ps, ReservedKeys))
    ensures ActiveFilterCount(ps) == |Without(ps, ReservedKeys)|
  {
    ActiveFiltersAreWithout(ps);
    WithoutAbsent(Without(ps, ReservedKeys), ReservedKeys);
    WithoutWithout(ps, ReservedKeys, ReservedKeys);
    ActiveFiltersAreWithout(Without(ps, ReservedKeys));
  }

  lemma {:induction false} ActiveFiltersAreWithout(ps: seq<Pair>)
    ensures Filter(ps, IsActiveFilter) == Without(ps, ReservedKeys)
  {
    if ps != [] {
      ActiveFiltersAreWithout(ps[1..]);
    }
  }

  /** `getPageTitle`: search, then collection, then category, else "All Products". */
  function PageTitle(v: PageView): (t: string)
    ensures TruthyString(v.search) ==> t == "Search: \"" + v.search.value + "\""
    ensures !TruthyString(v.search) && TruthyString(v.collection) ==> t == v.collection.value
    ensures !TruthyString(v.search) && !TruthyString(v.collection) && TruthyString(v.category) ==> t == v.category.value
    ensures !TruthyString(v.search) && !TruthyString(v.collection) && !TruthyString(v.category) ==> t == "All Products"
  {
    if TruthyString(v.search) then "Search: \"" + v.search.value + "\""
    else if TruthyString(v.collection) then v.collection.value
    else if TruthyString(v.category) then v.category.value
    else "All Products"
  }

  /** The title is decided by the filters sent to the catalog, so it always
      describes the listing below it: an unfiltered query is titled "All
      Products", and two views with the same query have the same title. */
  lemma PageTitleFollowsQuery(v: PageView, w: PageView)
    ensures QueryFor(v).category.None? && QueryFor(v).collection.None? && QueryFor(v).search.None?
      ==> PageTitle(v) == "All Products"
    ensures QueryFor(v) == QueryFor(w) ==> PageTitle(v) == PageTitle(w)
  {
  }

  // ---------------------------------------------------------------------
  // The filter sections

  /** Whether a section is open; an absent entry reads as closed. */
  function IsOpen(open: map<string, bool>, id: string): bool {
    id in open && open[id]
  }

  function Toggled(open: map<string, bool>, id: string): (r: map<string, bool>)
    ensures IsOpen(r, id) == !IsOpen(open, id)
    ensures forall x :: x != id ==> IsOpen(r, x) == IsOpen(open, x)
  {
    open[id := !IsOpen(open, id)]
  }

  /** Toggling a section twice leaves every section as open as it was. */
  lemma ToggleTwice(open: map<string, bool>, id: string, x: string)
    ensures IsOpen(Toggled(Toggled(open, id), id), x) == IsOpen(open, x)
  {
  }

  /** `filtersOpen`, the record of open sections. */
  class FilterSections {
    var open: map<string, bool>

    constructor ()
      ensures open == map[]
    {
      open := map[];
    }

    /** `toggleFilterSection`: flip one section, reading absent as closed. */
    method Toggle(id: string)
      modifies this
      ensures open == Toggled(old(open), id)
    {
      open := open[id := !(id in open && open[id])];
    }
  }

  // ---------------------------------------------------------------------
  // Pagination

  /** The pagination bar appears only when there is more than one page. */
  predicate ShowPagination(total: int) { total > PageSize }

  /** The "Showing a to b" window; with a NaN page neither end is a number. */
  function ShowingWindow(page: Option<int>, total: int): (w: Option<(int, int)>)
    ensures w.Some? <==> page.Some?
  {
    match page
    case None => None
    case Some(p) => Some(((p - 1) * PageSize + 1, if p * PageSize < total then p * PageSize else total))
  }

  /** Previous is disabled from page 1 down; a NaN page compares false. */
  predicate PreviousDisabled(page: Option<int>) {
    page.Some? && page.value <= 1
  }

  /** Next is disabled once the page reaches the end; a NaN page compares false. */
  predicate NextDisabled(page: Option<int>, total: int) {
    page.Some? && page.value * PageSize >= total
  }

  /** On a page that exists, the window lies within the results, holds at
      most one page, and ends at the total exactly when Next is disabled;
      it starts at 1 exactly when Previous is disabled. */
  lemma WindowBounds(p: int, total: int)
    requires 1 <= p && (p - 1) * PageSize < total
    ensures var w := ShowingWindow(Some(p), total).value;
      && 1 <= w.0 <= w.1 <= total
      && w.1 - w.0 + 1 <= PageSize
      && (w.1 == total <==> NextDisabled(Some(p), total))
      && (w.0 == 1 <==> PreviousDisabled(Some(p)))
  {
  }

  /** The number `(page ± 1).toString()` writes; NaN stays NaN. */
  function PageText(page: Option<int>, delta: int): string {
    match page
    case None => "NaN"
    case Some(p) => IntToString(p + delta)
  }

  method GoToPreviousPage(current: seq<Pair>) returns (next: seq<Pair>)
    ensures next == Set(current, "page", PageText(PageNumber(current), -1))
  {
    var page := ParseInt(GetOr(current, "page", "1"));
    var params := new UrlSearchParams(current);
    params.SetValue("page", PageText(page, -1));
    next := params.entries;
  }

  method GoToNextPage(current: seq<Pair>) returns (next: seq<Pair>)
    ensures next == Set(current, "page", PageText(PageNumber(current), 1))
  {
    var page := ParseInt(GetOr(current, "page", "1"));
    var params := new UrlSearchParams(current);
    params.SetValue("page", PageText(page, 1));
    next := params.entries;
  }

  lemma IntToStringNotEmpty(n: int)
    ensures IntToString(n) != ""
  {
  }

  /** Previous and Next move the page read back from the URL by one, and keep
      every other parameter in place. */
  lemma PageStepRoundTrip(ps: seq<Pair>, delta: int)
    requires PageNumber(ps).Some?
    ensures var next := Set(ps, "page", PageText(PageNumber(ps), delta));
      && PageNumber(next) == Some(PageNumber(ps).value + delta)
      && Without(next, {"page"}) == Without(ps, {"page"})
  {
    var s := PageText(PageNumber(ps), delta);
    var next := Set(ps, "page", s);
    SetGetAll(ps, "page", s);
    IntToStringNotEmpty(PageNumber(ps).value + delta);
    ParseIntRoundTrip(PageNumber(ps).value + delta);
    SetKeepsOthers(ps, "page", s, {"page"});
  }

  /** A page that is not a number stays NaN under both buttons, and neither
      button is disabled for it. */
  lemma NaNPageStaysNaN(ps: seq<Pair>, total: int, delta: int)
    requires PageNumber(ps).None?
    ensures !PreviousDisabled(PageNumber(ps)) && !NextDisabled(PageNumber(ps), total)
    ensures PageNumber(Set(ps, "page", PageText(PageNumber(ps), delta))).None?
  {
    assert PageText(PageNumber(ps), delta) == "NaN";
    SetGetAll(ps, "page", "NaN");
    assert GetOr(Set(ps, "page", "NaN"), "page", "1") == "NaN";
    ParseIntNotANumber("NaN");
  }
}
