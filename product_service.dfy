/** The catalog query service (`productService`): filtering by category,
    collection and search text, the `field:direction` sort, the limit, and the
    lookups by slug and id. The catalog is a parameter; every operation works
    on values, so none of them can change it. */
module ProductService {
  import opened JsRuntime
  import opened JsArray
  import opened JsSort
  import opened ProductTypes
  import opened ProductSort

  /** How many products the featured and related lookups return by default. */
  const DefaultLookupLimit: int := 4

  // ---------------------------------------------------------------------
  // Matching rules

  /** Some entry of `xs`, lower-cased, contains `term`. */
  predicate SomeContains(xs: seq<string>, term: string) {
    exists i :: 0 <= i < |xs| && Includes(ToLower(xs[i]), term)
  }

  /** The category filter: some category contains the lower-cased term. */
  predicate InCategory(p: Product, category: string) {
    SomeContains(p.categories, ToLower(category))
  }

  /** The collection filter: some collection contains the lower-cased term. */
  predicate InCollection(p: Product, collection: string) {
    SomeContains(p.collections, ToLower(collection))
  }

  /** The search filter: the name, the description or some tag contains the
      lower-cased text. */
  predicate MatchesSearch(p: Product, search: string) {
    var term := ToLower(search);
    Includes(ToLower(p.name), term) || Includes(ToLower(p.description), term)
      || SomeContains(p.tags, term)
  }

  // ---------------------------------------------------------------------
  // getProducts

  /** The optional query parameters; an absent one is `None`. */
  datatype QueryParams = QueryParams(
    category: Option<string>,
    collection: Option<string>,
    search: Option<string>,
    sort: Option<string>,
    limit: Option<int>)

  datatype QueryResult = QueryResult(products: seq<Product>, total: int)

  function ByCategory(ps: seq<Product>, category: string): seq<Product> {
    Filter(ps, (p: Product) => InCategory(p, category))
  }

  function ByCollection(ps: seq<Product>, collection: string): seq<Product> {
    Filter(ps, (p: Product) => InCollection(p, collection))
  }

  function BySearch(ps: seq<Product>, search: string): seq<Product> {
    Filter(ps, (p: Product) => MatchesSearch(p, search))
  }

  /** The three filters, each applied only when its parameter is truthy. */
  function Filtered(catalog: seq<Product>, q: QueryParams): seq<Product> {
    var a := if TruthyString(q.category) then ByCategory(catalog, q.category.value) else catalog;
    var b := if TruthyString(q.collection) then ByCollection(a, q.collection.value) else a;
    if TruthyString(q.search) then BySearch(b, q.search.value) else b
  }

  /** The filtered products, sorted when the sort parameter is truthy. */
  function Sorted(catalog: seq<Product>, q: QueryParams): seq<Product> {
    var f := Filtered(catalog, q);
    if TruthyString(q.sort) then SortProducts(f, ParseSortKey(q.sort.value)) else f
  }

  /** The limit is applied when it is truthy: present and non-zero. */
  function Limited(ps: seq<Product>, limit: Option<int>): seq<Product> {
    if TruthyInt(limit) then SlicePrefix(ps, limit.value) else ps
  }

  /** The query's answer: the limited list, and the count before the limit. */
  function Query(catalog: seq<Product>, q: QueryParams): QueryResult {
    var s := Sorted(catalog, q);
    QueryResult(Limited(s, q.limit), |s|)
  }

  /** `getProducts`: filter a copy step by step, sort it in place as an array,
      count it, then cut it to the limit. */
  method GetProducts(catalog: seq<Product>, q: QueryParams) returns (r: QueryResult)
    ensures r == Query(catalog, q)
  {
    var filtered := catalog;
    if TruthyString(q.category) {
      filtered := ByCategory(filtered, q.category.value);
    }
    if TruthyString(q.collection) {
      filtered := ByCollection(filtered, q.collection.value);
    }
    if TruthyString(q.search) {
      filtered := BySearch(filtered, q.search.value);
    }
    if TruthyString(q.sort) {
      filtered := SortCopy(filtered, ParseSortKey(q.sort.value));
    }
    var total := |filtered|;
    if TruthyInt(q.limit) {
      filtered := SlicePrefix(filtered, q.limit.value);
    }
    r := QueryResult(filtered, total);
  }

  /** `filtered.sort(...)`: the list is copied into an array and sorted
      there in place. */
  method SortCopy(s: seq<Product>, key: SortKey) returns (t: seq<Product>)
    ensures t == SortProducts(s, key)
  {
    var a := new Product[|s|](i requires 0 <= i < |s| => s[i]);
    assert a[..] == s;
    SortInPlace(a, Comparator(key));
    t := a[..];
  }

  /** Every supplied filter holds of the product, all at once. */
  predicate SatisfiesQuery(p: Product, q: QueryParams) {
    && (TruthyString(q.category) ==> InCategory(p, q.category.value))
    && (TruthyString(q.collection) ==> InCollection(p, q.collection.value))
    && (TruthyString(q.search) ==> MatchesSearch(p, q.search.value))
  }

  /** The filters keep exactly the catalog products that satisfy all the
      supplied filters, in catalog order. */
  lemma FilteredIsOneFilter(catalog: seq<Product>, q: QueryParams)
    ensures Filtered(catalog, q) == Filter(catalog, (p: Product) => SatisfiesQuery(p, q))
  {
    var c := (p: Product) => TruthyString(q.category) ==> InCategory(p, q.category.value);
    var cc := (p: Product) => (TruthyString(q.category) ==> InCategory(p, q.category.value))
                && (TruthyString(q.collection) ==> InCollection(p, q.collection.value));
    var a := if TruthyString(q.category) then ByCategory(catalog, q.category.value) else catalog;
    if TruthyString(q.category) {
      FilterSame(catalog, (p: Product) => InCategory(p, q.category.value), c);
    } else {
      FilterKeepsAll(catalog, c);
    }
    assert a == Filter(catalog, c);
    var b := if TruthyString(q.collection) then ByCollection(a, q.collection.value) else a;
    if TruthyString(q.collection) {
      FilterFilter(catalog, c, (p: Product) => InCollection(p, q.collection.value), cc);
    } else {
      FilterSame(catalog, c, cc);
    }
    assert b == Filter(catalog, cc);
    if TruthyString(q.search) {
      FilterFilter(catalog, cc, (p: Product) => MatchesSearch(p, q.search.value), (p: Product) => SatisfiesQuery(p, q));
    } else {
      FilterSame(catalog, cc, (p: Product) => SatisfiesQuery(p, q));
    }
  }

  /** Every product returned comes from the catalog and satisfies every
      supplied filter at once. */
  lemma QueryResultsSatisfyFilters(catalog: seq<Product>, q: QueryParams)
    ensures forall i :: 0 <= i < |Query(catalog, q).products| ==>
      Query(catalog, q).products[i] in catalog && SatisfiesQuery(Query(catalog, q).products[i], q)
  {
    FilteredIsOneFilter(catalog, q);
    var f := Filtered(catalog, q);
    var s := Sorted(catalog, q);
    assert multiset(s) == multiset(f);
    var r := Query(catalog, q).products;
    forall i | 0 <= i < |r| ensures r[i] in catalog && SatisfiesQuery(r[i], q) {
      assert r[i] in s;
      assert r[i] in multiset(f);
    }
  }

  /** Every catalog product that satisfies the supplied filters is counted in
      `total`, and is returned when no truthy limit applies. */
  lemma QueryIsComplete(catalog: seq<Product>, q: QueryParams, p: Product)
    requires p in catalog && SatisfiesQuery(p, q)
    ensures p in Sorted(catalog, q)
    ensures !TruthyInt(q.limit) ==> p in Query(catalog, q).products
  {
    FilteredIsOneFilter(catalog, q);
    var i :| 0 <= i < |catalog| && catalog[i] == p;
    assert p in Filtered(catalog, q);
    assert p in multiset(Sorted(catalog, q));
  }

  /** `total` counts the catalog products satisfying the filters, whatever the
      sort and the limit. */
  lemma QueryTotal(catalog: seq<Product>, q: QueryParams)
    ensures Query(catalog, q).total == Count(catalog, (p: Product) => SatisfiesQuery(p, q))
  {
    FilteredIsOneFilter(catalog, q);
    FilterCount(catalog, (p: Product) => SatisfiesQuery(p, q));
  }

  /** A positive limit returns the first min(limit, total) products of the
      sorted, filtered list. */
  lemma QueryPositiveLimit(catalog: seq<Product>, q: QueryParams)
    requires q.limit.Some? && q.limit.value > 0
    ensures var r := Query(catalog, q);
      |r.products| == if q.limit.value < r.total then q.limit.value else r.total
    ensures Query(catalog, q).products <= Sorted(catalog, q)
  {
  }

  /** An absent or zero limit returns every filtered product. */
  lemma QueryNoLimit(catalog: seq<Product>, q: QueryParams)
    requires q.limit.None? || q.limit.value == 0
    ensures Query(catalog, q).products == Sorted(catalog, q)
    ensures |Query(catalog, q).products| == Query(catalog, q).total
  {
  }

  /** A negative limit drops that many products from the end, as `slice` does. */
  lemma QueryNegativeLimit(catalog: seq<Product>, q: QueryParams)
    requires q.limit.Some? && q.limit.value < 0
    ensures var r := Query(catalog, q);
      |r.products| == if r.total + q.limit.value > 0 then r.total + q.limit.value else 0
    ensures Query(catalog, q).products <= Sorted(catalog, q)
  {
  }

  /** Sorting only rearranges the filtered products. */
  lemma QuerySortPermutes(catalog: seq<Product>, q: QueryParams)
    ensures multiset(Sorted(catalog, q)) == multiset(Filtered(catalog, q))
  {
  }

  /** With no filters, no sort and no limit, the query returns the whole
      catalog in catalog order. */
  lemma EmptyQueryReturnsCatalog(catalog: seq<Product>)
    ensures Query(catalog, QueryParams(None, None, None, None, None)) == QueryResult(catalog, |catalog|)
  {
  }

  /** Sorting by a name that is not a product field keeps catalog order. */
  lemma QueryUnknownSortField(catalog: seq<Product>, q: QueryParams)
    requires TruthyString(q.sort) && ParseSortKey(q.sort.value).field !in ProductFields
    ensures Sorted(catalog, q) == Filtered(catalog, q)
  {
    UnknownFieldKeepsOrder(Filtered(catalog, q), ParseSortKey(q.sort.value));
  }

  /** Sorting by price orders the results by price: non-decreasing for
      `price:asc`, non-increasing for any other direction. */
  lemma QuerySortByPrice(catalog: seq<Product>, q: QueryParams)
    requires TruthyString(q.sort) && ParseSortKey(q.sort.value).field == "price"
    ensures var r := Sorted(catalog, q);
      forall i, j :: 0 <= i < j < |r| ==>
        if ParseSortKey(q.sort.value).ascending then r[i].price <= r[j].price
        else r[i].price >= r[j].price
  {
    var k := ParseSortKey(q.sort.value);
    var f := Filtered(catalog, q);
    assert AllNumbers(f, k.field);
    NumericSortOrders(f, k);
    var r := Sorted(catalog, q);
    forall i | 0 <= i < |r| ensures NumberIn(r[i], k.field) == r[i].price as real {
    }
  }

  /** Accepts the products with the same price as `e`. */
  function SamePrice(e: Product): Product -> bool {
    (p: Product) => p.price == e.price
  }

  /** Sorting by price is stable: products of equal price stay in catalog
      order among themselves. */
  lemma QuerySortByPriceStable(catalog: seq<Product>, q: QueryParams, e: Product)
    requires TruthyString(q.sort) && ParseSortKey(q.sort.value).field == "price"
    requires e in Filtered(catalog, q)
    ensures Filter(Sorted(catalog, q), SamePrice(e)) == Filter(Filtered(catalog, q), SamePrice(e))
  {
    var k := ParseSortKey(q.sort.value);
    var f := Filtered(catalog, q);
    var r := Sorted(catalog, q);
    assert AllNumbers(f, k.field);
    NumericSortStable(f, k, e);
    assert NumberIn(e, k.field) == e.price as real;
    forall i | 0 <= i < |f| ensures SameNumber(e, k.field)(f[i]) == SamePrice(e)(f[i]) {
      assert NumberIn(f[i], k.field) == f[i].price as real;
    }
    forall i | 0 <= i < |r| ensures SameNumber(e, k.field)(r[i]) == SamePrice(e)(r[i]) {
      assert NumberIn(r[i], k.field) == r[i].price as real;
    }
    FilterSame(f, SameNumber(e, k.field), SamePrice(e));
    FilterSame(r, SameNumber(e, k.field), SamePrice(e));
  }

  /** Sorting by `createdAt` (the "Newest" option) compares the timestamps as
      strings: descending for any direction other than `asc`. */
  lemma QuerySortByCreatedAt(catalog: seq<Product>, q: QueryParams)
    requires TruthyString(q.sort) && ParseSortKey(q.sort.value).field == "createdAt"
    ensures var r := Sorted(catalog, q);
      forall i, j :: 0 <= i < j < |r| ==>
        if ParseSortKey(q.sort.value).ascending then LexCompare(r[i].createdAt, r[j].createdAt) <= 0
        else LexCompare(r[j].createdAt, r[i].createdAt) <= 0
  {
    var k := ParseSortKey(q.sort.value);
    var f := Filtered(catalog, q);
    assert AllStrings(f, k.field);
    StringSortOrders(f, k);
  }

  // ---------------------------------------------------------------------
  // Lookups

  /** `getProductBySlug`: the first product whose slug is exactly `slug`. */
  function ProductBySlug(catalog: seq<Product>, slug: string): (r: Option<Product>)
    ensures r.Some? <==> exists i :: 0 <= i < |catalog| && catalog[i].slug == slug
    ensures r.Some? ==> exists i :: 0 <= i < |catalog| && catalog[i] == r.value && r.value.slug == slug
                          && forall j :: 0 <= j < i ==> catalog[j].slug != slug
  {
    Find(catalog, (p: Product) => p.slug == slug)
  }

  /** With distinct slugs, looking a product up by its own slug finds it. */
  lemma ProductBySlugFindsEach(catalog: seq<Product>, i: int)
    requires 0 <= i < |catalog|
    requires forall j, k :: 0 <= j < k < |catalog| ==> catalog[j].slug != catalog[k].slug
    ensures ProductBySlug(catalog, catalog[i].slug) == Some(catalog[i])
  {
    var r := ProductBySlug(catalog, catalog[i].slug);
    var m :| 0 <= m < |catalog| && catalog[m] == r.value && r.value.slug == catalog[i].slug
               && forall j :: 0 <= j < m ==> catalog[j].slug != catalog[i].slug;
    assert m == i;
  }

  /** The limit the lookups use: the argument, or 4 when it is omitted. */
  function LookupLimit(limit: Option<int>): int {
    if limit.Some? then limit.value else DefaultLookupLimit
  }

  /** `getFeaturedProducts`: the featured products in catalog order, cut to the limit. */
  function FeaturedProducts(catalog: seq<Product>, limit: Option<int>): (r: seq<Product>)
    ensures forall i :: 0 <= i < |r| ==> r[i] in catalog && r[i].isFeatured
  {
    SlicePrefix(Filter(catalog, (p: Product) => p.isFeatured), LookupLimit(limit))
  }

  /** The featured lookup returns the first min(limit, featured count)
      featured products; with the default, at most four. */
  lemma FeaturedProductsLength(catalog: seq<Product>, limit: Option<int>)
    ensures var n := Count(catalog, (p: Product) => p.isFeatured);
      |FeaturedProducts(catalog, limit)|
        == if LookupLimit(limit) >= 0 then (if LookupLimit(limit) < n then LookupLimit(limit) else n)
           else if n + LookupLimit(limit) > 0 then n + LookupLimit(limit) else 0
    ensures FeaturedProducts(catalog, limit) <= Filter(catalog, (p: Product) => p.isFeatured)
  {
    FilterCount(catalog, (p: Product) => p.isFeatured);
  }

  /** Two products share a category when one of the first's categories is,
      exactly, one of the second's. */
  predicate SharesCategory(p: Product, of: Product) {
    exists i :: 0 <= i < |p.categories| && p.categories[i] in of.categories
  }

  /** `getRelatedProducts`: nothing for an unknown id; otherwise the other
      products sharing a category with it, in catalog order, cut to the limit. */
  function RelatedProducts(catalog: seq<Product>, productId: string, limit: Option<int>): (r: seq<Product>)
    ensures forall i :: 0 <= i < |r| ==> r[i] in catalog && r[i].id != productId
  {
    match Find(catalog, (p: Product) => p.id == productId)
    case None => []
    case Some(product) =>
      SlicePrefix(Filter(catalog, (p: Product) => p.id != productId && SharesCategory(p, product)), LookupLimit(limit))
  }

  /** An unknown id has no related products. */
  lemma RelatedProductsUnknownId(catalog: seq<Product>, productId: string, limit: Option<int>)
    requires forall i :: 0 <= i < |catalog| ==> catalog[i].id != productId
    ensures RelatedProducts(catalog, productId, limit) == []
  {
  }

  /** For a known id, the result is the first min(limit, count) of the other
      products sharing a category with the first product of that id, in
      catalog order; a negative limit drops that many from the end, as
      `slice` does. */
  lemma RelatedProductsOfKnownId(catalog: seq<Product>, i: int, limit: Option<int>)
    requires 0 <= i < |catalog|
    requires forall j :: 0 <= j < i ==> catalog[j].id != catalog[i].id
    ensures var id := catalog[i].id;
      var related := Filter(catalog, (p: Product) => p.id != id && SharesCategory(p, catalog[i]));
      var n := Count(catalog, (p: Product) => p.id != id && SharesCategory(p, catalog[i]));
      var r := RelatedProducts(catalog, id, limit);
      && r <= related
      && |r| == (if LookupLimit(limit) >= 0 then (if LookupLimit(limit) < n then LookupLimit(limit) else n)
                 else if n + LookupLimit(limit) > 0 then n + LookupLimit(limit) else 0)
      && (forall k :: 0 <= k < |r| ==> SharesCategory(r[k], catalog[i]))
      && (LookupLimit(limit) >= n ==>
           forall k :: 0 <= k < |catalog| && catalog[k].id != id && SharesCategory(catalog[k], catalog[i])
             ==> catalog[k] in r)
  {
    var id := catalog[i].id;
    var found := Find(catalog, (p: Product) => p.id == id);
    var m :| 0 <= m < |catalog| && catalog[m] == found.value && catalog[m].id == id
               && forall j :: 0 <= j < m ==> catalog[j].id != id;
    assert m == i;
    var related := Filter(catalog, (p: Product) => p.id != id && SharesCategory(p, catalog[i]));
    assert RelatedProducts(catalog, id, limit) == SlicePrefix(related, LookupLimit(limit));
    FilterCount(catalog, (p: Product) => p.id != id && SharesCategory(p, catalog[i]));
  }

  /** `getProductVariants`: the variants of the first product with the id, or none. */
  function ProductVariants(catalog: seq<Product>, productId: string): (r: seq<ProductVariant>)
    ensures (forall i :: 0 <= i < |catalog| ==> catalog[i].id != productId) ==> r == []
  {
    match Find(catalog, (p: Product) => p.id == productId)
    case None => []
    case Some(p) => p.variants
  }

  /** The variants returned are those of the first product with the id. */
  lemma ProductVariantsOfKnownId(catalog: seq<Product>, i: int)
    requires 0 <= i < |catalog|
    requires forall j :: 0 <= j < i ==> catalog[j].id != catalog[i].id
    ensures ProductVariants(catalog, catalog[i].id) == catalog[i].variants
  {
    var id := catalog[i].id;
    var found := Find(catalog, (p: Product) => p.id == id);
    var m :| 0 <= m < |catalog| && catalog[m] == found.value && catalog[m].id == id
               && forall j :: 0 <= j < m ==> catalog[j].id != id;
    assert m == i;
  }

  /** `searchProducts`: the products matching the text, in catalog order. */
  function SearchProducts(catalog: seq<Product>, query: string): (r: seq<Product>)
    ensures forall i :: 0 <= i < |r| ==> r[i] in catalog && MatchesSearch(r[i], query)
  {
    BySearch(catalog, query)
  }

  /** An empty search matches everything, since every string includes "". */
  lemma SearchEmptyReturnsCatalog(catalog: seq<Product>)
    ensures SearchProducts(catalog, "") == catalog
  {
    forall i | 0 <= i < |catalog| ensures MatchesSearch(catalog[i], "") {
      IncludesEmpty(ToLower(catalog[i].name));
    }
    FilterKeepsAll(catalog, (p: Product) => MatchesSearch(p, ""));
  }

  /** `searchProducts(q)` answers what `getProducts({search: q})` does, for
      every text, including the empty one that `getProducts` skips. */
  lemma SearchAgreesWithQuery(catalog: seq<Product>, query: string)
    ensures SearchProducts(catalog, query) == Query(catalog, QueryParams(None, None, Some(query), None, None)).products
  {
    if query == "" {
      SearchEmptyReturnsCatalog(catalog);
    }
  }
}
