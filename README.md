# kalea-bijoux catalog layer in Dafny

This project models the client-side catalog layer of the kalea-bijoux
jewellery storefront (a TypeScript/React single-page app):

- **Catalog query service.** `getProducts` filters by category, collection
  and search, sorts by `field:direction`, applies a limit and reports the
  pre-limit total. It also covers the slug, featured, related, variant and
  search lookups.
- **Collection page.** Reads the URL filter state and builds the query from
  it. Transitions over the query-string parameters: filter updates,
  checkboxes, price ranges, "Clear all", the active-filter count, the title,
  the filter-section toggles and pagination.
- **Product page.** Price, compare-at price, discount, stock, quantity and
  variant rules, and the item handed to the cart.
- **Product card.** The badges, the quick-add button, the rating row, the
  colour swatches and the links.
- **Variant selector.** Groups variants by name and tracks its own copy of
  the selection.
- **Image gallery.** A circular index with a zoom flag.
- **Records and JavaScript semantics.** The product, variant, image and
  cart-item records. The JavaScript built-ins the code relies on are written
  out: truthiness, ASCII `toLowerCase`, `includes`, `split`, `slice`,
  `parseInt`, `Number`, `Math.round`, `filter`, `find`, and a stable
  `Array.prototype.sort`. `URLSearchParams` follows section 6.2 of the
  WHATWG URL Standard and is kept as a list of name-value pairs.

The catalog (the module-level product array) is a parameter of every service
operation. Dafny values are immutable, so "the catalog is never changed" and
"a copy is returned" hold by construction. Money is integer cents; ratings and
weights are reals.

Where the code is imperative the model is too:

- `getProducts` reassigns its filtered list step by step and sorts a copy in
  place. `ProductService.GetProducts` does the same on a Dafny `array`, through
  an in-place insertion sort proved equal to a functional one.
- The URL handlers mutate a `URLSearchParams` object, which is modelled by the
  `SearchParams.UrlSearchParams` class.
- The product page, the selector and the gallery keep React state. Those are
  the classes `ProductDetail.ProductDetailState`,
  `VariantSelector.SelectorState` and `ProductGallery.Gallery`.
- The variants are grouped by a loop that pushes into per-name lists.

Where the storefront's specification and the code disagree, the model follows
the code:

- **Malformed `page`.** A `page` that is not a number is not reset to 1. It
  stays NaN, both Pagination buttons stay enabled, and Previous/Next write
  `NaN` back (`CollectionPage.NaNPageStaysNaN`).
- **Quantity cap.** The quantity handler clamps to the variant's stock, not
  to `min(stock, 10)`. Only the "+" button stops at 10, so a typed quantity
  can exceed 10 (`ProductDetail.TypedQuantityCanPassCap`).
- **Single-number price range.** A range with no dash sets only `minPrice`
  and leaves an old `maxPrice` in place (`CollectionPage.PriceRangeSingle`).
  The two bounds are not overwritten together.
- **Stale responses.** Nothing suppresses a stale query response (see Left
  out).
- **URL writes behind the router.** The handlers write the new URL with
  `window.history.pushState`, which the router does not observe, so the page
  keeps showing its old parameters until it is next loaded. The model states
  what the page reads from the new URL (see Left out).

## Model

| member | source | states |
|---|---|---|
| JsRuntime.OrUndefined | src/pages/CollectionPage.tsx:105-108 | `x \|\| undefined` is defined exactly when `x` is a non-empty string, and then it is `x` |
| JsRuntime.Includes | src/lib/api/products.ts:65 | definition of `includes`: the second string occurs at some position of the first; `IncludesEmpty` is stated about it |
| JsRuntime.ToLower | src/lib/api/products.ts:65 | ASCII lower-casing keeps the length, leaves no upper-case letter and keeps every other character |
| JsRuntime.ToLowerIdempotent | src/lib/api/products.ts:79-83 | lower-casing an already lower-cased string changes nothing |
| JsRuntime.IncludesEmpty | src/lib/api/products.ts:65 | every string includes the empty string |
| JsRuntime.Split | src/lib/api/products.ts:89 | `split` gives at least one piece, and no piece holds the separator |
| JsRuntime.JoinSplit | src/lib/api/products.ts:89 | joining the pieces of `split` with the separator gives back the string |
| JsRuntime.SplitNoSeparator | src/pages/CollectionPage.tsx:153 | a string without the separator splits into itself alone |
| JsRuntime.SplitAround | src/pages/CollectionPage.tsx:153 | text before the first separator is the first piece, and the rest is split on |
| JsRuntime.SlicePrefix | src/lib/api/products.ts:111 | `slice(0, end)` is a prefix, with length min(end, n) for end >= 0 and max(n + end, 0) for a negative end |
| JsRuntime.NatToString | src/pages/CollectionPage.tsx:156 | the decimal text of a number is non-empty and all digits |
| JsRuntime.IntToString | src/pages/CollectionPage.tsx:453 | definition of `toString` on an integer: a minus sign before the digits of a negative one; `ParseIntRoundTrip` connects it to `parseInt` |
| JsRuntime.TrimStart | src/pages/CollectionPage.tsx:47 | removing leading white space leaves a suffix that does not start with white space |
| JsRuntime.TrimEnd | src/pages/CollectionPage.tsx:153 | removing trailing white space leaves a prefix that does not end with white space |
| JsRuntime.ParseIntRoundTrip | src/pages/CollectionPage.tsx:47 | `parseInt` of an integer's decimal text gives back that integer |
| JsRuntime.ParseInt | src/pages/CollectionPage.tsx:47 | definition of `parseInt` without a radix: leading white space, an optional sign, then the longest digit run, NaN when there is none; `ParseIntRoundTrip` and `ParseIntNotANumber` are stated about it |
| JsRuntime.ParseIntOfNegated | src/pages/CollectionPage.tsx:452 | `parseInt` of `-` and a natural number's digits gives its negation |
| JsRuntime.ParseIntNotANumber | src/pages/CollectionPage.tsx:47 | `parseInt` of text starting with a non-space character that is no sign or digit is NaN |
| JsRuntime.NumberRoundTrip | src/pages/CollectionPage.tsx:153 | `Number` of a natural number's digits gives back the number |
| JsRuntime.ToNumber | src/pages/CollectionPage.tsx:153 | definition of `Number` on the price filter's pieces: surrounding white space ignored, empty is 0, digits are their value, anything else NaN; `NumberRoundTrip` is stated about it |
| JsRuntime.FloorDiv | src/components/product/ProductCard.tsx:20 | the floor of a quotient, for a divisor of either sign |
| JsRuntime.MathRound | src/components/product/ProductCard.tsx:20 | `Math.round(n / d)` is the integer nearest the quotient, with halves rounded up |
| JsRuntime.LexCompare | src/lib/api/products.ts:103-104 | the string comparison returns -1, 0 or 1 |
| JsRuntime.LexCompareFlip | src/lib/api/products.ts:102-104 | swapping the operands negates the comparison |
| JsRuntime.LexCompareTransitive | src/lib/api/products.ts:102-104 | "not after" is transitive |
| JsRuntime.LexCompareZero | src/lib/api/products.ts:102-104 | the comparison is 0 exactly for equal strings |
| JsArray.Filter | src/lib/api/products.ts:63-67 | a filter keeps only accepted elements of the input, every accepted element, and no more elements than there were |
| JsArray.FilterAppend | src/lib/api/products.ts:63-67 | filtering distributes over concatenation, so it keeps order |
| JsArray.FilterKeepsAll | src/lib/api/products.ts:62-85 | a filter that accepts everything returns the input |
| JsArray.FilterKeepsNone | src/components/product/ProductVariantSelector.tsx:47-48 | a filter that accepts nothing returns nothing |
| JsArray.FilterFilter | src/lib/api/products.ts:62-85 | two filters in a row are one filter by the conjunction |
| JsArray.FilterSame | src/lib/api/products.ts:62-85 | filters that agree on the elements give the same result |
| JsArray.FilterCount | src/lib/api/products.ts:109 | a filter's length is the number of accepted elements |
| JsArray.FindIndex | src/lib/api/products.ts:120 | the result is the first accepted index, and nothing means no element is accepted |
| JsArray.Find | src/lib/api/products.ts:120 | `find` gives a value iff some element is accepted, and that value is an accepted element of the input |
| JsSort.InsertPos | src/lib/api/products.ts:90 | the insertion point has only "after" elements to its right and a "not after" element (or the start) to its left |
| JsSort.InsertionSort | src/lib/api/products.ts:90-105 | definition of the sort: insert each element into the sorted prefix before it; `InsertionSortPermutes`, `InsertionSortSorts` and `InsertionSortStable` are stated about it |
| JsSort.InsertPermutes | src/lib/api/products.ts:90 | inserting one element adds exactly that element and one to the length |
| JsSort.InsertKeepsSorted | src/lib/api/products.ts:90 | inserting into an ordered list with a consistent comparator keeps it ordered |
| JsSort.InsertionSortStep | src/lib/api/products.ts:90 | sorting one more element of the input inserts it into the sorted prefix |
| JsSort.ShiftedIsInsert | src/lib/api/products.ts:90 | shifting the "after" elements right by one and writing the element into the gap is the functional insertion |
| JsSort.InsertionSortPermutes | src/lib/api/products.ts:90-105 | sorting keeps the length and the multiset of elements |
| JsSort.InsertionSortKeepsSorted | src/lib/api/products.ts:90-105 | input that is already ordered comes back unchanged |
| JsSort.InsertionSortSorts | src/lib/api/products.ts:90-105 | when the comparator is a total preorder on the elements, the result is ordered |
| JsSort.FilterInsert | src/lib/api/products.ts:90 | a filter of an insertion and of the plain append split the same way at the insertion point |
| JsSort.NoTiesAfter | src/lib/api/products.ts:90 | when `x` ties with `e`, no element the comparator puts after `x` ties with `e` |
| JsSort.InsertTies | src/lib/api/products.ts:90 | inserting an element places it among the elements tied with `e` exactly where appending it would |
| JsSort.InsertionSortKeepsTies | src/lib/api/products.ts:90-105 | the elements tied with `e` leave the sort in their input order, when the comparator is a total preorder on the input and `e` |
| JsSort.InsertionSortStable | src/lib/api/products.ts:90-105 | the sort is stable: under a comparator that is a total preorder on the input, the elements tied with any input element keep their relative order |
| JsSort.InsertLast | src/lib/api/products.ts:90 | one pass of the in-place sort leaves the prefix equal to the functional insertion and the rest untouched |
| JsSort.SortInPlace | src/lib/api/products.ts:90-105 | sorting the array in place gives exactly the functional insertion sort of its old contents |
| ProductTypes.WeightUnitText | src/types/product.ts:33 | the weight unit is one of "g", "kg", "oz", "lb" |
| ProductTypes.StatusText | src/types/product.ts:34 | the status is one of "active", "draft", "archived" |
| ProductTypes.WeightUnitTextInjective | src/types/product.ts:33 | distinct units are distinct literals |
| ProductTypes.StatusTextInjective | src/types/product.ts:34 | distinct statuses are distinct literals |
| ProductTypes.ToCartItem | src/types/product.ts:48-57 | a cart item carries the given quantity, variant summary and image |
| ProductTypes.CartItemKeepsProductFields | src/types/product.ts:48-57 | a cart item drops exactly variants, images, categories and collections: giving them back restores the product |
| ProductSort.FieldKindIsFixed | src/lib/api/products.ts:92-98 | a field present on two products holds a number on both or a string on both |
| ProductSort.FieldOf | src/lib/api/products.ts:92-94 | definition of `a[field]`: each declared product field as a number, a text or undefined; `FieldKindIsFixed`, `NumberFields`, `StringFields` and `UnknownFieldIsUndefined` are stated about it |
| ProductSort.ParseSortKey | src/lib/api/products.ts:89 | the sort field is the text before the first `:` |
| ProductSort.ParseSortKeyOf | src/lib/api/products.ts:89 | `field:direction` parses to that field, ascending iff the direction is "asc" |
| ProductSort.ParseSortKeyWithoutDirection | src/lib/api/products.ts:99 | a sort without a direction sorts descending |
| ProductSort.CompareValues | src/lib/api/products.ts:96-104 | the comparator is -1, 0 or 1, and 0 when either side lacks the field |
| ProductSort.Compare | src/lib/api/products.ts:90-105 | definition of the comparator passed to `sort`: the two products' field values compared under the key's direction; `NumericFieldConsistent` and `StringFieldConsistent` are stated about it |
| ProductSort.SortProducts | src/lib/api/products.ts:90-105 | sorting the products only rearranges them |
| ProductSort.CompareNumbers | src/lib/api/products.ts:98-100 | on numbers "not after" is <= ascending and >= otherwise |
| ProductSort.UndefinedFieldKeepsOrder | src/lib/api/products.ts:96 | when no product has the field, the order is unchanged |
| ProductSort.UnknownFieldIsUndefined | src/lib/api/products.ts:92-94 | a name that is not a product field reads as undefined |
| ProductSort.UnknownFieldKeepsOrder | src/lib/api/products.ts:91-96 | sorting on an unknown field leaves the order unchanged |
| ProductSort.NumericFieldConsistent | src/lib/api/products.ts:98-100 | on a numeric field the comparator is a total preorder |
| ProductSort.StringFieldConsistent | src/lib/api/products.ts:102-104 | on a string field the comparator is a total preorder |
| ProductSort.CompareStrings | src/lib/api/products.ts:102-104 | on two texts the comparator is the locale order, flipped when the direction is not "asc" |
| ProductSort.NumberFields | src/lib/api/products.ts:92-98 | only the six numeric product fields read as numbers |
| ProductSort.StringFields | src/lib/api/products.ts:92-104 | no numeric product field reads as a text |
| ProductSort.NumericSortOrders | src/lib/api/products.ts:98-100 | sorting on a numeric field gives non-decreasing values for "asc" and non-increasing otherwise, as a permutation |
| ProductSort.StringSortOrders | src/lib/api/products.ts:102-104 | sorting on a string field orders the texts up or down by the direction, as a permutation |
| ProductSort.NumericTies | src/lib/api/products.ts:98-100 | on numbers the comparator ties exactly equal numbers, in either direction |
| ProductSort.StringTies | src/lib/api/products.ts:102-104 | on texts the comparator ties exactly equal texts, in either direction |
| ProductSort.NumericSortStable | src/lib/api/products.ts:90-100 | sorting on a numeric field leaves the products with equal numbers in their input order |
| ProductSort.StringSortStable | src/lib/api/products.ts:90-104 | sorting on a string field leaves the products with equal texts in their input order |
| ProductService.GetProducts | src/lib/api/products.ts:50-115 | the step-by-step filtering, in-place sort, total and limit give exactly the query's result |
| ProductService.Query | src/lib/api/products.ts:50-115 | definition of the query's answer: filtered, sorted when asked, counted, then limited; `QueryResultsSatisfyFilters`, `QueryIsComplete`, `QueryTotal` and the limit lemmas are stated about it |
| ProductService.SortCopy | src/lib/api/products.ts:90-105 | sorting a copy of the filtered list in an array gives exactly the sorted list of the products under the parsed sort key |
| ProductService.FilteredIsOneFilter | src/lib/api/products.ts:62-85 | the chain of truthy-guarded filters is one filter by "satisfies every supplied criterion" |
| ProductService.QueryResultsSatisfyFilters | src/lib/api/products.ts:62-85 | every returned product is in the catalog and satisfies every supplied filter at once |
| ProductService.QueryIsComplete | src/lib/api/products.ts:62-112 | every catalog product satisfying the filters is in the sorted list, and in the result when there is no limit |
| ProductService.QueryTotal | src/lib/api/products.ts:109 | `total` is the number of catalog products satisfying the filters |
| ProductService.QueryPositiveLimit | src/lib/api/products.ts:109-112 | with a positive limit the result has min(limit, total) products and is a prefix of the sorted list |
| ProductService.QueryNoLimit | src/lib/api/products.ts:110 | an absent or zero limit returns the whole sorted list |
| ProductService.QueryNegativeLimit | src/lib/api/products.ts:110-111 | a negative limit drops that many products from the end |
| ProductService.QuerySortPermutes | src/lib/api/products.ts:88-106 | sorting only permutes the filtered list |
| ProductService.EmptyQueryReturnsCatalog | src/lib/api/products.ts:59-114 | a query with no parameters returns the catalog and its size |
| ProductService.QueryUnknownSortField | src/lib/api/products.ts:91-96 | an unknown sort field leaves the filtered catalog order |
| ProductService.QuerySortByPrice | src/lib/api/products.ts:98-100 | sorting by price orders prices up for "asc" and down otherwise |
| ProductService.QuerySortByPriceStable | src/lib/api/products.ts:87-105 | sorting by price keeps the filtered products of equal price in catalog order |
| ProductService.QuerySortByCreatedAt | src/lib/api/products.ts:102-104 | sorting by `createdAt` orders the date strings as text |
| ProductService.ProductBySlug | src/lib/api/products.ts:118-122 | a product is found iff some slug equals the argument exactly, and it is a catalog product with that slug |
| ProductService.ProductBySlugFindsEach | src/lib/api/products.ts:120 | with distinct slugs each product is found by its own slug |
| ProductService.FeaturedProducts | src/lib/api/products.ts:125-130 | the result is featured catalog products |
| ProductService.FeaturedProductsLength | src/lib/api/products.ts:125-129 | the result is a prefix of the featured products in catalog order, of length min(limit, featured count) for a limit that is not negative (4 by default), and with that many dropped from the end for a negative one |
| ProductService.LookupLimit | src/lib/api/products.ts:125 | definition of the lookups' limit: the argument, else 4; `FeaturedProductsLength` and `RelatedProductsOfKnownId` are stated with it |
| ProductService.SharesCategory | src/lib/api/products.ts:142 | definition of the related-products test: some category of the one is exactly a category of the other; `RelatedProductsOfKnownId` is stated with it |
| ProductService.RelatedProducts | src/lib/api/products.ts:133-145 | the result is catalog products with another id |
| ProductService.RelatedProductsUnknownId | src/lib/api/products.ts:135-136 | an unknown id gives no related products |
| ProductService.RelatedProductsOfKnownId | src/lib/api/products.ts:133-145 | for a known id the result is a prefix, in catalog order, of the other products sharing an exact category with the first product of that id; its length is min(limit, count) for a limit that is not negative (4 by default) and count + limit, at least 0, for a negative one; all of them are returned when the limit covers the count |
| ProductService.ProductVariants | src/lib/api/products.ts:148-152 | an unknown id gives no variants |
| ProductService.ProductVariantsOfKnownId | src/lib/api/products.ts:150-151 | a known id gives the first such product's variants |
| ProductService.SearchProducts | src/lib/api/products.ts:155-164 | every result is a catalog product matching name, description or a tag |
| ProductService.SearchEmptyReturnsCatalog | src/lib/api/products.ts:157-163 | the empty query finds the whole catalog |
| ProductService.SearchAgreesWithQuery | src/lib/api/products.ts:155-164 | `searchProducts(q)` is `getProducts` with only `search: q`, for every q |
| SearchParams.Get | src/pages/CollectionPage.tsx:41-46 | `get` has a value iff a pair carries the name |
| SearchParams.GetAll | src/pages/CollectionPage.tsx:249 | `getAll` is empty iff no pair carries the name |
| SearchParams.Without | src/pages/CollectionPage.tsx:145 | removing names leaves none of them |
| SearchParams.GetIsFirstOfGetAll | src/pages/CollectionPage.tsx:41-46 | `get` is the first value `getAll` lists |
| SearchParams.GetAllWithout | src/pages/CollectionPage.tsx:145 | removing names keeps every other name's values |
| SearchParams.GetAgrees | src/pages/CollectionPage.tsx:41-46 | parameter lists that agree after removing some names agree on every other name's value |
| SearchParams.WithoutWithout | src/pages/CollectionPage.tsx:141-145 | two removals are one removal of the union |
| SearchParams.GetAllAppend | src/pages/CollectionPage.tsx:249 | `getAll` of two lists joined is the two `getAll`s joined |
| SearchParams.WithoutAppend | src/pages/CollectionPage.tsx:145 | removing names distributes over joining lists |
| SearchParams.WithoutAbsent | src/pages/CollectionPage.tsx:145 | removing names no pair carries leaves the list as it was |
| SearchParams.GetWithout | src/pages/CollectionPage.tsx:41-46 | removing other names does not change `get` of a name |
| SearchParams.SetGetAll | src/pages/CollectionPage.tsx:139 | after `set(k, v)` exactly one pair is named `k`, holding `v` |
| SearchParams.Set | src/pages/CollectionPage.tsx:139 | definition of `set(k, v)`: the first `k` pair overwritten and the others removed, or `(k, v)` appended; `SetGetAll`, `SetKeepsOthers` and `SetFirstKeepsPlace` are stated about it |
| SearchParams.SetKeepsOthers | src/pages/CollectionPage.tsx:139 | `set(k, v)` keeps every pair with another name, in order |
| SearchParams.DeleteKeepsOthers | src/pages/CollectionPage.tsx:141 | `delete(k)` removes every `k` pair and keeps the rest in order |
| SearchParams.Delete | src/pages/CollectionPage.tsx:141 | definition of `delete(k)`: every `k` pair removed; `DeleteKeepsOthers` is stated about it |
| SearchParams.SetFirstKeepsPlace | src/pages/CollectionPage.tsx:139 | `set` overwrites the first pair with the name in place |
| SearchParams.SetFirstGetAll | src/pages/CollectionPage.tsx:139 | overwriting the first pair of a present name leaves that name with the one new value |
| SearchParams.SetFirstWithout | src/pages/CollectionPage.tsx:139 | overwriting a present name is invisible once that name is removed |
| SearchParams.UrlSearchParams.constructor | src/pages/CollectionPage.tsx:136 | a new object copies the current pairs |
| SearchParams.UrlSearchParams.SetValue | src/pages/CollectionPage.tsx:139 | the object's pairs become `set` of the old pairs |
| SearchParams.UrlSearchParams.DeleteKey | src/pages/CollectionPage.tsx:141 | the object's pairs become `delete` of the old pairs |
| CollectionPage.ReadView | src/pages/CollectionPage.tsx:41-48 | the sort read from the URL is never empty |
| CollectionPage.PageNumber | src/pages/CollectionPage.tsx:47 | definition of the page: `parseInt` of the `page` value or "1"; `ReadViewDefaults` and `PageStepRoundTrip` are stated about it |
| CollectionPage.ReadViewDefaults | src/pages/CollectionPage.tsx:44-47 | a missing or empty `page` reads as 1, and a missing or empty `sort` as "rating:desc" |
| CollectionPage.QueryForSortsAndLimits | src/pages/CollectionPage.tsx:104-111 | the query always sends the sort and a limit of 12 |
| CollectionPage.SortOptionsAreKeys | src/pages/CollectionPage.tsx:22-28 | every sort-menu value is non-empty and parses to a product field; only "Price: Low to High" sorts ascending |
| CollectionPage.QueryFor | src/pages/CollectionPage.tsx:104-111 | definition of the query the page sends: each filter and the sort only when truthy, and a limit of 12; `QueryForSortsAndLimits` and `QueryDependsOnFilters` are stated about it |
| CollectionPage.QueryDependsOnFilters | src/pages/CollectionPage.tsx:41-46 | URLs that agree on category, collection, search and sort send the same query |
| CollectionPage.QueryIgnoresPageAndPrice | src/pages/CollectionPage.tsx:104-111 | removing `page`, `minPrice` and `maxPrice` from the URL does not change the query |
| CollectionPage.QueryIgnoresPageValue | src/pages/CollectionPage.tsx:104-111 | whatever `page` is set to, the query is the same |
| CollectionPage.UpdateFilter | src/pages/CollectionPage.tsx:135-149 | the parameters built on a `URLSearchParams` object are the filter update of the current ones |
| CollectionPage.UpdatedFilterEffect | src/pages/CollectionPage.tsx:136-145 | no `page` remains; a truthy value leaves exactly one pair for the key, holding it, else none; all other pairs stay in order |
| CollectionPage.UpdatedFilter | src/pages/CollectionPage.tsx:135-145 | definition of `updateFilter`: set a truthy value or delete the name, then delete `page`; `UpdatedFilterEffect` is stated about it |
| CollectionPage.QueryWithNewSort | src/pages/CollectionPage.tsx:104-111 | a URL with a new non-empty sort and the same filters sends the old query with that sort |
| CollectionPage.SortSelectSetsSort | src/pages/CollectionPage.tsx:325-326 | choosing a non-empty sort makes it the sort read from the new URL, and the query built from that URL differs from the old one only in its sort |
| CollectionPage.CheckboxChangeEffect | src/pages/CollectionPage.tsx:251-259 | unchecking deletes the facet; checking leaves the option as the facet's only value in the new URL, and so the only option `defaultChecked` would mark when the page is next rendered from it |
| CollectionPage.DefaultChecked | src/pages/CollectionPage.tsx:249 | definition of `defaultChecked`: an option starts checked when its value is among the facet's values; `CheckboxChangeEffect` is stated with it |
| CollectionPage.CheckboxChange | src/pages/CollectionPage.tsx:251-259 | definition of a checkbox change: a price option selects a range, any other sets the facet when checked and deletes it otherwise; `CheckboxChangeEffect` is stated about it |
| CollectionPage.HandlePriceRangeSelect | src/pages/CollectionPage.tsx:152-164 | the handler's object ends with the price-range update of the current parameters |
| CollectionPage.PriceRangeBoth | src/pages/CollectionPage.tsx:153-160 | a range `a-b` sets `minPrice=a` and `maxPrice=b` and drops `page` |
| CollectionPage.PriceBounds | src/pages/CollectionPage.tsx:153 | definition of `range.split('-').map(Number)`: the numbers of the first two pieces, a missing second piece being NaN; `PriceRangeBoth` and `PriceRangeSingle` are stated with it |
| CollectionPage.PriceRangeSelected | src/pages/CollectionPage.tsx:152-160 | definition of `handlePriceRangeSelect`: set each bound that is a number, then delete `page`; `PriceRangeBoth`, `PriceRangeSingle` and `PriceRangeTouchesOnlyBounds` are stated about it |
| CollectionPage.PriceRangeSingle | src/pages/CollectionPage.tsx:153-160 | a range with no dash sets only `minPrice`, keeps `maxPrice` as it was, drops `page` and keeps the rest |
| CollectionPage.PriceRangeTouchesOnlyBounds | src/pages/CollectionPage.tsx:154-160 | any range drops `page` and keeps every pair other than the bounds |
| CollectionPage.ClearAllFilters | src/pages/CollectionPage.tsx:167-176 | the URL gets a `?` exactly when some parameter is kept |
| CollectionPage.ClearedFiltersAppend | src/pages/CollectionPage.tsx:169-172 | "Clear all" writes category, collection and search in that order, each only when truthy |
| CollectionPage.ClearedFiltersKeepEssentials | src/pages/CollectionPage.tsx:169-175 | only category, collection and search remain, each once when it was truthy and absent otherwise; the list is empty iff none was |
| CollectionPage.ClearedFilters | src/pages/CollectionPage.tsx:167-172 | definition of "Clear all": set category, collection and search, each when truthy, on an empty list; `ClearedFiltersKeepEssentials` is stated about it |
| CollectionPage.ClearedView | src/pages/CollectionPage.tsx:167-176 | "Clear all" keeps only the three essential names, each name's values are those of the kept essentials, and nothing is kept iff none is truthy |
| CollectionPage.HasActiveFiltersIffCount | src/pages/CollectionPage.tsx:179-186 | there are active filters iff the active-filter count is positive |
| CollectionPage.IsActiveFilter | src/pages/CollectionPage.tsx:179-186 | definition of the shared test: an entry's name is not one of category, collection, search, sort and page; `ActiveFiltersAreWithout` is stated with it |
| CollectionPage.HasActiveFilters | src/pages/CollectionPage.tsx:179-181 | definition of `hasActiveFilters`: some entry's name is not one of the five reserved ones; `HasActiveFiltersIffCount` is stated about it |
| CollectionPage.ActiveFilterCount | src/pages/CollectionPage.tsx:184-186 | definition of `activeFilterCount`: the number of such entries; `ActiveFilterCountCountsEntries` and `ActiveFilterCountIgnoresReserved` are stated about it |
| CollectionPage.ActiveFilterCountCountsEntries | src/pages/CollectionPage.tsx:184-186 | each extra non-reserved pair adds one, even for a repeated name |
| CollectionPage.ActiveFilterCountIgnoresReserved | src/pages/CollectionPage.tsx:184-186 | the count is the number of pairs left after removing the five reserved names |
| CollectionPage.ActiveFiltersAreWithout | src/pages/CollectionPage.tsx:184-186 | the active entries are the pairs without a reserved name |
| CollectionPage.PageTitle | src/pages/CollectionPage.tsx:189-194 | the title is decided by search, then collection, then category, else "All Products" |
| CollectionPage.PageTitleFollowsQuery | src/pages/CollectionPage.tsx:189-194 | views that send the same query get the same title |
| CollectionPage.Toggled | src/pages/CollectionPage.tsx:127-132 | toggling flips the named section, absent counting as closed, and no other |
| CollectionPage.ToggleTwice | src/pages/CollectionPage.tsx:127-132 | toggling twice restores every section's state |
| CollectionPage.FilterSections.constructor | src/pages/CollectionPage.tsx:38 | every section starts closed |
| CollectionPage.FilterSections.Toggle | src/pages/CollectionPage.tsx:127-132 | the record becomes the toggled record |
| CollectionPage.ShowingWindow | src/pages/CollectionPage.tsx:440-442 | the window has numbers iff the page is a number |
| CollectionPage.WindowBounds | src/pages/CollectionPage.tsx:440-462 | on an existing page the window lies within the results and holds at most 12; it ends at the total iff Next is disabled and starts at 1 iff Previous is |
| CollectionPage.ShowPagination | src/pages/CollectionPage.tsx:433 | definition: the pagination bar shows when there are more than 12 results |
| CollectionPage.PreviousDisabled | src/pages/CollectionPage.tsx:450 | definition: Previous is disabled when the page is at most 1, never for a NaN page; `WindowBounds` and `NaNPageStaysNaN` are stated with it |
| CollectionPage.NextDisabled | src/pages/CollectionPage.tsx:462 | definition: Next is disabled when page times 12 reaches the total, never for a NaN page; `WindowBounds` and `NaNPageStaysNaN` are stated with it |
| CollectionPage.PageText | src/pages/CollectionPage.tsx:453-465 | definition of `(page ∓ 1).toString()`: the text of the stepped page, "NaN" for a NaN page; `PageStepRoundTrip` and `NaNPageStaysNaN` are stated with it |
| CollectionPage.GoToPreviousPage | src/pages/CollectionPage.tsx:450-456 | Previous sets `page` to page - 1 |
| CollectionPage.GoToNextPage | src/pages/CollectionPage.tsx:462-468 | Next sets `page` to page + 1 |
| CollectionPage.PageStepRoundTrip | src/pages/CollectionPage.tsx:452-465 | after Previous/Next the page read from the new URL is page ∓ 1, and every other parameter is unchanged |
| CollectionPage.NaNPageStaysNaN | src/pages/CollectionPage.tsx:47 | with a NaN page both buttons are enabled and stepping leaves the page NaN |
| Pricing.PercentOff | src/components/product/ProductCard.tsx:20 | the figure r satisfies r - 1/2 <= 100 (cmp - price) / cmp < r + 1/2 |
| Pricing.PercentOffBounds | src/components/product/ProductCard.tsx:19-21 | for 0 <= price < cmp the figure is between 0 and 100 |
| Pricing.PercentOffPositive | src/components/product/ProductCard.tsx:56 | the figure is positive iff the saving is at least half a percent |
| Pricing.PercentOffExample | src/pages/ProductDetailPage.tsx:210 | 45.00 against 55.00 shows 18% |
| ProductCard.ShowCompareAt | src/components/product/ProductCard.tsx:153 | definition of `compareAtPrice && compareAtPrice > price`: the struck-through compare-at price shows when it is truthy and above the price; `CardDiscount` and `DiscountBadgeIffSaving` are stated with it |
| ProductCard.CardDiscount | src/components/product/ProductCard.tsx:19-21 | the percentage when a truthy compare-at price exceeds the price, otherwise 0 |
| ProductCard.CardDiscountIsPercentage | src/components/product/ProductCard.tsx:19-21 | on a non-negative price the discount is between 0 and 100 |
| ProductCard.DiscountBadgeIffSaving | src/components/product/ProductCard.tsx:56 | the badge shows iff the compare-at price shows and the saving is at least half a percent |
| ProductCard.DiscountBadge | src/components/product/ProductCard.tsx:56 | definition: the "% OFF" badge shows when the discount is positive; `DiscountBadgeIffSaving` is stated about it |
| ProductCard.OutOfStockBadge | src/components/product/ProductCard.tsx:51 | definition: the stock badge shows when the product is not in stock; `QuickAddButton` is stated with it |
| ProductCard.NewBadge | src/components/product/ProductCard.tsx:61 | definition: the "New" badge shows when `isNew` is set; `Badges` is stated with it |
| ProductCard.Badges | src/components/product/ProductCard.tsx:50-63 | the corner shows the stock badge iff out of stock, the saving badge iff the discount is positive and then with that percentage, the "New" badge iff `isNew`, each at most once and in that order |
| ProductCard.ShowQuickActions | src/components/product/ProductCard.tsx:15-70 | definition: the quick actions are drawn unless `showActions` is false, an absent prop defaulting to true; `QuickAddButton` is stated with it |
| ProductCard.QuickAddButton | src/components/product/ProductCard.tsx:70-78 | the button exists exactly when the quick-action block is drawn; it is then disabled iff the stock badge shows, and reads "Out of Stock" exactly then |
| ProductCard.Ceiling | src/components/product/ProductCard.tsx:132 | the least integer not below the rating |
| ProductCard.CardFilledCountIsCeiling | src/components/product/ProductCard.tsx:128-132 | the card fills the rating rounded up, from 0 to 5 stars |
| ProductCard.ShowRating | src/components/product/ProductCard.tsx:125 | definition: the rating row shows when both the rating and the review count are truthy |
| ProductCard.StarFilled | src/components/product/ProductCard.tsx:132 | definition: star `i`, counted from 0, is filled when the rating exceeds `i`; `CardFilledCountIsCeiling` is stated about it |
| ProductCard.ReviewWord | src/components/product/ProductCard.tsx:140 | the word is "review" iff the count is 1, else "reviews" |
| ProductCard.Colours | src/components/product/ProductCard.tsx:170 | definition of the colour `filter`: the variants whose lower-cased name is "color", in order; `ColourSwatches`, `MoreSwatches` and `SwatchesAccountForEveryColour` are stated with it |
| ProductCard.ColourSwatches | src/components/product/ProductCard.tsx:169-171 | the swatches are the first min(4, count) colour variants, in order |
| ProductCard.MoreSwatches | src/components/product/ProductCard.tsx:180-182 | "+N more" appears iff there are over 4 colours, with N the number not drawn |
| ProductCard.SwatchesAccountForEveryColour | src/components/product/ProductCard.tsx:167-182 | the drawn swatches plus N equal the number of colour variants |
| ProductCard.ShowSwatchesIffSwatch | src/components/product/ProductCard.tsx:167 | the row renders iff some swatch is drawn |
| ProductCard.ShowSwatches | src/components/product/ProductCard.tsx:167 | definition: the swatch row shows when some variant is a colour; `ShowSwatchesIffSwatch` is stated about it |
| ProductCard.IsColour | src/components/product/ProductCard.tsx:167-170 | definition: a variant is a colour when its lower-cased name is "color"; `ColourSwatches` is stated with it |
| ProductCard.ProductLink | src/components/product/ProductCard.tsx:26 | the link is `/products/` followed by the slug |
| ProductCard.ProductLinkInjective | src/components/product/ProductCard.tsx:105 | equal links mean equal slugs |
| ProductDetail.VariantById | src/pages/ProductDetailPage.tsx:62 | a variant is found iff one has the id, and it is a variant of the product with that id |
| ProductDetail.DefaultVariant | src/pages/ProductDetailPage.tsx:44-46 | a loaded product with variants selects `variants[0]` regardless of stock; without variants the selection is kept |
| ProductDetail.VariantAfterChange | src/pages/ProductDetailPage.tsx:59-66 | a known id selects a variant with that id; an unknown id or no product keeps the selection |
| ProductDetail.ClampQuantity | src/pages/ProductDetailPage.tsx:69-71 | the result is at least 1 and at most max(1, stock); it is q for 1 <= q <= stock, the stock above it, and 1 with no variant or no stock |
| ProductDetail.QuantityFromInput | src/pages/ProductDetailPage.tsx:259 | typed text gives its `parseInt`, with NaN and 0 becoming 1 |
| ProductDetail.QuantityInputRoundTrip | src/pages/ProductDetailPage.tsx:259 | typing a non-zero number's digits gives that number |
| ProductDetail.MaxQuantity | src/pages/ProductDetailPage.tsx:139 | the cap is at most 10 and at most the variant's stock, and it is one of the two |
| ProductDetail.PlusStaysWithinMax | src/pages/ProductDetailPage.tsx:264-265 | an enabled "+" never takes the quantity past the cap |
| ProductDetail.MinusStepsDown | src/pages/ProductDetailPage.tsx:247-248 | an enabled "-" lowers an in-stock quantity by one |
| ProductDetail.MinusDisabled | src/pages/ProductDetailPage.tsx:248 | definition: "-" is disabled at a quantity of 1 or less; `MinusStepsDown` is stated with it |
| ProductDetail.PlusDisabled | src/pages/ProductDetailPage.tsx:265 | definition: "+" is disabled once the quantity reaches the cap; `PlusStaysWithinMax` is stated with it |
| ProductDetail.TypedQuantityCanPassCap | src/pages/ProductDetailPage.tsx:259 | typing 15 with 15 in stock sets 15 while the cap is 10 |
| ProductDetail.DisplayPrice | src/pages/ProductDetailPage.tsx:132 | the variant's price when defined and non-zero, else the product's |
| ProductDetail.DisplayCompareAtPrice | src/pages/ProductDetailPage.tsx:133-135 | shown only when non-zero and above the display price |
| ProductDetail.DetailDiscount | src/pages/ProductDetailPage.tsx:201-210 | a figure exists iff the compare-at price is shown, and it is the rounded percentage |
| ProductDetail.DetailDiscountIsPercentage | src/pages/ProductDetailPage.tsx:210 | on a non-negative display price the figure is between 0 and 100 |
| ProductDetail.DetailDiscountMatchesCard | src/pages/ProductDetailPage.tsx:133-135 | without a variant price the page's figure shows iff the card's compare-at does, and the two are equal |
| ProductDetail.IsInStock | src/pages/ProductDetailPage.tsx:138 | with a variant, in stock iff stock > 0; without one, the product's flag |
| ProductDetail.VariantStockOverridesFlag | src/pages/ProductDetailPage.tsx:138 | with a variant selected the product's flag does not matter |
| ProductDetail.DetailFilledCountIsFloor | src/pages/ProductDetailPage.tsx:177-184 | the page fills the rating rounded down, from 0 to 5 stars |
| ProductDetail.DetailStarFilled | src/pages/ProductDetailPage.tsx:181 | definition: star `n`, counted from 1, is filled up to the rating rounded down; `DetailFilledCountIsFloor` is stated about it |
| ProductDetail.CardFillsOneMoreStar | src/pages/ProductDetailPage.tsx:181 | a fractional rating below 5 gets one more star on the card than on the page |
| ProductDetail.ReviewCountShown | src/pages/ProductDetailPage.tsx:193 | the review count shown is the count when truthy, else 0 |
| ProductDetail.FirstImageUrl | src/pages/ProductDetailPage.tsx:89 | the first image's URL, or "" with no images |
| ProductDetail.CartItemFor | src/pages/ProductDetailPage.tsx:75-90 | an item exists iff a product and a variant are selected; it carries the quantity, the variant's id, name, value and price, the first image, and every other product field |
| ProductDetail.NoVariantsAddsNothing | src/pages/ProductDetailPage.tsx:75 | a product without variants has an enabled Add to Cart button that adds nothing |
| ProductDetail.AddToCartDisabled | src/pages/ProductDetailPage.tsx:277 | definition: Add to Cart is disabled when out of stock or while adding; `NoVariantsAddsNothing` is stated with it |
| ProductDetail.ProductDetailState.constructor | src/pages/ProductDetailPage.tsx:19-25 | the page starts with no product, no variant, quantity 1 and no error |
| ProductDetail.ProductDetailState.ApplyFetched | src/pages/ProductDetailPage.tsx:36-46 | a missing product sets "Product not found"; a found one is stored with its default variant; the quantity, and so the state's validity, is kept |
| ProductDetail.ProductDetailState.HandleVariantChange | src/pages/ProductDetailPage.tsx:59-66 | the selection becomes the variant after the change, nothing else changes, and validity is kept |
| ProductDetail.ProductDetailState.HandleQuantityChange | src/pages/ProductDetailPage.tsx:69-71 | the quantity becomes the clamped value, which is at least 1 |
| ProductDetail.ProductDetailState.HandleAddToCart | src/pages/ProductDetailPage.tsx:74-90 | the item handed to the cart is the one built from the current state, and in a valid state its quantity is at least 1 |
| VariantSelector.NamesInOrder | src/components/product/ProductVariantSelector.tsx:46-52 | the group keys are distinct and are exactly the variants' names |
| VariantSelector.GroupsOf | src/components/product/ProductVariantSelector.tsx:56 | each group is a name with its variants, in input order |
| VariantSelector.NamesStep | src/components/product/ProductVariantSelector.tsx:47-49 | a new name opens a key at the end; a known name adds none |
| VariantSelector.WithNameStep | src/components/product/ProductVariantSelector.tsx:50 | a variant is pushed onto its own name's list only |
| VariantSelector.PushKeeps | src/components/product/ProductVariantSelector.tsx:47-50 | one reduce step keeps the accumulator equal to the key order and per-name lists of the variants seen so far |
| VariantSelector.AccumulatedGroups | src/components/product/ProductVariantSelector.tsx:46-56 | a finished accumulator read in key order is exactly the groups |
| VariantSelector.GroupByName | src/components/product/ProductVariantSelector.tsx:46-52 | the reduce's accumulator, read in key order, gives exactly the groups |
| VariantSelector.GroupsStepNew | src/components/product/ProductVariantSelector.tsx:47-50 | a variant with a new name adds one group holding it |
| VariantSelector.GroupsStepKnown | src/components/product/ProductVariantSelector.tsx:50 | a variant with a known name is appended to that group alone |
| VariantSelector.GroupsPermute | src/components/product/ProductVariantSelector.tsx:46-52 | concatenating the groups gives a permutation of the variants |
| VariantSelector.InGroupIffNamed | src/components/product/ProductVariantSelector.tsx:46-52 | a variant is in a group iff the group carries its name |
| VariantSelector.EachVariantInOneGroup | src/components/product/ProductVariantSelector.tsx:46-52 | each variant is in exactly one group |
| VariantSelector.GroupsInFirstOccurrenceOrder | src/components/product/ProductVariantSelector.tsx:56 | groups come in order of each name's first occurrence |
| VariantSelector.NamesInFirstOccurrenceOrder | src/components/product/ProductVariantSelector.tsx:46-52 | the keys come in order of each name's first occurrence |
| VariantSelector.NamedBeforeExtend | src/components/product/ProductVariantSelector.tsx:46-52 | a name occurring before every occurrence of another still does once one more variant is appended |
| VariantSelector.NamedBeforeNew | src/components/product/ProductVariantSelector.tsx:47-49 | a known name first occurs before a name that appears only now |
| VariantSelector.Render | src/components/product/ProductVariantSelector.tsx:41-43 | nothing renders iff there are no variants; otherwise one radio group per name |
| VariantSelector.OptionsOf | src/components/product/ProductVariantSelector.tsx:78-89 | an option is selected iff its id is the selection, out of stock iff stock <= 0, and disabled iff out of stock or the selector is disabled |
| VariantSelector.IsOutOfStock | src/components/product/ProductVariantSelector.tsx:80 | definition: a variant with stock 0 or less is out of stock; `OptionsOf` is stated with it |
| VariantSelector.AtMostOneSelected | src/components/product/ProductVariantSelector.tsx:79 | with distinct ids at most one option is selected, and none while nothing is |
| VariantSelector.GroupLabelValue | src/components/product/ProductVariantSelector.tsx:60-63 | a value shows iff the selection is a non-empty id of the group, and it is that variant's value |
| VariantSelector.LabelOnlyInOwnGroup | src/components/product/ProductVariantSelector.tsx:60-63 | only the group whose name the selected variant carries shows a value |
| VariantSelector.SelectorState.constructor | src/components/product/ProductVariantSelector.tsx:26 | the selection starts as the `value` prop |
| VariantSelector.SelectorState.SyncValue | src/components/product/ProductVariantSelector.tsx:28-32 | a defined `value` overwrites the selection, and an undefined one leaves it |
| VariantSelector.SelectorState.HandleChange | src/components/product/ProductVariantSelector.tsx:34-39 | the selection becomes the id, and the id is reported to `onChange` exactly when one is given |
| ProductGallery.NextIndex | src/components/product/ProductGallery.tsx:31 | next maps i to (i + 1) mod n, staying in [0, n) |
| ProductGallery.PrevIndex | src/components/product/ProductGallery.tsx:35 | prev maps i to (i + n - 1) mod n, staying in [0, n) |
| ProductGallery.NextPrevInverse | src/components/product/ProductGallery.tsx:31-35 | prev undoes next and next undoes prev |
| ProductGallery.NextTimesNoWrap | src/components/product/ProductGallery.tsx:31 | steps that stay before the last index add one each |
| ProductGallery.NextTimesAdd | src/components/product/ProductGallery.tsx:31 | a steps then b steps equal a + b steps |
| ProductGallery.FullRoundReturns | src/components/product/ProductGallery.tsx:31 | n steps forward return to the starting index |
| ProductGallery.Gallery.constructor | src/components/product/ProductGallery.tsx:16-17 | the gallery starts at index 0, not zoomed |
| ProductGallery.Gallery.GoToNext | src/components/product/ProductGallery.tsx:30-32 | the index steps forward with wrap-around, staying valid; zoom is kept |
| ProductGallery.Gallery.GoToPrev | src/components/product/ProductGallery.tsx:34-36 | the index steps back with wrap-around, staying valid; zoom is kept |
| ProductGallery.Gallery.GoToImage | src/components/product/ProductGallery.tsx:38-40 | the index becomes the argument without a bounds check; an image's index keeps the state valid |
| ProductGallery.Gallery.ToggleZoom | src/components/product/ProductGallery.tsx:53 | a click flips the zoom flag and keeps the index |
| ProductGallery.Gallery.CurrentImage | src/components/product/ProductGallery.tsx:19-27 | there is no current image (the placeholder) iff there are no images; otherwise it is the indexed one |
| ProductGallery.Gallery.Thumbnails | src/components/product/ProductGallery.tsx:99-110 | thumbnails exist only with more than one image, and each is highlighted iff it is the current one |
| ProductGallery.Gallery.HasControls | src/components/product/ProductGallery.tsx:28 | definition: arrows and thumbnails appear with more than one image; `Thumbnails` and `OneThumbnailHighlighted` are stated with it |
| ProductGallery.Gallery.OneThumbnailHighlighted | src/components/product/ProductGallery.tsx:108 | with several images exactly one thumbnail is highlighted |
| ProductGallery.Gallery.AltText | src/components/product/ProductGallery.tsx:48 | the alt text is the image's own when non-empty, else "Product image" |

## Left out

- The router's view of the URL. `updateFilter`, the checkbox handler, `handlePriceRangeSelect`, "Clear all" and the Previous/Next buttons write the URL with `window.history.pushState`, which fires no event the router sees, so `useSearchParams`, the fetch, the title, the controlled sort `<select>` and the uncontrolled checkboxes keep their old state until the next navigation or reload. `ReadView` and `QueryFor` composed with `UpdatedFilter`, `CheckboxChange`, `PriceRangeSelected`, `ClearedFilters` and the Previous/Next rewrites describe the page as it reads the new URL on its next load, not the screen right after the click.
- The simulated network delay (`delay`, `setTimeout`), the loading and error flags, the `isAddingToCart` flag and the `useEffect` wiring. The fetch result is passed to `ProductDetailState.ApplyFetched` directly. The rejected-promise error path ("Failed to load ...") is not modelled.
- Out-of-order responses. The code has no request token and applies whatever response resolves last. The model has no concurrency, so it neither shows nor rules this out.
- Browser and framework effects: `history.pushState`, `scrollTo`, `navigate`, `toast`, and the cart context's `addItem`. The cart context's source is not part of this model; only the value handed to `addItem` is.
- Floating point. Prices are integer cents, and ratings and weights are reals. `Math.round` of the discount is computed exactly, so the IEEE rounding of `(cmp - price) / cmp * 100` is not modelled. `toFixed` and `formatPrice` are not modelled either; the latter's source is not part of this model.
- JsRuntime.ParseInt: numbers are exact, unbounded integers in the model, while JavaScript reads and prints doubles. Past 2^53 `parseInt` loses precision, and from 1e21 on `toString` prints exponent text (`"1e+21"`), which `parseInt` reads back as 1. The integer text and its parsing are modelled only on that exact domain.
- CollectionPage.PageStepRoundTrip: the round trip is proved for every integer page; in JavaScript it holds only while the stepped page stays within the safe integers (below 2^53 in size), for the reason given for `JsRuntime.ParseInt`.
- ProductSort.CompareValues: `localeCompare` is approximated by code-unit lexicographic order, because locale collation depends on the runtime's ICU data.
- The percent-encoding and `toString` of `URLSearchParams` (application/x-www-form-urlencoded). Parameters are name-value pairs; a serialised list is empty exactly when it has no pair.
- JsRuntime.ToLower: only ASCII letters are lower-cased. Unicode case mapping is not modelled.
- JsRuntime.ToNumber: `Number` is modelled on decimal digit strings with optional surrounding white space, and on the empty string (which gives 0). Every other form becomes NaN, including signs, decimals, exponents and hexadecimal.
- ProductService.GetProducts: a non-integer `limit` is not modelled; the limit is an integer.
- ProductSort.SortProducts: the sort is modelled as an insertion sort, and its stability is proved (`JsSort.InsertionSortStable`, `ProductSort.NumericSortStable`, `ProductSort.StringSortStable`) for a comparator that is a total preorder on the products, as on a numeric or string field they all have. The model does not prove that V8's TimSort gives the same order; for an inconsistent comparator (a field some products lack, so that `CompareValues` returns 0 against them) the order TimSort would produce is not modelled.
- Property names inherited from `Object.prototype` (for example `constructor` as a sort field or a variant name). They are treated as absent fields and ordinary names.
- Integer-like variant names ("1", "2"), which `Object.entries` would list first in numeric order. Groups are listed in first-occurrence order.
- The ill-typed fields the card reads (`title`, `collections[0].name`, `isBestSeller`, `pricePerUnit`), which the product type does not declare. So the alt text, the title link text, the collection line, the "Best Seller" badge and the price-per-unit line are left out.
- The unterminated class-name strings and the adjacent JSX elements are left out. The logic around them is modelled.
- The mock catalog contents and the `filterOptions` counts and labels are left out. The catalog is a parameter.
- The `...product` spread at run time also copies the four arrays that the declared `CartItem` type omits. The model builds the item at its declared type.
- Markup only: the image hover swap on the card, the tax note, the tabs, the breadcrumbs, the Wishlist/Quick View buttons and the mobile filter dialog.
