/** The `field:direction` sort of the catalog query: dynamic field access on
    a product and the comparator handed to `Array.prototype.sort`. */
module ProductSort {
  import opened JsRuntime
  import opened ProductTypes
  import opened JsSort
  import opened JsArray

  /** What `product[field]` yields, as the comparator sees it: undefined, a
      number, or a value the comparator converts with `String(...)`. */
  datatype FieldValue = Undefined | Num(n: real) | Str(s: string)

  function OptionalNumber(o: Option<int>): FieldValue {
    match o
    case None => Undefined
    case Some(n) => Num(n as real)
  }

  function OptionalReal(o: Option<real>): FieldValue {
    match o
    case None => Undefined
    case Some(x) => Num(x)
  }

  function BoolText(b: bool): string { if b then "true" else "false" }

  /** `String(array)` of an array of objects: one `[object Object]` per element. */
  function ObjectListText(n: nat): string {
    Join(seq(n, _ => "[object Object]"), ',')
  }

  /** `product[field]` for every declared field of a product; any other name
      (including inherited names such as `constructor`, whose value is the same
      for both operands and so compares equal) behaves as undefined. Prices are
      compared in cents, which orders them exactly as the amounts. */
  function FieldOf(p: Product, field: string): FieldValue {
    if field == "id" then Str(p.id)
    else if field == "sku" then Str(p.sku)
    else if field == "name" then Str(p.name)
    else if field == "slug" then Str(p.slug)
    else if field == "description" then Str(p.description)
    else if field == "price" then Num(p.price as real)
    else if field == "compareAtPrice" then OptionalNumber(p.compareAtPrice)
    else if field == "costPerItem" then OptionalNumber(p.costPerItem)
    else if field == "isTaxable" then Str(BoolText(p.isTaxable))
    else if field == "isInStock" then Str(BoolText(p.isInStock))
    else if field == "isGiftCard" then Str(BoolText(p.isGiftCard))
    else if field == "isFeatured" then Str(BoolText(p.isFeatured))
    else if field == "isNew" then Str(BoolText(p.isNew))
    else if field == "isOnSale" then Str(BoolText(p.isOnSale))
    else if field == "requiresShipping" then Str(BoolText(p.requiresShipping))
    else if field == "weight" then OptionalReal(p.weight)
    else if field == "weightUnit" then Str(WeightUnitText(p.weightUnit))
    else if field == "status" then Str(StatusText(p.status))
    else if field == "tags" then Str(Join(p.tags, ','))
    else if field == "materials" then Str(Join(p.materials, ','))
    else if field == "categories" then Str(Join(p.categories, ','))
    else if field == "collections" then Str(Join(p.collections, ','))
    else if field == "variants" then Str(ObjectListText(|p.variants|))
    else if field == "images" then Str(ObjectListText(|p.images|))
    else if field == "featuredImage" then Str(p.featuredImage)
    else if field == "rating" then OptionalReal(p.rating)
    else if field == "reviewCount" then OptionalNumber(p.reviewCount)
    else if field == "createdAt" then Str(p.createdAt)
    else if field == "updatedAt" then Str(p.updatedAt)
    else Undefined
  }

  /** A field has one kind for every product: when it is defined on two
      products, it is a number on both or a string on both. */
  lemma FieldKindIsFixed(a: Product, b: Product, field: string)
    requires FieldOf(a, field) != Undefined && FieldOf(b, field) != Undefined
    ensures FieldOf(a, field).Num? == FieldOf(b, field).Num?
  {
    NumberFields(a, field);
    StringFields(a, field);
    NumberFields(b, field);
    StringFields(b, field);
  }

  /** The fields that hold numbers. */
  const NumericFields: set<string> :=
    {"price", "compareAtPrice", "costPerItem", "weight", "rating", "reviewCount"}

  /** Only the numeric fields hold numbers... */
  lemma NumberFields(p: Product, field: string)
    ensures FieldOf(p, field).Num? ==> field in NumericFields
  {
  }

  /** ...and they never hold strings. */
  lemma StringFields(p: Product, field: string)
    ensures FieldOf(p, field).Str? ==> field !in NumericFields
  {
  }

  /** `sort.split(':')`: the field is the first piece; the direction is
      ascending only when the second piece is exactly `asc`. */
  datatype SortKey = SortKey(field: string, ascending: bool)

  function ParseSortKey(sort: string): (k: SortKey)
    ensures k.field == Split(sort, ':')[0]
  {
    var parts := Split(sort, ':');
    SortKey(parts[0], |parts| >= 2 && parts[1] == "asc")
  }

  /** `field:asc` names the field and ascending order; any other direction,
      or none, means descending. */
  lemma ParseSortKeyOf(field: string, direction: string)
    requires ':' !in field && ':' !in direction
    ensures ParseSortKey(field + ":" + direction) == SortKey(field, direction == "asc")
  {
    SplitAround(field, direction, ':');
    SplitNoSeparator(direction, ':');
    assert field + ":" + direction == field + [':'] + direction;
  }

  lemma ParseSortKeyWithoutDirection(field: string)
    requires ':' !in field
    ensures ParseSortKey(field) == SortKey(field, false)
  {
    SplitNoSeparator(field, ':');
  }

  function Sign(x: real): int {
    if x < 0.0 then -1 else if x > 0.0 then 1 else 0
  }

  /** The comparator on two field values: 0 when either is undefined; the sign
      of the difference for two numbers; `localeCompare` (here code-unit
      order) for two strings; operands swapped unless ascending. A number
      against a string never arises (`FieldKindIsFixed`), and is given 0. */
  function CompareValues(x: FieldValue, y: FieldValue, ascending: bool): (r: int)
    ensures -1 <= r <= 1
    ensures x == Undefined || y == Undefined ==> r == 0
  {
    match (x, y)
    case (Num(m), Num(n)) => if ascending then Sign(m - n) else Sign(n - m)
    case (Str(u), Str(v)) => if ascending then LexCompare(u, v) else LexCompare(v, u)
    case _ => 0
  }

  /** The comparator the query passes to the sort. Only the sign is kept,
      which is all `Array.prototype.sort` uses. */
  function Compare(a: Product, b: Product, k: SortKey): int {
    CompareValues(FieldOf(a, k.field), FieldOf(b, k.field), k.ascending)
  }

  function Comparator(k: SortKey): (Product, Product) -> int {
    (a: Product, b: Product) => Compare(a, b, k)
  }

  /** The query's sort step: a stable sort of the products by the comparator. */
  function SortProducts(s: seq<Product>, k: SortKey): (r: seq<Product>)
    ensures |r| == |s| && multiset(r) == multiset(s)
  {
    InsertionSortPermutes(s, Comparator(k));
    InsertionSort(s, Comparator(k))
  }

  /** On two numbers the comparator says "not after" exactly when the first
      is no larger (ascending) or no smaller (descending). */
  lemma CompareNumbers(m: real, n: real, ascending: bool)
    ensures ascending ==> (CompareValues(Num(m), Num(n), ascending) <= 0 <==> m <= n)
    ensures !ascending ==> (CompareValues(Num(m), Num(n), ascending) <= 0 <==> m >= n)
  {
  }

  /** On two products with a string in the field the comparator is the
      string comparison, operands swapped unless ascending. */
  lemma CompareStrings(a: Product, b: Product, k: SortKey)
    requires FieldOf(a, k.field).Str? && FieldOf(b, k.field).Str?
    ensures Comparator(k)(a, b) ==
      if k.ascending then LexCompare(FieldOf(a, k.field).s, FieldOf(b, k.field).s)
      else LexCompare(FieldOf(b, k.field).s, FieldOf(a, k.field).s)
  {
  }

  /** A sequence in which every product has the field undefined. */
  ghost predicate AllUndefined(s: seq<Product>, field: string) {
    forall i :: 0 <= i < |s| ==> FieldOf(s[i], field) == Undefined
  }

  /** A field no product has leaves the order as it was. */
  lemma UndefinedFieldKeepsOrder(s: seq<Product>, k: SortKey)
    requires AllUndefined(s, k.field)
    ensures SortProducts(s, k) == s
  {
    assert SortedBy(s, Comparator(k));
    InsertionSortKeepsSorted(s, Comparator(k));
  }

  /** The declared fields of a product. */
  const ProductFields: set<string> := {
    "id", "sku", "name", "slug", "description", "price", "compareAtPrice", "costPerItem",
    "isTaxable", "isInStock", "isGiftCard", "isFeatured", "isNew", "isOnSale",
    "requiresShipping", "weight", "weightUnit", "status", "tags", "materials", "categories",
    "collections", "variants", "images", "featuredImage", "rating", "reviewCount",
    "createdAt", "updatedAt"}

  lemma UnknownFieldIsUndefined(p: Product, field: string)
    requires field !in ProductFields
    ensures FieldOf(p, field) == Undefined
  {
  }

  /** Sorting by a name that is not a product field leaves the order as it was. */
  lemma UnknownFieldKeepsOrder(s: seq<Product>, k: SortKey)
    requires k.field !in ProductFields
    ensures SortProducts(s, k) == s
  {
    forall i | 0 <= i < |s| ensures FieldOf(s[i], k.field) == Undefined {
      UnknownFieldIsUndefined(s[i], k.field);
    }
    UndefinedFieldKeepsOrder(s, k);
  }

  /** Every product of the sequence has a number in the field. */
  ghost predicate AllNumbers(s: seq<Product>, field: string) {
    forall i :: 0 <= i < |s| ==> FieldOf(s[i], field).Num?
  }

  /** Every product of the sequence has a string in the field. */
  ghost predicate AllStrings(s: seq<Product>, field: string) {
    forall i :: 0 <= i < |s| ==> FieldOf(s[i], field).Str?
  }

  /** The number in a field, or 0 where there is none. */
  function NumberIn(p: Product, field: string): real {
    match FieldOf(p, field)
    case Num(n) => n
    case _ => 0.0
  }

  /** A numeric field is a total preorder on products that all have it. */
  lemma NumericFieldConsistent(s: seq<Product>, k: SortKey)
    requires AllNumbers(s, k.field)
    ensures ConsistentOn(s, Comparator(k))
  {
    var cmp := Comparator(k);
    forall a | a in s ensures FieldOf(a, k.field).Num? {
      var i :| 0 <= i < |s| && s[i] == a;
    }
    forall a, b | a in s && b in s ensures cmp(a, b) <= 0 <==>
        (if k.ascending then NumberIn(a, k.field) <= NumberIn(b, k.field)
         else NumberIn(a, k.field) >= NumberIn(b, k.field)) {
      CompareNumbers(NumberIn(a, k.field), NumberIn(b, k.field), k.ascending);
    }
  }

  /** A string field is a total preorder on products that all have it. */
  lemma StringFieldConsistent(s: seq<Product>, k: SortKey)
    requires AllStrings(s, k.field)
    ensures ConsistentOn(s, Comparator(k))
  {
    var cmp := Comparator(k);
    forall a | a in s ensures FieldOf(a, k.field).Str? {
      var i :| 0 <= i < |s| && s[i] == a;
    }
    forall a, b, c | a in s && b in s && c in s && cmp(a, b) <= 0 && cmp(b, c) <= 0
      ensures cmp(a, c) <= 0
    {
      var x, y, z := FieldOf(a, k.field).s, FieldOf(b, k.field).s, FieldOf(c, k.field).s;
      if k.ascending {
        LexCompareTransitive(x, y, z);
      } else {
        LexCompareTransitive(z, y, x);
      }
    }
    forall a, b | a in s && b in s && cmp(a, b) > 0 ensures cmp(b, a) <= 0 {
      LexCompareFlip(FieldOf(a, k.field).s, FieldOf(b, k.field).s);
    }
  }

  /** Sorting by a numeric field that every product has orders the products
      by that number: non-decreasing for `asc`, non-increasing otherwise. */
  lemma NumericSortOrders(s: seq<Product>, k: SortKey)
    requires AllNumbers(s, k.field)
    ensures var r := SortProducts(s, k);
      AllNumbers(r, k.field) &&
      forall i, j :: 0 <= i < j < |r| ==>
        if k.ascending then NumberIn(r[i], k.field) <= NumberIn(r[j], k.field)
        else NumberIn(r[i], k.field) >= NumberIn(r[j], k.field)
  {
    NumericFieldConsistent(s, k);
    InsertionSortSorts(s, Comparator(k));
    var r := SortProducts(s, k);
    forall i | 0 <= i < |r| ensures FieldOf(r[i], k.field).Num? {
      assert r[i] in multiset(s);
      var m :| 0 <= m < |s| && s[m] == r[i];
    }
    forall i, j | 0 <= i < j < |r| ensures
        if k.ascending then NumberIn(r[i], k.field) <= NumberIn(r[j], k.field)
        else NumberIn(r[i], k.field) >= NumberIn(r[j], k.field) {
      assert Comparator(k)(r[i], r[j]) <= 0;
      CompareNumbers(NumberIn(r[i], k.field), NumberIn(r[j], k.field), k.ascending);
    }
  }

  /** Sorting by a string field that every product has orders the products
      by that string: ascending for `asc`, descending otherwise. */
  lemma StringSortOrders(s: seq<Product>, k: SortKey)
    requires AllStrings(s, k.field)
    ensures var r := SortProducts(s, k);
      AllStrings(r, k.field) &&
      forall i, j :: 0 <= i < j < |r| ==>
        if k.ascending then LexCompare(FieldOf(r[i], k.field).s, FieldOf(r[j], k.field).s) <= 0
        else LexCompare(FieldOf(r[j], k.field).s, FieldOf(r[i], k.field).s) <= 0
  {
    StringFieldConsistent(s, k);
    InsertionSortSorts(s, Comparator(k));
    var r := SortProducts(s, k);
    forall i | 0 <= i < |r| ensures FieldOf(r[i], k.field).Str? {
      assert r[i] in multiset(s);
      var m :| 0 <= m < |s| && s[m] == r[i];
    }
    forall i, j | 0 <= i < j < |r| ensures
        if k.ascending then LexCompare(FieldOf(r[i], k.field).s, FieldOf(r[j], k.field).s) <= 0
        else LexCompare(FieldOf(r[j], k.field).s, FieldOf(r[i], k.field).s) <= 0 {
      assert Comparator(k)(r[i], r[j]) <= 0;
      CompareStrings(r[i], r[j], k);
    }
  }

  /** Accepts the products whose field holds the same number as `e`'s. */
  function SameNumber(e: Product, field: string): Product -> bool {
    p => NumberIn(p, field) == NumberIn(e, field)
  }

  /** Accepts the products whose field holds the same text as `e`'s. */
  function SameText(e: Product, field: string): Product -> bool {
    p => FieldOf(p, field) == FieldOf(e, field)
  }

  /** On two numbers the comparator ties exactly equal numbers. */
  lemma NumericTies(p: Product, e: Product, k: SortKey)
    requires FieldOf(p, k.field).Num? && FieldOf(e, k.field).Num?
    ensures TiesWith(e, Comparator(k))(p) == SameNumber(e, k.field)(p)
  {
    CompareNumbers(NumberIn(p, k.field), NumberIn(e, k.field), k.ascending);
    CompareNumbers(NumberIn(e, k.field), NumberIn(p, k.field), k.ascending);
  }

  /** On two texts the comparator ties exactly equal texts. */
  lemma StringTies(p: Product, e: Product, k: SortKey)
    requires FieldOf(p, k.field).Str? && FieldOf(e, k.field).Str?
    ensures TiesWith(e, Comparator(k))(p) == SameText(e, k.field)(p)
  {
    var x, y := FieldOf(p, k.field).s, FieldOf(e, k.field).s;
    CompareStrings(p, e, k);
    CompareStrings(e, p, k);
    LexCompareFlip(x, y);
    LexCompareZero(x, y);
  }

  /** Sorting by a numeric field every product has is stable: the products
      with equal numbers keep their input order. */
  lemma NumericSortStable(s: seq<Product>, k: SortKey, e: Product)
    requires AllNumbers(s, k.field) && e in s
    ensures Filter(SortProducts(s, k), SameNumber(e, k.field)) == Filter(s, SameNumber(e, k.field))
  {
    var cmp := Comparator(k);
    NumericFieldConsistent(s, k);
    InsertionSortStable(s, cmp, e);
    var r := SortProducts(s, k);
    var j :| 0 <= j < |s| && s[j] == e;
    forall i | 0 <= i < |s| ensures TiesWith(e, cmp)(s[i]) == SameNumber(e, k.field)(s[i]) {
      NumericTies(s[i], e, k);
    }
    forall i | 0 <= i < |r| ensures TiesWith(e, cmp)(r[i]) == SameNumber(e, k.field)(r[i]) {
      assert r[i] in multiset(s);
      var m :| 0 <= m < |s| && s[m] == r[i];
      NumericTies(r[i], e, k);
    }
    FilterSame(s, TiesWith(e, cmp), SameNumber(e, k.field));
    FilterSame(r, TiesWith(e, cmp), SameNumber(e, k.field));
  }

  /** Sorting by a string field every product has is stable: the products
      with equal texts keep their input order. */
  lemma StringSortStable(s: seq<Product>, k: SortKey, e: Product)
    requires AllStrings(s, k.field) && e in s
    ensures Filter(SortProducts(s, k), SameText(e, k.field)) == Filter(s, SameText(e, k.field))
  {
    var cmp := Comparator(k);
    StringFieldConsistent(s, k);
    InsertionSortStable(s, cmp, e);
    var r := SortProducts(s, k);
    var j :| 0 <= j < |s| && s[j] == e;
    forall i | 0 <= i < |s| ensures TiesWith(e, cmp)(s[i]) == SameText(e, k.field)(s[i]) {
      StringTies(s[i], e, k);
    }
    forall i | 0 <= i < |r| ensures TiesWith(e, cmp)(r[i]) == SameText(e, k.field)(r[i]) {
      assert r[i] in multiset(s);
      var m :| 0 <= m < |s| && s[m] == r[i];
      StringTies(r[i], e, k);
    }
    FilterSame(s, TiesWith(e, cmp), SameText(e, k.field));
    FilterSame(r, TiesWith(e, cmp), SameText(e, k.field));
  }
}
