/** The product card of the grid: the discount badge, the stock badge and the
    quick-add button, the rating row, the price line, the colour swatches and
    the links. Every rule is an expression over the product. */
module ProductCard {
  import opened JsRuntime
  import opened JsArray
  import opened ProductTypes
  import opened Pricing

  /** `compareAtPrice && compareAtPrice > price`: the struck-through
      compare-at price is shown (a zero compare-at price is falsy). */
  predicate ShowCompareAt(p: Product) {
    TruthyInt(p.compareAtPrice) && p.compareAtPrice.value > p.price
  }

  /** `discountPercentage`: the percentage saved when there is a compare-at
      price above the price, and 0 otherwise. */
  function CardDiscount(p: Product): (r: int)
    ensures !ShowCompareAt(p) ==> r == 0
    ensures ShowCompareAt(p) ==> r == PercentOff(p.compareAtPrice.value, p.price)
  {
    if ShowCompareAt(p) then PercentOff(p.compareAtPrice.value, p.price) else 0
  }

  /** On a non-negative price the figure is a percentage. */
  lemma CardDiscountIsPercentage(p: Product)
    requires p.price >= 0
    ensures 0 <= CardDiscount(p) <= 100
  {
    if ShowCompareAt(p) {
      PercentOffBounds(p.compareAtPrice.value, p.price);
    }
  }

  /** The "% OFF" badge. */
  predicate DiscountBadge(p: Product) {
    CardDiscount(p) > 0
  }

  /** On a non-negative price the badge appears exactly when the struck
      compare-at price does and the saving is at least half a percent. */
  lemma DiscountBadgeIffSaving(p: Product)
    requires p.price >= 0
    ensures DiscountBadge(p) <==>
      ShowCompareAt(p) && 200 * (p.compareAtPrice.value - p.price) >= p.compareAtPrice.value
  {
    if ShowCompareAt(p) {
      PercentOffPositive(p.compareAtPrice.value, p.price);
    }
  }

  /** The "Out of Stock" badge. */
  predicate OutOfStockBadge(p: Product) {
    !p.isInStock
  }

  /** The "New" badge. */
  predicate NewBadge(p: Product) {
    p.isNew
  }

  /** A badge in the card's top-left corner; the saving badge carries the
      percentage it prints before "% OFF". */
  datatype CardBadge = StockBadge | SavingBadge(percent: int) | FreshBadge

  /** Where a badge stands in the corner's column. */
  function BadgeRank(b: CardBadge): nat {
    match b
    case StockBadge => 0
    case SavingBadge(_) => 1
    case FreshBadge => 2
  }

  /** The badges drawn, top to bottom. */
  function Badges(p: Product): (r: seq<CardBadge>)
    ensures StockBadge in r <==> OutOfStockBadge(p)
    ensures SavingBadge(CardDiscount(p)) in r <==> DiscountBadge(p)
    ensures forall i :: 0 <= i < |r| && r[i].SavingBadge? ==> r[i].percent == CardDiscount(p)
    ensures FreshBadge in r <==> NewBadge(p)
    ensures forall i, j :: 0 <= i < j < |r| ==> BadgeRank(r[i]) < BadgeRank(r[j])
  {
    (if OutOfStockBadge(p) then [StockBadge] else [])
      + (if DiscountBadge(p) then [SavingBadge(CardDiscount(p))] else [])
      + (if NewBadge(p) then [FreshBadge] else [])
  }

  /** The quick-action block is drawn unless `showActions` is false; an
      absent prop takes its default, true. */
  predicate ShowQuickActions(showActions: Option<bool>) {
    showActions != Some(false)
  }

  /** The quick-add button, when the quick-action block is drawn: its label,
      and whether it is disabled. */
  function QuickAddButton(p: Product, showActions: Option<bool>): (b: Option<(string, bool)>)
    ensures b.Some? <==> ShowQuickActions(showActions)
    ensures b.Some? ==> (b.value.1 <==> OutOfStockBadge(p))
    ensures b.Some? ==> b.value.0 == (if b.value.1 then "Out of Stock" else "Add to Cart")
  {
    if !ShowQuickActions(showActions) then None
    else if p.isInStock then Some(("Add to Cart", false))
    else Some(("Out of Stock", true))
  }

  /** The rating row shows only when both the rating and the review count are
      truthy; otherwise an empty spacer keeps the layout. */
  predicate ShowRating(p: Product) {
    TruthyReal(p.rating) && TruthyInt(p.reviewCount)
  }

  /** Star `i` (counted from 0) is filled when the rating exceeds `i`. */
  predicate StarFilled(rating: real, i: int) {
    rating > i as real
  }

  const CardStars: seq<int> := [0, 1, 2, 3, 4]

  /** How many of the five stars are filled. */
  function CardFilledCount(rating: real): nat {
    Count(CardStars, (i: int) => StarFilled(rating, i))
  }

  /** The smallest integer not below `x`. */
  function Ceiling(x: real): (n: int)
    ensures n as real >= x && (n - 1) as real < x
  {
    -((-x).Floor)
  }

  /** The filled stars are the rating rounded up, between 0 and 5. */
  lemma CardFilledCountIsCeiling(rating: real)
    ensures CardFilledCount(rating) ==
      (var n := Ceiling(rating); if n < 0 then 0 else if n > 5 then 5 else n)
  {
    var f := (i: int) => StarFilled(rating, i);
    assert CardStars[1..] == [1, 2, 3, 4];
    assert CardStars[1..][1..] == [2, 3, 4];
    assert CardStars[1..][1..][1..] == [3, 4];
    assert CardStars[1..][1..][1..][1..] == [4];
    assert CardStars[1..][1..][1..][1..][1..] == [];
    assert Count(CardStars, f) == (if f(0) then 1 else 0) + (if f(1) then 1 else 0)
      + (if f(2) then 1 else 0) + (if f(3) then 1 else 0) + (if f(4) then 1 else 0);
  }

  /** "1 review", otherwise "N reviews". */
  function ReviewWord(reviewCount: int): (w: string)
    ensures w == "review" <==> reviewCount == 1
    ensures w == "review" || w == "reviews"
  {
    if reviewCount == 1 then "review" else "reviews"
  }

  /** A colour variant: its name lower-cases to "color". */
  predicate IsColour(v: ProductVariant) {
    ToLower(v.name) == "color"
  }

  /** The colour variants in catalog order. */
  function Colours(p: Product): seq<ProductVariant> {
    Filter(p.variants, IsColour)
  }

  /** The swatch row is rendered when some variant is a colour. */
  predicate ShowSwatches(p: Product) {
    exists i :: 0 <= i < |p.variants| && IsColour(p.variants[i])
  }

  /** The swatches drawn: the first four colour variants. */
  function ColourSwatches(p: Product): (r: seq<ProductVariant>)
    ensures |r| == if |Colours(p)| < 4 then |Colours(p)| else 4
    ensures r == Colours(p)[..|r|]
    ensures forall i :: 0 <= i < |r| ==> r[i] in p.variants && IsColour(r[i])
  {
    SlicePrefix(Colours(p), 4)
  }

  /** The "+N more" label: present when there are more than four colours,
      with N the number not drawn. */
  function MoreSwatches(p: Product): (r: Option<int>)
    ensures r.Some? <==> |Colours(p)| > 4
    ensures r.Some? ==> r.value > 0 && r.value == |Colours(p)| - |ColourSwatches(p)|
  {
    var n := |Colours(p)|;
    if n > 4 then Some(n - 4) else None
  }

  /** Every colour variant is either drawn or counted in "+N more". */
  lemma SwatchesAccountForEveryColour(p: Product)
    ensures |ColourSwatches(p)| + (if MoreSwatches(p).Some? then MoreSwatches(p).value else 0)
            == Count(p.variants, IsColour)
  {
    FilterCount(p.variants, IsColour);
  }

  /** The row is rendered exactly when there is a swatch to draw. */
  lemma ShowSwatchesIffSwatch(p: Product)
    ensures ShowSwatches(p) <==> ColourSwatches(p) != []
  {
    if ShowSwatches(p) {
      var i :| 0 <= i < |p.variants| && IsColour(p.variants[i]);
      assert p.variants[i] in Colours(p);
    }
    if ColourSwatches(p) != [] {
      var v := ColourSwatches(p)[0];
      assert v in p.variants && IsColour(v);
      var i :| 0 <= i < |p.variants| && p.variants[i] == v;
    }
  }

  /** The image link and the title link: `/products/` then the slug. */
  function ProductLink(p: Product): (url: string)
    ensures |url| == 10 + |p.slug| && url[10..] == p.slug
  {
    "/products/" + p.slug
  }

  /** Distinct slugs give distinct links. */
  lemma ProductLinkInjective(p: Product, q: Product)
    ensures ProductLink(p) == ProductLink(q) ==> p.slug == q.slug
  {
    if ProductLink(p) == ProductLink(q) {
      assert ProductLink(p)[10..] == ProductLink(q)[10..];
    }
  }
}
