/** The product page: the loaded product, the selected variant and the
    quantity, the price and stock rules derived from them, and the item handed
    to the cart. */
module ProductDetail {
  import opened JsRuntime
  import opened JsArray
  import opened ProductTypes
  import opened Pricing
  import ProductCard

  const NotFoundMessage := "Product not found"

  /** The most the quantity buttons allow per order. */
  const QuantityCap := 10

  // ---------------------------------------------------------------------
  // Variant selection

  /** The variant with id `id`, if the product has one (the first such). */
  function VariantById(variants: seq<ProductVariant>, id: string): (r: Option<ProductVariant>)
    ensures r.Some? <==> exists i :: 0 <= i < |variants| && variants[i].id == id
    ensures r.Some? ==> r.value in variants && r.value.id == id
  {
    Find(variants, (v: ProductVariant) => v.id == id)
  }

  /** The selection after the loaded product arrives: its first variant,
      whatever that variant's stock; a product without variants leaves the
      selection as it was. */
  function DefaultVariant(p: Product, selected: Option<ProductVariant>): (r: Option<ProductVariant>)
    ensures |p.variants| > 0 ==> r == Some(p.variants[0])
    ensures |p.variants| == 0 ==> r == selected
  {
    if |p.variants| > 0 then Some(p.variants[0]) else selected
  }

  /** `handleVariantChange(id)`: select the product's variant with that id;
      with no product loaded, or an id the product does not have, the
      selection is unchanged. */
  function VariantAfterChange(product: Option<Product>, selected: Option<ProductVariant>, id: string)
    : (r: Option<ProductVariant>)
    ensures product.None? ==> r == selected
    ensures product.Some? && (exists i :: 0 <= i < |product.value.variants| && product.value.variants[i].id == id)
            ==> r.Some? && r.value in product.value.variants && r.value.id == id
    ensures product.Some? && (forall i :: 0 <= i < |product.value.variants| ==> product.value.variants[i].id != id)
            ==> r == selected
  {
    if product.None? then selected
    else match VariantById(product.value.variants, id)
      case None => selected
      case Some(v) => Some(v)
  }

  // ---------------------------------------------------------------------
  // Quantity

  /** `handleQuantityChange(q)`: `max(1, min(q, selectedVariant?.stock || 1))`. */
  function ClampQuantity(q: int, v: Option<ProductVariant>): (r: int)
    ensures r >= 1
    ensures v.Some? ==> r <= (if v.value.stock > 1 then v.value.stock else 1)
    ensures v.Some? && 1 <= q <= v.value.stock ==> r == q
    ensures v.Some? && 1 <= v.value.stock < q ==> r == v.value.stock
    ensures v.None? || v.value.stock <= 0 || q <= 1 ==> r == 1
  {
    var bound := if v.Some? && v.value.stock != 0 then v.value.stock else 1;
    var m := if q < bound then q else bound;
    if m > 1 then m else 1
  }

  /** The typed quantity: `parseInt(text) || 1`, so text that is not a number,
      and a typed 0, count as 1. */
  function QuantityFromInput(text: string): (q: int)
    ensures q != 0
    ensures ParseInt(text).None? ==> q == 1
    ensures ParseInt(text).Some? ==> q == if ParseInt(text).value == 0 then 1 else ParseInt(text).value
  {
    match ParseInt(text)
    case None => 1
    case Some(n) => if n == 0 then 1 else n
  }

  /** Typing a number's own digits gives back that number (0 aside). */
  lemma QuantityInputRoundTrip(n: int)
    requires n != 0
    ensures QuantityFromInput(IntToString(n)) == n
  {
    ParseIntRoundTrip(n);
  }

  /** `maxQuantity`: the variant's stock capped at 10, or 10 without a variant. */
  function MaxQuantity(v: Option<ProductVariant>): (r: int)
    ensures r <= QuantityCap
    ensures v.Some? ==> r <= v.value.stock
    ensures r == QuantityCap || (v.Some? && r == v.value.stock)
  {
    if v.Some? && v.value.stock < QuantityCap then v.value.stock else QuantityCap
  }

  /** The "-" button. */
  predicate MinusDisabled(quantity: int) {
    quantity <= 1
  }

  /** The "+" button. */
  predicate PlusDisabled(quantity: int, v: Option<ProductVariant>) {
    quantity >= MaxQuantity(v)
  }

  /** "+" never takes the quantity past `maxQuantity`. */
  lemma PlusStaysWithinMax(quantity: int, v: Option<ProductVariant>)
    requires quantity >= 1 && !PlusDisabled(quantity, v)
    ensures 1 <= ClampQuantity(quantity + 1, v) <= MaxQuantity(v)
  {
  }

  /** "-" never takes the quantity below 1, and lowers it by one. */
  lemma MinusStepsDown(quantity: int, v: Option<ProductVariant>)
    requires !MinusDisabled(quantity) && v.Some? && quantity <= v.value.stock
    ensures ClampQuantity(quantity - 1, v) == quantity - 1
  {
  }

  /** The typed quantity is clamped by the stock alone, not by the cap of 10:
      typing 15 for a variant with 15 in stock sets 15 while "+" stops at 10. */
  lemma TypedQuantityCanPassCap(v: ProductVariant)
    requires v.stock == 15
    ensures ClampQuantity(QuantityFromInput("15"), Some(v)) == 15
    ensures MaxQuantity(Some(v)) == 10
  {
    QuantityInputRoundTrip(15);
    assert IntToString(15) == "15" by {
      assert NatToString(15) == NatToString(1) + [DigitChar(5)];
    }
  }

  // ---------------------------------------------------------------------
  // Price and stock

  /** `selectedVariant?.price || product.price`: the variant's price when it
      has a non-zero one, otherwise the product's. */
  function DisplayPrice(p: Product, v: Option<ProductVariant>): (price: Cents)
    ensures v.Some? && TruthyInt(v.value.price) ==> price == v.value.price.value
    ensures !(v.Some? && TruthyInt(v.value.price)) ==> price == p.price
  {
    if v.Some? && TruthyInt(v.value.price) then v.value.price.value else p.price
  }

  /** The struck-through compare-at price: shown only when non-zero and above
      the display price. */
  function DisplayCompareAtPrice(p: Product, v: Option<ProductVariant>): (r: Option<Cents>)
    ensures r.Some? ==> r == p.compareAtPrice && r.value != 0 && r.value > DisplayPrice(p, v)
    ensures r.None? ==> !TruthyInt(p.compareAtPrice) || p.compareAtPrice.value <= DisplayPrice(p, v)
  {
    if TruthyInt(p.compareAtPrice) && p.compareAtPrice.value > DisplayPrice(p, v)
    then p.compareAtPrice else None
  }

  /** The "% OFF" figure beside a shown compare-at price. */
  function DetailDiscount(p: Product, v: Option<ProductVariant>): (r: Option<int>)
    ensures r.Some? <==> DisplayCompareAtPrice(p, v).Some?
    ensures r.Some? ==> r.value == PercentOff(DisplayCompareAtPrice(p, v).value, DisplayPrice(p, v))
  {
    match DisplayCompareAtPrice(p, v)
    case None => None
    case Some(c) => Some(PercentOff(c, DisplayPrice(p, v)))
  }

  /** On a non-negative display price the figure is a percentage. */
  lemma DetailDiscountIsPercentage(p: Product, v: Option<ProductVariant>)
    requires DisplayPrice(p, v) >= 0 && DetailDiscount(p, v).Some?
    ensures 0 <= DetailDiscount(p, v).value <= 100
  {
    PercentOffBounds(DisplayCompareAtPrice(p, v).value, DisplayPrice(p, v));
  }

  /** Without a variant price override the page and the card show the same
      figure; the card shows no badge where the page shows "0% OFF". */
  lemma DetailDiscountMatchesCard(p: Product, v: Option<ProductVariant>)
    requires !(v.Some? && TruthyInt(v.value.price))
    ensures DetailDiscount(p, v).Some? <==> ProductCard.ShowCompareAt(p)
    ensures DetailDiscount(p, v).Some? ==> DetailDiscount(p, v).value == ProductCard.CardDiscount(p)
  {
  }

  /** `isInStock`: with a variant selected, its stock decides. */
  function IsInStock(p: Product, v: Option<ProductVariant>): (r: bool)
    ensures v.Some? ==> (r <==> v.value.stock > 0)
    ensures v.None? ==> r == p.isInStock
  {
    if v.Some? then v.value.stock > 0 else p.isInStock
  }

  /** The product's own flag is ignored while a variant is selected. */
  lemma VariantStockOverridesFlag(p: Product, v: ProductVariant, flag: bool)
    ensures IsInStock(p.(isInStock := flag), Some(v)) == IsInStock(p, Some(v))
  {
  }

  /** The Add to Cart button. */
  predicate AddToCartDisabled(p: Product, v: Option<ProductVariant>, adding: bool) {
    !IsInStock(p, v) || adding
  }

  // ---------------------------------------------------------------------
  // Rating row

  /** Star `star` (counted from 1) is filled up to the rating rounded down. */
  predicate DetailStarFilled(rating: real, star: int) {
    star <= rating.Floor
  }

  const DetailStars: seq<int> := [1, 2, 3, 4, 5]

  function DetailFilledCount(rating: real): nat {
    Count(DetailStars, (s: int) => DetailStarFilled(rating, s))
  }

  /** The page fills the rating rounded down, between 0 and 5. */
  lemma DetailFilledCountIsFloor(rating: real)
    ensures DetailFilledCount(rating) ==
      (var n := rating.Floor; if n < 0 then 0 else if n > 5 then 5 else n)
  {
    var f := (s: int) => DetailStarFilled(rating, s);
    assert DetailStars[1..] == [2, 3, 4, 5];
    assert DetailStars[1..][1..] == [3, 4, 5];
    assert DetailStars[1..][1..][1..] == [4, 5];
    assert DetailStars[1..][1..][1..][1..] == [5];
    assert DetailStars[1..][1..][1..][1..][1..] == [];
    assert Count(DetailStars, f) == (if f(1) then 1 else 0) + (if f(2) then 1 else 0)
      + (if f(3) then 1 else 0) + (if f(4) then 1 else 0) + (if f(5) then 1 else 0);
  }

  /** For a fractional rating below 5 the card, which rounds up, fills one
      star more than the page, which rounds down: 4.5 is five stars on the
      card and four on the page. */
  lemma CardFillsOneMoreStar(rating: real)
    requires 0.0 < rating < 5.0 && rating.Floor as real != rating
    ensures ProductCard.CardFilledCount(rating) == DetailFilledCount(rating) + 1
  {
    ProductCard.CardFilledCountIsCeiling(rating);
    DetailFilledCountIsFloor(rating);
    assert ProductCard.Ceiling(rating) == rating.Floor + 1;
  }

  /** The review count beside the rating: `reviewCount || 0`. */
  function ReviewCountShown(p: Product): (n: int)
    ensures TruthyInt(p.reviewCount) ==> n == p.reviewCount.value
    ensures !TruthyInt(p.reviewCount) ==> n == 0
  {
    if TruthyInt(p.reviewCount) then p.reviewCount.value else 0
  }

  // ---------------------------------------------------------------------
  // The cart item

  /** `product.images[0]?.url || ''`. */
  function FirstImageUrl(p: Product): (url: string)
    ensures |p.images| > 0 ==> url == p.images[0].url
    ensures |p.images| == 0 ==> url == ""
  {
    if |p.images| > 0 then p.images[0].url else ""
  }

  /** The value `handleAddToCart` hands to the cart: nothing without a product
      or a selected variant, otherwise the product without its four arrays,
      with the quantity, the variant summary and the first image. */
  function CartItemFor(product: Option<Product>, selected: Option<ProductVariant>, quantity: int)
    : (r: Option<CartItem>)
    ensures r.Some? <==> product.Some? && selected.Some?
    ensures r.Some? ==>
      && r.value.quantity == quantity
      && r.value.variant == Some(CartVariant(selected.value.id, selected.value.name,
                                             selected.value.value, selected.value.price))
      && r.value.image == FirstImageUrl(product.value)
      && RestoreProduct(r.value, product.value.variants, product.value.images,
                        product.value.categories, product.value.collections) == product.value
  {
    if product.None? || selected.None? then None
    else
      var v := selected.value;
      CartItemKeepsProductFields(product.value, quantity, Some(CartVariant(v.id, v.name, v.value, v.price)),
                                 FirstImageUrl(product.value));
      Some(ToCartItem(product.value, quantity, Some(CartVariant(v.id, v.name, v.value, v.price)),
                      FirstImageUrl(product.value)))
  }

  /** A product without variants never gets a selection, so its enabled Add
      to Cart button adds nothing. */
  lemma NoVariantsAddsNothing(p: Product, quantity: int)
    requires |p.variants| == 0 && p.isInStock
    ensures DefaultVariant(p, None) == None
    ensures !AddToCartDisabled(p, DefaultVariant(p, None), false)
    ensures CartItemFor(Some(p), DefaultVariant(p, None), quantity) == None
  {
  }

  // ---------------------------------------------------------------------
  // The page state

  /** The page's state fields (loading and the adding flag aside). */
  class ProductDetailState {
    var product: Option<Product>
    var selectedVariant: Option<ProductVariant>
    var quantity: int
    var error: Option<string>

    /** Every handler keeps the quantity at least 1. */
    predicate Valid()
      reads this
    {
      quantity >= 1
    }

    constructor ()
      ensures product == None && selectedVariant == None && quantity == 1 && error == None
      ensures Valid()
    {
      product := None;
      selectedVariant := None;
      quantity := 1;
      error := None;
    }

    /** The fetched product arrives: a missing one sets the error; a found
        one is stored and its first variant, if any, selected. */
    method ApplyFetched(data: Option<Product>)
      modifies this
      ensures data.None? ==> error == Some(NotFoundMessage) && product == old(product)
                             && selectedVariant == old(selectedVariant)
      ensures data.Some? ==> product == data && error == old(error)
                             && selectedVariant == DefaultVariant(data.value, old(selectedVariant))
      ensures quantity == old(quantity)
      ensures old(Valid()) ==> Valid()
    {
      if data.None? {
        error := Some(NotFoundMessage);
        return;
      }
      product := data;
      if |data.value.variants| > 0 {
        selectedVariant := Some(data.value.variants[0]);
      }
    }

    method HandleVariantChange(id: string)
      modifies this
      ensures selectedVariant == VariantAfterChange(old(product), old(selectedVariant), id)
      ensures product == old(product) && quantity == old(quantity) && error == old(error)
      ensures old(Valid()) ==> Valid()
    {
      if product.None? {
        return;
      }
      var variant := VariantById(product.value.variants, id);
      if variant.Some? {
        selectedVariant := variant;
      }
    }

    method HandleQuantityChange(newQuantity: int)
      modifies this
      ensures quantity == ClampQuantity(newQuantity, old(selectedVariant))
      ensures product == old(product) && selectedVariant == old(selectedVariant) && error == old(error)
      ensures Valid()
    {
      quantity := ClampQuantity(newQuantity, selectedVariant);
    }

    /** The item handed to the cart, if any; the state is left as it was.
        In a valid state the cart never receives a quantity below 1. */
    method HandleAddToCart() returns (item: Option<CartItem>)
      ensures item == CartItemFor(product, selectedVariant, quantity)
      ensures Valid() && item.Some? ==> item.value.quantity >= 1
    {
      if product.None? || selectedVariant.None? {
        return None;
      }
      var v := selectedVariant.value;
      item := Some(ToCartItem(product.value, quantity, Some(CartVariant(v.id, v.name, v.value, v.price)),
                              FirstImageUrl(product.value)));
    }
  }
}
