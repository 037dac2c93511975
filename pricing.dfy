/** The "% OFF" figure the product card and the product page both show:
    `Math.round(((compareAt - price) / compareAt) * 100)`, computed exactly on
    integer cents. */
module Pricing {
  import opened JsRuntime

  /** The percentage saved, rounded to the nearest integer with halves
      rounded up: `r - 1/2 <= 100 * (compareAt - price) / compareAt < r + 1/2`. */
  function PercentOff(compareAt: int, price: int): (r: int)
    requires compareAt != 0
    ensures compareAt > 0 ==>
      2 * compareAt * r - compareAt <= 200 * (compareAt - price) < 2 * compareAt * r + compareAt
  {
    MathRound(100 * (compareAt - price), compareAt)
  }

  /** Dividing both sides of `c * x < c * y` by a positive `c`. */
  lemma LessByFactor(c: int, x: int, y: int)
    requires c > 0 && c * x < c * y
    ensures x < y
  {
  }

  /** For a genuine reduction on a non-negative price the figure is a
      percentage: between 0 and 100. */
  lemma PercentOffBounds(compareAt: int, price: int)
    requires 0 <= price < compareAt
    ensures 0 <= PercentOff(compareAt, price) <= 100
  {
    var r := PercentOff(compareAt, price);
    var c := compareAt;
    assert 2 * c * r - c <= 200 * (c - price) < 2 * c * r + c;
    LessByFactor(2 * c, r, 101);
    LessByFactor(2 * c, -1, r);
  }

  /** The figure is positive exactly when the saving is at least half a
      percent of the compare-at price, so a struck-through price can appear
      with no discount figure. */
  lemma PercentOffPositive(compareAt: int, price: int)
    requires 0 <= price < compareAt
    ensures PercentOff(compareAt, price) > 0 <==> 200 * (compareAt - price) >= compareAt
  {
    var r := PercentOff(compareAt, price);
    var c2 := 2 * compareAt;
    assert c2 * r - compareAt <= 200 * (compareAt - price) < c2 * r + compareAt;
    if r > 0 {
      AtLeastByFactor(c2, r);
    }
    if 200 * (compareAt - price) >= compareAt {
      LessByFactor(c2, 0, r);
    }
  }

  /** A positive multiple of `c` is at least `c`. */
  lemma AtLeastByFactor(c: int, r: int)
    requires c > 0 && r >= 1
    ensures c * r >= c
  {
    assert c * r == c + c * (r - 1);
  }

  /** A price of 45.00 against 55.00 shows "18% OFF". */
  lemma PercentOffExample()
    ensures PercentOff(5500, 4500) == 18
  {
    var r := PercentOff(5500, 4500);
    assert 11000 * r - 5500 <= 200000 < 11000 * r + 5500;
    LessByFactor(11000, r, 19);
    LessByFactor(11000, 17, r);
  }
}
