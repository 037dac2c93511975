/** The product page's image gallery: a current index that steps round the
    images in either direction or jumps to a thumbnail, and a zoom flag. */
module ProductGallery {
  import opened JsRuntime
  import opened ProductTypes

  /** `goToNext`: the last index wraps to 0, any other moves up by one. */
  function NextIndex(i: int, n: int): (r: int)
    ensures 0 <= i < n ==> 0 <= r < n && r == (i + 1) % n
  {
    if i == n - 1 then 0 else i + 1
  }

  /** `goToPrev`: index 0 wraps to the last, any other moves down by one. */
  function PrevIndex(i: int, n: int): (r: int)
    ensures 0 <= i < n ==> 0 <= r < n && r == (i + n - 1) % n
  {
    if i == 0 then n - 1 else i - 1
  }

  /** Each direction undoes the other. */
  lemma NextPrevInverse(i: int, n: int)
    requires 0 <= i < n
    ensures PrevIndex(NextIndex(i, n), n) == i
    ensures NextIndex(PrevIndex(i, n), n) == i
  {
  }

  /** The index after `k` steps forward. */
  function NextTimes(i: int, n: int, k: nat): int {
    if k == 0 then i else NextIndex(NextTimes(i, n, k - 1), n)
  }

  /** Steps forward before reaching the last index do not wrap. */
  lemma {:induction false} NextTimesNoWrap(i: int, n: int, k: nat)
    requires 0 <= i && i + k < n
    ensures NextTimes(i, n, k) == i + k
  {
    if k > 0 {
      NextTimesNoWrap(i, n, k - 1);
    }
  }

  /** `a` steps and then `b` more are `a + b` steps. */
  lemma {:induction false} NextTimesAdd(i: int, n: int, a: nat, b: nat)
    ensures NextTimes(i, n, a + b) == NextTimes(NextTimes(i, n, a), n, b)
  {
    if b > 0 {
      NextTimesAdd(i, n, a, b - 1);
    }
  }

  /** As many steps forward as there are images come back to the start:
      `n - i` steps reach 0 through the wrap, and `i` more reach `i`. */
  lemma FullRoundReturns(i: int, n: int)
    requires 0 <= i < n
    ensures NextTimes(i, n, n) == i
  {
    NextTimesNoWrap(i, n, n - 1 - i);
    assert NextTimes(i, n, n - i) == 0;
    NextTimesNoWrap(0, n, i);
    NextTimesAdd(i, n, n - i, i);
  }

  class Gallery {
    const images: seq<ProductImage>
    var currentIndex: int
    var isZoomed: bool

    /** The index names an image whenever there is one. */
    predicate Valid()
      reads this
    {
      |images| > 0 ==> 0 <= currentIndex < |images|
    }

    /** `useState(0)` and `useState(false)`. */
    constructor (images: seq<ProductImage>)
      ensures this.images == images && currentIndex == 0 && !isZoomed
      ensures Valid()
    {
      this.images := images;
      currentIndex := 0;
      isZoomed := false;
    }

    method GoToNext()
      modifies this
      ensures currentIndex == NextIndex(old(currentIndex), |images|) && isZoomed == old(isZoomed)
      ensures old(Valid()) ==> Valid()
    {
      currentIndex := if currentIndex == |images| - 1 then 0 else currentIndex + 1;
    }

    method GoToPrev()
      modifies this
      ensures currentIndex == PrevIndex(old(currentIndex), |images|) && isZoomed == old(isZoomed)
      ensures old(Valid()) && |images| > 0 ==> Valid()
    {
      currentIndex := if currentIndex == 0 then |images| - 1 else currentIndex - 1;
    }

    /** `goToImage(index)`: no bounds check; the thumbnails only pass indices
        of images. */
    method GoToImage(index: int)
      modifies this
      ensures currentIndex == index && isZoomed == old(isZoomed)
      ensures 0 <= index < |images| ==> Valid()
    {
      currentIndex := index;
    }

    /** A click on the image or on the zoom button. */
    method ToggleZoom()
      modifies this
      ensures isZoomed == !old(isZoomed) && currentIndex == old(currentIndex)
    {
      isZoomed := !isZoomed;
    }

    /** The image shown, or nothing: with no images a placeholder is drawn
        and the index is not used. */
    function CurrentImage(): (r: Option<ProductImage>)
      reads this
      requires Valid()
      ensures r.None? <==> |images| == 0
      ensures r.Some? ==> r.value == images[currentIndex]
    {
      if |images| == 0 then None else Some(images[currentIndex])
    }

    /** The arrows and the thumbnail strip: only with more than one image. */
    predicate HasControls()
      reads this
    {
      |images| > 1
    }

    /** The thumbnails, each with whether it is highlighted as current. */
    function Thumbnails(): (ts: seq<(string, bool)>)
      reads this
      ensures |ts| == (if HasControls() then |images| else 0)
      ensures forall i :: 0 <= i < |ts| ==> ts[i].0 == images[i].url && (ts[i].1 <==> i == currentIndex)
    {
      if !HasControls() then []
      else
        var current := currentIndex;
        seq(|images|, i requires 0 <= i < |images| => (images[i].url, i == current))
    }

    /** With several images exactly one thumbnail is highlighted. */
    lemma OneThumbnailHighlighted()
      requires Valid() && HasControls()
      ensures exists i :: 0 <= i < |Thumbnails()| && Thumbnails()[i].1
      ensures forall i, j :: (0 <= i < |Thumbnails()| && 0 <= j < |Thumbnails()|
                && Thumbnails()[i].1 && Thumbnails()[j].1) ==> i == j
    {
      assert Thumbnails()[currentIndex].1;
    }

    /** The current image's alt text, with a default. */
    function AltText(): (alt: string)
      reads this
      requires Valid() && |images| > 0
      ensures TruthyString(images[currentIndex].alt) ==> alt == images[currentIndex].alt.value
      ensures !TruthyString(images[currentIndex].alt) ==> alt == "Product image"
    {
      var a := images[currentIndex].alt;
      if TruthyString(a) then a.value else "Product image"
    }
  }
}
