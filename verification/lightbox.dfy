/*
 * The public gallery page: the lightbox that steps through the page's
 * images, its keyboard, wheel and swipe mapping, and the mobile menu
 * (public/js/gallery.js). The page state is one object whose fields the
 * event handlers update in place, so it is a class here; the index
 * arithmetic is pure and specified by functions.
 */
module GalleryPage {
  import opened Base
  import opened Text

  /** A lightbox position: a number, or NaN once a remainder by zero images was taken. */
  datatype Index = At(k: int) | NaN

  /** JavaScript `a % n` for a count `n`: truncating, NaN when `n` is zero. */
  function JsRem(a: int, n: nat): (r: Index)
    ensures r.NaN? <==> n == 0
    ensures n > 0 && a >= 0 ==> r == At(a % n) && 0 <= r.k < n
    ensures n > 0 && a < 0 ==> -(n as int) < r.k <= 0
  {
    if n == 0 then NaN
    else if a >= 0 then At(a % n)
    else At(-((-a) % n))
  }

  /** `(currentIndex + 1) % images.length`. */
  function NextIndex(i: Index, n: nat): Index {
    match i
    case NaN => NaN
    case At(k) => JsRem(k + 1, n)
  }

  /** `(currentIndex - 1 + images.length) % images.length`. */
  function PrevIndex(i: Index, n: nat): Index {
    match i
    case NaN => NaN
    case At(k) => JsRem(k - 1 + n, n)
  }

  /** A remainder of a value between zero and twice the count, taken without division. */
  lemma RemWithinTwice(a: int, n: nat)
    requires 0 <= a < 2 * n
    ensures JsRem(a, n) == At(if a < n then a else a - n)
  {
    if a < n {
      assert a == 0 * n + a;
    } else {
      assert a == 1 * n + (a - n);
    }
  }

  /** From a position on the page, next and previous wrap around and stay on the page. */
  lemma StepsWrapAround(k: int, n: nat)
    requires 0 <= k < n
    ensures NextIndex(At(k), n) == At(if k + 1 == n then 0 else k + 1)
    ensures PrevIndex(At(k), n) == At(if k == 0 then n - 1 else k - 1)
  {
    RemWithinTwice(k + 1, n);
    RemWithinTwice(k - 1 + n, n);
  }

  /** Any non-negative position is brought back into `[0, n)` by one step. */
  lemma StepsLandInRange(k: int, n: nat)
    requires n > 0 && k >= 0
    ensures NextIndex(At(k), n).At? && 0 <= NextIndex(At(k), n).k < n
    ensures PrevIndex(At(k), n).At? && 0 <= PrevIndex(At(k), n).k < n
  {
  }

  /** Next then previous, and previous then next, return to where the lightbox was. */
  lemma {:induction false} NextPrevInverse(k: int, n: nat)
    requires 0 <= k < n
    ensures PrevIndex(NextIndex(At(k), n), n) == At(k)
    ensures NextIndex(PrevIndex(At(k), n), n) == At(k)
  {
    StepsWrapAround(k, n);
    var nx := if k + 1 == n then 0 else k + 1;
    var pv := if k == 0 then n - 1 else k - 1;
    StepsWrapAround(nx, n);
    StepsWrapAround(pv, n);
  }

  /** With no images every step yields NaN, and NaN stays NaN. */
  lemma EmptyPageIsNaN(i: Index)
    ensures NextIndex(i, 0) == NaN && PrevIndex(i, 0) == NaN
    ensures NextIndex(NaN, 5) == NaN && PrevIndex(NaN, 5) == NaN
  {
  }

  /** `${currentIndex + 1} / ${images.length}`. */
  function CounterText(i: Index, n: nat): string {
    match i
    case NaN => "NaN / " + Decimal(n)
    case At(k) => NumberText(k + 1) + " / " + Decimal(n)
  }

  /** The counter shows the one-based position, then " / ", then the image count, both readable back. */
  lemma CounterReadsBack(k: nat, n: nat)
    ensures var t := CounterText(At(k), n);
            var a := |Decimal(k + 1)|;
            a + 3 <= |t| && t[a..a + 3] == " / " &&
            (forall j :: 0 <= j < a ==> IsDigit(t[j])) && ParseDecimal(t[..a]) == k + 1 &&
            (forall j :: a + 3 <= j < |t| ==> IsDigit(t[j])) && ParseDecimal(t[a + 3..]) == n
  {
    var t := CounterText(At(k), n);
    var a := |Decimal(k + 1)|;
    assert t == Decimal(k + 1) + " / " + Decimal(n);
    assert t[..a] == Decimal(k + 1);
    assert t[a + 3..] == Decimal(n);
    DecimalRoundTrip(k + 1);
    DecimalRoundTrip(n);
  }

  /** The item positions, in order, of the items that hold an image. */
  function ImageItems(items: seq<Option<string>>): (r: seq<nat>)
    ensures forall j :: 0 <= j < |r| ==> r[j] < |items| && items[r[j]].Some?
    ensures forall j, l :: 0 <= j < l < |r| ==> r[j] < r[l]
    ensures |r| <= |items|
  {
    if |items| == 0 then []
    else
      var front := ImageItems(items[..|items| - 1]);
      if items[|items| - 1].Some? then front + [|items| - 1] else front
  }

  /** The sources of the items that hold an image, in page order. */
  function ImageSources(items: seq<Option<string>>): (r: seq<string>)
    ensures |r| == |ImageItems(items)|
    ensures forall j :: 0 <= j < |r| ==> r[j] == items[ImageItems(items)[j]].value
  {
    if |items| == 0 then []
    else
      var front := ImageSources(items[..|items| - 1]);
      if items[|items| - 1].Some? then front + [items[|items| - 1].value] else front
  }

  /** One more item adds its position and source exactly when it holds an image. */
  lemma ImageStep(pushed: seq<string>, items: seq<Option<string>>, i: nat)
    requires i < |items|
    ensures ImageItems(items[..i + 1]) == ImageItems(items[..i]) + (if items[i].Some? then [i] else [])
    ensures pushed + ImageSources(items[..i + 1]) == pushed + ImageSources(items[..i]) + (if items[i].Some? then [items[i].value] else [])
  {
    assert items[..i + 1][..i] == items[..i];
  }

  /** When every item holds an image, the handler of the j-th image opens position j. */
  lemma {:induction false} AllItemsHaveImages(items: seq<Option<string>>)
    requires forall k :: 0 <= k < |items| ==> items[k].Some?
    ensures |ImageItems(items)| == |items|
    ensures forall j :: 0 <= j < |items| ==> ImageItems(items)[j] == j
  {
    if |items| > 0 {
      AllItemsHaveImages(items[..|items| - 1]);
    }
  }

  /** The gallery page state. `scrollLocked` is the body's `overflow: hidden`. */
  class GalleryState {
    var images: seq<string>
    var currentIndex: Index
    var isLightboxOpen: bool
    var isMenuOpen: bool
    var touchStartX: real
    var touchEndX: real
    var scrollLocked: bool
    var counter: string

    constructor ()
      ensures images == [] && currentIndex == At(0) && !isLightboxOpen && !isMenuOpen
      ensures touchStartX == 0.0 && touchEndX == 0.0 && !scrollLocked && counter == ""
    {
      images := [];
      currentIndex := At(0);
      isLightboxOpen := false;
      isMenuOpen := false;
      touchStartX := 0.0;
      touchEndX := 0.0;
      scrollLocked := false;
      counter := "";
    }

    /**
     * Walks the gallery items in page order, pushing the source of each
     * item that holds an image and registering its click handler. `opens`
     * lists, per pushed image, the position that handler passes to the
     * lightbox: the item's own position on the page.
     */
    method InitGallery(items: seq<Option<string>>) returns (opens: seq<nat>)
      modifies this
      ensures images == old(images) + ImageSources(items)
      ensures opens == ImageItems(items)
      ensures currentIndex == old(currentIndex) && isLightboxOpen == old(isLightboxOpen) && isMenuOpen == old(isMenuOpen)
      ensures touchStartX == old(touchStartX) && touchEndX == old(touchEndX)
      ensures scrollLocked == old(scrollLocked) && counter == old(counter)
    {
      opens := [];
      var i := 0;
      while i < |items|
        invariant 0 <= i <= |items|
        invariant images == old(images) + ImageSources(items[..i])
        invariant opens == ImageItems(items[..i])
        invariant currentIndex == old(currentIndex) && isLightboxOpen == old(isLightboxOpen) && isMenuOpen == old(isMenuOpen)
        invariant touchStartX == old(touchStartX) && touchEndX == old(touchEndX)
        invariant scrollLocked == old(scrollLocked) && counter == old(counter)
      {
        ImageStep(old(images), items, i);
        if items[i].Some? {
          images := images + [items[i].value];
          opens := opens + [i];
        }
        i := i + 1;
      }
      assert items[..|items|] == items;
    }

    /** `openLightbox(index)`: show the given position and lock page scrolling. */
    method OpenLightbox(index: int)
      modifies this
      ensures currentIndex == At(index) && isLightboxOpen && scrollLocked
      ensures counter == CounterText(At(index), |images|)
      ensures images == old(images) && isMenuOpen == old(isMenuOpen)
      ensures touchStartX == old(touchStartX) && touchEndX == old(touchEndX)
    {
      currentIndex := At(index);
      isLightboxOpen := true;
      counter := CounterText(currentIndex, |images|);
      scrollLocked := true;
    }

    /** `closeLightbox`: hide the lightbox and unlock page scrolling; the position is kept. */
    method CloseLightbox()
      modifies this
      ensures !isLightboxOpen && !scrollLocked
      ensures currentIndex == old(currentIndex) && counter == old(counter)
      ensures images == old(images) && isMenuOpen == old(isMenuOpen)
      ensures touchStartX == old(touchStartX) && touchEndX == old(touchEndX)
    {
      isLightboxOpen := false;
      scrollLocked := false;
    }

    /** `showNextImage`. */
    method ShowNext()
      modifies this
      ensures currentIndex == NextIndex(old(currentIndex), |images|)
      ensures counter == CounterText(currentIndex, |images|)
      ensures images == old(images) && isLightboxOpen == old(isLightboxOpen) && isMenuOpen == old(isMenuOpen)
      ensures touchStartX == old(touchStartX) && touchEndX == old(touchEndX) && scrollLocked == old(scrollLocked)
    {
      currentIndex := NextIndex(currentIndex, |images|);
      counter := CounterText(currentIndex, |images|);
    }

    /** `showPreviousImage`. */
    method ShowPrevious()
      modifies this
      ensures currentIndex == PrevIndex(old(currentIndex), |images|)
      ensures counter == CounterText(currentIndex, |images|)
      ensures images == old(images) && isLightboxOpen == old(isLightboxOpen) && isMenuOpen == old(isMenuOpen)
      ensures touchStartX == old(touchStartX) && touchEndX == old(touchEndX) && scrollLocked == old(scrollLocked)
    {
      currentIndex := PrevIndex(currentIndex, |images|);
      counter := CounterText(currentIndex, |images|);
    }

    /**
     * `handleKeydown`: ignored while the lightbox is closed; the page reads
     * right to left, so ArrowLeft goes next and ArrowRight goes previous.
     */
    method HandleKeydown(key: string)
      modifies this
      ensures images == old(images) && isMenuOpen == old(isMenuOpen)
      ensures touchStartX == old(touchStartX) && touchEndX == old(touchEndX)
      ensures !old(isLightboxOpen) || (key != "ArrowLeft" && key != "ArrowRight" && key != "Escape") ==>
        currentIndex == old(currentIndex) && isLightboxOpen == old(isLightboxOpen) &&
        scrollLocked == old(scrollLocked) && counter == old(counter)
      ensures old(isLightboxOpen) && key == "ArrowLeft" ==>
        currentIndex == NextIndex(old(currentIndex), |images|) && isLightboxOpen && scrollLocked == old(scrollLocked) &&
        counter == CounterText(currentIndex, |images|)
      ensures old(isLightboxOpen) && key == "ArrowRight" ==>
        currentIndex == PrevIndex(old(currentIndex), |images|) && isLightboxOpen && scrollLocked == old(scrollLocked) &&
        counter == CounterText(currentIndex, |images|)
      ensures old(isLightboxOpen) && key == "Escape" ==>
        currentIndex == old(currentIndex) && !isLightboxOpen && !scrollLocked && counter == old(counter)
    {
      if !isLightboxOpen {
        return;
      }
      if key == "ArrowLeft" {
        ShowNext();
      } else if key == "ArrowRight" {
        ShowPrevious();
      } else if key == "Escape" {
        CloseLightbox();
      }
    }

    /** `handleWheel`: ignored while closed; scrolling down goes next, anything else previous. */
    method HandleWheel(deltaY: real)
      modifies this
      ensures images == old(images) && isMenuOpen == old(isMenuOpen) && isLightboxOpen == old(isLightboxOpen)
      ensures touchStartX == old(touchStartX) && touchEndX == old(touchEndX) && scrollLocked == old(scrollLocked)
      ensures !old(isLightboxOpen) ==> currentIndex == old(currentIndex) && counter == old(counter)
      ensures old(isLightboxOpen) && deltaY > 0.0 ==> currentIndex == NextIndex(old(currentIndex), |images|)
      ensures old(isLightboxOpen) && deltaY <= 0.0 ==> currentIndex == PrevIndex(old(currentIndex), |images|)
      ensures old(isLightboxOpen) ==> counter == CounterText(currentIndex, |images|)
    {
      if !isLightboxOpen {
        return;
      }
      if deltaY > 0.0 {
        ShowNext();
      } else {
        ShowPrevious();
      }
    }

    /** `handleTouchStart`: remember where the finger went down. */
    method HandleTouchStart(x: real)
      modifies this
      ensures touchStartX == x
      ensures images == old(images) && currentIndex == old(currentIndex) && isLightboxOpen == old(isLightboxOpen)
      ensures isMenuOpen == old(isMenuOpen) && touchEndX == old(touchEndX)
      ensures scrollLocked == old(scrollLocked) && counter == old(counter)
    {
      touchStartX := x;
    }

    /**
     * `handleTouchEnd`: a swipe longer than 50 pixels moves the lightbox,
     * towards the next image when the finger travelled left.
     */
    method HandleTouchEnd(x: real)
      modifies this
      ensures touchEndX == x && touchStartX == old(touchStartX)
      ensures images == old(images) && isLightboxOpen == old(isLightboxOpen) && isMenuOpen == old(isMenuOpen)
      ensures scrollLocked == old(scrollLocked)
      ensures -50.0 <= old(touchStartX) - x <= 50.0 ==> currentIndex == old(currentIndex) && counter == old(counter)
      ensures old(touchStartX) - x > 50.0 ==> currentIndex == NextIndex(old(currentIndex), |images|)
      ensures old(touchStartX) - x < -50.0 ==> currentIndex == PrevIndex(old(currentIndex), |images|)
      ensures (old(touchStartX) - x > 50.0 || old(touchStartX) - x < -50.0) ==> counter == CounterText(currentIndex, |images|)
    {
      touchEndX := x;
      var diff := touchStartX - touchEndX;
      var magnitude := if diff < 0.0 then -diff else diff;
      if magnitude > 50.0 {
        if diff > 0.0 {
          ShowNext();
        } else {
          ShowPrevious();
        }
      }
    }

    /** `toggleMenu`: flip the menu; scrolling is locked exactly while the menu is open. */
    method ToggleMenu()
      modifies this
      ensures isMenuOpen == !old(isMenuOpen) && scrollLocked == isMenuOpen
      ensures images == old(images) && currentIndex == old(currentIndex) && isLightboxOpen == old(isLightboxOpen)
      ensures touchStartX == old(touchStartX) && touchEndX == old(touchEndX) && counter == old(counter)
    {
      isMenuOpen := !isMenuOpen;
      scrollLocked := isMenuOpen;
    }

    /** `closeMenu`: the menu is closed and scrolling stays locked exactly when the lightbox is open. */
    method CloseMenu()
      modifies this
      ensures !isMenuOpen && scrollLocked == isLightboxOpen
      ensures images == old(images) && currentIndex == old(currentIndex) && isLightboxOpen == old(isLightboxOpen)
      ensures touchStartX == old(touchStartX) && touchEndX == old(touchEndX) && counter == old(counter)
    {
      isMenuOpen := false;
      scrollLocked := isLightboxOpen;
    }

    /** The menu's own Escape listener: closes only an open menu. */
    method HandleMenuEscape(key: string)
      modifies this
      ensures key == "Escape" && old(isMenuOpen) ==> !isMenuOpen && scrollLocked == isLightboxOpen
      ensures !(key == "Escape" && old(isMenuOpen)) ==> isMenuOpen == old(isMenuOpen) && scrollLocked == old(scrollLocked)
      ensures images == old(images) && currentIndex == old(currentIndex) && isLightboxOpen == old(isLightboxOpen)
      ensures touchStartX == old(touchStartX) && touchEndX == old(touchEndX) && counter == old(counter)
    {
      if key == "Escape" && isMenuOpen {
        CloseMenu();
      }
    }
  }
}
