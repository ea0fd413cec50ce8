/*
 * The public home page (public/js/script.js): the hero carousel with its
 * slide counters, the mobile menu, and the parts of the page rebuilt from
 * the content and galleries the API returns (featured projects, active
 * testimonials, the favicon and the hero image list). The carousel and
 * menu state live in one object the handlers update in place; the page
 * rebuilds are pure selections.
 */
module HomePage {
  import opened Base
  import opened Text
  import G = GalleryModel
  import S = SiteContentModel

  // ---------------------------------------------------------------------
  // Featured projects

  /** A gallery shows on the home page when it is both featured and active. */
  predicate IsShowcased(g: G.FrontGallery) {
    g.isFeatured && g.isActive
  }

  /** `galleries.filter(g => g.isFeatured && g.isActive)`. */
  function Featured(galleries: seq<G.FrontGallery>): (r: seq<G.FrontGallery>)
    ensures |r| <= |galleries|
    ensures forall g :: g in r <==> g in galleries && g.isFeatured && g.isActive
  {
    Filter(galleries, IsShowcased)
  }

  /** The selection keeps the original order: it distributes over concatenation. */
  lemma FeaturedKeepsOrder(xs: seq<G.FrontGallery>, ys: seq<G.FrontGallery>)
    ensures Featured(xs + ys) == Featured(xs) + Featured(ys)
  {
    FilterAppend(xs, ys, IsShowcased);
  }

  /** One card of the projects grid. */
  datatype ProjectCard = ProjectCard(
    href: string, image: string, category: string, title: string, imageCount: nat, revealDelay: nat)

  /** The card for the `i`-th featured gallery. */
  function Card(g: G.FrontGallery, i: nat): ProjectCard {
    ProjectCard("/gallery/" + g.id, FormatPath(g.coverImage), g.category, g.name, |g.images|, i % 4 + 1)
  }

  /**
   * `updateGalleries`: without galleries, without a grid, or without a
   * featured gallery the grid keeps what it had; otherwise it holds one
   * card per featured gallery, in order.
   */
  function UpdateGalleries(galleries: seq<G.FrontGallery>, gridPresent: bool, grid: seq<ProjectCard>): (r: seq<ProjectCard>)
  {
    if |galleries| == 0 || !gridPresent then grid
    else
      var featured := Featured(galleries);
      if |featured| == 0 then grid
      else seq(|featured|, i requires 0 <= i < |featured| => Card(featured[i], i))
  }

  /**
   * The grid is left untouched exactly when there is nothing to show or
   * nowhere to show it; otherwise each card links to its featured gallery
   * and the reveal delays cycle through 1 to 4.
   */
  lemma GridShowsFeatured(galleries: seq<G.FrontGallery>, gridPresent: bool, grid: seq<ProjectCard>)
    ensures var r := UpdateGalleries(galleries, gridPresent, grid);
            var f := Featured(galleries);
            (|f| == 0 || !gridPresent ==> r == grid) &&
            (|f| > 0 && gridPresent ==>
              |r| == |f| &&
              forall i :: 0 <= i < |r| ==>
                r[i].href == "/gallery/" + f[i].id && r[i].title == f[i].name &&
                r[i].image == FormatPath(f[i].coverImage) && r[i].category == f[i].category &&
                r[i].imageCount == |f[i].images| &&
                f[i].isFeatured && f[i].isActive && r[i].revealDelay == i % 4 + 1 && 1 <= r[i].revealDelay <= 4)
  {
    var f := Featured(galleries);
    var r := UpdateGalleries(galleries, gridPresent, grid);
    if |f| > 0 && gridPresent {
      assert |galleries| > 0;
      assert r == seq(|f|, i requires 0 <= i < |f| => Card(f[i], i));
      forall i | 0 <= i < |r|
        ensures r[i].href == "/gallery/" + f[i].id && r[i].title == f[i].name &&
                r[i].image == FormatPath(f[i].coverImage) && r[i].category == f[i].category &&
                r[i].imageCount == |f[i].images| &&
                f[i].isFeatured && f[i].isActive && r[i].revealDelay == i % 4 + 1 && 1 <= r[i].revealDelay <= 4
      {
        assert r[i] == Card(f[i], i);
        assert f[i] in f;
      }
    }
  }

  // ---------------------------------------------------------------------
  // Testimonials

  /** One rendered testimonial card: the full text kept aside, the short text shown. */
  datatype TestimonialCard = TestimonialCard(fullText: string, shown: string, initial: string, authorName: string, role: string)

  predicate IsShown(t: S.Testimonial) {
    t.isActive
  }

  /** `testimonials.filter(t => t.isActive)`. */
  function ActiveTestimonials(ts: seq<S.Testimonial>): (r: seq<S.Testimonial>)
    ensures |r| <= |ts|
    ensures forall t :: t in r <==> t in ts && t.isActive
  {
    Filter(ts, IsShown)
  }

  /** `shortText || text`. */
  function TestimonialCardOf(t: S.Testimonial): TestimonialCard {
    TestimonialCard(t.text, if t.shortText != "" then t.shortText else t.text, t.authorInitial, t.authorName, t.authorRole)
  }

  /** The testimonials block of `updatePageContent`. */
  function UpdateTestimonials(ts: seq<S.Testimonial>, trackPresent: bool, track: seq<TestimonialCard>): (r: seq<TestimonialCard>)
  {
    if |ts| > 0 && trackPresent then
      var active := ActiveTestimonials(ts);
      seq(|active|, i requires 0 <= i < |active| => TestimonialCardOf(active[i]))
    else track
  }

  /**
   * With testimonials and a track, the track shows exactly the active
   * testimonials in order, each with its short text or else its full text;
   * otherwise it is left as it was.
   */
  lemma TrackShowsActive(ts: seq<S.Testimonial>, trackPresent: bool, track: seq<TestimonialCard>)
    ensures var r := UpdateTestimonials(ts, trackPresent, track);
            var a := ActiveTestimonials(ts);
            (|ts| == 0 || !trackPresent ==> r == track) &&
            (|ts| > 0 && trackPresent ==>
              |r| == |a| &&
              forall i :: 0 <= i < |r| ==>
                a[i].isActive && a[i] in ts && r[i].fullText == a[i].text &&
                r[i].shown == (if a[i].shortText == "" then a[i].text else a[i].shortText))
  {
    var a := ActiveTestimonials(ts);
    forall i | 0 <= i < |a| ensures a[i].isActive && a[i] in ts {
      assert a[i] in a;
    }
  }

  /** With testimonials present but none active, the track is emptied rather than kept. */
  lemma NoActiveEmptiesTrack(ts: seq<S.Testimonial>, track: seq<TestimonialCard>)
    requires |ts| > 0 && forall k :: 0 <= k < |ts| ==> !ts[k].isActive
    ensures UpdateTestimonials(ts, true, track) == []
  {
    FilterKeepsNone(ts, IsShown);
  }

  // ---------------------------------------------------------------------
  // Logo and favicon

  /**
   * The favicon `href` after `updatePageContent`: the favicon logo when it
   * is set, else the main logo, else the page's own favicon is kept
   * (`None`).
   */
  function FaviconSource(logo: map<string, string>): (r: Option<string>)
    ensures Truthy(Lookup(logo, "favicon")) ==> r == Some(FormatPath(Lookup(logo, "favicon")))
    ensures !Truthy(Lookup(logo, "favicon")) && Truthy(Lookup(logo, "main")) ==> r == Some(FormatPath(Lookup(logo, "main")))
    ensures r.None? <==> !Truthy(Lookup(logo, "favicon")) && !Truthy(Lookup(logo, "main"))
    ensures r.Some? ==> r.value != ""
  {
    var favicon := Lookup(logo, "favicon");
    var main := Lookup(logo, "main");
    if Truthy(favicon) then Some(FormatPath(favicon))
    else if Truthy(main) then Some(FormatPath(main))
    else None
  }

  // ---------------------------------------------------------------------
  // Carousel and menu

  /** Exactly one slide carries the active mark, and it is the current one. */
  predicate OneActive(slides: seq<bool>, current: int) {
    0 <= current < |slides| && forall k :: 0 <= k < |slides| ==> (slides[k] <==> k == current)
  }

  /** The two-digit slide counter. */
  function SlideCounter(slide: nat): (r: string)
    ensures |r| >= 2
  {
    PadStart2(Decimal(slide))
  }

  /** The counter of the n-th slide reads back as n. */
  lemma SlideCounterReadsBack(n: nat)
    ensures |SlideCounter(n)| >= 2 && (forall i :: 0 <= i < |SlideCounter(n)| ==> IsDigit(SlideCounter(n)[i]))
    ensures ParseDecimal(SlideCounter(n)) == n
  {
    PaddedDecimalRoundTrip(n);
  }

  /**
   * The home page state. `heroImages` is the configured list of hero image
   * paths, `slides` the active mark of each slide created from it,
   * `rotating` whether the auto-rotation interval runs, and `scrollLocked`
   * the body's `overflow: hidden`.
   */
  class HomeState {
    var heroImages: seq<string>
    var slides: seq<bool>
    var currentHeroSlide: int
    var rotating: bool
    var slideCounter: string
    var totalCounter: string
    var isMenuOpen: bool
    var scrollLocked: bool

    /** The page as loaded, with the four built-in hero images. */
    constructor ()
      ensures heroImages == ["/public/images/a/1.jpg", "/public/images/a/2.jpg", "/public/images/a/3.jpg", "/public/images/a/4.jpg"]
      ensures slides == [] && currentHeroSlide == 0 && !rotating && !isMenuOpen && !scrollLocked
      ensures slideCounter == "" && totalCounter == ""
    {
      heroImages := ["/public/images/a/1.jpg", "/public/images/a/2.jpg", "/public/images/a/3.jpg", "/public/images/a/4.jpg"];
      slides := [];
      currentHeroSlide := 0;
      rotating := false;
      slideCounter := "";
      totalCounter := "";
      isMenuOpen := false;
      scrollLocked := false;
    }

    /**
     * The hero block of `updatePageContent`: a non-empty image list from
     * the content replaces the configured paths, each made site-absolute
     * unless it is already an absolute URL; an empty one keeps them.
     */
    method UpdateHeroImages(images: seq<S.FrontHeroImage>)
      modifies this
      ensures |images| == 0 ==> heroImages == old(heroImages)
      ensures |images| > 0 ==> (|heroImages| == |images| &&
        forall k :: 0 <= k < |images| ==> heroImages[k] == FormatLocal(images[k].path))
      ensures slides == old(slides) && currentHeroSlide == old(currentHeroSlide) && rotating == old(rotating)
      ensures slideCounter == old(slideCounter) && totalCounter == old(totalCounter)
      ensures isMenuOpen == old(isMenuOpen) && scrollLocked == old(scrollLocked)
    {
      if |images| > 0 {
        heroImages := seq(|images|, k requires 0 <= k < |images| => FormatLocal(images[k].path));
      }
    }

    /**
     * `initHeroCarousel`: one slide per configured image, none active yet;
     * with no image it stops there, otherwise the first slide becomes
     * active, the counters read "01" and "/ " plus the padded total, and
     * the rotation starts.
     */
    method InitHeroCarousel()
      modifies this
      ensures |slides| == |heroImages| && heroImages == old(heroImages)
      ensures |slides| == 0 ==> rotating == old(rotating) && slideCounter == old(slideCounter) && totalCounter == old(totalCounter)
      ensures |slides| > 0 ==> rotating && slides[0] && (forall k :: 1 <= k < |slides| ==> !slides[k])
      ensures |slides| > 0 ==> slideCounter == "01" && totalCounter == "/ " + SlideCounter(|slides|)
      ensures |slides| > 0 && old(currentHeroSlide) == 0 ==> OneActive(slides, currentHeroSlide)
      ensures currentHeroSlide == old(currentHeroSlide)
      ensures isMenuOpen == old(isMenuOpen) && scrollLocked == old(scrollLocked)
    {
      var created: seq<bool> := [];
      var i := 0;
      while i < |heroImages|
        invariant 0 <= i <= |heroImages|
        invariant |created| == i && forall k :: 0 <= k < i ==> !created[k]
      {
        created := created + [false];
        i := i + 1;
      }
      slides := created;
      if |slides| == 0 {
        return;
      }
      slides := slides[0 := true];
      slideCounter := "01";
      totalCounter := "/ " + SlideCounter(|slides|);
      rotating := true;
    }

    /**
     * `nextHeroSlide`, run by the rotation interval: the current slide
     * moves one step and wraps, the old slide loses the active mark and the
     * new one gains it, and the counter shows the new one-based position.
     */
    method NextHeroSlide()
      requires rotating && 0 <= currentHeroSlide < |slides|
      modifies this
      ensures |slides| == |old(slides)|
      ensures currentHeroSlide == (old(currentHeroSlide) + 1) % |slides|
      ensures 0 <= currentHeroSlide < |slides|
      ensures slides == old(slides)[old(currentHeroSlide) := false][currentHeroSlide := true]
      ensures slideCounter == SlideCounter(currentHeroSlide + 1)
      ensures OneActive(old(slides), old(currentHeroSlide)) ==> OneActive(slides, currentHeroSlide)
      ensures heroImages == old(heroImages) && rotating && totalCounter == old(totalCounter)
      ensures isMenuOpen == old(isMenuOpen) && scrollLocked == old(scrollLocked)
    {
      var prevIndex := currentHeroSlide;
      currentHeroSlide := (currentHeroSlide + 1) % |slides|;
      slides := slides[prevIndex := false];
      slides := slides[currentHeroSlide := true];
      slideCounter := SlideCounter(currentHeroSlide + 1);
    }

    /** `toggleMenu`: flip the menu; scrolling is locked exactly while it is open. */
    method ToggleMenu()
      modifies this
      ensures isMenuOpen == !old(isMenuOpen) && scrollLocked == isMenuOpen
      ensures heroImages == old(heroImages) && slides == old(slides) && currentHeroSlide == old(currentHeroSlide)
      ensures rotating == old(rotating) && slideCounter == old(slideCounter) && totalCounter == old(totalCounter)
    {
      isMenuOpen := !isMenuOpen;
      scrollLocked := isMenuOpen;
    }

    /** `closeMenu`: the menu is closed and scrolling unlocked. */
    method CloseMenu()
      modifies this
      ensures !isMenuOpen && !scrollLocked
      ensures heroImages == old(heroImages) && slides == old(slides) && currentHeroSlide == old(currentHeroSlide)
      ensures rotating == old(rotating) && slideCounter == old(slideCounter) && totalCounter == old(totalCounter)
    {
      isMenuOpen := false;
      scrollLocked := false;
    }

    /** The Escape listener: closes the menu only when it is open. */
    method HandleEscape(key: string)
      modifies this
      ensures key == "Escape" && old(isMenuOpen) ==> !isMenuOpen && !scrollLocked
      ensures !(key == "Escape" && old(isMenuOpen)) ==> isMenuOpen == old(isMenuOpen) && scrollLocked == old(scrollLocked)
      ensures heroImages == old(heroImages) && slides == old(slides) && currentHeroSlide == old(currentHeroSlide)
      ensures rotating == old(rotating) && slideCounter == old(slideCounter) && totalCounter == old(totalCounter)
    {
      if key == "Escape" && isMenuOpen {
        CloseMenu();
      }
    }
  }

  /** The carousel keeps exactly one active slide over any number of rotations after it starts. */
  method RunCarousel(page: HomeState, ticks: nat)
    requires page.currentHeroSlide == 0
    modifies page
    ensures |page.slides| > 0 ==> OneActive(page.slides, page.currentHeroSlide)
    ensures |page.slides| == |page.heroImages|
  {
    page.InitHeroCarousel();
    if |page.slides| == 0 {
      return;
    }
    var t := 0;
    while t < ticks
      invariant page.rotating && |page.slides| == |page.heroImages|
      invariant OneActive(page.slides, page.currentHeroSlide)
    {
      page.NextHeroSlide();
      t := t + 1;
    }
  }
}
