/** components/layout/featured-products.tsx: the home page's featured-product
    carousel. It shows four products per page, and moves between pages with
    wrap-around through the arrow buttons, the arrow keys and autoplay. */
module FeaturedCarousel {
  import opened Catalog

  const ItemsPerPage: nat := 4

  /** `Math.ceil(n / itemsPerPage)`: the fewest pages that hold `n` products. */
  function TotalPages(n: nat): (t: nat)
    ensures t * ItemsPerPage >= n
    ensures n > 0 ==> (t - 1) * ItemsPerPage < n
    ensures n == 0 ==> t == 0
  {
    (n + ItemsPerPage - 1) / ItemsPerPage
  }

  /** `showSlider`: there are more products than fit on one page. */
  predicate ShowSlider(n: nat) {
    n > ItemsPerPage
  }

  /** The slider is shown exactly when there is more than one page. */
  lemma SliderIffSeveralPages(n: nat)
    ensures ShowSlider(n) <==> TotalPages(n) >= 2
  {
  }

  /** `(prev + 1) % totalPages` */
  function NextIndex(i: nat, pages: nat): (j: nat)
    requires pages > 0
    ensures j < pages
  {
    (i + 1) % pages
  }

  /** `(prev - 1 + totalPages) % totalPages` */
  function PrevIndex(i: nat, pages: nat): (j: nat)
    requires pages > 0
    ensures j < pages
  {
    (i - 1 + pages) % pages
  }

  /** Forward moves one page on, wrapping from the last page to the first. */
  lemma NextIndexCases(i: nat, pages: nat)
    requires i < pages
    ensures NextIndex(i, pages) == if i + 1 < pages then i + 1 else 0
  {
    if i + 1 == pages {
      assert (i + 1) % pages == (0 + pages) % pages;
    }
  }

  /** Back moves one page back, wrapping from the first page to the last. */
  lemma PrevIndexCases(i: nat, pages: nat)
    requires i < pages
    ensures PrevIndex(i, pages) == if i > 0 then i - 1 else pages - 1
  {
    if i > 0 {
      assert (i - 1 + pages) % pages == ((i - 1) + pages) % pages;
    }
  }

  /** Going back undoes going forward, and the other way round. */
  lemma PrevUndoesNext(i: nat, pages: nat)
    requires i < pages
    ensures PrevIndex(NextIndex(i, pages), pages) == i
    ensures NextIndex(PrevIndex(i, pages), pages) == i
  {
    NextIndexCases(i, pages);
    PrevIndexCases(NextIndex(i, pages), pages);
    PrevIndexCases(i, pages);
    NextIndexCases(PrevIndex(i, pages), pages);
  }

  /** `k` forward moves from page `i`. */
  function NextTimes(i: nat, k: nat, pages: nat): (j: nat)
    requires pages > 0
  {
    if k == 0 then i else NextIndex(NextTimes(i, k - 1, pages), pages)
  }

  /** `a` moves and then `b` more are `a + b` moves. */
  lemma {:induction false} NextTimesAdd(i: nat, a: nat, b: nat, pages: nat)
    requires pages > 0
    ensures NextTimes(NextTimes(i, a, pages), b, pages) == NextTimes(i, a + b, pages)
  {
    if b > 0 {
      NextTimesAdd(i, a, b - 1, pages);
    }
  }

  /** Before the last page is passed, `k` moves go `k` pages on. */
  lemma {:induction false} NextTimesNoWrap(i: nat, k: nat, pages: nat)
    requires i + k < pages
    ensures NextTimes(i, k, pages) == i + k
  {
    if k > 0 {
      NextTimesNoWrap(i, k - 1, pages);
      NextIndexCases(i + k - 1, pages);
    }
  }

  /** From the last page, one more move reaches the first. */
  lemma LastPageWraps(i: nat, k: nat, pages: nat)
    requires pages > 0 && NextTimes(i, k, pages) == pages - 1
    ensures NextTimes(i, k + 1, pages) == 0
  {
    NextIndexCases(pages - 1, pages);
  }

  /** Moving forward once per page brings the carousel back to where it was. */
  lemma FullCycle(i: nat, pages: nat)
    requires i < pages
    ensures NextTimes(i, pages, pages) == i
  {
    var k := pages - 1 - i;
    NextTimesNoWrap(i, k, pages);
    LastPageWraps(i, k, pages);
    NextTimesNoWrap(0, i, pages);
    NextTimesAdd(i, k + 1, i, pages);
  }

  /** `s.slice(from, to)` for non-negative bounds: both are clamped to the
      length, and a start past the end gives nothing. */
  function Slice<T>(s: seq<T>, from: nat, to: nat): (r: seq<T>)
    ensures from <= to <= |s| ==> r == s[from..to]
    ensures to <= from ==> r == []
    ensures from <= |s| <= to ==> r == s[from..]
    ensures |s| <= from ==> r == []
  {
    var a := if from < |s| then from else |s|;
    var b := if to < |s| then to else |s|;
    if a <= b then s[a..b] else []
  }

  /** The products of page `k`. */
  function Page<T>(s: seq<T>, k: nat): (r: seq<T>)
    ensures |r| <= ItemsPerPage
  {
    Slice(s, k * ItemsPerPage, (k + 1) * ItemsPerPage)
  }

  /** Pages `0 .. count - 1` laid end to end. */
  function Pages<T>(s: seq<T>, count: nat): seq<T> {
    if count == 0 then [] else Pages(s, count - 1) + Page(s, count - 1)
  }

  /** The first `count` pages hold the first `count * 4` products. */
  lemma {:induction false} PagesArePrefix<T>(s: seq<T>, count: nat)
    ensures count * ItemsPerPage <= |s| ==> Pages(s, count) == s[..count * ItemsPerPage]
    ensures count * ItemsPerPage > |s| ==> Pages(s, count) == s
  {
    if count > 0 {
      PagesArePrefix(s, count - 1);
      var lo, hi := (count - 1) * ItemsPerPage, count * ItemsPerPage;
      if hi <= |s| {
        assert s[..lo] + s[lo..hi] == s[..hi];
      } else if lo <= |s| {
        assert s[..lo] + s[lo..] == s;
      } else {
        assert Page(s, count - 1) == [];
        assert Pages(s, count) == Pages(s, count - 1) + [];
      }
    }
  }

  /** The pages `0 .. totalPages - 1` together are the whole list, in order. */
  lemma PagesCoverAll<T>(s: seq<T>)
    ensures Pages(s, TotalPages(|s|)) == s
  {
    PagesArePrefix(s, TotalPages(|s|));
    if TotalPages(|s|) * ItemsPerPage <= |s| {
      assert s[..TotalPages(|s|) * ItemsPerPage] == s;
    }
  }

  /** `currentProducts`: the current page with the slider, otherwise the
      first page. */
  function CurrentProducts<T>(s: seq<T>, index: nat): (r: seq<T>)
    ensures |r| <= ItemsPerPage
    ensures ShowSlider(|s|) ==> r == Page(s, index)
    ensures !ShowSlider(|s|) ==> r == s
  {
    if ShowSlider(|s|) then Slice(s, index * ItemsPerPage, (index + 1) * ItemsPerPage)
    else Slice(s, 0, ItemsPerPage)
  }

  /** A page the carousel can be on is never empty. */
  lemma ReachablePageNonEmpty<T>(s: seq<T>, index: nat)
    requires index < TotalPages(|s|)
    ensures Page(s, index) != []
    ensures Page(s, index) == s[index * ItemsPerPage..if (index + 1) * ItemsPerPage <= |s| then (index + 1) * ItemsPerPage else |s|]
  {
  }

  /** The home page's five featured products make two pages, so the slider
      is shown; the second page holds the fifth product alone. */
  lemma FeaturedMakesTwoPages()
    ensures TotalPages(|GetFeaturedProducts()|) == 2
    ensures ShowSlider(|GetFeaturedProducts()|)
    ensures |Page(GetFeaturedProducts(), 1)| == 1
  {
    FeaturedIds();
  }

  /** The carousel's state: the featured products and the current page. */
  class Carousel {
    const products: seq<Product>
    var currentIndex: nat

    /** The index is the first page, or a page that exists. */
    ghost predicate Valid()
      reads this
    {
      currentIndex == 0 || currentIndex < TotalPages(|products|)
    }

    constructor ()
      ensures products == GetFeaturedProducts() && currentIndex == 0
      ensures Valid()
    {
      products := GetFeaturedProducts();
      currentIndex := 0;
    }

    function PageCount(): nat
      reads this
    {
      TotalPages(|products|)
    }

    /** `nextSlide`; `% totalPages` needs at least one page. */
    method NextSlide()
      requires Valid() && PageCount() > 0
      modifies this
      ensures Valid()
      ensures currentIndex == NextIndex(old(currentIndex), PageCount())
    {
      currentIndex := (currentIndex + 1) % TotalPages(|products|);
    }

    /** `prevSlide` */
    method PrevSlide()
      requires Valid() && PageCount() > 0
      modifies this
      ensures Valid()
      ensures currentIndex == PrevIndex(old(currentIndex), PageCount())
    {
      currentIndex := (currentIndex - 1 + TotalPages(|products|)) % TotalPages(|products|);
    }

    /** The keyboard handler: the arrow keys move only when the slider is
        shown; any other key, or no slider, changes nothing. */
    method HandleKeyPress(key: string)
      requires Valid()
      modifies this
      ensures Valid()
      ensures !ShowSlider(|products|) ==> currentIndex == old(currentIndex)
      ensures ShowSlider(|products|) && key == "ArrowLeft" ==> currentIndex == PrevIndex(old(currentIndex), PageCount())
      ensures ShowSlider(|products|) && key == "ArrowRight" ==> currentIndex == NextIndex(old(currentIndex), PageCount())
      ensures key != "ArrowLeft" && key != "ArrowRight" ==> currentIndex == old(currentIndex)
    {
      if !ShowSlider(|products|) {
        return;
      }
      if key == "ArrowLeft" {
        PrevSlide();
      } else if key == "ArrowRight" {
        NextSlide();
      }
    }

    /** The products on screen. */
    function Shown(): (r: seq<Product>)
      reads this
      ensures |r| <= ItemsPerPage
    {
      CurrentProducts(products, currentIndex)
    }
  }
}
