/**
 * The page-number list both pagination components build (`getPageNumbers`
 * in src/components/blog/Pagination.tsx and
 * src/components/blog/PaginationImproved.tsx, identical in both): every page
 * when there are at most seven, otherwise seven items with the first and
 * last page and one or two ellipses.
 */
module PageWindow {

  import opened Options

  datatype PageItem = Num(n: int) | Ellipsis

  /** The numbers `lo..hi`, in order. */
  function Range(lo: int, hi: int): (r: seq<PageItem>)
    ensures |r| == if lo > hi then 0 else hi - lo + 1
    ensures forall k :: 0 <= k < |r| ==> r[k] == Num(lo + k)
    decreases hi - lo + 1
  {
    if lo > hi then [] else [Num(lo)] + Range(lo + 1, hi)
  }

  /**
   * The list of items, written as the three windows it is made of: every
   * page up to seven pages, otherwise seven items; page 1 first and the last
   * page last whenever there is a page.
   */
  function Window(currentPage: int, totalPages: int): (w: seq<PageItem>)
    ensures |w| == (if totalPages < 1 then 0 else if totalPages <= 7 then totalPages else 7)
    ensures totalPages >= 1 ==> w[0] == Num(1) && w[|w| - 1] == Num(totalPages)
  {
    var t := totalPages;
    if t <= 7 then Range(1, t)
    else if currentPage <= 4 then [Num(1)] + Range(2, 5) + [Ellipsis] + [Num(t)]
    else if currentPage >= t - 3 then [Num(1)] + [Ellipsis] + Range(t - 4, t)
    else [Num(1)] + [Ellipsis] + Range(currentPage - 1, currentPage + 1) + [Ellipsis] + [Num(t)]
  }

  /** `for (let i = lo; i <= hi; i++) pages.push(i)`. */
  method PushRange(pages: seq<PageItem>, lo: int, hi: int) returns (r: seq<PageItem>)
    ensures r == pages + Range(lo, hi)
  {
    r := pages;
    var i := lo;
    while i <= hi
      invariant lo <= i && (lo <= hi + 1 ==> i <= hi + 1) && (lo > hi ==> i == lo)
      invariant r == pages + Range(lo, i - 1)
      decreases hi - i + 1
    {
      r := r + [Num(i)];
      i := i + 1;
    }
    assert Range(lo, i - 1) == Range(lo, hi);
  }

  /** `getPageNumbers()`, with its pushes and loops. */
  method GetPageNumbers(currentPage: int, totalPages: int) returns (pages: seq<PageItem>)
    ensures pages == Window(currentPage, totalPages)
  {
    pages := [];
    if totalPages <= 7 {
      pages := PushRange(pages, 1, totalPages);
      assert pages == Range(1, totalPages);
    } else {
      pages := pages + [Num(1)];
      assert pages == [Num(1)];
      if currentPage <= 4 {
        pages := PushRange(pages, 2, 5);
        pages := pages + [Ellipsis];
        pages := pages + [Num(totalPages)];
        assert pages == [Num(1)] + Range(2, 5) + [Ellipsis] + [Num(totalPages)];
      } else if currentPage >= totalPages - 3 {
        pages := pages + [Ellipsis];
        pages := PushRange(pages, totalPages - 4, totalPages);
        assert pages == [Num(1)] + [Ellipsis] + Range(totalPages - 4, totalPages);
      } else {
        pages := pages + [Ellipsis];
        pages := PushRange(pages, currentPage - 1, currentPage + 1);
        pages := pages + [Ellipsis];
        pages := pages + [Num(totalPages)];
        assert pages == [Num(1)] + [Ellipsis] + Range(currentPage - 1, currentPage + 1) + [Ellipsis] + [Num(totalPages)];
      }
    }
  }

  // ---------------------------------------------------------------------------
  // Properties of the window

  /** Up to seven pages: exactly the pages `1..totalPages`. */
  lemma SmallWindowListsAll(currentPage: int, totalPages: int)
    requires totalPages <= 7
    ensures var w := Window(currentPage, totalPages);
      && |w| == (if totalPages < 1 then 0 else totalPages)
      && forall k :: 0 <= k < |w| ==> w[k] == Num(k + 1)
  {
  }

  /** More than seven pages: seven items, from page 1 to the last page. */
  lemma LargeWindowShape(currentPage: int, totalPages: int)
    requires totalPages > 7
    ensures var w := Window(currentPage, totalPages);
      |w| == 7 && w[0] == Num(1) && w[6] == Num(totalPages)
  {
  }

  predicate Increasing(w: seq<PageItem>) {
    forall i, j :: 0 <= i < j < |w| && w[i].Num? && w[j].Num? ==> w[i].n < w[j].n
  }

  predicate WithinPages(w: seq<PageItem>, totalPages: int) {
    forall i :: 0 <= i < |w| && w[i].Num? ==> 1 <= w[i].n <= totalPages
  }

  /** Each ellipsis sits between two numbers and stands for at least two omitted pages. */
  predicate EllipsesHideTwo(w: seq<PageItem>) {
    forall i :: 0 <= i < |w| && w[i].Ellipsis? ==>
      0 < i < |w| - 1 && w[i - 1].Num? && w[i + 1].Num? && w[i + 1].n - w[i - 1].n >= 3
  }

  /** The window spelled out item by item when there are more than seven pages. */
  lemma LargeWindowItems(c: int, t: int)
    requires t > 7
    ensures c <= 4 ==> Window(c, t) == [Num(1), Num(2), Num(3), Num(4), Num(5), Ellipsis, Num(t)]
    ensures 4 < c && c >= t - 3 ==> Window(c, t) == [Num(1), Ellipsis, Num(t - 4), Num(t - 3), Num(t - 2), Num(t - 1), Num(t)]
    ensures 4 < c < t - 3 ==> Window(c, t) == [Num(1), Ellipsis, Num(c - 1), Num(c), Num(c + 1), Ellipsis, Num(t)]
  {
  }

  /** The numbers are strictly increasing. */
  lemma WindowIncreasing(currentPage: int, totalPages: int)
    ensures Increasing(Window(currentPage, totalPages))
  {
    if totalPages > 7 {
      LargeWindowItems(currentPage, totalPages);
    } else {
      SmallWindowListsAll(currentPage, totalPages);
    }
  }

  /** Every number is a page in `1..totalPages`. */
  lemma WindowWithinPages(currentPage: int, totalPages: int)
    ensures WithinPages(Window(currentPage, totalPages), totalPages)
  {
    if totalPages > 7 {
      LargeWindowItems(currentPage, totalPages);
    }
  }

  /** Every ellipsis stands for at least two omitted pages. */
  lemma WindowEllipses(currentPage: int, totalPages: int)
    ensures EllipsesHideTwo(Window(currentPage, totalPages))
  {
    var c, t := currentPage, totalPages;
    var w := Window(c, t);
    if t > 7 {
      LargeWindowItems(c, t);
      forall i | 0 <= i < |w| && w[i].Ellipsis?
        ensures 0 < i < |w| - 1 && w[i - 1].Num? && w[i + 1].Num? && w[i + 1].n - w[i - 1].n >= 3
      {
        if c <= 4 {
          assert i == 5;
        } else if c >= t - 3 {
          assert i == 1;
        } else {
          assert i == 1 || i == 5;
        }
      }
    }
  }

  /** The current page, when it is a real page, is always listed. */
  lemma WindowShowsCurrent(currentPage: int, totalPages: int)
    requires 1 <= currentPage <= totalPages
    ensures Num(currentPage) in Window(currentPage, totalPages)
  {
    var c, t := currentPage, totalPages;
    var w := Window(c, t);
    if t <= 7 {
      assert w[c - 1] == Num(c);
    } else if c <= 4 {
      assert w[c - 1] == Num(c);
    } else if c >= t - 3 {
      assert w[c - t + 6] == Num(c);
    } else {
      assert w[3] == Num(c);
    }
  }

  // ---------------------------------------------------------------------------
  // Pagination.tsx

  /** What `Pagination` renders: the items and the two arrow buttons. */
  datatype Rendered = Rendered(items: seq<PageItem>, prevEnabled: bool, prevTarget: int, nextEnabled: bool, nextTarget: int)

  /** Nothing for a single page or none; otherwise the window, Previous to `c - 1` unless on page 1, Next to `c + 1` unless on the last page. */
  function Render(currentPage: int, totalPages: int): (r: Option<Rendered>)
    ensures r.None? <==> totalPages <= 1
    ensures r.Some? ==> r.value.items == Window(currentPage, totalPages)
  {
    if totalPages <= 1 then None
    else Some(Rendered(Window(currentPage, totalPages),
      currentPage != 1, currentPage - 1, currentPage != totalPages, currentPage + 1))
  }

  /** From a real page, an enabled arrow always leads to a real page. */
  lemma ArrowsStayInRange(currentPage: int, totalPages: int)
    requires 1 <= currentPage <= totalPages
    ensures var r := Render(currentPage, totalPages);
      r.Some? ==>
        && (r.value.prevEnabled ==> 1 <= r.value.prevTarget <= totalPages)
        && (r.value.nextEnabled ==> 1 <= r.value.nextTarget <= totalPages)
        && (!r.value.prevEnabled <==> currentPage == 1)
        && (!r.value.nextEnabled <==> currentPage == totalPages)
  {
  }

}
