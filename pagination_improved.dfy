/**
 * `PaginationImproved` (src/components/blog/PaginationImproved.tsx): the same
 * page window as `Pagination`, plus a transition flag that swallows clicks
 * while a page change is pending, a 100 ms timer that delivers the change,
 * hover prefetch, arrow-key navigation and jump buttons. The timer is the
 * `scheduled` page and `TimerFires` is its expiry; the parent's callbacks are
 * recorded in order.
 */
module ImprovedPagination {

  import opened Options
  import opened PageWindow

  datatype Key = ArrowLeft | ArrowRight | OtherKey

  /** The page an arrow key asks for, if any. */
  function KeyTarget(key: Key, currentPage: int, totalPages: int): (target: Option<int>)
    ensures target.Some? <==> (key == ArrowLeft && currentPage > 1) || (key == ArrowRight && currentPage < totalPages)
    ensures target.Some? && key == ArrowLeft ==> target.value == currentPage - 1
    ensures target.Some? && key == ArrowRight ==> target.value == currentPage + 1
  {
    if key == ArrowLeft && currentPage > 1 then Some(currentPage - 1)
    else if key == ArrowRight && currentPage < totalPages then Some(currentPage + 1)
    else None
  }

  /** Arrow keys never leave `1..totalPages` and never ask for the page already shown. */
  lemma KeyTargetInRange(key: Key, currentPage: int, totalPages: int)
    requires 1 <= currentPage <= totalPages
    ensures var target := KeyTarget(key, currentPage, totalPages);
      target.Some? ==> 1 <= target.value <= totalPages && target.value != currentPage
  {
  }

  /** The first-page jump is shown past page 5. */
  predicate ShowsFirstJump(currentPage: int) {
    currentPage > 5
  }

  /** The last-page jump is shown more than four pages before the end. */
  predicate ShowsLastJump(currentPage: int, totalPages: int) {
    currentPage < totalPages - 4
  }

  /**
   * A jump button only appears where the window already hides pages next to
   * the end it jumps to: page 1 is followed by an ellipsis, or the last page
   * is preceded by one.
   */
  lemma JumpsBesideEllipses(currentPage: int, totalPages: int)
    requires totalPages > 7
    ensures ShowsFirstJump(currentPage) ==> Window(currentPage, totalPages)[1] == Ellipsis
    ensures ShowsLastJump(currentPage, totalPages) ==> Window(currentPage, totalPages)[5] == Ellipsis
  {
    LargeWindowItems(currentPage, totalPages);
  }

  /** What the component renders. */
  datatype View = View(
    items: seq<PageItem>,
    prevEnabled: bool,
    nextEnabled: bool,
    buttonsEnabled: bool,
    firstJump: bool,
    lastJump: bool)

  class Pager {

    var currentPage: int
    var totalPages: int
    /** Whether the parent supplied `onPrefetch`. */
    const prefetchEnabled: bool
    var isTransitioning: bool
    /** The page the pending `setTimeout` callback will deliver. */
    var scheduled: Option<int>
    /** Every `onPageChange` call, in order. */
    var pageChanges: seq<int>
    /** Every `onPrefetch` call, in order. */
    var prefetches: seq<int>

    /** The transition flag is up exactly while a page change is waiting for its timer. */
    ghost predicate Valid()
      reads this
    {
      isTransitioning <==> scheduled.Some?
    }

    constructor(currentPage: int, totalPages: int, prefetchEnabled: bool)
      ensures Valid() && !isTransitioning
      ensures this.currentPage == currentPage && this.totalPages == totalPages
      ensures this.prefetchEnabled == prefetchEnabled
      ensures pageChanges == [] && prefetches == []
    {
      this.currentPage, this.totalPages := currentPage, totalPages;
      this.prefetchEnabled := prefetchEnabled;
      isTransitioning, scheduled := false, None;
      pageChanges, prefetches := [], [];
    }

    /** Nothing for one page or none; otherwise the shared window and the buttons. */
    function Render(): (v: Option<View>)
      reads this
      ensures v.None? <==> totalPages <= 1
      ensures v.Some? ==> v.value.items == Window(currentPage, totalPages)
      ensures v.Some? ==> (v.value.prevEnabled <==> currentPage != 1 && !isTransitioning)
      ensures v.Some? ==> (v.value.nextEnabled <==> currentPage != totalPages && !isTransitioning)
    {
      if totalPages <= 1 then None
      else Some(View(Window(currentPage, totalPages),
        currentPage != 1 && !isTransitioning, currentPage != totalPages && !isTransitioning,
        !isTransitioning, ShowsFirstJump(currentPage), ShowsLastJump(currentPage, totalPages)))
    }

    /**
     * `handlePageChange(page)`: ignored for the current page or while a change
     * is pending; otherwise the flag goes up and the timer is set for `page`.
     */
    method HandlePageChange(page: int)
      requires Valid()
      modifies this
      ensures Valid()
      ensures old(page == currentPage || isTransitioning) ==>
                isTransitioning == old(isTransitioning) && scheduled == old(scheduled)
      ensures !old(page == currentPage || isTransitioning) ==> isTransitioning && scheduled == Some(page)
      ensures currentPage == old(currentPage) && totalPages == old(totalPages)
      ensures pageChanges == old(pageChanges) && prefetches == old(prefetches)
    {
      if page == currentPage || isTransitioning {
        return;
      }
      isTransitioning := true;
      scheduled := Some(page);
    }

    /** The 100 ms timer: `onPageChange` is called once with the scheduled page and the flag drops. */
    method TimerFires()
      requires Valid() && scheduled.Some?
      modifies this
      ensures Valid() && !isTransitioning
      ensures pageChanges == old(pageChanges) + [old(scheduled.value)]
      ensures currentPage == old(currentPage) && totalPages == old(totalPages) && prefetches == old(prefetches)
    {
      pageChanges := pageChanges + [scheduled.value];
      isTransitioning := false;
      scheduled := None;
    }

    /** `handleHover(page)`: prefetch any page but the current one, when prefetching is supplied. */
    method Hover(page: int)
      modifies this
      ensures prefetches == old(prefetches) + (if prefetchEnabled && page != currentPage then [page] else [])
      ensures isTransitioning == old(isTransitioning) && scheduled == old(scheduled)
      ensures currentPage == old(currentPage) && totalPages == old(totalPages) && pageChanges == old(pageChanges)
    {
      if prefetchEnabled && page != currentPage {
        prefetches := prefetches + [page];
      }
    }

    /** The keyboard listener: an arrow with a target behaves as a click on that page. */
    method KeyDown(key: Key)
      requires Valid()
      modifies this
      ensures Valid()
      ensures var target := KeyTarget(key, old(currentPage), old(totalPages));
        && (target.None? || old(isTransitioning) ==>
              isTransitioning == old(isTransitioning) && scheduled == old(scheduled))
        && (target.Some? && !old(isTransitioning) ==> isTransitioning && scheduled == target)
      ensures currentPage == old(currentPage) && totalPages == old(totalPages)
      ensures pageChanges == old(pageChanges) && prefetches == old(prefetches)
    {
      var target := KeyTarget(key, currentPage, totalPages);
      if target.Some? {
        HandlePageChange(target.value);
      }
    }

    /** The parent re-renders with new props. */
    method SetProps(currentPage: int, totalPages: int)
      modifies this
      ensures this.currentPage == currentPage && this.totalPages == totalPages
      ensures isTransitioning == old(isTransitioning) && scheduled == old(scheduled)
      ensures pageChanges == old(pageChanges) && prefetches == old(prefetches)
    {
      this.currentPage, this.totalPages := currentPage, totalPages;
    }
  }
}
