/**
 * The filter-reset and page-setting parts of `useDinosaurDataNoScroll`
 * (src/hooks/useDinosaurDataNoScroll.ts). The fetching part is the shared
 * `FetchCoordinator.Coordinator`.
 */
module NoScrollListHook {

  import opened FetchRequest
  import opened FetchCoordinator
  import opened PageCache

  class Hook {

    const list: Coordinator
    /** `prevFiltersRef.current`. */
    var prevFilters: Filters
    /** `isInitialMount.current`. */
    var initialMount: bool

    constructor(cache: PageCache, postsPerPage: int)
      ensures fresh(list) && list.Valid()
      ensures list.cache == cache && list.postsPerPage == postsPerPage
      ensures list.filters == NoFilters && list.page == 1
      ensures prevFilters == NoFilters && initialMount
    {
      list := new Coordinator(cache, postsPerPage);
      prevFilters := NoFilters;
      initialMount := true;
    }

    /**
     * The filter effect: skipped on mount; afterwards, only a real change of a
     * filter value resets the page to 1, empties the cache and remembers the
     * new values.
     */
    method FilterEffect()
      requires list.Valid()
      modifies this, list, list.cache
      ensures list.Valid() && !initialMount
      ensures list.filters == old(list.filters) && list.ViewOf() == old(list.ViewOf())
      ensures list.requests == old(list.requests) && list.current == old(list.current)
      ensures old(initialMount) || old(prevFilters) == list.filters ==>
                list.page == old(list.page) && list.cache.entries == old(list.cache.entries)
                && prevFilters == old(prevFilters)
      ensures !old(initialMount) && old(prevFilters) != list.filters ==>
                list.page == 1 && list.cache.entries == map[] && prevFilters == list.filters
    {
      if initialMount {
        initialMount := false;
        return;
      }
      if prevFilters != list.filters {
        list.SetPageState(1);
        list.cache.Clear();
        prevFilters := list.filters;
      }
    }

    /** `setPageNoScroll`: the same page is ignored; scroll restoration is not modelled. */
    method SetPage(newPage: int)
      requires list.Valid()
      modifies list
      ensures list.Valid() && list.page == newPage
      ensures list.filters == old(list.filters) && list.ViewOf() == old(list.ViewOf())
      ensures list.requests == old(list.requests) && list.current == old(list.current)
    {
      if newPage == list.page {
        return;
      }
      list.SetPageState(newPage);
    }
  }
}

/**
 * The filter-reset and page-setting parts of `useDinosaurDataImproved`
 * (src/hooks/useDinosaurDataImproved.ts), whose fetching part is the same
 * `FetchCoordinator.Coordinator`.
 */
module ImprovedListHook {

  import opened FetchRequest
  import opened FetchCoordinator
  import opened PageCache

  class Hook {

    const list: Coordinator

    constructor(cache: PageCache, postsPerPage: int)
      ensures fresh(list) && list.Valid()
      ensures list.cache == cache && list.postsPerPage == postsPerPage
      ensures list.filters == NoFilters && list.page == 1
    {
      list := new Coordinator(cache, postsPerPage);
    }

    /**
     * The filter effect: runs on mount and after every filter update, with no
     * comparison, and always resets the page to 1 and empties the cache.
     */
    method FilterEffect()
      requires list.Valid()
      modifies list, list.cache
      ensures list.Valid()
      ensures list.page == 1 && list.cache.entries == map[]
      ensures list.filters == old(list.filters) && list.ViewOf() == old(list.ViewOf())
      ensures list.requests == old(list.requests) && list.current == old(list.current)
    {
      list.SetPageState(1);
      list.cache.Clear();
    }

    /** `setPageWithScroll`: sets the page unconditionally; scroll restoration is not modelled. */
    method SetPage(newPage: int)
      requires list.Valid()
      modifies list
      ensures list.Valid() && list.page == newPage
      ensures list.filters == old(list.filters) && list.ViewOf() == old(list.ViewOf())
      ensures list.requests == old(list.requests) && list.current == old(list.current)
    {
      list.SetPageState(newPage);
    }
  }
}

/**
 * `useDinosaurData` (src/hooks/useDinosaurData.ts): one effect that refetches
 * whenever a filter, the page or the page size changes, with no cache and no
 * cancellation. Its effect is split like `fetchData`: `Load` runs up to the
 * network call, `Complete` handles the reply of one request.
 */
module BasicListHook {

  import opened Options
  import opened Records
  import opened FetchRequest
  import opened FetchCoordinator

  /** A request of the effect: the query it sent and whether its reply was handled. */
  datatype Pending = Pending(params: seq<(string, string)>, settled: bool)

  class Hook {

    const postsPerPage: int
    var dinosaurs: seq<Dinosaur>
    var isLoading: bool
    var error: Option<string>
    var filters: Filters
    var page: int
    var totalPages: int
    var totalCount: int
    var requests: seq<Pending>

    /** The hook's state in the shape of the cached hooks' view; it has no pagination flag. */
    function ViewOf(): View
      reads this
    {
      View(dinosaurs, isLoading, false, error, totalPages, totalCount)
    }

    constructor(postsPerPage: int)
      ensures this.postsPerPage == postsPerPage
      ensures ViewOf() == View([], false, false, None, 0, 0)
      ensures filters == NoFilters && page == 1 && requests == []
    {
      this.postsPerPage := postsPerPage;
      dinosaurs, isLoading, error := [], false, None;
      filters, page, totalPages, totalCount := NoFilters, 1, 0, 0;
      requests := [];
    }

    /** The effect up to `fetch`: raise the loading flag, clear the error, send the query. */
    method Load() returns (id: nat)
      modifies this
      ensures id == |old(requests)|
      ensures requests == old(requests) + [Pending(QueryParams(filters, page, postsPerPage), false)]
      ensures ViewOf() == old(ViewOf()).(isLoading := true, error := None)
      ensures filters == old(filters) && page == old(page)
    {
      isLoading, error := true, None;
      id := |requests|;
      requests := requests + [Pending(QueryParams(filters, page, postsPerPage), false)];
    }

    /**
     * The rest of the effect for request `id`. Nothing tells an outdated
     * request from the latest one: whichever reply is handled last decides
     * the rows shown, and the first reply handled clears the loading flag even
     * while later requests are still outstanding.
     */
    method Complete(id: nat, reply: Reply)
      requires id < |requests| && !requests[id].settled
      modifies this
      ensures requests == old(requests)[id := old(requests[id]).(settled := true)]
      ensures ViewOf() == FinishView(old(ViewOf()), Some(Settle(reply)))
      ensures filters == old(filters) && page == old(page)
    {
      requests := requests[id := requests[id].(settled := true)];
      match Settle(reply) {
        case Loaded(rows, pages, count) =>
          dinosaurs, totalPages, totalCount := rows, pages, count;
        case Failed(message) =>
          error, dinosaurs := Some(message), [];
      }
      isLoading := false;
    }

    /** The filter and page setters; each change re-runs the effect (`Load`). */
    method SetQuery(f: Filters, p: int)
      modifies this
      ensures filters == f && page == p
      ensures ViewOf() == old(ViewOf()) && requests == old(requests)
    {
      filters, page := f, p;
    }
  }
}
