/**
 * The fetching core shared by `useDinosaurDataNoScroll` and
 * `useDinosaurDataImproved`: the hook state, `fetchData` with its cache check,
 * abort of the superseded request and loading flags, `prefetchPage`, and the
 * page effect with its cleanup.
 *
 * The asynchronous `fetchData` is split in two steps: `Fetch` runs up to the
 * `await fetch(...)` and records the request; `Complete` runs the rest once
 * the reply for that request is in. Requests are identified by their index
 * in `requests`; an `AbortController` is the `aborted` flag of its request
 * and `abortControllerRef.current` is `current`.
 */
module FetchCoordinator {

  import opened Options
  import opened Text
  import opened Records
  import opened FetchRequest
  import opened PageCache

  /** `getCacheKey(pageNum)`: the filter values, the page and the page size joined by dashes. */
  function CacheKey(f: Filters, pageNum: int, postsPerPage: int): string
  {
    FilterPrefix(f) + IntToString(pageNum) + "-" + IntToString(postsPerPage)
  }

  /** A key starts with the four filter values and ends with `-<postsPerPage>`. */
  lemma CacheKeyShape(f: Filters, pageNum: int, postsPerPage: int)
    ensures StartsWith(CacheKey(f, pageNum, postsPerPage), FilterPrefix(f))
    ensures var key, tail := CacheKey(f, pageNum, postsPerPage), "-" + IntToString(postsPerPage);
      |tail| <= |key| && key[|key| - |tail|..] == tail
  {
    var prefix, middle, size := FilterPrefix(f), IntToString(pageNum), IntToString(postsPerPage);
    assert CacheKey(f, pageNum, postsPerPage) == prefix + middle + ("-" + size);
    PrefixAndSuffix(prefix, middle, "-" + size);
  }

  /** The four filter values of a key, each followed by a dash. */
  function FilterPrefix(f: Filters): string
  {
    f.search + "-" + f.diet + "-" + f.locomotionType + "-" + f.temporalRange + "-"
  }

  /** Equal strings with a common prefix and a common two-part suffix have equal middles. */
  lemma MiddleCancel(a: string, x: string, y: string, c: string, d: string)
    requires a + x + c + d == a + y + c + d
    ensures x == y
  {
    var s, t := a + x + c + d, a + y + c + d;
    assert |x| == |y|;
    assert x == s[|a|..|a| + |x|];
    assert y == t[|a|..|a| + |y|];
  }

  /** Under one filter state and page size, distinct pages get distinct keys. */
  lemma CacheKeyPageInjective(f: Filters, p: int, q: int, postsPerPage: int)
    requires CacheKey(f, p, postsPerPage) == CacheKey(f, q, postsPerPage)
    ensures p == q
  {
    MiddleCancel(FilterPrefix(f), IntToString(p), IntToString(q), "-", IntToString(postsPerPage));
    ParseIntToString(p);
    ParseIntToString(q);
  }

  /**
   * Keys of different filter states can coincide when a value contains a
   * dash: a search for `a-` and a search for `a` with diet `-` share a key.
   */
  lemma CacheKeysCanCollide()
    ensures CacheKey(Filters("a-", "", "", ""), 1, 12) == CacheKey(Filters("a", "-", "", ""), 1, 12)
  {
  }

  /** One request issued by `fetchData`. */
  datatype Request = Request(
    key: string,
    pageNum: int,
    params: seq<(string, string)>,
    isPrefetch: bool,
    aborted: bool,
    settled: bool)

  /** A request whose reply will still be acted upon. */
  predicate Live(r: Request) {
    !r.aborted && !r.settled
  }

  /** The request `fetchData(pageNum, isPrefetch)` issues under filters `f`. */
  function NewRequest(f: Filters, pageNum: int, postsPerPage: int, isPrefetch: bool): Request
  {
    Request(CacheKey(f, pageNum, postsPerPage), pageNum, QueryParams(f, pageNum, postsPerPage), isPrefetch, false, false)
  }

  /** `abortControllerRef.current?.abort()`. */
  function AbortCurrent(requests: seq<Request>, current: Option<nat>): (r: seq<Request>)
    ensures |r| == |requests|
  {
    if current.Some? && current.value < |requests|
    then requests[current.value := requests[current.value].(aborted := true)]
    else requests
  }

  /** The request list gains one entry for an issued request and none otherwise. */
  function Issued(id: Option<nat>, f: Filters, pageNum: int, postsPerPage: int, isPrefetch: bool): seq<Request>
  {
    if id.Some? then [NewRequest(f, pageNum, postsPerPage, isPrefetch)] else []
  }

  /**
   * Only the request in `current` can still be an unfinished, unaborted
   * authoritative request, and `current` names an authoritative request.
   */
  ghost predicate OnlyCurrentLive(requests: seq<Request>, current: Option<nat>)
  {
    && (current.Some? ==> current.value < |requests| && !requests[current.value].isPrefetch)
    && (forall i :: 0 <= i < |requests| && !requests[i].isPrefetch && Live(requests[i]) ==> current == Some(i))
  }

  /**
   * Issuing a request keeps the invariant: a prefetch leaves `current`
   * alone, an authoritative request aborts the current one and replaces it.
   */
  lemma {:induction false} IssueKeepsOnlyCurrentLive(requests: seq<Request>, current: Option<nat>, r: Request)
    requires OnlyCurrentLive(requests, current) && Live(r)
    ensures r.isPrefetch ==> OnlyCurrentLive(requests + [r], current)
    ensures !r.isPrefetch ==> OnlyCurrentLive(AbortCurrent(requests, current) + [r], Some(|requests|))
  {
    if !r.isPrefetch {
      var rs := AbortCurrent(requests, current) + [r];
      forall i | 0 <= i < |requests|
        ensures rs[i].isPrefetch == requests[i].isPrefetch
        ensures !requests[i].isPrefetch ==> !Live(rs[i])
      {
        assert rs[i] == AbortCurrent(requests, current)[i];
      }
    } else {
      var rs := requests + [r];
      forall i | 0 <= i < |requests|
        ensures rs[i] == requests[i]
      {
      }
    }
  }

  /** Settling a request keeps the invariant. */
  lemma SettleKeepsOnlyCurrentLive(requests: seq<Request>, current: Option<nat>, id: nat)
    requires OnlyCurrentLive(requests, current) && id < |requests|
    ensures OnlyCurrentLive(requests[id := requests[id].(settled := true)], current)
  {
    var rs := requests[id := requests[id].(settled := true)];
    forall i | 0 <= i < |rs| && i != id
      ensures rs[i] == requests[i]
    {
    }
  }

  /** The state a component reads from the hook. */
  datatype View = View(
    dinosaurs: seq<Dinosaur>,
    isLoading: bool,
    isPaginating: bool,
    error: Option<string>,
    totalPages: int,
    totalCount: int)

  /**
   * What starting an authoritative fetch does to the view: a usable cache
   * entry is shown at once and ends pagination; otherwise the error is
   * cleared and the pagination flag (rows on screen) or the loading flag (no
   * rows) is raised.
   */
  function StartView(v: View, cached: Option<seq<Dinosaur>>): (r: View)
    ensures cached.Some? ==> r.dinosaurs == cached.value && !r.isPaginating && r.isLoading == v.isLoading && r.error == v.error
    ensures cached.None? ==> r.dinosaurs == v.dinosaurs && r.error.None?
                             && (r.isPaginating <==> v.isPaginating || |v.dinosaurs| > 0)
                             && (r.isLoading <==> v.isLoading || |v.dinosaurs| == 0)
    ensures r.totalPages == v.totalPages && r.totalCount == v.totalCount
  {
    match cached
    case Some(rows) => v.(dinosaurs := rows, isPaginating := false)
    case None =>
      if |v.dinosaurs| > 0 then v.(isPaginating := true, error := None)
      else v.(isLoading := true, error := None)
  }

  /**
   * What the end of an authoritative fetch does to the view, given its
   * outcome (`None` when it was aborted): a loaded page replaces rows and
   * counts, a failure shows its message over an empty list, an abort changes
   * nothing; in every case both loading flags end cleared.
   */
  function FinishView(v: View, outcome: Option<Outcome>): (r: View)
    ensures !r.isLoading && !r.isPaginating
    ensures outcome.None? ==> r.dinosaurs == v.dinosaurs && r.error == v.error
                              && r.totalPages == v.totalPages && r.totalCount == v.totalCount
    ensures outcome.Some? && outcome.value.Loaded? ==>
              r.dinosaurs == outcome.value.rows && r.error == v.error
              && r.totalPages == outcome.value.totalPages && r.totalCount == outcome.value.totalCount
    ensures outcome.Some? && outcome.value.Failed? ==>
              r.dinosaurs == [] && r.error == Some(outcome.value.message)
              && r.totalPages == v.totalPages && r.totalCount == v.totalCount
  {
    var cleared := v.(isLoading := false, isPaginating := false);
    match outcome
    case None => cleared
    case Some(Loaded(rows, pages, count)) => cleared.(dinosaurs := rows, totalPages := pages, totalCount := count)
    case Some(Failed(message)) => cleared.(error := Some(message), dinosaurs := [])
  }

  class Coordinator {

    const cache: PageCache
    const postsPerPage: int

    var dinosaurs: seq<Dinosaur>
    var isLoading: bool
    var isPaginating: bool
    var error: Option<string>
    var filters: Filters
    var page: int
    var totalPages: int
    var totalCount: int
    /** `abortControllerRef.current`: the last authoritative request. */
    var current: Option<nat>
    /** Every request issued so far, indexed by its id. */
    var requests: seq<Request>

    /**
     * Only the request in `abortControllerRef.current` can still be an
     * unfinished, unaborted authoritative request: every earlier one was
     * aborted when its successor started.
     */
    ghost predicate Valid()
      reads this
    {
      OnlyCurrentLive(requests, current)
    }

    function ViewOf(): View
      reads this
    {
      View(dinosaurs, isLoading, isPaginating, error, totalPages, totalCount)
    }

    /** The rows a cache lookup for `key` at `now` would serve. */
    ghost function CachedAt(key: string, now: nat): Option<seq<Dinosaur>>
      reads cache
    {
      if key in cache.entries && Usable(cache.entries[key], now) then Some(cache.entries[key].data) else None
    }

    /** The hook's initial state. */
    constructor(cache: PageCache, postsPerPage: int)
      ensures Valid()
      ensures this.cache == cache && this.postsPerPage == postsPerPage
      ensures ViewOf() == View([], false, false, None, 0, 0)
      ensures filters == NoFilters && page == 1 && current == None && requests == []
    {
      this.cache := cache;
      this.postsPerPage := postsPerPage;
      dinosaurs, isLoading, isPaginating, error := [], false, false, None;
      filters, page, totalPages, totalCount := NoFilters, 1, 0, 0;
      current, requests := None, [];
    }

    /**
     * `fetchData(pageNum, isPrefetch)` up to the network call. A usable cache
     * entry issues nothing (and, for an authoritative fetch, is shown). A miss
     * issues a new request; an authoritative one first aborts the current
     * request and takes its place. A prefetch never touches the view.
     */
    method Fetch(pageNum: int, isPrefetch: bool, now: nat) returns (issued: Option<nat>)
      requires Valid()
      modifies this
      ensures Valid()
      ensures filters == old(filters) && page == old(page)
      ensures var hit := CachedAt(CacheKey(filters, pageNum, postsPerPage), now);
        && (hit.Some? ==> issued.None? && requests == old(requests) && current == old(current))
        && (hit.None? ==>
              && issued == Some(|old(requests)|)
              && requests == (if isPrefetch then old(requests) else AbortCurrent(old(requests), old(current)))
                             + [NewRequest(filters, pageNum, postsPerPage, isPrefetch)]
              && current == (if isPrefetch then old(current) else issued))
        && ViewOf() == (if isPrefetch then old(ViewOf()) else StartView(old(ViewOf()), hit))
    {
      var key := CacheKey(filters, pageNum, postsPerPage);
      var cached := cache.Lookup(key, now);
      if cached.Some? {
        if !isPrefetch {
          dinosaurs := cached.value;
          isPaginating := false;
        }
        return None;
      }
      var id := Issue(pageNum, isPrefetch);
      issued := Some(id);
    }

    /**
     * The cache-miss half of `fetchData`: an authoritative request aborts the
     * current one, takes its place, clears the error and raises a loading
     * flag; a prefetch is only recorded.
     */
    method Issue(pageNum: int, isPrefetch: bool) returns (id: nat)
      requires Valid()
      modifies this
      ensures Valid()
      ensures filters == old(filters) && page == old(page)
      ensures id == |old(requests)|
      ensures requests == (if isPrefetch then old(requests) else AbortCurrent(old(requests), old(current)))
                          + [NewRequest(filters, pageNum, postsPerPage, isPrefetch)]
      ensures current == (if isPrefetch then old(current) else Some(id))
      ensures ViewOf() == (if isPrefetch then old(ViewOf()) else StartView(old(ViewOf()), None))
    {
      var r := NewRequest(filters, pageNum, postsPerPage, isPrefetch);
      IssueKeepsOnlyCurrentLive(requests, current, r);
      if isPrefetch {
        id := |requests|;
        requests := requests + [r];
      } else {
        if current.Some? {
          requests := requests[current.value := requests[current.value].(aborted := true)];
        }
        assert requests == AbortCurrent(old(requests), old(current));
        id := |requests|;
        requests := requests + [r];
        current := Some(id);
        if |dinosaurs| > 0 {
          isPaginating := true;
        } else {
          isLoading := true;
        }
        error := None;
      }
    }

    /**
     * The rest of `fetchData` once request `id` has its reply. An aborted
     * request only runs the `finally` block. Otherwise a loaded page is stored
     * in the cache (followed by the sweep) and, for an authoritative request,
     * shown with its counts; a failure is shown for an authoritative request.
     */
    method Complete(id: nat, reply: Reply, now: nat)
      requires Valid()
      requires id < |requests| && !requests[id].settled
      modifies this, cache
      ensures Valid()
      ensures filters == old(filters) && page == old(page) && current == old(current)
      ensures var r := old(requests[id]);
        var outcome := if r.aborted then None else Some(Settle(reply));
        && requests == old(requests)[id := r.(settled := true)]
        && cache.entries == (if outcome.Some? && outcome.value.Loaded?
                             then Swept(old(cache.entries)[r.key := Entry(outcome.value.rows, now)], now)
                             else old(cache.entries))
        && ViewOf() == (if r.isPrefetch then old(ViewOf()) else FinishView(old(ViewOf()), outcome))
      /** A reply to a superseded authoritative request never reaches the screen. */
      ensures !old(requests[id]).isPrefetch && old(current) != Some(id) ==>
                dinosaurs == old(dinosaurs) && error == old(error)
                && totalPages == old(totalPages) && totalCount == old(totalCount)
    {
      var r := requests[id];
      SettleKeepsOnlyCurrentLive(requests, current, id);
      requests := requests[id := r.(settled := true)];
      if !r.aborted {
        match Settle(reply)
        case Loaded(rows, pages, count) =>
          cache.Store(r.key, rows, now);
          cache.ClearOld(now);
          if !r.isPrefetch {
            dinosaurs, totalPages, totalCount := rows, pages, count;
          }
        case Failed(message) =>
          if !r.isPrefetch {
            error, dinosaurs := Some(message), [];
          }
      }
      if !r.isPrefetch {
        isLoading, isPaginating := false, false;
      }
    }

    /** `prefetchPage(pageNum)`: a prefetch of a page inside `1..totalPages`. */
    method Prefetch(pageNum: int, now: nat) returns (issued: Option<nat>)
      requires Valid()
      modifies this
      ensures Valid()
      ensures ViewOf() == old(ViewOf()) && current == old(current)
      ensures filters == old(filters) && page == old(page) && totalPages == old(totalPages)
      ensures issued.Some? <==> 1 <= pageNum <= totalPages && CachedAt(CacheKey(filters, pageNum, postsPerPage), now).None?
      ensures issued.Some? ==> issued.value == |old(requests)|
      ensures requests == old(requests) + Issued(issued, filters, pageNum, postsPerPage, true)
    {
      if 1 <= pageNum <= totalPages {
        issued := Fetch(pageNum, true, now);
      } else {
        issued := None;
      }
    }

    /**
     * The page effect: fetch the current page, then prefetch its neighbours
     * that lie inside `1..totalPages`.
     */
    method PageEffect(now: nat) returns (main: Option<nat>, before: Option<nat>, after: Option<nat>)
      requires Valid()
      modifies this
      ensures Valid()
      ensures filters == old(filters) && page == old(page)
      ensures var hit := CachedAt(CacheKey(filters, page, postsPerPage), now);
        && ViewOf() == StartView(old(ViewOf()), hit)
        && (main.Some? <==> hit.None?)
        && current == (if main.Some? then main else old(current))
      ensures before.Some? <==> 1 < page <= totalPages + 1 && CachedAt(CacheKey(filters, page - 1, postsPerPage), now).None?
      ensures after.Some? <==> 0 <= page < totalPages && CachedAt(CacheKey(filters, page + 1, postsPerPage), now).None?
      ensures requests == (if main.Some? then AbortCurrent(old(requests), old(current)) else old(requests))
                          + Issued(main, filters, page, postsPerPage, false)
                          + Issued(before, filters, page - 1, postsPerPage, true)
                          + Issued(after, filters, page + 1, postsPerPage, true)
    {
      main := Fetch(page, false, now);
      assert requests == (if main.Some? then AbortCurrent(old(requests), old(current)) else old(requests))
                         + Issued(main, filters, page, postsPerPage, false);
      ghost var mid := requests;
      before, after := PrefetchNeighbours(now);
      assert requests == mid + Issued(before, filters, page - 1, postsPerPage, true)
                             + Issued(after, filters, page + 1, postsPerPage, true);
    }

    /** The two `prefetchPage` calls of the page effect. */
    method PrefetchNeighbours(now: nat) returns (before: Option<nat>, after: Option<nat>)
      requires Valid()
      modifies this
      ensures Valid()
      ensures ViewOf() == old(ViewOf()) && current == old(current)
      ensures filters == old(filters) && page == old(page)
      ensures before.Some? <==> 1 < page <= totalPages + 1 && CachedAt(CacheKey(filters, page - 1, postsPerPage), now).None?
      ensures after.Some? <==> 0 <= page < totalPages && CachedAt(CacheKey(filters, page + 1, postsPerPage), now).None?
      ensures requests == old(requests)
                          + Issued(before, filters, page - 1, postsPerPage, true)
                          + Issued(after, filters, page + 1, postsPerPage, true)
    {
      before, after := None, None;
      if page > 1 {
        before := Prefetch(page - 1, now);
      }
      assert requests == old(requests) + Issued(before, filters, page - 1, postsPerPage, true);
      ghost var mid := requests;
      if page < totalPages {
        after := Prefetch(page + 1, now);
      }
      assert requests == mid + Issued(after, filters, page + 1, postsPerPage, true);
    }

    /** The page effect's cleanup: abort the current request. */
    method CancelCurrent()
      requires Valid()
      modifies this
      ensures Valid()
      ensures requests == AbortCurrent(old(requests), old(current))
      ensures ViewOf() == old(ViewOf()) && current == old(current)
      ensures filters == old(filters) && page == old(page)
      ensures forall i :: 0 <= i < |requests| && Live(requests[i]) ==> requests[i].isPrefetch
    {
      if current.Some? {
        requests := requests[current.value := requests[current.value].(aborted := true)];
      }
    }

    /** `setSearch`, `setDiet`, `setLocomotionType`, `setTemporalRange` together. */
    method SetFilters(f: Filters)
      modifies this
      ensures filters == f
      ensures page == old(page) && ViewOf() == old(ViewOf())
      ensures requests == old(requests) && current == old(current)
    {
      filters := f;
    }

    /** The raw `setPage` state setter. */
    method SetPageState(p: int)
      modifies this
      ensures page == p
      ensures filters == old(filters) && ViewOf() == old(ViewOf())
      ensures requests == old(requests) && current == old(current)
    {
      page := p;
    }
  }
}
