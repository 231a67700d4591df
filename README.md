# Dinohub catalogue logic in Dafny

Dinohub is a Next.js catalogue of dinosaurs and of "meme" characters. This
project models the parts of it that decide what a visitor sees, and proves
properties of that model:

- **List hooks.** `useDinosaurDataNoScroll`, `useDinosaurDataImproved` and
  `useDinosaurData` load one page of dinosaurs from `/api/dinosaurs`.
  - The first two keep a module-level page cache with a five-minute lifetime.
  - They abort the superseded request and prefetch the neighbouring pages.
  - They reset the page when a filter changes.
- **Server side.** `DinosaurDataService` and the two API route handlers.
  - Paging metadata and the filter query.
  - The detail formatter and the column statistics.
  - The reshaping of database rows into API rows.
- **Page-number window.** The window of the two pagination components, the
  transition guard, the keyboard navigation and the hover prefetch.
- **Character search.** Edit-distance similarity, word-overlap scoring,
  threshold and ranking, category filter, and the search panel.
- **Search boxes.** The debounced filter-change detector of the two dinosaur
  search boxes.
- **Small helpers.** The locomotion tables, the badge classifiers of a
  dinosaur card, and the tag-cloud and category counts.

Modules follow the program's structure:

- `Options` and `Text`: JavaScript truthiness and `||`, ASCII
  `toLowerCase`, `trim`, `includes`, `split`/`join`, the `\s+` rewrite and
  `parseInt`.
- `Records`: the dinosaur record of the browser.
- `FetchRequest`: query parameters and response settling.
- `PageCache`: the shared cache, as a class.
- `FetchCoordinator`: the fetching core shared by the two cached hooks, as a
  class.
- `NoScrollListHook`, `ImprovedListHook`, `BasicListHook`: the three hooks.
- `DataService` and `Routes`: the server side.
- `PageWindow` and `ImprovedPagination`: pagination.
- `EditDistance` and `CharacterSearch`: the character search.
- `SearchFilters`, `UnifiedSearch`, `FixedSearch`: the search boxes.
- `LocomotionTypes` and `PostBadges`: the classifiers.
- `Tally`, `Ranking` and `BlogCounts`: counting and ranking.

How the model treats the environment:

- **Asynchrony.** Each `fetchData` call is split in two steps. `Fetch` runs
  up to the network call. `Complete` receives the reply of one request,
  identified by its index in the request log.
- **Time.** `Date.now()` is a `now` parameter in milliseconds.
- **Timers.** The 300 ms and 100 ms timers are a scheduled value, plus an
  explicit method for the moment the timer fires.
- **Database.** Supabase is a gateway function from a query to its reply.
  `DataService.Evaluate` is an in-memory reference for what a correct
  database returns: the matching rows, ordered, windowed, and reduced to
  the selected columns.
- **Translation and images.** The translation function and the image lookup
  are parameters.
- **Fractions.** Scores and similarities are exact `real`s.

## Model

| member | source | states |
|---|---|---|
| Text.Slug | src/app/api/dinosaurs/route.ts:43 | The fallback-id rewrite leaves no whitespace (JavaScript's full `\s` class, Unicode spaces and line separators included) and no upper-case letter, and never lengthens the text. What it does to each word and gap is stated by `Text.DashSpacesRun` and `Routes.FallbackIdOfTwoWords` |
| Text.DashSpaces | src/app/api/dinosaurs/route.ts:43 | `replace(/\s+/g, '-')` leaves no whitespace and never lengthens the text; the lemmas below state which dash replaces which run |
| Text.DashSpacesRun | src/app/api/dinosaurs/route.ts:43 | A word followed by a non-empty run of whitespace becomes the word and one `-`, and the rest of the text is rewritten on its own: `DashSpaces(w + sp + t) == w + "-" + DashSpaces(t)` when `t` does not start with whitespace |
| Text.DashSpacesRunStart | src/app/api/dinosaurs/route.ts:43 | A whole whitespace run at the front becomes a single `-` |
| Text.DropBlankPrefix | src/app/api/dinosaurs/route.ts:43 | The `+` of `\s+` consumes the whole run: dropping whitespace from a blank run followed by a non-space lands on that non-space |
| Text.DashSpacesKeepsChar | src/app/api/dinosaurs/route.ts:43 | A non-whitespace character passes the rewrite unchanged and the rewrite goes on with the rest |
| Text.NoSpaceAppend | src/app/api/dinosaurs/route.ts:43 | Joining two pieces without whitespace gives a piece without whitespace, so the `-` separators and the number stay single words |
| Text.DashSpacesKeepsWords | src/app/api/dinosaurs/route.ts:43 | Text without whitespace passes the rewrite unchanged |
| Text.ParseInt | src/app/api/dinosaurs/route.ts:9-10 | A number is read only from text with a digit; text made of decimal digits reads as their value |
| Text.ParseIntHex | src/app/api/dinosaurs/route.ts:9-10 | `parseInt('0x10')` reads hexadecimal and gives 16 |
| Text.ParseIntLeadingZero | src/app/api/dinosaurs/route.ts:9-10 | A leading zero stays decimal: `parseInt('010')` gives 10 |
| Text.ParseIntBarePrefix | src/app/api/dinosaurs/route.ts:9-10 | A bare `0x` prefix has no digits and gives NaN |
| Text.SplitDoubleSeparator | src/data/characters.ts:281 | Two adjacent separators make `split` yield an empty word |
| Text.SplitKeepsNonSeparator | src/data/characters.ts:280 | Text holding a character other than the separator splits into at least one non-empty word |
| Text.JoinSplit | src/data/characters.ts:280-281 | Joining the split words with the separator gives the text back |
| Text.JoinContainsPart | src/data/characters.ts:335-352 | The joined text contains each of its parts |
| Text.JoinEmptyPart | src/data/characters.ts:339-352 | An empty part between two others puts two adjacent separators in the joined text |
| Text.LowerKeepsContains | src/data/characters.ts:352 | Lower-casing both sides keeps a containment |
| Text.IntToStringNoSpace | src/app/api/dinosaurs/route.ts:43 | The decimal text of the index contains no whitespace, so the rewrite leaves it alone |
| Text.ParseIntToString | src/app/api/dinosaurs/route.ts:9-10 | `parseInt(String(n)) == n` for every integer, so a page number sent as text reads back unchanged |
| PageCache.SweptKeepsUsable | src/hooks/useDinosaurDataNoScroll.ts:54-68 | The sweep never deletes an entry a lookup would still serve, and keeps every entry it does not delete unchanged |
| PageCache.BoundaryEntryLingers | src/hooks/useDinosaurDataNoScroll.ts:54-68 | An entry exactly 300000 ms old is no longer served, yet it survives the sweep (`<` against `>`) |
| PageCache.PageCache.Lookup | src/hooks/useDinosaurDataNoScroll.ts:67-68 | A hit exactly when the key is present and its age is below 300000 ms; a hit returns the stored rows |
| PageCache.PageCache.Store | src/hooks/useDinosaurDataNoScroll.ts:117 | The key maps to the rows stamped with `now`; every other key is untouched |
| PageCache.PageCache.ClearOld | src/hooks/useDinosaurDataNoScroll.ts:54-61 | The one-pass deletion loop leaves exactly the entries that are not expired (`Swept`) |
| PageCache.PageCache.Clear | src/hooks/useDinosaurDataNoScroll.ts:186 | The cache ends empty |
| FetchCoordinator.CacheKeyPageInjective | src/hooks/useDinosaurDataNoScroll.ts:49-51 | Under one filter state and page size, two pages never share a cache key |
| FetchCoordinator.CacheKeysCanCollide | src/hooks/useDinosaurDataNoScroll.ts:49-51 | Different filter states can share a key when a value contains a dash |
| FetchCoordinator.CacheKeyShape | src/hooks/useDinosaurDataNoScroll.ts:49-51 | The key starts with the four filter values joined by dashes and ends with a dash and the page size |
| FetchCoordinator.StartView | src/hooks/useDinosaurDataNoScroll.ts:67-94 | A hit shows the cached rows and clears `isPaginating`, keeping the loading flag and the error. A miss clears the error and raises `isPaginating` when rows are shown, else `isLoading`. Totals are kept either way |
| FetchCoordinator.FinishView | src/hooks/useDinosaurDataNoScroll.ts:114-141 | A load replaces rows and totals, a failure shows its message over no rows, an abort changes no content. Both loading flags end cleared in every case |
| FetchCoordinator.Coordinator.constructor | src/hooks/useDinosaurDataNoScroll.ts:29-46 | Empty rows, both flags down, no error, zero totals, blank filters, page 1, no current request |
| FetchCoordinator.Coordinator.Fetch | src/hooks/useDinosaurDataNoScroll.ts:63-107 | A usable cache entry issues nothing. A miss issues a request with the hook's query. Only an authoritative miss aborts the current request and replaces it. A prefetch leaves the view alone. Keeps the invariant that only the current request can be a live authoritative one |
| FetchCoordinator.Coordinator.Issue | src/hooks/useDinosaurDataNoScroll.ts:76-107 | The cache-miss half of a fetch: an authoritative request aborts the current one and takes its place, clears the error and raises the pagination flag (rows on screen) or the loading flag (none); a prefetch is only recorded. Keeps the only-current-is-live invariant |
| FetchCoordinator.Coordinator.Complete | src/hooks/useDinosaurDataNoScroll.ts:109-141 | Marks the request settled. A non-aborted load is cached and swept. An authoritative reply updates the view through `FinishView`; a prefetch never does. A reply to a superseded request never changes rows, error or totals |
| FetchCoordinator.Coordinator.Prefetch | src/hooks/useDinosaurDataNoScroll.ts:145-149 | A request is issued exactly for a page in `1..totalPages` that the cache cannot serve; the view and the current request never change |
| FetchCoordinator.Coordinator.PageEffect | src/hooks/useDinosaurDataNoScroll.ts:152-158 | Fetches the current page, then requests `page-1` and `page+1` exactly when each lies inside `1..totalPages` and the cache cannot serve it; the request log grows by exactly those requests |
| FetchCoordinator.Coordinator.PrefetchNeighbours | src/hooks/useDinosaurDataNoScroll.ts:156-157 | A neighbour is requested exactly when it lies inside `1..totalPages` and the cache cannot serve it, with no change to the view |
| FetchCoordinator.Coordinator.CancelCurrent | src/hooks/useDinosaurDataNoScroll.ts:160-164 | After the cleanup no authoritative request is live; only prefetches can still deliver |
| FetchCoordinator.Coordinator.SetFilters | src/hooks/useDinosaurDataNoScroll.ts:33-36 | The four filters take the new values; the view, page and requests are unchanged |
| FetchCoordinator.Coordinator.SetPageState | src/hooks/useDinosaurDataNoScroll.ts:37 | The page takes the new value; everything else is unchanged |
| NoScrollListHook.Hook.constructor | src/hooks/useDinosaurDataNoScroll.ts:41-43 | The previous-filter record starts blank, with the first-render flag up |
| NoScrollListHook.Hook.FilterEffect | src/hooks/useDinosaurDataNoScroll.ts:168-190 | Skipped on the first render. Later, only a real change of a filter against the record resets the page to 1, empties the cache and updates the record |
| NoScrollListHook.Hook.SetPage | src/hooks/useDinosaurDataNoScroll.ts:193-205 | The page ends at the requested value; requesting the current page changes nothing |
| ImprovedListHook.Hook.constructor | src/hooks/useDinosaurDataImproved.ts:28-42 | The shared coordinator starts in its initial state |
| ImprovedListHook.Hook.FilterEffect | src/hooks/useDinosaurDataImproved.ts:164-168 | Always resets the page to 1 and empties the cache, with no comparison, on mount too |
| ImprovedListHook.Hook.SetPage | src/hooks/useDinosaurDataImproved.ts:171-184 | Sets the page unconditionally, with no same-page guard |
| BasicListHook.Hook.constructor | src/hooks/useDinosaurData.ts:22-32 | Empty rows, no loading, no error, zero totals, blank filters, page 1 |
| BasicListHook.Hook.Load | src/hooks/useDinosaurData.ts:34-46 | Raises `isLoading`, clears the error and sends the query built from the filters, page and page size |
| BasicListHook.Hook.Complete | src/hooks/useDinosaurData.ts:46-58 | Any reply, even an outdated one, updates the view through `FinishView`, so the reply handled last decides the rows, and `isLoading` drops |
| BasicListHook.Hook.SetQuery | src/hooks/useDinosaurData.ts:26-30 | The filters and page take the new values; the view is unchanged until the effect runs |
| FetchRequest.QueryParamsFilters | src/hooks/useDinosaurData.ts:39-43 | Each filter is in the query exactly when non-empty and carries its value; the temporal range travels as `period` |
| FetchRequest.QueryParamsPaging | src/hooks/useDinosaurData.ts:44-45 | `page` and `limit` are always in the query and parse back to the numbers sent |
| FetchRequest.QueryParams | src/hooks/useDinosaurData.ts:39-45 | Two to six parameters: the non-empty filters first, then `page` and `limit` with the numbers as text |
| FetchRequest.Settle | src/hooks/useDinosaurData.ts:46-55 | A failure exactly for a rejection, a non-ok response, an unsuccessful body or a missing payload, each with its fixed message; a rejection with an empty message gets the default failure message, any other keeps its own. A load carries the rows or `[]`; its page count is `pagination.totalPages` when that is present and non-zero and 1 otherwise, and its total is `pagination.total` when present and non-zero and 0 otherwise |
| DataService.FormatDetails | src/lib/DinosaurDataService.ts:366-389 | Null exactly for a missing row |
| DataService.FormatDetailsRoundTrip | src/lib/DinosaurDataService.ts:366-389 | Formatting only renames: reading the details back as columns gives the row, and the other way round |
| DataService.PageQuery | src/lib/DinosaurDataService.ts:394-418 | The inclusive range starts at `(page-1)*limit` and spans `limit` rows. Each filter applies exactly when it is truthy, with its own value. The rows are ordered by name |
| DataService.BuildPageQuery | src/lib/DinosaurDataService.ts:396-418 | The clause-by-clause query builder, its name ordering included, yields `PageQuery` |
| DataService.SearchQuery | src/lib/DinosaurDataService.ts:207-211 | The search sends only the name-or-description `ilike` on the term, ordered by name, with no other filter and no range, and selects the seven search columns (id, name, diet, locomotion_type, temporal_range, description, image_info) |
| DataService.Project | src/lib/DinosaurDataService.ts:209 | Selecting every column keeps the row; selecting the search columns keeps those seven columns and leaves every other column out |
| DataService.ProjectRows | src/lib/DinosaurDataService.ts:209 | The projection applies row by row, keeping count and order |
| DataService.SearchMatches | src/lib/DinosaurDataService.ts:210 | A row matches the search query exactly when its name or its description contains the term, ignoring case |
| DataService.NameLeTotal | src/lib/DinosaurDataService.ts:211 | Any two names are comparable by the name order |
| DataService.NameLeTrans | src/lib/DinosaurDataService.ts:211 | The name order is transitive |
| DataService.InsertByNameSorted | src/lib/DinosaurDataService.ts:417-418 | Inserting a row into a name-sorted list keeps it sorted |
| DataService.SortByName | src/lib/DinosaurDataService.ts:417-418 | Sorting by name is a permutation of the rows |
| DataService.SortByNameSorted | src/lib/DinosaurDataService.ts:417-418 | Sorting by name yields non-decreasing names |
| DataService.Select | src/lib/DinosaurDataService.ts:405-418 | The reference selection holds exactly the rows of the table that match every filter |
| DataService.Ordered | src/lib/DinosaurDataService.ts:405-418 | The ordered result is a permutation of the matching rows |
| DataService.OrderedMembers | src/lib/DinosaurDataService.ts:405-418 | The ordered result holds as many rows as match, and a row exactly when it is in the table and matches |
| DataService.OrderedRows | src/lib/DinosaurDataService.ts:405-418 | Every ordered row matches, and a query ordered by name returns non-decreasing names |
| DataService.EvaluateRanged | src/lib/DinosaurDataService.ts:416-418 | A query with a range returns that window of the ordered matches, projected on the selected columns; a query selecting every column returns the window of the matches themselves |
| DataService.EvaluateUnranged | src/lib/DinosaurDataService.ts:207-211 | A query without a range returns all the ordered matches, projected on the selected columns |
| DataService.Enrich | src/lib/DinosaurDataService.ts:425-435 | Enrichment keeps the number and order of the rows and sets only each row's image |
| DataService.CeilDiv | src/lib/DinosaurDataService.ts:438 | The page count is the least whose pages hold all the rows |
| DataService.BeforeLastPage | src/lib/DinosaurDataService.ts:438-447 | `page < ceil(total/limit)` exactly when `page*limit < total` |
| DataService.Paginate | src/lib/DinosaurDataService.ts:437-463 | Page and limit are echoed. A failure gives empty data, zero totals and both flags false. Otherwise the enriched rows, the count or 0, the ceiling page count, `hasNext` exactly when rows remain, and `hasPrev` exactly when `page > 1` |
| DataService.GetPaginated | src/lib/DinosaurDataService.ts:394-465 | The service sends `PageQuery` through the gateway and builds its result from the reply |
| DataService.PageOfMatches | src/lib/DinosaurDataService.ts:396-449 | A page served as the window of the name-ordered matching rows at its offset holds at most `limit` rows, all matching and in name order, and is the slice at the offset when the matches fill it |
| DataService.ReferencePageRows | src/lib/DinosaurDataService.ts:396-449 | Against a correct database, a page holds at most `limit` matching rows in name order, and a full page is the name-sorted matching rows from the offset |
| DataService.ReferencePageCounts | src/lib/DinosaurDataService.ts:396-449 | Against a correct database, the total is the match count and `hasNext` holds exactly when matches remain after the page |
| DataService.ReferencePage | src/lib/DinosaurDataService.ts:396-449 | Against a correct database, a page holds at most `limit` matching rows in name order; a full page is exactly the name-sorted matching rows from the offset; the total is the match count, and `hasNext` holds exactly when matches remain |
| DataService.SearchDinosaurs | src/lib/DinosaurDataService.ts:205-232 | The enriched rows of the name-or-description search as the database returns them (the seven search columns, ordered by name); `[]` when the query fails |
| DataService.SearchAgainstTable | src/lib/DinosaurDataService.ts:205-232 | Against a correct database, the search returns the projected, name-ordered matches, each with its image lookup |
| DataService.SearchedRows | src/lib/DinosaurDataService.ts:209-226 | Enriching the projected rows keeps count and order, keeps only the seven search columns of each row, and keeps name order |
| DataService.ReferenceSearch | src/lib/DinosaurDataService.ts:205-232 | Against a correct database, the search returns one row per match, a row exactly when its name or description contains the term ignoring case, in name order; each row holds the seven search columns of its match and no other column |
| DataService.Labels | src/lib/DinosaurDataService.ts:327 | Each value keeps its place; an empty value becomes `unknown` |
| DataService.Statistics | src/lib/DinosaurDataService.ts:316-361 | The dictionary holds exactly the labels, each with its number of occurrences; a failure gives `{}` |
| DataService.StatisticsTotal | src/lib/DinosaurDataService.ts:325-330 | The counts add up to the number of values returned |
| Routes.FallbackId | src/app/api/dinosaurs/route.ts:43 | The generated id has no whitespace (JavaScript's full `\s` class) and no upper-case letter |
| Routes.FallbackIdOfWord | src/app/api/dinosaurs/route.ts:43 | For a name without whitespace the id is exactly the lower-cased `name-index` |
| Routes.FallbackIdOfTwoWords | src/app/api/dinosaurs/search/route.ts:24 | For a name of two words with any whitespace run between them, the id is exactly the lower-cased `first-second-index`: the whole run becomes one `-` |
| Routes.RowIdOf | src/app/api/dinosaurs/route.ts:43 | A truthy id is kept as a number; otherwise the id is the slug of the name and position, with no whitespace |
| Routes.PagingDefaults | src/app/api/dinosaurs/route.ts:9-10 | Absent or empty paging parameters read as page 1 and limit 12 |
| Routes.BuildFilters | src/app/api/dinosaurs/route.ts:17-21 | The conditional field assignments yield `RouteFilters`: diet and locomotion when truthy, and `period` as the text search |
| Routes.HookQueryReachesService | src/app/api/dinosaurs/route.ts:9-21 | What a list hook sends arrives with page, limit, diet and locomotion unchanged, the temporal range as the text search, and the hook's own search text nowhere |
| Routes.ListedImage | src/app/api/dinosaurs/route.ts:34-49 | An image is sent exactly when the record has a truthy url, and it is that record with `source` set to the url |
| Routes.ListRows | src/app/api/dinosaurs/route.ts:31-51 | Row count and order are kept; row `i` is reshaped with absolute position `(page-1)*limit + i` |
| Routes.ListRowsShape | src/app/api/dinosaurs/route.ts:39-45 | Every column is kept. A truthy id is kept, otherwise the id is the slug of the name and the absolute position. The camelCase fields are present exactly when the snake_case column is truthy |
| Routes.ListRow | src/app/api/dinosaurs/route.ts:39-49 | One row keeps every column, takes the id of `RowIdOf` at its absolute position, has each camelCase field exactly when the snake_case column is truthy, with its value, and an image exactly when the record has a truthy url |
| Routes.ListRoute | src/app/api/dinosaurs/route.ts:6-59 | The response passes the service's pagination through unchanged, and its rows are the reshaped service rows |
| Routes.SearchImage | src/app/api/dinosaurs/search/route.ts:29-34 | id or 0, url or source or '', attribution or author or '', license or '' |
| Routes.SearchRow | src/app/api/dinosaurs/search/route.ts:22-35 | One row keeps every column the service returned, takes the id of `RowIdOf` at its index, has each camelCase field exactly when the snake_case column is truthy, and an image exactly when the service found one, in the `SearchImage` form |
| Routes.SearchRoute | src/app/api/dinosaurs/search/route.ts:6-40 | A 400 answer exactly when `q` is missing or empty |
| Routes.SearchRejectsBlankQuery | src/app/api/dinosaurs/search/route.ts:9-16 | A blank query gets the same 400 answer whatever the database holds: the service is not consulted |
| Routes.SearchRouteColumns | src/app/api/dinosaurs/search/route.ts:18-35 | Against a correct database, the search route answers one row per name-ordered match, whose columns are exactly the seven search columns of that match |
| Routes.SearchRowsShape | src/app/api/dinosaurs/search/route.ts:22-35 | The answer has the service's rows in count and order, each keeping the columns the service returned. A truthy id is kept, otherwise the id is the slug of the name and the index. The camelCase fields are present exactly when the snake_case column is truthy, with its value, and an image is present exactly when the row has one, in the `SearchImage` form |
| PageWindow.PushRange | src/components/blog/Pagination.tsx:20-22 | The push loop appends exactly the numbers `lo..hi` in order |
| PageWindow.Window | src/components/blog/Pagination.tsx:15-52 | No items without pages, all pages up to seven, otherwise seven items; the list starts at page 1 and ends at the last page |
| PageWindow.GetPageNumbers | src/components/blog/Pagination.tsx:15-52 | The push-based construction yields the three-window list `Window` |
| PageWindow.SmallWindowListsAll | src/components/blog/Pagination.tsx:18-22 | Up to seven pages, the list is exactly `1..totalPages` |
| PageWindow.LargeWindowShape | src/components/blog/Pagination.tsx:25-48 | Over seven pages, exactly seven items, from page 1 to the last page |
| PageWindow.LargeWindowItems | src/components/blog/Pagination.tsx:27-48 | The three windows item by item: `1 2 3 4 5 … t`, `1 … t-4..t`, `1 … c-1 c c+1 … t` |
| PageWindow.WindowIncreasing | src/components/blog/Pagination.tsx:15-52 | The numbers are strictly increasing |
| PageWindow.WindowWithinPages | src/components/blog/Pagination.tsx:15-52 | Every number is a page in `1..totalPages` |
| PageWindow.WindowEllipses | src/components/blog/Pagination.tsx:15-52 | Each ellipsis sits between two numbers and hides at least two pages |
| PageWindow.WindowShowsCurrent | src/components/blog/Pagination.tsx:15-52 | A current page inside `1..totalPages` is always listed |
| PageWindow.Render | src/components/blog/Pagination.tsx:12-62 | Nothing exactly when `totalPages <= 1`; otherwise the window with the two arrows |
| PageWindow.ArrowsStayInRange | src/components/blog/Pagination.tsx:60-108 | Previous is disabled exactly on page 1 and Next exactly on the last page; an enabled arrow leads to a page in range |
| ImprovedPagination.KeyTarget | src/components/blog/PaginationImproved.tsx:50-55 | ArrowLeft moves exactly when `currentPage > 1`, to the page before; ArrowRight exactly when `currentPage < totalPages`, to the page after |
| ImprovedPagination.KeyTargetInRange | src/components/blog/PaginationImproved.tsx:50-55 | From a real page an arrow key targets a different page inside `1..totalPages` |
| ImprovedPagination.JumpsBesideEllipses | src/components/blog/PaginationImproved.tsx:128-180 | The first-page jump (past page 5) and the last-page jump (more than four pages before the end) appear only where the window hides pages at that end |
| ImprovedPagination.Pager.constructor | src/components/blog/PaginationImproved.tsx:12-20 | Not transitioning, nothing scheduled, no callbacks yet |
| ImprovedPagination.Pager.Render | src/components/blog/PaginationImproved.tsx:63-119 | Nothing exactly when `totalPages <= 1`; otherwise the shared window, with the arrows disabled at the ends and while transitioning |
| ImprovedPagination.Pager.HandlePageChange | src/components/blog/PaginationImproved.tsx:23-39 | A click on the current page, or any click while transitioning, is ignored; otherwise the flag rises and the page is scheduled |
| ImprovedPagination.Pager.TimerFires | src/components/blog/PaginationImproved.tsx:35-38 | `onPageChange` is called exactly once with the scheduled page, and the flag drops |
| ImprovedPagination.Pager.Hover | src/components/blog/PaginationImproved.tsx:42-46 | A prefetch is requested exactly for a page other than the current one, when prefetching is supplied |
| ImprovedPagination.Pager.KeyDown | src/components/blog/PaginationImproved.tsx:49-60 | An arrow key with a target behaves as a click on that page; any other key changes nothing |
| ImprovedPagination.Pager.SetProps | src/components/blog/PaginationImproved.tsx:12-18 | New props replace the page and page count; the transition state and the callbacks are kept |
| EditDistance.LevAtMostLonger | src/data/characters.ts:304-323 | The distance never exceeds the longer prefix |
| EditDistance.Lev | src/data/characters.ts:304-323 | The distance is at least the length difference of the prefixes and at most their summed length |
| EditDistance.LevZeroOfEqual | src/data/characters.ts:304-323 | Equal prefixes are at distance zero |
| EditDistance.LevZeroMeansEqual | src/data/characters.ts:304-323 | Prefixes at distance zero are equal |
| EditDistance.LevZeroIff | src/data/characters.ts:304-323 | The distance is zero exactly for equal prefixes |
| EditDistance.DistanceMatrix | src/data/characters.ts:304-323 | The matrix loops leave the Levenshtein distance of the two words in the last cell |
| EditDistance.FillRow | src/data/characters.ts:314-323 | The inner loop fills row `i` with the distances of the prefixes and touches no other row |
| EditDistance.FillCell | src/data/characters.ts:316-321 | One cell receives the minimum of deletion, insertion and substitution, which is the distance of its prefixes, and no other cell changes |
| EditDistance.Similarity | src/data/characters.ts:324-326 | The similarity lies in [0, 1] and is 1 exactly for identical words |
| EditDistance.GetEditDistance | src/data/characters.ts:300-327 | The code as written; for two non-empty words it is the similarity |
| EditDistance.EmptyWordOutsideUnitRange | src/data/characters.ts:301-302 | An empty word yields a raw length such as 3, and two empty words yield 0 where the dead `maxLength === 0` branch says 1 |
| CharacterSearch.NonEmptyWords | src/data/characters.ts:280 | Exactly the non-empty words are kept |
| CharacterSearch.PairScore | src/data/characters.ts:286-294 | A pair adds between 0 and 1.5, and at least 1 exactly when one word contains the other |
| CharacterSearch.CalculateSimilarity | src/data/characters.ts:279-298 | The nested accumulation loops compute `Score`: the summed pair scores per query word, or 0 without query words |
| CharacterSearch.ScoreBounds | src/data/characters.ts:279-298 | The score is never negative and at most 1.5 per text word |
| CharacterSearch.SharedWordScores | src/data/characters.ts:284-297 | A query word sharing a containment with some text word earns at least one point per query word |
| CharacterSearch.SpacesOnlyScoresZero | src/data/characters.ts:280-297 | A query of spaces has no words and scores 0 against any text |
| CharacterSearch.TotalScoreBounds | src/data/characters.ts:283-297 | The summed pair scores lie between 0 and 1.5 per word pair |
| CharacterSearch.TotalScoreWithEmptyWord | src/data/characters.ts:284-290 | An empty text word earns every query word a point, since every word contains `''` |
| CharacterSearch.EmptyTextWordMatchesAll | src/data/characters.ts:279-298 | Whenever the text has an empty word, any query with a word scores at least 1 |
| CharacterSearch.UnrelatedQueryScores | src/data/characters.ts:279-298 | `calculateSimilarity('zzz', 'a  b')` is at least 1, though no word is related |
| CharacterSearch.NonBlankHasWords | src/data/characters.ts:330 | A query that is not blank has a word |
| CharacterSearch.FixedTextWords | src/data/characters.ts:281 | The corrected text words are exactly the non-empty words of the text |
| CharacterSearch.FixedScorePositive | src/data/characters.ts:279-298 | The corrected score is never negative, and positive exactly when some query word and non-empty text word are related by containment or similarity |
| CharacterSearch.FixedScoreRelatedPair | src/data/characters.ts:284-295 | One related pair of words makes the corrected score positive |
| CharacterSearch.FixedScoreUnrelated | src/data/characters.ts:279-298 | With no related pair, the corrected score is 0 |
| CharacterSearch.FixedSharedWordScores | src/data/characters.ts:284-297 | A containment between a query word and a non-empty text word earns at least one point per query word |
| CharacterSearch.UnrelatedQueryFixed | src/data/characters.ts:279-298 | The corrected score of `('zzz', 'a  b')` is 0 |
| CharacterSearch.Relevant | src/data/characters.ts:360-361 | Exactly the characters scoring above 0.2, in catalogue order |
| CharacterSearch.RelevantAtMostOnce | src/data/characters.ts:360-363 | No character is returned more often than it occurs in the catalogue |
| CharacterSearch.SearchCharacters | src/data/characters.ts:329-364 | A blank query returns the whole catalogue |
| CharacterSearch.SearchableText | src/data/characters.ts:334-352 | The searchable text is lower case and contains the lower-cased name and description |
| CharacterSearch.JoinedEmptyFieldGivesEmptyWord | src/data/characters.ts:335-352 | An empty field between two others gives the searchable text an empty word |
| CharacterSearch.MissingDetailAlwaysFound | src/data/characters.ts:334-363 | A character without a detailed description scores at least 1 against every non-blank query, so every search returns it |
| CharacterSearch.SearchSorted | src/data/characters.ts:359-363 | A non-blank search lists its characters by non-increasing score |
| CharacterSearch.SearchFindsRelevant | src/data/characters.ts:359-363 | A non-blank search finds exactly the characters scoring above 0.2 |
| CharacterSearch.SearchRanksRelevant | src/data/characters.ts:359-363 | A non-blank search returns exactly the characters scoring above 0.2, as a permutation of them, by non-increasing score, with equal scores in catalogue order |
| CharacterSearch.GetCharactersByCategory | src/data/characters.ts:366-369 | The whole catalogue for `'all'`; otherwise exactly the characters listing that category, in catalogue order |
| CharacterSearch.SearchResults | src/components/CharacterSearch.tsx:34-46 | Nothing for a blank query under `'all'`. Otherwise the starting list (search result or catalogue) narrowed to the category, in order |
| CharacterSearch.IdleShowsNothing | src/components/CharacterSearch.tsx:35-50 | The searching flag is down exactly for a blank query under `'all'`, and then the result is empty |
| CharacterSearch.SearchPanel.constructor | src/components/CharacterSearch.tsx:28-29 | Empty query under `'all'` |
| CharacterSearch.SearchPanel.SetQuery | src/components/CharacterSearch.tsx:28 | The query changes and the category is kept |
| CharacterSearch.SearchPanel.SetCategory | src/components/CharacterSearch.tsx:29 | The category changes and the query is kept |
| CharacterSearch.SearchPanel.ClearSearch | src/components/CharacterSearch.tsx:59-62 | Back to the empty query under `'all'`, which shows nothing with the flag down |
| LocomotionTypes.GetLocomotionIcon | src/constants/locomotionTypes.ts:30-34 | The dinosaur for a missing or empty type; otherwise the icon of the lower-cased type, or the dinosaur when it has none |
| LocomotionTypes.IsValidLocomotionType | src/constants/locomotionTypes.ts:37-39 | A type is valid exactly when it is a key of the icon table; a valid type is lower case |
| LocomotionTypes.IconIgnoresCase | src/constants/locomotionTypes.ts:32-33 | The icon of a type equals the icon of its lower-cased form |
| LocomotionTypes.TablesCoverValidTypes | src/constants/locomotionTypes.ts:4-39 | A type is valid exactly when it has an icon and a translation key; the key is `dinosaur.<type>` and the icon is not the fallback |
| LocomotionTypes.UpperCaseIsInvalidButHasIcon | src/constants/locomotionTypes.ts:30-39 | `BIPED` is not a valid type, yet it gets the walker icon |
| PostBadges.FirstMatch | src/components/blog/DinosaurPost.tsx:15-20 | The value of the first rule whose keyword the text contains, or the fallback when none matches |
| PostBadges.GetDietInfo | src/components/blog/DinosaurPost.tsx:13-21 | A missing diet, or one naming no keyword, gets the bone badge; otherwise the badge of the first keyword the lower-cased diet contains |
| PostBadges.GetPeriodInfo | src/components/blog/DinosaurPost.tsx:23-31 | The badge of the first keyword the lower-cased period contains; otherwise gray, with the raw period or the translated "unknown" |
| PostBadges.GetTypeIcon | src/components/blog/DinosaurPost.tsx:33-42 | A missing type, or one naming no keyword, gets the dinosaur; otherwise the icon of the first keyword the lower-cased type contains |
| PostBadges.DietBoneIff | src/components/blog/DinosaurPost.tsx:13-21 | The bone badge appears exactly for a missing diet or one naming none of the four diets |
| PostBadges.MatchAvoidsFallback | src/components/blog/DinosaurPost.tsx:15-20 | When some rule matches and no rule carries the fallback value, the fallback is not chosen |
| PostBadges.DietIgnoresCase | src/components/blog/DinosaurPost.tsx:15 | The diet badge ignores letter case |
| PostBadges.PeriodFallback | src/components/blog/DinosaurPost.tsx:23-31 | A period naming no keyword is gray and shows its raw text, or the translated "unknown" when missing |
| PostBadges.MissingPeriodIsUnknown | src/components/blog/DinosaurPost.tsx:24-30 | A missing period always gives the gray "unknown" badge |
| PostBadges.SemiAquaticContainsAquatic | src/components/blog/DinosaurPost.tsx:37 | Any text containing `semi-aquatic` contains `aquatic`, so the second test never decides |
| PostBadges.SemiAquaticSwims | src/components/blog/DinosaurPost.tsx:33-42 | A semi-aquatic type that is not terrestrial gets the swimmer |
| Ranking.RankByProperties | src/components/blog/TagCloud.tsx:14-15 | The stable sort orders by non-increasing key, is a permutation, and keeps equal keys in their original order |
| Ranking.RankBySorted | src/components/blog/TagCloud.tsx:14-15 | The sorted list has non-increasing keys |
| Ranking.RankByPermutes | src/components/blog/TagCloud.tsx:14-15 | The sorted list holds exactly the input elements, with multiplicity |
| Ranking.RankByMembers | src/components/blog/TagCloud.tsx:14-15 | The sorted list holds an element exactly when the input does |
| Ranking.RankByStable | src/components/blog/TagCloud.tsx:14-15 | For every key value, the elements carrying it keep their input order |
| Tally.Count | src/components/blog/Categories.tsx:15-18 | The counting loop yields the keys in first-occurrence order, each with its number of occurrences, and its entries in insertion order |
| Tally.CountsSumToLength | src/components/blog/Categories.tsx:15-18 | Every value is counted exactly once: the counts add up to the number of values |
| Tally.RankedEntriesCounted | src/components/blog/Categories.tsx:15-20 | Every ranked entry is a value of the list carrying its number of occurrences, at least 1 |
| Tally.RankedCoversValues | src/components/blog/Categories.tsx:15-20 | Every value of the list has its entry, with its number of occurrences, in the ranking |
| Tally.RankedKeysDistinct | src/components/blog/Categories.tsx:15-20 | No value has two entries in the ranking |
| Tally.RankedTally | src/components/blog/Categories.tsx:15-20 | The ranked dictionary has non-increasing counts and one entry per distinct value with its occurrence count (at least 1), and it totals the number of values |
| BlogCounts.AllTagsMembers | src/components/blog/TagCloud.tsx:8 | A tag is collected exactly when some character carries it; a character without tags adds nothing |
| BlogCounts.Take | src/components/blog/TagCloud.tsx:16 | A prefix of at most `n` entries, the whole list when it is short enough |
| BlogCounts.TagCloud | src/components/blog/TagCloud.tsx:7-16 | Flatten, count, rank and cut yield `TagCloudEntries` |
| BlogCounts.TagCloudProperties | src/components/blog/TagCloud.tsx:8-16 | At most 20 tags, by non-increasing count, each once, each with its occurrence count (at least 1). No tag left out outranks a shown one, and all tags are shown when there are at most 20 |
| BlogCounts.Kept | src/components/blog/Categories.tsx:14 | Exactly the present non-empty values are kept |
| BlogCounts.CategoryValueSources | src/components/blog/Categories.tsx:10-14 | A value is counted exactly when it is some dinosaur's non-empty diet, period or locomotion type |
| BlogCounts.Categories | src/components/blog/Categories.tsx:8-20 | Collect, count and rank yield the ranked tally of the kept values |
| BlogCounts.CategoriesProperties | src/components/blog/Categories.tsx:15-20 | No truncation: every kept value appears once with its count, by non-increasing count, and the counts sum to the number of kept values |
| SearchFilters.ApplyFilters | src/components/DinosaurSearchUnified.tsx:71-102 | No callback exactly when the values equal the snapshot. An all-blank change only reports "not searching", and any other change sends one search. The snapshot then holds the values |
| SearchFilters.ApplyTwiceIsQuiet | src/components/DinosaurSearchUnified.tsx:72-101 | Applying the same values twice makes no second callback |
| SearchFilters.SpacesAreNoFilter | src/components/DinosaurSearchUnified.tsx:85 | Only the query is trimmed: a space-only query counts as blank, a space-only diet does not |
| UnifiedSearch.SearchBox.constructor | src/components/DinosaurSearchUnified.tsx:25-30 | Inputs and snapshot from the initial values, missing ones as `''`; first-render flag up, no timer |
| UnifiedSearch.SearchBox.RunEffect | src/components/DinosaurSearchUnified.tsx:64-109 | Skipped on the first render; afterwards a fresh timer with the current values replaces the pending one |
| UnifiedSearch.SearchBox.Mount | src/components/DinosaurSearchUnified.tsx:66-69 | The first render applies nothing and schedules nothing |
| UnifiedSearch.SearchBox.Edit | src/components/DinosaurSearchUnified.tsx:104-109 | A changed value cancels the pending apply and schedules one with the latest values |
| UnifiedSearch.SearchBox.Elapse | src/components/DinosaurSearchUnified.tsx:104-106 | When the quiet period ends, `ApplyFilters` runs on the latest values against the snapshot |
| UnifiedSearch.SearchBox.Clear | src/components/DinosaurSearchUnified.tsx:116-126 | Inputs and snapshot go blank, and "not searching" is reported, then an empty search is sent. The apply it schedules then finds nothing to do |
| FixedSearch.MapLocomotion | src/components/DinosaurSearchFixed.tsx:81 | A known selection is sent in the database spelling, an unknown one unchanged, an empty one as `''` |
| FixedSearch.MapLocomotionOnlyRecases | src/components/DinosaurSearchFixed.tsx:18-24 | The mapping changes only letter case |
| FixedSearch.RawSelectionsCompared | src/components/DinosaurSearchFixed.tsx:94-97 | The snapshot keeps raw selections: two spellings that are sent alike still count as a change |
| FixedSearch.SearchBox.constructor | src/components/DinosaurSearchFixed.tsx:33-39 | Inputs and snapshot from the initial values, missing ones as `''`; first-render flag up, no timer |
| FixedSearch.SearchBox.RunEffect | src/components/DinosaurSearchFixed.tsx:51-105 | Skipped on the first render; afterwards a fresh timer with the current values replaces the pending one |
| FixedSearch.SearchBox.Mount | src/components/DinosaurSearchFixed.tsx:53-56 | The first render applies nothing and schedules nothing |
| FixedSearch.SearchBox.Edit | src/components/DinosaurSearchFixed.tsx:100-105 | A changed value cancels the pending apply and schedules one with the latest values |
| FixedSearch.SearchBox.Elapse | src/components/DinosaurSearchFixed.tsx:58-102 | The scheduled apply sends the mapped locomotion value and records the raw one |
| FixedSearch.SearchBox.Clear | src/components/DinosaurSearchFixed.tsx:112-122 | Sends unmapped blanks and resets inputs and snapshot to blanks |

## Left out

- React scheduling is not modelled: effect re-run order, dependency identity (`fetchData` re-created when the row count changes) and render timing. The model exposes the operations, and the caller chooses their order.
- Scroll restoration (`requestAnimationFrame`, `scrollTo`, `scrollIntoView`) has no observable state here.
- The development-only statistics fetch of `DinosaurSearchUnified` and the logging are left out.
- `getRandomCharacters` and the other random data are left out, because they depend on randomness.
- The network, Supabase and HTTP status plumbing are parameters or left out. The 500 answers of the route handlers (thrown service errors) are not modelled, because the service catches its own errors.
- `AbortController` internals: an abort is a flag on a request record.
- Floating point is idealised: scores, similarities and the 0.2 and 0.7 thresholds use exact reals.
- `toLowerCase` is modelled on ASCII letters only; other characters, Korean text included, are left unchanged.
- `parseInt` returning NaN is only an absent value, with no behaviour after it. Leading whitespace, one sign and the `0x` prefix are handled as in JavaScript, and the longest run of digits is read, so trailing characters are ignored.
- PostgREST `ilike` wildcards (`%`, `_`) inside user values, and commas inside an `or` filter, are not interpreted. The reference evaluator treats a search term as plain text.
- `Object.entries` lists integer-like keys first; the model keeps pure insertion order.
- Prototype keys of `locomotionTypeMapping` (a selection such as `constructor`) are not modelled; such a value is sent unchanged.
- Tally.Count: the counting dictionaries are maps, so a value such as `constructor` or `__proto__` counts from zero; in JavaScript it starts from the inherited prototype member. The same holds for the statistics of `DataService.Statistics`.
- LocomotionTypes.GetLocomotionIcon: a type such as `constructor` has no icon in the model, while the object lookup in JavaScript finds an inherited member.
- Strings are sequences of code points. JavaScript measures `length` in UTF-16 units, so a word outside the Basic Multilingual Plane is longer there for the `> 2` tests and the edit distance.
- DataService.NameLe: the database collation is modelled as code-point order, and the reference sort keeps rows with equal names in table order.
- DataService.Project: a column the search does not select is modelled as an absent value (`None`), the same as a column holding `null`; the model does not tell an absent key of the JSON row from a `null` one.
- The image lookup of the data service is a parameter; `getDirectDinosaurImageInfo` is not part of this model.
- The `onSearch` promise of the search boxes resolves within the same step. A search still pending when the next timer fires is not modelled.
- The Dinosaur record keeps only the fields the modelled code reads.
- Routes.ListRoute: requires that `page` and `limit` parse and that `limit >= 1`. A NaN page or a zero limit yields NaN or Infinity metadata in the source, which is not modelled.
- DataService.GetPaginated: requires `limit >= 1`, for the same reason (`Math.ceil(total / 0)`).
- DataService.CeilDiv: requires `limit >= 1`, for the same reason.
- DataService.Paginate: requires `limit >= 1`, for the same reason.
- FetchCoordinator.Coordinator.Complete: an aborted authoritative request still runs the `finally` block, so both loading flags drop even when a newer request is in flight. This is modelled as written, and nothing keeps the flags consistent with the live request.
- FetchCoordinator.CacheKey: the key joins raw values with dashes. Its shape is stated by `CacheKeyShape`, and collisions between filter states are exhibited (`CacheKeysCanCollide`) but not prevented.
- CharacterSearch.SearchCharacters: the sort recomputes each character's score as its key, instead of sorting precomputed pairs. The scores are the same, so the order is the same. The search ranks with the score as written, empty text words included (see Findings); `FixedScore` is the corrected score.

## Findings

| source | as written | input that shows it | evidently intended | confidence | as-written member | corrected member |
|---|---|---|---|---|---|---|
| src/data/characters.ts:301-302 | An empty word makes `getEditDistance` return the other word's length, not a similarity | `("", "abc")` gives 3, and `("", "")` gives 0 although the `maxLength === 0` branch returns 1 | A similarity in [0, 1] that is 1 exactly for equal words; `calculateSimilarity` never reaches these returns, because it only calls with words longer than two characters | not executed | EditDistance.EmptyWordOutsideUnitRange | EditDistance.Similarity |
| src/data/characters.ts:281-286 | Text words are not filtered, so an empty text word, which every query word contains, earns each query word a point | Query `zzz` against text `a  b` scores at least 1. `detailedDescription \|\| ''` puts two adjacent spaces in the searchable text of every character without a detailed description, so that character matches every non-blank query | Empty text words are dropped, as empty query words are, so only related words score | not executed | CharacterSearch.EmptyTextWordMatchesAll | CharacterSearch.FixedScorePositive |
