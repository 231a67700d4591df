/**
 * The two API route handlers: `GET /api/dinosaurs`
 * (src/app/api/dinosaurs/route.ts), which turns URL parameters into a page
 * request to the service and reshapes its rows, and `GET
 * /api/dinosaurs/search` (src/app/api/dinosaurs/search/route.ts), which
 * rejects an empty query and reshapes the search results.
 */
module Routes {

  import opened Options
  import opened Text
  import opened FetchRequest
  import opened DataService

  /** A row id: the table's own non-zero id, or a text id built from the name and position. */
  datatype RowId = NumericId(n: int) | TextId(s: string)

  /** `` `${name}-${n}`.replace(/\s+/g, '-').toLowerCase() ``. */
  function FallbackId(name: string, n: int): (id: string)
    ensures HasNoSpace(id)
    ensures forall i :: 0 <= i < |id| ==> !IsUpper(id[i])
  {
    Slug(name + "-" + IntToString(n))
  }

  /** A one-word name only gains the position and loses its capitals. */
  lemma FallbackIdOfWord(name: string, n: int)
    requires HasNoSpace(name)
    ensures FallbackId(name, n) == ToLower(name + "-" + IntToString(n))
  {
    IntToStringNoSpace(n);
    NoSpaceCons('-', IntToString(n));
    NoSpaceAppend(name, "-" + IntToString(n));
    assert name + "-" + IntToString(n) == name + ("-" + IntToString(n));
    DashSpacesKeepsWords(name + "-" + IntToString(n));
  }

  /** A whitespace run between two words of the name becomes a single dash. */
  lemma FallbackIdOfTwoWords(first: string, gap: string, second: string, n: int)
    requires HasNoSpace(first) && HasNoSpace(second) && second != []
    requires gap != [] && IsBlank(gap)
    ensures FallbackId(first + gap + second, n) == ToLower(first + "-" + second + "-" + IntToString(n))
  {
    var tail := second + "-" + IntToString(n);
    IntToStringNoSpace(n);
    NoSpaceCons('-', IntToString(n));
    NoSpaceAppend(second, "-" + IntToString(n));
    assert tail == second + ("-" + IntToString(n));
    assert tail[0] == second[0];
    assert first + gap + second + "-" + IntToString(n) == first + gap + tail;
    DashSpacesRun(first, gap, tail);
    DashSpacesKeepsWords(tail);
    assert first + "-" + tail == first + "-" + second + "-" + IntToString(n);
  }

  /** `dinosaur.id || fallback`: a truthy id is kept. */
  function RowIdOf(r: DetailRow, n: int): (id: RowId)
    ensures id.NumericId? <==> TruthyInt(r.id)
    ensures id.NumericId? ==> id.n == r.id.value && id.n != 0
    ensures id.TextId? ==> id.s == FallbackId(r.name, n) && HasNoSpace(id.s)
  {
    if TruthyInt(r.id) then NumericId(r.id.value) else TextId(FallbackId(r.name, n))
  }

  // ---------------------------------------------------------------------------
  // GET /api/dinosaurs

  /** `parseInt(searchParams.get('page') || '1')`. */
  function PageParam(params: seq<(string, string)>): Option<int> {
    ParseInt(OrDefault(Get(params, "page"), "1"))
  }

  /** `parseInt(searchParams.get('limit') || '12')`. */
  function LimitParam(params: seq<(string, string)>): Option<int> {
    ParseInt(OrDefault(Get(params, "limit"), "12"))
  }

  /** Absent or empty paging parameters read as page 1 and 12 rows. */
  lemma PagingDefaults(params: seq<(string, string)>)
    requires !Truthy(Get(params, "page")) && !Truthy(Get(params, "limit"))
    ensures PageParam(params) == Some(1) && LimitParam(params) == Some(12)
  {
    DefaultText();
    ParseIntToString(1);
    ParseIntToString(12);
  }

  lemma DefaultText()
    ensures IntToString(1) == "1" && IntToString(12) == "12"
  {
    assert NatToString(1) == [DigitChar(1)] == "1";
    assert NatToString(12) == NatToString(1) + [DigitChar(2)] == "12";
  }

  /** The filters the handler builds: diet and locomotion as given, and the `period` parameter as the text search. */
  function RouteFilters(params: seq<(string, string)>): ServiceFilters
  {
    ServiceFilters(
      if Truthy(Get(params, "diet")) then Get(params, "diet") else None,
      if Truthy(Get(params, "locomotionType")) then Get(params, "locomotionType") else None,
      if Truthy(Get(params, "period")) then Get(params, "period") else None)
  }

  /** The handler's `filters` object, one conditional field assignment at a time. */
  method BuildFilters(params: seq<(string, string)>) returns (filters: ServiceFilters)
    ensures filters == RouteFilters(params)
  {
    var diet := Get(params, "diet");
    var locomotionType := Get(params, "locomotionType");
    var period := Get(params, "period");
    filters := ServiceFilters(None, None, None);
    if Truthy(diet) {
      filters := filters.(diet := diet);
    }
    if Truthy(locomotionType) {
      filters := filters.(locomotionType := locomotionType);
    }
    if Truthy(period) {
      filters := filters.(search := period);
    }
  }

  /**
   * What the list hooks send arrives as follows: page and limit unchanged,
   * diet and locomotion unchanged, the temporal range as the text search,
   * and the hook's own search text nowhere.
   */
  lemma HookQueryReachesService(f: Filters, page: int, limit: int)
    ensures var params := QueryParams(f, page, limit);
      && PageParam(params) == Some(page)
      && LimitParam(params) == Some(limit)
      && RouteFilters(params) == ServiceFilters(Present(f.diet), Present(f.locomotionType), Present(f.temporalRange))
  {
    HookPagingReachesService(f, page, limit);
    HookFiltersReachService(f, page, limit);
  }

  lemma HookPagingReachesService(f: Filters, page: int, limit: int)
    ensures PageParam(QueryParams(f, page, limit)) == Some(page)
    ensures LimitParam(QueryParams(f, page, limit)) == Some(limit)
  {
    QueryParamsPaging(f, page, limit);
    assert IntToString(page) != "";
    assert IntToString(limit) != "";
  }

  lemma HookFiltersReachService(f: Filters, page: int, limit: int)
    ensures RouteFilters(QueryParams(f, page, limit))
      == ServiceFilters(Present(f.diet), Present(f.locomotionType), Present(f.temporalRange))
  {
    QueryParamsFilters(f, page, limit);
  }

  /** A reshaped list row: the other columns, then the overriding id, camelCase fields and image. */
  datatype ListedRow = ListedRow(
    rest: DetailRow,
    id: RowId,
    locomotionType: Option<string>,
    temporalRange: Option<string>,
    image: Option<ImageRecord>)

  /** The image sent for a service row: only when its record has a truthy url, which becomes its `source`. */
  function ListedImage(image: Option<ImageRecord>): (r: Option<ImageRecord>)
    ensures r.Some? <==> image.Some? && Truthy(image.value.url)
    ensures r.Some? ==> r.value == image.value.(source := image.value.url)
  {
    if image.Some? && Truthy(image.value.url) then Some(image.value.(source := image.value.url)) else None
  }

  /** The reshaping of the row at `index` on page `page`. */
  function ListRow(r: ServiceRow, page: int, limit: int, index: int): (row: ListedRow)
    ensures row.rest == r.row
    ensures row.id == RowIdOf(r.row, (page - 1) * limit + index)
    ensures row.locomotionType.Some? <==> Truthy(r.row.locomotion_type)
    ensures row.locomotionType.Some? ==> row.locomotionType == r.row.locomotion_type
    ensures row.temporalRange.Some? <==> Truthy(r.row.temporal_range)
    ensures row.temporalRange.Some? ==> row.temporalRange == r.row.temporal_range
    ensures row.image.Some? <==> r.image.Some? && Truthy(r.image.value.url)
  {
    ListedRow(r.row, RowIdOf(r.row, (page - 1) * limit + index),
      OrElse(r.row.locomotion_type, None), OrElse(r.row.temporal_range, None), ListedImage(r.image))
  }

  /** `result.data.map(...)`. */
  function ListRows(data: seq<ServiceRow>, page: int, limit: int): (rows: seq<ListedRow>)
    ensures |rows| == |data|
    ensures forall i :: 0 <= i < |data| ==> rows[i] == ListRow(data[i], page, limit, i)
  {
    seq(|data|, i requires 0 <= i < |data| => ListRow(data[i], page, limit, i))
  }

  /**
   * Row reshaping keeps count and order and every column; a truthy id is
   * kept, otherwise the id is the slug of the name and the row's absolute
   * position; camelCase fields take the snake_case column when truthy.
   */
  lemma ListRowsShape(data: seq<ServiceRow>, page: int, limit: int, i: int)
    requires 0 <= i < |data|
    ensures var row := ListRows(data, page, limit)[i];
      && row.rest == data[i].row
      && (TruthyInt(data[i].row.id) ==> row.id == NumericId(data[i].row.id.value))
      && (!TruthyInt(data[i].row.id) ==>
            row.id == TextId(Slug(data[i].row.name + "-" + IntToString((page - 1) * limit + i))))
      && (row.locomotionType.Some? <==> Truthy(data[i].row.locomotion_type))
      && (row.locomotionType.Some? ==> row.locomotionType == data[i].row.locomotion_type)
      && (row.temporalRange.Some? <==> Truthy(data[i].row.temporal_range))
      && (row.temporalRange.Some? ==> row.temporalRange == data[i].row.temporal_range)
  {
  }

  datatype ListResponse = ListResponse(rows: seq<ListedRow>, pagination: PageInfo)

  /**
   * `GET /api/dinosaurs`: read page, limit and filters from the URL, fetch
   * the page from the service, reshape its rows and pass the pagination
   * metadata through.
   */
  method ListRoute(params: seq<(string, string)>, gateway: Query -> QueryReply,
                   imageOf: string -> Option<ImageRecord>) returns (response: ListResponse)
    requires PageParam(params).Some? && LimitParam(params).Some? && LimitParam(params).value >= 1
    ensures var page, limit := PageParam(params).value, LimitParam(params).value;
      var result := Paginate(page, limit, gateway(PageQuery(page, limit, RouteFilters(params))), imageOf);
      && response.pagination == result.pagination
      && response.rows == ListRows(result.data, page, limit)
  {
    var page := PageParam(params).value;
    var limit := LimitParam(params).value;
    var filters := BuildFilters(params);
    var result := GetPaginated(page, limit, filters, gateway, imageOf);
    response := ListResponse(ListRows(result.data, page, limit), result.pagination);
  }

  // ---------------------------------------------------------------------------
  // GET /api/dinosaurs/search

  /** The `DinosaurImage` shape of the search results. */
  datatype DinosaurImage = DinosaurImage(id: int, source: string, attribution: string, license: string)

  /** `id || 0`, `url || source || ''`, `attribution || author || ''`, `license || ''`. */
  function SearchImage(rec: ImageRecord): (img: DinosaurImage)
    ensures img.id == (if TruthyInt(rec.id) then rec.id.value else 0)
    ensures img.source == (if Truthy(rec.url) then rec.url.value else if Truthy(rec.source) then rec.source.value else "")
    ensures img.attribution == (if Truthy(rec.attribution) then rec.attribution.value
                                else if Truthy(rec.author) then rec.author.value else "")
    ensures img.license == (if Truthy(rec.license) then rec.license.value else "")
  {
    DinosaurImage(OrDefaultInt(rec.id, 0), OrDefault(OrElse(rec.url, rec.source), ""),
      OrDefault(OrElse(rec.attribution, rec.author), ""), OrDefault(rec.license, ""))
  }

  datatype SearchedRow = SearchedRow(
    rest: DetailRow,
    id: RowId,
    locomotionType: Option<string>,
    temporalRange: Option<string>,
    image: Option<DinosaurImage>)

  /** The reshaping of the search result at `index`. */
  function SearchRow(r: ServiceRow, index: int): (row: SearchedRow)
    ensures row.rest == r.row
    ensures row.id == RowIdOf(r.row, index)
    ensures row.locomotionType.Some? <==> Truthy(r.row.locomotion_type)
    ensures row.locomotionType.Some? ==> row.locomotionType == r.row.locomotion_type
    ensures row.temporalRange.Some? <==> Truthy(r.row.temporal_range)
    ensures row.temporalRange.Some? ==> row.temporalRange == r.row.temporal_range
    ensures row.image.Some? <==> r.image.Some?
    ensures r.image.Some? ==> row.image == Some(SearchImage(r.image.value))
  {
    SearchedRow(r.row, RowIdOf(r.row, index), OrElse(r.row.locomotion_type, None),
      OrElse(r.row.temporal_range, None), if r.image.Some? then Some(SearchImage(r.image.value)) else None)
  }

  /** Status 400 with `success: false`, or status 200 with the reshaped rows. */
  datatype SearchResponse = BadRequest(error: string) | Found(data: seq<SearchedRow>)

  const QueryRequired := "Search query is required"

  /** `GET /api/dinosaurs/search`. */
  function SearchRoute(params: seq<(string, string)>, gateway: Query -> QueryReply,
                       imageOf: string -> Option<ImageRecord>): (r: SearchResponse)
    ensures r.BadRequest? <==> !Truthy(Get(params, "q"))
  {
    var q := Get(params, "q");
    if !Truthy(q) then BadRequest(QueryRequired)
    else
      var found := SearchDinosaurs(q.value, gateway, imageOf);
      Found(seq(|found|, i requires 0 <= i < |found| => SearchRow(found[i], i)))
  }

  /** A missing or empty query is rejected whatever the database holds: the service is not consulted. */
  lemma SearchRejectsBlankQuery(params: seq<(string, string)>, g1: Query -> QueryReply, g2: Query -> QueryReply,
                                i1: string -> Option<ImageRecord>, i2: string -> Option<ImageRecord>)
    requires !Truthy(Get(params, "q"))
    ensures SearchRoute(params, g1, i1) == SearchRoute(params, g2, i2) == BadRequest(QueryRequired)
  {
  }

  /**
   * A non-empty query answers with the service's rows, same count and
   * order, each keeping its columns, with its id, camelCase fields and image
   * mapped.
   */
  lemma SearchRowsShape(params: seq<(string, string)>, gateway: Query -> QueryReply,
                        imageOf: string -> Option<ImageRecord>, i: int)
    requires Truthy(Get(params, "q"))
    ensures var found := SearchDinosaurs(Get(params, "q").value, gateway, imageOf);
      var r := SearchRoute(params, gateway, imageOf);
      && |r.data| == |found|
      && (0 <= i < |found| ==>
            && r.data[i].rest == found[i].row
            && (TruthyInt(found[i].row.id) ==> r.data[i].id == NumericId(found[i].row.id.value))
            && (!TruthyInt(found[i].row.id) ==> r.data[i].id == TextId(Slug(found[i].row.name + "-" + IntToString(i))))
            && (r.data[i].locomotionType.Some? <==> Truthy(found[i].row.locomotion_type))
            && (r.data[i].locomotionType.Some? ==> r.data[i].locomotionType == found[i].row.locomotion_type)
            && (r.data[i].temporalRange.Some? <==> Truthy(found[i].row.temporal_range))
            && (r.data[i].temporalRange.Some? ==> r.data[i].temporalRange == found[i].row.temporal_range)
            && (r.data[i].image.Some? <==> found[i].image.Some?)
            && (found[i].image.Some? ==> r.data[i].image == Some(SearchImage(found[i].image.value))))
  {
  }

  /**
   * Against a correct database, the search answer has one row per name-sorted
   * match, and each row spreads only the seven columns the search selects.
   */
  lemma SearchRouteColumns(params: seq<(string, string)>, table: seq<DetailRow>,
                           imageOf: string -> Option<ImageRecord>)
    requires Truthy(Get(params, "q"))
    ensures var r := SearchRoute(params, q => Evaluate(q, table), imageOf);
      var sorted := SortByName(Select(SearchQuery(Get(params, "q").value), table));
      && |r.data| == |sorted|
      && forall i :: 0 <= i < |r.data| ==>
           r.data[i].rest == Project(SearchColumns, sorted[i]) && OnlySearchColumns(r.data[i].rest)
  {
    ReferenceSearch(Get(params, "q").value, table, imageOf);
  }
}
