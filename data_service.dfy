/**
 * The server-side `DinosaurDataService` (src/lib/DinosaurDataService.ts):
 * paging of the `dinosaur_details` table with optional filters, image
 * enrichment, the name search, the detail formatter and the column
 * statistics. The database is a gateway function from a query to its reply;
 * an in-memory reference evaluator states what a correct gateway returns.
 */
module DataService {

  import opened Options
  import opened Text
  import opened Tally

  /** The `image_info` column: an object whose `title` names the image. */
  datatype ImageInfo = ImageInfo(title: Option<string>)

  /** A row of `dinosaur_details`. */
  datatype DetailRow = DetailRow(
    id: Option<int>,
    name: string,
    temporal_range: Option<string>,
    domain: Option<string>,
    kingdom: Option<string>,
    phylum: Option<string>,
    clade: Option<string>,
    family_info: Option<string>,
    genus_info: Option<string>,
    species_info: Option<string>,
    diet: Option<string>,
    locomotion_type: Option<string>,
    description: Option<string>,
    source_info: Option<string>,
    image_info: Option<ImageInfo>,
    created_at: Option<string>)

  /** A row of `image_data`, as `getDirectDinosaurImageInfo` returns it. */
  datatype ImageRecord = ImageRecord(
    id: Option<int>,
    url: Option<string>,
    source: Option<string>,
    attribution: Option<string>,
    author: Option<string>,
    license: Option<string>)

  // ---------------------------------------------------------------------------
  // formatDinosaurDetails

  datatype Classification = Classification(
    domain: Option<string>,
    kingdom: Option<string>,
    phylum: Option<string>,
    clade: Option<string>,
    family: Option<string>,
    genus: Option<string>,
    species: Option<string>)

  /** `DinosaurDetails`: the camelCase shape with the taxonomy grouped. */
  datatype Details = Details(
    id: Option<int>,
    name: string,
    temporalRange: Option<string>,
    classification: Classification,
    diet: Option<string>,
    locomotionType: Option<string>,
    description: Option<string>,
    source: Option<string>,
    image: Option<ImageInfo>,
    createdAt: Option<string>)

  /** `formatDinosaurDetails`: a missing row gives null; otherwise every column is renamed, never changed. */
  function FormatDetails(data: Option<DetailRow>): (d: Option<Details>)
    ensures d.Some? <==> data.Some?
  {
    match data
    case None => None
    case Some(r) =>
      Some(Details(r.id, r.name, r.temporal_range,
        Classification(r.domain, r.kingdom, r.phylum, r.clade, r.family_info, r.genus_info, r.species_info),
        r.diet, r.locomotion_type, r.description, r.source_info, r.image_info, r.created_at))
  }

  /** The renaming read backwards: details to the column names they came from. */
  function ColumnsOf(d: Details): DetailRow
  {
    var c := d.classification;
    DetailRow(d.id, d.name, d.temporalRange, c.domain, c.kingdom, c.phylum, c.clade,
      c.family, c.genus, c.species, d.diet, d.locomotionType, d.description, d.source, d.image, d.createdAt)
  }

  /** Formatting loses nothing and invents nothing: it is a bijection between the two shapes. */
  lemma FormatDetailsRoundTrip(r: DetailRow, d: Details)
    ensures ColumnsOf(FormatDetails(Some(r)).value) == r
    ensures FormatDetails(Some(ColumnsOf(d))) == Some(d)
  {
  }

  // ---------------------------------------------------------------------------
  // Queries

  /** The filters the list route passes; absent entries do not filter. */
  datatype ServiceFilters = ServiceFilters(diet: Option<string>, locomotionType: Option<string>, search: Option<string>)

  /**
   * The query built by the service: an optional exact diet match, an optional
   * case-insensitive locomotion match, an optional case-insensitive substring
   * search on name or description, an optional inclusive row range, whether
   * the rows are ordered by name (ascending) before the range is cut, and the
   * columns the `select` clause names.
   */
  datatype Query = Query(
    dietEq: Option<string>,
    locomotionILike: Option<string>,
    searchILike: Option<string>,
    range: Option<(int, int)>,
    orderByName: bool,
    columns: Columns)

  /** `select('*')`, or the seven columns `searchDinosaurs` names. */
  datatype Columns = AllColumns | SearchColumns

  /** The query `getPaginatedDinosaurs(page, limit, filters)` sends. */
  function PageQuery(page: int, limit: int, filters: ServiceFilters): (q: Query)
    ensures q.range.Some? && q.range.value.1 - q.range.value.0 + 1 == limit
    ensures q.range.value.0 == (page - 1) * limit
    ensures q.dietEq.Some? <==> Truthy(filters.diet)
    ensures q.locomotionILike.Some? <==> Truthy(filters.locomotionType)
    ensures q.searchILike.Some? <==> Truthy(filters.search)
    ensures q.dietEq.Some? ==> q.dietEq == filters.diet
    ensures q.locomotionILike.Some? ==> q.locomotionILike == filters.locomotionType
    ensures q.searchILike.Some? ==> q.searchILike == filters.search
    ensures q.orderByName && q.columns == AllColumns
  {
    var offset := (page - 1) * limit;
    Query(
      if Truthy(filters.diet) then filters.diet else None,
      if Truthy(filters.locomotionType) then filters.locomotionType else None,
      if Truthy(filters.search) then filters.search else None,
      Some((offset, offset + limit - 1)),
      true,
      AllColumns)
  }

  /** The query builder of `getPaginatedDinosaurs`, one clause at a time. */
  method BuildPageQuery(page: int, limit: int, filters: ServiceFilters) returns (q: Query)
    ensures q == PageQuery(page, limit, filters)
  {
    var offset := (page - 1) * limit;
    q := Query(None, None, None, None, false, AllColumns);
    if Truthy(filters.diet) {
      q := q.(dietEq := filters.diet);
    }
    if Truthy(filters.locomotionType) {
      q := q.(locomotionILike := filters.locomotionType);
    }
    if Truthy(filters.search) {
      q := q.(searchILike := filters.search);
    }
    q := q.(range := Some((offset, offset + limit - 1)));
    q := q.(orderByName := true);
  }

  /**
   * The query `searchDinosaurs(term)` sends: the name-or-description search
   * over the seven search columns, ordered by name, with no range.
   */
  function SearchQuery(term: string): (q: Query)
    ensures q.searchILike == Some(term) && q.orderByName && q.columns == SearchColumns
    ensures q.dietEq.None? && q.locomotionILike.None? && q.range.None?
  {
    Query(None, None, Some(term), None, true, SearchColumns)
  }

  /** `id, name, diet, locomotion_type, temporal_range, description, image_info` are carried over from `r`. */
  predicate KeepsSearchColumns(r: DetailRow, p: DetailRow) {
    && p.id == r.id && p.name == r.name && p.diet == r.diet
    && p.locomotion_type == r.locomotion_type && p.temporal_range == r.temporal_range
    && p.description == r.description && p.image_info == r.image_info
  }

  /** Every column outside the seven search columns is absent. */
  predicate OnlySearchColumns(p: DetailRow) {
    && p.domain.None? && p.kingdom.None? && p.phylum.None? && p.clade.None?
    && p.family_info.None? && p.genus_info.None? && p.species_info.None?
    && p.source_info.None? && p.created_at.None?
  }

  /** The row as the `select` clause returns it; a column it does not name is absent. */
  function Project(columns: Columns, r: DetailRow): (p: DetailRow)
    ensures columns == AllColumns ==> p == r
    ensures columns == SearchColumns ==> KeepsSearchColumns(r, p) && OnlySearchColumns(p)
  {
    match columns
    case AllColumns => r
    case SearchColumns =>
      DetailRow(r.id, r.name, r.temporal_range, None, None, None, None, None, None, None,
                r.diet, r.locomotion_type, r.description, None, r.image_info, None)
  }

  /** The seven search columns determine the projected row. */
  lemma ProjectSearchUnique(r: DetailRow, p: DetailRow)
    requires KeepsSearchColumns(r, p) && OnlySearchColumns(p)
    ensures p == Project(SearchColumns, r)
  {
  }

  function ProjectRows(columns: Columns, rows: seq<DetailRow>): (ps: seq<DetailRow>)
    ensures |ps| == |rows|
    ensures forall i :: 0 <= i < |rows| ==> ps[i] == Project(columns, rows[i])
  {
    seq(|rows|, i requires 0 <= i < |rows| => Project(columns, rows[i]))
  }

  /** The reply to a query: an error, or the rows and the exact count of matching rows. */
  datatype QueryReply = QueryFailed | QueryOk(rows: Option<seq<DetailRow>>, count: Option<nat>)

  // ---------------------------------------------------------------------------
  // Ordering by name

  /**
   * `a` sorts no later than `b`: lexicographic order on character codes, a
   * prefix before every longer name.
   */
  predicate NameLe(a: string, b: string)
    decreases |a|
  {
    a == [] || (b != [] && (a[0] < b[0] || (a[0] == b[0] && NameLe(a[1..], b[1..]))))
  }

  /** Any two names are comparable. */
  lemma {:induction false} NameLeTotal(a: string, b: string)
    ensures NameLe(a, b) || NameLe(b, a)
    decreases |a|
  {
    if a != [] && b != [] && a[0] == b[0] {
      NameLeTotal(a[1..], b[1..]);
    }
  }

  lemma {:induction false} NameLeTrans(a: string, b: string, c: string)
    requires NameLe(a, b) && NameLe(b, c)
    ensures NameLe(a, c)
    decreases |a|
  {
    if a != [] && a[0] == b[0] && b[0] == c[0] {
      NameLeTrans(a[1..], b[1..], c[1..]);
    }
  }

  predicate SortedByName(rows: seq<DetailRow>) {
    forall i, j :: 0 <= i < j < |rows| ==> NameLe(rows[i].name, rows[j].name)
  }

  /** `r` placed before the first row whose name does not sort before it. */
  function InsertByName(r: DetailRow, rows: seq<DetailRow>): (out: seq<DetailRow>)
    ensures multiset(out) == multiset(rows) + multiset{r}
  {
    if rows == [] || NameLe(r.name, rows[0].name) then [r] + rows
    else
      assert rows == [rows[0]] + rows[1..];
      [rows[0]] + InsertByName(r, rows[1..])
  }

  lemma {:induction false} InsertByNameSorted(r: DetailRow, rows: seq<DetailRow>)
    requires SortedByName(rows)
    ensures SortedByName(InsertByName(r, rows))
  {
    var out := InsertByName(r, rows);
    if rows == [] {
    } else if NameLe(r.name, rows[0].name) {
      forall i, j | 0 <= i < j < |out| ensures NameLe(out[i].name, out[j].name) {
        if i == 0 && j > 1 {
          NameLeTrans(r.name, rows[0].name, rows[j - 1].name);
        }
      }
    } else {
      NameLeTotal(r.name, rows[0].name);
      InsertByNameSorted(r, rows[1..]);
      InsertByNameAbove(rows[0].name, r, rows[1..]);
    }
  }

  /** A name no later than `r`'s and every row's is no later than any row after the insertion. */
  lemma {:induction false} InsertByNameAbove(low: string, r: DetailRow, rows: seq<DetailRow>)
    requires NameLe(low, r.name)
    requires forall k :: 0 <= k < |rows| ==> NameLe(low, rows[k].name)
    ensures forall k :: 0 <= k < |InsertByName(r, rows)| ==> NameLe(low, InsertByName(r, rows)[k].name)
  {
    var out := InsertByName(r, rows);
    forall k | 0 <= k < |out| ensures NameLe(low, out[k].name) {
      assert out[k] in multiset(out);
      if out[k] != r {
        assert out[k] in rows;
      }
    }
  }

  /** The rows ordered by name; rows with equal names keep their relative order. */
  function SortByName(rows: seq<DetailRow>): (sorted: seq<DetailRow>)
    ensures multiset(sorted) == multiset(rows)
    ensures |sorted| == |rows|
  {
    if rows == [] then []
    else
      assert rows == [rows[0]] + rows[1..];
      InsertByName(rows[0], SortByName(rows[1..]))
  }

  lemma {:induction false} SortByNameSorted(rows: seq<DetailRow>)
    ensures SortedByName(SortByName(rows))
  {
    if rows != [] {
      SortByNameSorted(rows[1..]);
      InsertByNameSorted(rows[0], SortByName(rows[1..]));
    }
  }

  // ---------------------------------------------------------------------------
  // Reference evaluation of a query

  /** `column ilike '%term%'` without wildcards inside `term`; a null column never matches. */
  predicate ILikeContains(column: Option<string>, term: string) {
    column.Some? && Contains(ToLower(column.value), ToLower(term))
  }

  predicate Matches(q: Query, r: DetailRow) {
    && (q.dietEq.Some? ==> r.diet == q.dietEq)
    && (q.locomotionILike.Some? ==>
          r.locomotion_type.Some? && ToLower(r.locomotion_type.value) == ToLower(q.locomotionILike.value))
    && (q.searchILike.Some? ==>
          ILikeContains(Some(r.name), q.searchILike.value) || ILikeContains(r.description, q.searchILike.value))
  }

  /** The matching rows, in table order. */
  function Select(q: Query, table: seq<DetailRow>): (rows: seq<DetailRow>)
    ensures |rows| <= |table|
    ensures forall i :: 0 <= i < |rows| ==> Matches(q, rows[i]) && rows[i] in table
    ensures forall r :: r in rows <==> r in table && Matches(q, r)
  {
    if table == [] then []
    else (if Matches(q, table[0]) then [table[0]] else []) + Select(q, table[1..])
  }

  /** Rows `from..to` inclusive, clipped to the rows that exist. */
  function Window(rows: seq<DetailRow>, from: int, to: int): seq<DetailRow>
  {
    var lo := if from < 0 then 0 else if from > |rows| then |rows| else from;
    var hi := if to + 1 < lo then lo else if to + 1 > |rows| then |rows| else to + 1;
    rows[lo..hi]
  }

  /** The matching rows in the order the query asks for. */
  function Ordered(q: Query, table: seq<DetailRow>): (rows: seq<DetailRow>)
    ensures multiset(rows) == multiset(Select(q, table))
  {
    if q.orderByName then SortByName(Select(q, table)) else Select(q, table)
  }

  /**
   * What a correct database returns for `q` over `table`: the matching rows,
   * ordered, reduced to the selected columns, then cut to the range, with the
   * count of all matching rows.
   */
  function Evaluate(q: Query, table: seq<DetailRow>): QueryReply
  {
    var shown := ProjectRows(q.columns, Ordered(q, table));
    QueryOk(Some(if q.range.Some? then Window(shown, q.range.value.0, q.range.value.1) else shown),
            Some(|Select(q, table)|))
  }

  /** A ranged query returns the window of its ordered matching rows; `select('*')` returns them whole. */
  lemma EvaluateRanged(q: Query, table: seq<DetailRow>, from: int, to: int)
    requires q.range == Some((from, to))
    ensures Evaluate(q, table).rows == Some(Window(ProjectRows(q.columns, Ordered(q, table)), from, to))
    ensures q.columns == AllColumns ==> Evaluate(q, table).rows == Some(Window(Ordered(q, table), from, to))
  {
    if q.columns == AllColumns {
      assert ProjectRows(q.columns, Ordered(q, table)) == Ordered(q, table);
    }
  }

  /** An unranged query returns all of its ordered matching rows, reduced to the selected columns. */
  lemma EvaluateUnranged(q: Query, table: seq<DetailRow>)
    requires q.range.None?
    ensures Evaluate(q, table).rows == Some(ProjectRows(q.columns, Ordered(q, table)))
  {
  }

  /** The ordered matching rows are exactly the matching rows of the table. */
  lemma {:induction false} OrderedMembers(q: Query, table: seq<DetailRow>)
    ensures |Ordered(q, table)| == |Select(q, table)|
    ensures forall r :: r in Ordered(q, table) <==> r in table && Matches(q, r)
  {
    var rows := Ordered(q, table);
    assert |multiset(rows)| == |multiset(Select(q, table))|;
    forall r ensures r in rows <==> r in Select(q, table) {
      assert r in rows <==> r in multiset(rows);
    }
  }

  /** Every ordered row matches, and the rows are sorted by name when the query asks for it. */
  lemma {:induction false} OrderedRows(q: Query, table: seq<DetailRow>)
    ensures forall i :: 0 <= i < |Ordered(q, table)| ==> Matches(q, Ordered(q, table)[i])
    ensures q.orderByName ==> SortedByName(Ordered(q, table))
  {
    var rows := Ordered(q, table);
    forall i | 0 <= i < |rows| ensures Matches(q, rows[i]) {
      assert rows[i] in multiset(Select(q, table));
    }
    if q.orderByName {
      SortByNameSorted(Select(q, table));
    }
  }

  // ---------------------------------------------------------------------------
  // getPaginatedDinosaurs

  /** A service row: the table row with `image` set from `image_data`. */
  datatype ServiceRow = ServiceRow(row: DetailRow, image: Option<ImageRecord>)

  datatype PageInfo = PageInfo(page: int, limit: int, total: nat, totalPages: nat, hasNext: bool, hasPrev: bool)

  datatype PaginationResult = PaginationResult(data: seq<ServiceRow>, pagination: PageInfo)

  /** The per-row image lookup, run for every row: count and order are kept and only `image` is set. */
  function Enrich(rows: seq<DetailRow>, imageOf: string -> Option<ImageRecord>): (r: seq<ServiceRow>)
    ensures |r| == |rows|
    ensures forall i :: 0 <= i < |rows| ==> r[i] == ServiceRow(rows[i], imageOf(rows[i].name))
  {
    seq(|rows|, i requires 0 <= i < |rows| => ServiceRow(rows[i], imageOf(rows[i].name)))
  }

  /** `Math.ceil(total / limit)` for a positive limit. */
  function CeilDiv(total: nat, limit: int): (pages: nat)
    requires limit >= 1
    ensures (pages - 1) * limit < total <= pages * limit
  {
    (total + limit - 1) / limit
  }

  lemma MulMonotone(a: int, b: int, limit: int)
    requires a <= b && limit >= 1
    ensures a * limit <= b * limit
  {
  }

  /** There is a later page exactly when the rows up to this page do not exhaust the total. */
  lemma {:induction false} BeforeLastPage(page: int, limit: int, total: nat)
    requires limit >= 1
    ensures page < CeilDiv(total, limit) <==> page * limit < total
  {
    var pages := CeilDiv(total, limit);
    if page < pages {
      MulMonotone(page, pages as int - 1, limit);
    } else {
      MulMonotone(pages, page, limit);
    }
  }

  /** The result built from the reply to the page query. */
  function Paginate(page: int, limit: int, reply: QueryReply, imageOf: string -> Option<ImageRecord>): (r: PaginationResult)
    requires limit >= 1
    ensures r.pagination.page == page && r.pagination.limit == limit
    ensures reply.QueryFailed? ==> r == PaginationResult([], PageInfo(page, limit, 0, 0, false, false))
    ensures reply.QueryOk? ==>
      && r.data == Enrich(reply.rows.GetOr([]), imageOf)
      && r.pagination.total == reply.count.GetOr(0)
      && (r.pagination.totalPages - 1) * limit < r.pagination.total <= r.pagination.totalPages * limit
      && (r.pagination.hasNext <==> page * limit < r.pagination.total)
      && (r.pagination.hasPrev <==> page > 1)
  {
    match reply
    case QueryFailed => PaginationResult([], PageInfo(page, limit, 0, 0, false, false))
    case QueryOk(rows, count) =>
      var total := count.GetOr(0);
      var totalPages := CeilDiv(total, limit);
      BeforeLastPage(page, limit, total);
      PaginationResult(Enrich(rows.GetOr([]), imageOf),
        PageInfo(page, limit, total, totalPages, page < totalPages, page > 1))
  }

  /**
   * `getPaginatedDinosaurs(page, limit, filters)`: build the query, send it
   * through the gateway, enrich the rows and compute the page metadata; a
   * failed query gives the empty fallback.
   */
  method GetPaginated(page: int, limit: int, filters: ServiceFilters,
                      gateway: Query -> QueryReply, imageOf: string -> Option<ImageRecord>)
    returns (result: PaginationResult)
    requires limit >= 1
    ensures result == Paginate(page, limit, gateway(PageQuery(page, limit, filters)), imageOf)
  {
    var q := BuildPageQuery(page, limit, filters);
    var reply := gateway(q);
    result := Paginate(page, limit, reply, imageOf);
  }

  lemma {:induction false} WindowSize(rows: seq<DetailRow>, from: int, limit: int)
    requires from >= 0 && limit >= 1
    ensures |Window(rows, from, from + limit - 1)| <= limit
    ensures from + limit <= |rows| ==> Window(rows, from, from + limit - 1) == rows[from..from + limit]
    ensures from >= |rows| ==> Window(rows, from, from + limit - 1) == []
  {
  }

  /**
   * A page served as the window of matching rows in name order at the page's
   * offset holds at most `limit` rows, all matching and in name order, and is
   * the slice at the offset when the matching rows fill it.
   */
  lemma {:induction false} PageOfMatches(page: int, limit: int, q: Query, ordered: seq<DetailRow>,
                                         data: seq<ServiceRow>, imageOf: string -> Option<ImageRecord>)
    requires page >= 1 && limit >= 1
    requires forall i :: 0 <= i < |ordered| ==> Matches(q, ordered[i])
    requires SortedByName(ordered)
    requires data == Enrich(Window(ordered, (page - 1) * limit, (page - 1) * limit + limit - 1), imageOf)
    ensures |data| <= limit
    ensures forall i :: 0 <= i < |data| ==> Matches(q, data[i].row)
    ensures forall i, j :: 0 <= i < j < |data| ==> NameLe(data[i].row.name, data[j].row.name)
    ensures page * limit <= |ordered| ==>
              && |data| == limit
              && forall i :: 0 <= i < limit ==> data[i].row == ordered[(page - 1) * limit + i]
  {
    var offset := (page - 1) * limit;
    MulMonotone(0, page - 1, limit);
    PageEnd(page, limit);
    WindowSize(ordered, offset, limit);
    var shown := Window(ordered, offset, offset + limit - 1);
    if offset < |ordered| {
      forall i | 0 <= i < |data| ensures Matches(q, data[i].row) {
        assert data[i].row == shown[i] == ordered[offset + i];
      }
      forall i, j | 0 <= i < j < |data| ensures NameLe(data[i].row.name, data[j].row.name) {
        assert data[i].row == ordered[offset + i] && data[j].row == ordered[offset + j];
      }
    }
  }

  /** The rows before page `page` and on it together are `page * limit`. */
  lemma PageEnd(page: int, limit: int)
    ensures (page - 1) * limit + limit == page * limit
  {
  }

  /**
   * Against a correct database, a page holds at most `limit` rows, each
   * matching every filter, in name order, and a page that the matching rows
   * fill is the matching rows sorted by name, starting at the offset.
   */
  lemma ReferencePageRows(page: int, limit: int, filters: ServiceFilters, table: seq<DetailRow>,
                          imageOf: string -> Option<ImageRecord>)
    requires page >= 1 && limit >= 1
    ensures var q := PageQuery(page, limit, filters);
      var sorted := SortByName(Select(q, table));
      var r := Paginate(page, limit, Evaluate(q, table), imageOf);
      && |r.data| <= limit
      && (forall i :: 0 <= i < |r.data| ==> Matches(q, r.data[i].row))
      && (forall i, j :: 0 <= i < j < |r.data| ==> NameLe(r.data[i].row.name, r.data[j].row.name))
      && (page * limit <= |sorted| ==>
            && |r.data| == limit
            && forall i :: 0 <= i < limit ==> r.data[i].row == sorted[(page - 1) * limit + i])
  {
    var q := PageQuery(page, limit, filters);
    var offset := (page - 1) * limit;
    assert q.range == Some((offset, offset + limit - 1));
    EvaluateRanged(q, table, offset, offset + limit - 1);
    var sorted := Ordered(q, table);
    OrderedRows(q, table);
    var r := Paginate(page, limit, Evaluate(q, table), imageOf);
    PageOfMatches(page, limit, q, sorted, r.data, imageOf);
  }

  /**
   * Against a correct database, the total is the number of matching rows
   * and `hasNext` holds exactly when matching rows remain after this page.
   */
  lemma ReferencePageCounts(page: int, limit: int, filters: ServiceFilters, table: seq<DetailRow>,
                            imageOf: string -> Option<ImageRecord>)
    requires page >= 1 && limit >= 1
    ensures var q := PageQuery(page, limit, filters);
      var selected := Select(q, table);
      var r := Paginate(page, limit, Evaluate(q, table), imageOf);
      && r.pagination.total == |selected|
      && (r.pagination.hasNext <==> page * limit < |selected|)
  {
    var q := PageQuery(page, limit, filters);
    assert Evaluate(q, table).count == Some(|Select(q, table)|);
  }

  /** Both of the above: the page a correct database serves. */
  lemma ReferencePage(page: int, limit: int, filters: ServiceFilters, table: seq<DetailRow>,
                      imageOf: string -> Option<ImageRecord>)
    requires page >= 1 && limit >= 1
    ensures var q := PageQuery(page, limit, filters);
      var selected := Select(q, table);
      var sorted := SortByName(selected);
      var r := Paginate(page, limit, Evaluate(q, table), imageOf);
      && |r.data| <= limit
      && (forall i :: 0 <= i < |r.data| ==> Matches(q, r.data[i].row))
      && (forall i, j :: 0 <= i < j < |r.data| ==> NameLe(r.data[i].row.name, r.data[j].row.name))
      && (page * limit <= |selected| ==>
            && |r.data| == limit
            && forall i :: 0 <= i < limit ==> r.data[i].row == sorted[(page - 1) * limit + i])
      && r.pagination.total == |selected|
      && (r.pagination.hasNext <==> page * limit < |selected|)
  {
    ReferencePageRows(page, limit, filters, table, imageOf);
    ReferencePageCounts(page, limit, filters, table, imageOf);
  }

  // ---------------------------------------------------------------------------
  // searchDinosaurs

  /** `searchDinosaurs(term)`: the matching rows with their images; a failed query gives `[]`. */
  function SearchDinosaurs(term: string, gateway: Query -> QueryReply, imageOf: string -> Option<ImageRecord>): (rows: seq<ServiceRow>)
    ensures gateway(SearchQuery(term)).QueryFailed? ==> rows == []
    ensures gateway(SearchQuery(term)).QueryOk? ==> rows == Enrich(gateway(SearchQuery(term)).rows.GetOr([]), imageOf)
  {
    match gateway(SearchQuery(term))
    case QueryFailed => []
    case QueryOk(rows, _) => Enrich(rows.GetOr([]), imageOf)
  }

  /** The name-or-description condition of the search. */
  predicate NameOrDescription(r: DetailRow, term: string) {
    ILikeContains(Some(r.name), term) || ILikeContains(r.description, term)
  }

  /**
   * Against a correct database, the search returns the name-sorted table rows
   * whose name or description contains the term ignoring case, every one of
   * them, each reduced to the seven search columns, in name order.
   */
  lemma {:induction false} ReferenceSearch(term: string, table: seq<DetailRow>, imageOf: string -> Option<ImageRecord>)
    ensures var rows := SearchDinosaurs(term, q => Evaluate(q, table), imageOf);
      var sorted := SortByName(Select(SearchQuery(term), table));
      && |rows| == |sorted| == |Select(SearchQuery(term), table)|
      && (forall r :: r in sorted <==> r in table && NameOrDescription(r, term))
      && (forall i :: 0 <= i < |rows| ==> rows[i].row == Project(SearchColumns, sorted[i]) && OnlySearchColumns(rows[i].row))
      && (forall i, j :: 0 <= i < j < |rows| ==> NameLe(rows[i].row.name, rows[j].row.name))
  {
    var q := SearchQuery(term);
    var sorted := Ordered(q, table);
    SearchAgainstTable(term, table, imageOf);
    OrderedMembers(q, table);
    OrderedRows(q, table);
    forall r ensures r in sorted <==> r in table && NameOrDescription(r, term) {
      SearchMatches(term, r);
    }
    SearchedRows(sorted, imageOf);
  }

  /** The search query matches a row exactly on its name-or-description condition. */
  lemma SearchMatches(term: string, r: DetailRow)
    ensures Matches(SearchQuery(term), r) <==> NameOrDescription(r, term)
  {
  }

  /** Against a correct database, the search enriches the sorted matches reduced to the search columns. */
  lemma SearchAgainstTable(term: string, table: seq<DetailRow>, imageOf: string -> Option<ImageRecord>)
    ensures SearchDinosaurs(term, q => Evaluate(q, table), imageOf)
         == Enrich(ProjectRows(SearchColumns, Ordered(SearchQuery(term), table)), imageOf)
  {
    EvaluateUnranged(SearchQuery(term), table);
  }

  /** Enriching the projected rows keeps one row per given row, with only the search columns, in the given order. */
  lemma {:induction false} SearchedRows(sorted: seq<DetailRow>, imageOf: string -> Option<ImageRecord>)
    ensures var rows := Enrich(ProjectRows(SearchColumns, sorted), imageOf);
      && |rows| == |sorted|
      && (forall i :: 0 <= i < |rows| ==> rows[i].row == Project(SearchColumns, sorted[i]) && OnlySearchColumns(rows[i].row))
      && (SortedByName(sorted) ==> forall i, j :: 0 <= i < j < |rows| ==> NameLe(rows[i].row.name, rows[j].row.name))
  {
    var rows := Enrich(ProjectRows(SearchColumns, sorted), imageOf);
    if SortedByName(sorted) {
      forall i, j | 0 <= i < j < |rows| ensures NameLe(rows[i].row.name, rows[j].row.name) {
        assert rows[i].row.name == sorted[i].name && rows[j].row.name == sorted[j].name;
      }
    }
  }

  // ---------------------------------------------------------------------------
  // getDietStatistics / getLocomotionStatistics

  datatype Column = DietColumn | LocomotionColumn

  /** The reply to the column query: an error, or the column's non-null values. */
  datatype ColumnReply = ColumnFailed | ColumnOk(values: Option<seq<Option<string>>>)

  /** `item.diet || 'unknown'`: an empty value is counted as `unknown`. */
  function Labels(values: seq<Option<string>>): (labels: seq<string>)
    ensures |labels| == |values|
    ensures forall i :: 0 <= i < |values| ==> labels[i] == OrDefault(values[i], "unknown")
  {
    seq(|values|, i requires 0 <= i < |values| => OrDefault(values[i], "unknown"))
  }

  /**
   * The statistics of one column: every value counted under its label; a
   * failed query gives an empty dictionary.
   */
  method Statistics(column: Column, gateway: Column -> ColumnReply) returns (keys: seq<string>, counts: map<string, nat>)
    ensures gateway(column).ColumnFailed? ==> keys == [] && counts == map[]
    ensures gateway(column).ColumnOk? ==>
      var labels := Labels(gateway(column).values.GetOr([]));
      && keys == Distinct(labels)
      && (forall v :: v in counts <==> v in labels)
      && (forall v :: v in counts ==> counts[v] == Occurrences(labels, v))
  {
    match gateway(column)
    case ColumnFailed =>
      keys, counts := [], map[];
    case ColumnOk(values) =>
      keys, counts := Count(Labels(values.GetOr([])));
  }

  /** The counts of a column add up to the number of values returned. */
  lemma StatisticsTotal(values: seq<Option<string>>)
    ensures Total(Tallied(Labels(values))) == |values|
  {
    TalliedTotal(Labels(values));
  }
}
