/**
 * What the three list hooks send to `/api/dinosaurs` and how they read the
 * answer: the query parameters built from the filter state, the shape of the
 * response, and the rule that turns a response into either a loaded page or
 * an error message.
 */
module FetchRequest {

  import opened Options
  import opened Text
  import opened Records

  /** The filter fields every hook keeps (`search`, `diet`, `locomotionType`, `temporalRange`). */
  datatype Filters = Filters(search: string, diet: string, locomotionType: string, temporalRange: string)

  const NoFilters := Filters("", "", "", "")

  /**
   * The URLSearchParams the hooks append, in order: each filter only when it is
   * non-empty (the temporal range under the name `period`), then `page` and
   * `limit` always.
   */
  function QueryParams(f: Filters, page: int, limit: int): (ps: seq<(string, string)>)
    ensures 2 <= |ps| <= 6
    ensures ps[|ps| - 2] == ("page", IntToString(page)) && ps[|ps| - 1] == ("limit", IntToString(limit))
    ensures forall i :: 0 <= i < |ps| - 2 ==> ps[i].1 != ""
  {
    FilterParams(f) + [("page", IntToString(page)), ("limit", IntToString(limit))]
  }

  /** `URLSearchParams.get(name)`: the first value appended under `name`. */
  function Get(params: seq<(string, string)>, name: string): Option<string>
  {
    if params == [] then None
    else if params[0].0 == name then Some(params[0].1)
    else Get(params[1..], name)
  }

  lemma {:induction false} GetAppend(a: seq<(string, string)>, b: seq<(string, string)>, name: string)
    ensures Get(a + b, name) == if Get(a, name).Some? then Get(a, name) else Get(b, name)
  {
    if a == [] {
      assert a + b == b;
    } else {
      assert (a + b)[0] == a[0];
      assert (a + b)[1..] == a[1..] + b;
      GetAppend(a[1..], b, name);
    }
  }

  /** One optional parameter: appended only when its value is non-empty. */
  function Field(name: string, v: string): seq<(string, string)> {
    if v != "" then [(name, v)] else []
  }

  /** The optional filter part of the parameter list. */
  function FilterParams(f: Filters): seq<(string, string)>
  {
    Field("search", f.search) + Field("diet", f.diet)
    + Field("locomotionType", f.locomotionType) + Field("period", f.temporalRange)
  }

  /** What a filter field reads back as: present exactly when non-empty. */
  function Present(v: string): Option<string> {
    if v != "" then Some(v) else None
  }

  lemma GetField(k: string, v: string, name: string)
    ensures Get(Field(k, v), name) == if k == name then Present(v) else None
  {
    if v != "" {
      assert Field(k, v)[1..] == [];
    }
  }

  lemma {:induction false} FilterParamsGet(f: Filters, name: string)
    ensures Get(FilterParams(f), name)
      == if name == "search" then Present(f.search)
         else if name == "diet" then Present(f.diet)
         else if name == "locomotionType" then Present(f.locomotionType)
         else if name == "period" then Present(f.temporalRange)
         else None
  {
    var s, d, l, t := Field("search", f.search), Field("diet", f.diet),
      Field("locomotionType", f.locomotionType), Field("period", f.temporalRange);
    assert FilterParams(f) == s + (d + (l + t));
    GetAppend(s, d + (l + t), name);
    GetAppend(d, l + t, name);
    GetAppend(l, t, name);
    GetField("search", f.search, name);
    GetField("diet", f.diet, name);
    GetField("locomotionType", f.locomotionType, name);
    GetField("period", f.temporalRange, name);
  }

  /** The fixed tail of the parameter list. */
  lemma GetPaging(page: int, limit: int, name: string)
    ensures Get([("page", IntToString(page)), ("limit", IntToString(limit))], name)
      == if name == "page" then Some(IntToString(page))
         else if name == "limit" then Some(IntToString(limit))
         else None
  {
    var n := [("page", IntToString(page)), ("limit", IntToString(limit))];
    assert n[1..] == [("limit", IntToString(limit))];
    assert n[1..][1..] == [];
    assert Get(n[1..][1..], name) == None;
    assert Get(n[1..], name) == if name == "limit" then Some(IntToString(limit)) else None;
  }

  /** Each filter reads back present exactly when it is non-empty, carrying its value. */
  lemma QueryParamsFilters(f: Filters, page: int, limit: int)
    ensures var q := QueryParams(f, page, limit);
      && Get(q, "search") == Present(f.search)
      && Get(q, "diet") == Present(f.diet)
      && Get(q, "locomotionType") == Present(f.locomotionType)
      && Get(q, "period") == Present(f.temporalRange)
  {
    var n := [("page", IntToString(page)), ("limit", IntToString(limit))];
    FilterParamsGet(f, "search");
    FilterParamsGet(f, "diet");
    FilterParamsGet(f, "locomotionType");
    FilterParamsGet(f, "period");
    GetAppend(FilterParams(f), n, "search");
    GetAppend(FilterParams(f), n, "diet");
    GetAppend(FilterParams(f), n, "locomotionType");
    GetAppend(FilterParams(f), n, "period");
    GetPaging(page, limit, "search");
    GetPaging(page, limit, "diet");
    GetPaging(page, limit, "locomotionType");
    GetPaging(page, limit, "period");
  }

  /** `page` and `limit` are always present and parse back to the numbers sent. */
  lemma QueryParamsPaging(f: Filters, page: int, limit: int)
    ensures var q := QueryParams(f, page, limit);
      && Get(q, "page").Some? && ParseInt(Get(q, "page").value) == Some(page)
      && Get(q, "limit").Some? && ParseInt(Get(q, "limit").value) == Some(limit)
  {
    var n := [("page", IntToString(page)), ("limit", IntToString(limit))];
    FilterParamsGet(f, "page");
    FilterParamsGet(f, "limit");
    GetAppend(FilterParams(f), n, "page");
    GetAppend(FilterParams(f), n, "limit");
    GetPaging(page, limit, "page");
    GetPaging(page, limit, "limit");
    ParseIntToString(page);
    ParseIntToString(limit);
  }

  // ---------------------------------------------------------------------------
  // The response

  /** `result.data.pagination`: both counts may be missing. */
  datatype PageCounts = PageCounts(totalPages: Option<int>, total: Option<int>)

  /** `result.data`: the rows and the pagination block may be missing. */
  datatype Payload = Payload(rows: Option<seq<Dinosaur>>, pagination: Option<PageCounts>)

  /** The parsed JSON body `{success, data}`. */
  datatype Body = Body(success: bool, data: Option<Payload>)

  /**
   * How a request ends: the fetch (or its JSON parsing) rejects with a message,
   * or a response arrives with its `ok` flag and parsed body.
   */
  datatype Reply = Rejected(message: string) | Responded(ok: bool, body: Body)

  /** What the hook makes of a reply that was not cancelled. */
  datatype Outcome = Loaded(rows: seq<Dinosaur>, totalPages: int, totalCount: int) | Failed(message: string)

  const HttpFailureMessage := "API 요청 실패"
  const BodyFailureMessage := "API 응답 오류"
  const DefaultFailureMessage := "데이터를 불러오지 못했습니다."

  function TotalPagesOf(p: Payload): int {
    if p.pagination.Some? then OrDefaultInt(p.pagination.value.totalPages, 1) else 1
  }

  function TotalCountOf(p: Payload): int {
    if p.pagination.Some? then OrDefaultInt(p.pagination.value.total, 0) else 0
  }

  /**
   * A non-ok response, an unsuccessful body or a body without data is an error
   * with a fixed message; a rejection keeps its own message unless it is
   * empty. Otherwise the page is loaded: rows or `[]`, total pages or 1 when
   * 0 or missing, total count or 0.
   */
  function Settle(reply: Reply): (o: Outcome)
    ensures o.Failed? <==> reply.Rejected? || !reply.ok || !reply.body.success || reply.body.data.None?
    ensures o.Failed? ==> o.message != ""
    ensures reply.Rejected? && reply.message != "" ==> o == Failed(reply.message)
    ensures reply.Responded? && !reply.ok ==> o == Failed(HttpFailureMessage)
    ensures reply.Responded? && reply.ok && (!reply.body.success || reply.body.data.None?) ==> o == Failed(BodyFailureMessage)
    ensures reply.Rejected? && reply.message == "" ==> o == Failed(DefaultFailureMessage)
    ensures o.Loaded? ==> o.totalPages != 0
    ensures o.Loaded? ==> o.rows == reply.body.data.value.rows.GetOr([])
    ensures o.Loaded? ==> var p := reply.body.data.value.pagination;
      && (p.Some? && p.value.totalPages.Some? && p.value.totalPages.value != 0 ==> o.totalPages == p.value.totalPages.value)
      && (p.None? || p.value.totalPages.None? || p.value.totalPages.value == 0 ==> o.totalPages == 1)
      && (p.Some? && p.value.total.Some? && p.value.total.value != 0 ==> o.totalCount == p.value.total.value)
      && (p.None? || p.value.total.None? || p.value.total.value == 0 ==> o.totalCount == 0)
  {
    match reply
    case Rejected(message) =>
      Failed(if message != "" then message else DefaultFailureMessage)
    case Responded(ok, body) =>
      if !ok then Failed(HttpFailureMessage)
      else if !body.success || body.data.None? then Failed(BodyFailureMessage)
      else Loaded(body.data.value.rows.GetOr([]), TotalPagesOf(body.data.value), TotalCountOf(body.data.value))
  }
}
