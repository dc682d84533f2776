/**
  The request side of lib/api/accessLogService.ts: which query parameters
  `getAccessLogs` sends and in what order, the URL it requests, and the errors the three
  wrappers throw on a non-ok response.
*/
module AccessLogService {
  import opened Wrappers
  import Text
  import Web

  /** The sortable columns, `'id' | 'ipv4' | 'ipv6' | 'email' | 'access_count' | 'last_access_time'`. */
  datatype SortBy = Id | Ipv4 | Ipv6 | Email | AccessCount | LastAccessTime

  /** The wire name of a sort column. */
  function SortByName(c: SortBy): (name: string)
    ensures name != ""
  {
    match c
    case Id => "id"
    case Ipv4 => "ipv4"
    case Ipv6 => "ipv6"
    case Email => "email"
    case AccessCount => "access_count"
    case LastAccessTime => "last_access_time"
  }

  /** Distinct columns are sent under distinct names. */
  lemma SortByNamesDistinct(a: SortBy, b: SortBy)
    ensures SortByName(a) == SortByName(b) ==> a == b
  {
  }

  datatype SortOrder = Asc | Desc

  function SortOrderName(o: SortOrder): (name: string)
    ensures name != ""
  {
    match o
    case Asc => "ASC"
    case Desc => "DESC"
  }

  /** `GetAccessLogsParams`: every field optional. */
  datatype Params = Params(
    page: Option<int>,
    limit: Option<int>,
    sortBy: Option<SortBy>,
    sortOrder: Option<SortOrder>,
    search: Option<string>)

  /** One `searchParams.append(name, value)`. */
  datatype QueryParam = QueryParam(name: string, value: string)

  /** JavaScript truthiness of an optional number (`undefined` and `0` are falsy). */
  predicate TruthyNumber(n: Option<int>) {
    n.Some? && n.value != 0
  }

  /** Position of each parameter name in the order `getAccessLogs` appends them. */
  function Rank(name: string): int {
    match name
    case "page" => 0
    case "limit" => 1
    case "sortBy" => 2
    case "sortOrder" => 3
    case "search" => 4
    case _ => 5
  }

  /** The value sent under `name`, if any. */
  function Lookup(query: seq<QueryParam>, name: string): Option<string> {
    if query == [] then None
    else if query[0].name == name then Some(query[0].value)
    else Lookup(query[1..], name)
  }

  /** The expected value of one parameter: sent exactly when the field is truthy. */
  function Expected(present: bool, value: string): Option<string> {
    if present then Some(value) else None
  }

  /** `if (present) searchParams.append(name, value)`. */
  function AppendIf(query: seq<QueryParam>, present: bool, name: string, value: string): seq<QueryParam> {
    if present then query + [QueryParam(name, value)] else query
  }

  /** `getAccessLogs`'s five successive conditional appends. */
  function SearchParams(params: Params): seq<QueryParam> {
    var q1 := AppendIf([], TruthyNumber(params.page), "page", Text.IntText(params.page.GetOr(0)));
    var q2 := AppendIf(q1, TruthyNumber(params.limit), "limit", Text.IntText(params.limit.GetOr(0)));
    var q3 := AppendIf(q2, params.sortBy.Some?, "sortBy", SortByName(params.sortBy.GetOr(Id)));
    var q4 := AppendIf(q3, params.sortOrder.Some?, "sortOrder", SortOrderName(params.sortOrder.GetOr(Asc)));
    AppendIf(q4, Text.Truthy(params.search), "search", params.search.GetOr(""))
  }

  /** The names in a query rise strictly in the order page, limit, sortBy, sortOrder, search. */
  predicate InCanonicalOrder(query: seq<QueryParam>) {
    && (forall i, j :: 0 <= i < j < |query| ==> Rank(query[i].name) < Rank(query[j].name))
    && (forall i :: 0 <= i < |query| ==> Rank(query[i].name) < 5)
  }

  /** Looking a name up after one more append: an earlier parameter wins, else the new one. */
  lemma {:induction false} LookupSnoc(q: seq<QueryParam>, p: QueryParam, name: string)
    ensures Lookup(q + [p], name) ==
      if Lookup(q, name).Some? then Lookup(q, name)
      else if p.name == name then Some(p.value) else None
    decreases |q|
  {
    if q != [] {
      assert (q + [p])[1..] == q[1..] + [p];
      LookupSnoc(q[1..], p, name);
    }
  }

  /** One conditional append, seen through `Lookup`: only the appended name can change. */
  lemma AppendIfLookup(q: seq<QueryParam>, present: bool, name: string, value: string, m: string)
    requires Lookup(q, name) == None
    ensures Lookup(AppendIf(q, present, name, value), m) == if m == name && present then Some(value) else Lookup(q, m)
  {
    if present {
      LookupSnoc(q, QueryParam(name, value), m);
    }
  }

  /** One conditional append of a later-ranked name keeps the canonical order. */
  lemma AppendIfOrder(q: seq<QueryParam>, present: bool, name: string, value: string)
    requires Rank(name) < 5 && InCanonicalOrder(q)
    requires forall i :: 0 <= i < |q| ==> Rank(q[i].name) < Rank(name)
    ensures InCanonicalOrder(AppendIf(q, present, name, value))
    ensures forall i :: 0 <= i < |AppendIf(q, present, name, value)| ==> Rank(AppendIf(q, present, name, value)[i].name) <= Rank(name)
  {
  }

  /** A query whose names all rank below `name` does not contain it. */
  lemma {:induction false} LookupAbsent(q: seq<QueryParam>, name: string)
    requires forall i :: 0 <= i < |q| ==> Rank(q[i].name) < Rank(name)
    ensures Lookup(q, name) == None
    decreases |q|
  {
    if q != [] {
      LookupAbsent(q[1..], name);
    }
  }

  /** The parameters `getAccessLogs` sends always come in the order page, limit, sortBy, sortOrder, search. */
  lemma SearchParamsOrder(params: Params)
    ensures InCanonicalOrder(SearchParams(params))
  {
    var q1 := AppendIf([], TruthyNumber(params.page), "page", Text.IntText(params.page.GetOr(0)));
    var q2 := AppendIf(q1, TruthyNumber(params.limit), "limit", Text.IntText(params.limit.GetOr(0)));
    var q3 := AppendIf(q2, params.sortBy.Some?, "sortBy", SortByName(params.sortBy.GetOr(Id)));
    var q4 := AppendIf(q3, params.sortOrder.Some?, "sortOrder", SortOrderName(params.sortOrder.GetOr(Asc)));
    AppendIfOrder([], TruthyNumber(params.page), "page", Text.IntText(params.page.GetOr(0)));
    AppendIfOrder(q1, TruthyNumber(params.limit), "limit", Text.IntText(params.limit.GetOr(0)));
    AppendIfOrder(q2, params.sortBy.Some?, "sortBy", SortByName(params.sortBy.GetOr(Id)));
    AppendIfOrder(q3, params.sortOrder.Some?, "sortOrder", SortOrderName(params.sortOrder.GetOr(Asc)));
    AppendIfOrder(q4, Text.Truthy(params.search), "search", params.search.GetOr(""));
  }

  /** One append step of a later-ranked name: only `name` can change, and every rank stays at most its rank. */
  lemma AppendIfStep(q: seq<QueryParam>, present: bool, name: string, value: string, m: string)
    requires forall i :: 0 <= i < |q| ==> Rank(q[i].name) < Rank(name)
    ensures forall i :: 0 <= i < |AppendIf(q, present, name, value)| ==> Rank(AppendIf(q, present, name, value)[i].name) <= Rank(name)
    ensures Lookup(AppendIf(q, present, name, value), m) == if m == name && present then Some(value) else Lookup(q, m)
  {
    LookupAbsent(q, name);
    AppendIfLookup(q, present, name, value, m);
  }

  /**
    The value `getAccessLogs` is meant to send under `name`: `page` and `limit` exactly
    when they are truthy numbers (so `0` and a missing value are omitted), `sortBy` and
    `sortOrder` exactly when present, `search` exactly when non-empty, and nothing else.
  */
  function ExpectedParam(params: Params, name: string): Option<string> {
    if name == "page" then Expected(TruthyNumber(params.page), Text.IntText(params.page.GetOr(0)))
    else if name == "limit" then Expected(TruthyNumber(params.limit), Text.IntText(params.limit.GetOr(0)))
    else if name == "sortBy" then Expected(params.sortBy.Some?, SortByName(params.sortBy.GetOr(Id)))
    else if name == "sortOrder" then Expected(params.sortOrder.Some?, SortOrderName(params.sortOrder.GetOr(Asc)))
    else if name == "search" then Expected(Text.Truthy(params.search), params.search.GetOr(""))
    else None
  }

  /** What `getAccessLogs` sends under any name is exactly the expected value. */
  lemma SearchParamsValues(params: Params, name: string)
    ensures Lookup(SearchParams(params), name) == ExpectedParam(params, name)
  {
    var v1, v2, v3, v4, v5 := Text.IntText(params.page.GetOr(0)), Text.IntText(params.limit.GetOr(0)),
      SortByName(params.sortBy.GetOr(Id)), SortOrderName(params.sortOrder.GetOr(Asc)), params.search.GetOr("");
    var c1, c2, c3, c4, c5 := TruthyNumber(params.page), TruthyNumber(params.limit), params.sortBy.Some?,
      params.sortOrder.Some?, Text.Truthy(params.search);
    var q1 := AppendIf([], c1, "page", v1);
    var q2 := AppendIf(q1, c2, "limit", v2);
    var q3 := AppendIf(q2, c3, "sortBy", v3);
    var q4 := AppendIf(q3, c4, "sortOrder", v4);
    var q5 := AppendIf(q4, c5, "search", v5);
    assert SearchParams(params) == q5;
    AppendIfStep([], c1, "page", v1, name);
    AppendIfStep(q1, c2, "limit", v2, name);
    AppendIfStep(q2, c3, "sortBy", v3, name);
    AppendIfStep(q3, c4, "sortOrder", v4, name);
    AppendIfStep(q4, c5, "search", v5, name);
  }

  /** `${API_BASE_URL}/access-logs?`: the request URL before the serialised query. */
  function AccessLogsUrlPrefix(apiBaseUrl: string): (url: string)
    ensures |url| == |apiBaseUrl| + |"/access-logs?"|
    ensures url[..|apiBaseUrl|] == apiBaseUrl && url[|apiBaseUrl|..] == "/access-logs?"
  {
    apiBaseUrl + "/access-logs?"
  }

  /** The fixed messages thrown when a failed response carries no message. */
  const RecordAccessFallback := "Failed to record access"
  const GetAccessLogsFallback := "Failed to get access logs"
  const GetAccessCountFallback := "Failed to get access count"

  /** The error `getAccessLogs` throws for a failed response with the given body. */
  function GetAccessLogsError(body: Web.ErrorBody): (e: Web.Error)
    ensures body.JsonBody? ==> e.message == Text.OrElse(body.message, GetAccessLogsFallback)
    ensures body.Unparseable? ==> e == body.parseError
    ensures body.NullBody? ==> e == body.typeError
  {
    Web.ErrorFor(body, GetAccessLogsFallback)
  }

  /** The error `recordAccess` throws for a failed response with the given body. */
  function RecordAccessError(body: Web.ErrorBody): (e: Web.Error)
    ensures body.JsonBody? ==> e.message == Text.OrElse(body.message, RecordAccessFallback)
    ensures body.Unparseable? ==> e == body.parseError
    ensures body.NullBody? ==> e == body.typeError
  {
    Web.ErrorFor(body, RecordAccessFallback)
  }

  /** The error `getAccessCount` throws for a failed response with the given body. */
  function GetAccessCountError(body: Web.ErrorBody): (e: Web.Error)
    ensures body.JsonBody? ==> e.message == Text.OrElse(body.message, GetAccessCountFallback)
    ensures body.Unparseable? ==> e == body.parseError
    ensures body.NullBody? ==> e == body.typeError
  {
    Web.ErrorFor(body, GetAccessCountFallback)
  }

  /** `RecordAccessRequest`: the addresses sent when a page records a visit. */
  datatype RecordAccessRequest = RecordAccessRequest(ipv4: Option<string>, ipv6: Option<string>)
}
