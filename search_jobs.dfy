/**
 * The search-jobs handler (services/job-search/src/handlers/search-jobs.ts): it maps the
 * query-string parameters to a search request and answers with a fixed empty page.
 */
module SearchJobs {
  import opened Wrappers
  import opened Js
  import opened JobSearchTypes
  import opened ApiGateway

  /** `event.queryStringParameters`: null when the request has no query string. */
  type QueryParams = Option<map<string, string>>

  const DefaultPageSize: int := 20
  const MaxPageSize: int := 100

  /** `event.queryStringParameters?.[name]`. */
  function Param(params: QueryParams, name: string): Option<string>
  {
    if params.Some? && name in params.value then Some(params.value[name]) else None
  }

  /** `p ? Number(p) : undefined` for an optional numeric parameter. */
  function NumericParam(p: Option<string>): Option<Converted>
  {
    if Given(p) then Some(ToNumber(p.value)) else None
  }

  /** The request built from the query parameters. */
  function BuildRequest(params: QueryParams): (request: SearchJobsRequest)
    ensures request.q == Param(params, "q")
    ensures request.location == Param(params, "location")
    ensures request.cursor == Param(params, "cursor")
    ensures request.remote == Some(true) <==> Param(params, "remote") == Some("true")
    ensures request.remote.Some?
    ensures request.provider.None? && request.posted_after.None?
    ensures request.min_salary.Some? <==> Given(Param(params, "min_salary"))
    ensures request.max_salary.Some? <==> Given(Param(params, "max_salary"))
    ensures Given(Param(params, "min_salary")) ==> request.min_salary == Some(ToNumber(Param(params, "min_salary").value))
    ensures Given(Param(params, "max_salary")) ==> request.max_salary == Some(ToNumber(Param(params, "max_salary").value))
    ensures !Given(Param(params, "limit")) ==> request.limit == Some(Integer(DefaultPageSize))
    ensures Given(Param(params, "limit")) ==> request.limit == Some(ToNumber(Param(params, "limit").value))
  {
    SearchJobsRequest(
      q := Param(params, "q"),
      location := Param(params, "location"),
      remote := Some(Param(params, "remote") == Some("true")),
      min_salary := NumericParam(Param(params, "min_salary")),
      max_salary := NumericParam(Param(params, "max_salary")),
      provider := None,
      posted_after := None,
      limit := if Given(Param(params, "limit")) then Some(ToNumber(Param(params, "limit").value))
               else Some(Integer(DefaultPageSize)),
      cursor := Param(params, "cursor"))
  }

  /** searchJobs: always 200 with no jobs, a zero total and no next cursor. */
  function SearchJobs(params: QueryParams): (response: Response<SearchJobsResponse>)
    ensures response.statusCode == 200
    ensures response.headers == map[ContentType := ApplicationJson]
    ensures response.body.jobs == [] && response.body.total == 0 && response.body.next_cursor.None?
  {
    // The request is built (and only logged) before the placeholder answer.
    var _ := BuildRequest(params);
    CreateResponse(200, SearchJobsResponse([], 0, None))
  }

  /** Any integer limit written in decimal reaches the request unchanged, with no clamp to MaxPageSize. */
  lemma LimitRoundTrip(params: map<string, string>, n: int)
    requires "limit" in params && params["limit"] == IntToDecimal(n)
    ensures BuildRequest(Some(params)).limit == Some(Integer(n))
  {
    DecimalRoundTrip(n);
  }

  /** A limit above the maximum page size is passed on as is. */
  lemma LimitNotClamped(n: int)
    requires n > MaxPageSize
    ensures BuildRequest(Some(map["limit" := IntToDecimal(n)])).limit == Some(Integer(n))
  {
    LimitRoundTrip(map["limit" := IntToDecimal(n)], n);
  }

  /** Salary bounds written in decimal reach the request unchanged; min <= max is not checked. */
  lemma SalaryRoundTrip(params: map<string, string>, min: int, max: int)
    requires "min_salary" in params && params["min_salary"] == IntToDecimal(min)
    requires "max_salary" in params && params["max_salary"] == IntToDecimal(max)
    ensures BuildRequest(Some(params)).min_salary == Some(Integer(min))
    ensures BuildRequest(Some(params)).max_salary == Some(Integer(max))
  {
    DecimalRoundTrip(min);
    DecimalRoundTrip(max);
  }

  /** A boolean written as its text form reaches the request as that boolean. */
  lemma RemoteRoundTrip(params: map<string, string>, b: bool)
    requires "remote" in params && params["remote"] == BoolToString(b)
    ensures BuildRequest(Some(params)).remote == Some(b)
  {
  }

  /** Without a query string, every optional field is absent and the defaults apply. */
  lemma NoQueryString()
    ensures BuildRequest(None)
         == SearchJobsRequest(None, None, Some(false), None, None, None, None, Some(Integer(DefaultPageSize)), None)
  {
  }
}
