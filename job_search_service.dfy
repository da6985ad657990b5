/**
 * The job-search Lambda handler (services/job-search/src/index.ts): a chain of route checks
 * on the path and method, sub-handlers, and a catch that turns any throw into a 500.
 */
module JobSearchService {
  import opened Wrappers
  import opened Js
  import opened JobSearchTypes
  import opened ApiGateway
  import SearchJobs

  const JobsPath: string := "/api/v1/jobs"
  const JobsPrefix: string := "/api/v1/jobs/"
  const AggregationsPath: string := "/api/v1/jobs/aggregations"
  const Get: string := "GET"

  /** Where a request goes. */
  datatype Route = SearchRoute | GetJobRoute(jobId: string) | AggregationsRoute | NotFoundRoute

  /** The routing decision of the handler, in the order the checks are made. */
  function Dispatch(path: string, httpMethod: string): (r: Route)
    ensures httpMethod != Get ==> r == NotFoundRoute
    ensures r == SearchRoute <==> path == JobsPath && httpMethod == Get
    ensures r.GetJobRoute? ==> StartsWith(path, JobsPrefix) && r.jobId == LastSegment(path, '/')
                               && r.jobId != "" && '/' !in r.jobId && !Includes(r.jobId, "aggregations")
    ensures r == AggregationsRoute ==> path == AggregationsPath
  {
    if path == JobsPath && httpMethod == Get then SearchRoute
    else if StartsWith(path, JobsPrefix) && httpMethod == Get
            && LastSegment(path, '/') != "" && !Includes(LastSegment(path, '/'), "aggregations")
    then GetJobRoute(LastSegment(path, '/'))
    else if path == AggregationsPath && httpMethod == Get then AggregationsRoute
    else NotFoundRoute
  }

  // ---------------------------------------------------------------------------
  // Routing properties
  // ---------------------------------------------------------------------------

  /** Search is chosen exactly for GET on the collection path. */
  lemma DispatchSearchIff(path: string, httpMethod: string)
    ensures Dispatch(path, httpMethod) == SearchRoute <==> path == JobsPath && httpMethod == Get
  {
  }

  /**
   * Get-job is chosen exactly for GET under the collection prefix when the text after the
   * last '/' is non-empty and does not contain "aggregations"; that text is the id.
   */
  lemma DispatchGetJobIff(path: string, httpMethod: string, id: string)
    ensures Dispatch(path, httpMethod) == GetJobRoute(id)
        <==> httpMethod == Get && StartsWith(path, JobsPrefix)
             && id == LastSegment(path, '/') && id != "" && !Includes(id, "aggregations")
  {
  }

  /** The id is the last segment even under nested segments: "/api/v1/jobs/a/b" gives "b". */
  lemma DispatchNestedId(middle: string, id: string)
    requires '/' !in id && id != "" && !Includes(id, "aggregations")
    ensures Dispatch(JobsPrefix + middle + "/" + id, Get) == GetJobRoute(id)
  {
    var path := JobsPrefix + middle + "/" + id;
    assert path == (JobsPrefix + middle) + ['/'] + id;
    LastSegmentOf(JobsPrefix + middle, id, '/');
    assert path[..|JobsPrefix|] == JobsPrefix;
  }

  /** A plain id directly under the collection goes to get-job. */
  lemma DispatchDirectId(id: string)
    requires '/' !in id && id != "" && !Includes(id, "aggregations")
    ensures Dispatch(JobsPrefix + id, Get) == GetJobRoute(id)
  {
    assert JobsPrefix + id == JobsPath + ['/'] + id;
    LastSegmentOf(JobsPath, id, '/');
  }

  /** The example of a nested path. */
  lemma DispatchNestedExample()
    ensures Dispatch("/api/v1/jobs/a/b", Get) == GetJobRoute("b")
  {
    assert !Includes("b", "aggregations");
    DispatchNestedId("a", "b");
    assert JobsPrefix + "a" + "/" + "b" == "/api/v1/jobs/a/b";
  }

  /** Aggregations is chosen exactly for GET on its path, which never reaches get-job. */
  lemma DispatchAggregationsIff(path: string, httpMethod: string)
    ensures Dispatch(path, httpMethod) == AggregationsRoute <==> path == AggregationsPath && httpMethod == Get
  {
    if path == AggregationsPath {
      assert path == JobsPath + ['/'] + "aggregations";
      LastSegmentOf(JobsPath, "aggregations", '/');
      assert OccursAt("aggregations", "aggregations", 0);
    }
  }

  /** No get-job id ever contains "aggregations". */
  lemma GetJobIdNeverAggregations(path: string, httpMethod: string)
    ensures Dispatch(path, httpMethod).GetJobRoute? ==> !Includes(Dispatch(path, httpMethod).jobId, "aggregations")
  {
  }

  /** Every method other than GET is not found. */
  lemma NonGetNotFound(path: string, httpMethod: string)
    requires httpMethod != Get
    ensures Dispatch(path, httpMethod) == NotFoundRoute
  {
  }

  /** A path with a trailing slash, "/api/v1/jobs/" included, is not found. */
  lemma TrailingSlashNotFound(path: string, httpMethod: string)
    requires |path| > 0 && path[|path| - 1] == '/'
    ensures Dispatch(path, httpMethod) == NotFoundRoute
  {
    assert path == path[..|path| - 1] + ['/'];
    LastSegmentOfTrailing(path[..|path| - 1], '/');
  }

  /** The collection path's last segment is "jobs". */
  lemma JobsPathLastSegment()
    ensures LastSegment(JobsPath, '/') == "jobs"
  {
    assert JobsPath == "/api/v1" + ['/'] + "jobs";
    LastSegmentOf("/api/v1", "jobs", '/');
  }

  /** An id containing "aggregations", other than the aggregations path itself, is not found. */
  lemma AggregationsInIdNotFound(path: string, httpMethod: string)
    requires path != AggregationsPath && Includes(LastSegment(path, '/'), "aggregations")
    ensures Dispatch(path, httpMethod) == NotFoundRoute
  {
    if path == JobsPath {
      JobsPathLastSegment();
      assert false;
    }
  }

  // ---------------------------------------------------------------------------
  // Sub-handlers and the handler
  // ---------------------------------------------------------------------------

  /** The request as far as the handler uses it. */
  datatype Event = Event(path: string, httpMethod: string, queryStringParameters: SearchJobs.QueryParams)

  /** The bodies the handler can answer with. */
  datatype Payload =
    | SearchPayload(search: SearchJobsResponse)
    | AggregationsPayload(aggregations: AggregationsResponse)
    | ErrorPayload(failure: ErrorBody)

  /** What a sub-handler does: return a response or throw a value. */
  datatype Outcome = Returned(response: Response<Payload>) | Threw(error: JsValue)

  /** A `NotFoundError(resource, id)` instance, an object and so truthy. */
  function NotFoundError(resource: string, id: string): JsValue
  {
    Object("NotFoundError", [Str(resource), Str(id)])
  }

  /** getJob (services/job-search/src/handlers/get-job.ts): always throws NotFoundError('Job', id). */
  function GetJob(jobId: string): (o: Outcome)
    ensures o.Threw? && Truthy(o.error)
    ensures o.error.Object? && o.error.className == "NotFoundError" && Str(jobId) in o.error.args
  {
    Threw(NotFoundError("Job", jobId))
  }

  /** getAggregations: a placeholder 200 with no buckets. */
  function GetAggregations(): (r: Response<AggregationsResponse>)
    ensures r.statusCode == 200 && r.headers == map[ContentType := ApplicationJson]
    ensures r.body.locations == [] && r.body.salary_ranges == []
  {
    CreateResponse(200, AggregationsResponse([], []))
  }

  function WithPayload<T>(r: Response<T>, wrap: T -> Payload): Response<Payload>
  {
    Response(r.statusCode, r.headers, wrap(r.body))
  }

  /** The body of the try block: dispatch, then run the chosen sub-handler. */
  function Run(event: Event): (o: Outcome)
    ensures o.Threw? <==> Dispatch(event.path, event.httpMethod).GetJobRoute?
    ensures o.Returned? ==> o.response.statusCode in {200, 404}
    ensures o.Returned? ==> (o.response.statusCode == 404 <==> Dispatch(event.path, event.httpMethod) == NotFoundRoute)
    ensures o.Returned? ==> o.response.headers == map[ContentType := ApplicationJson]
  {
    match Dispatch(event.path, event.httpMethod)
    case SearchRoute =>
      Returned(WithPayload(SearchJobs.SearchJobs(event.queryStringParameters), b => SearchPayload(b)))
    case GetJobRoute(id) => GetJob(id)
    case AggregationsRoute => Returned(WithPayload(GetAggregations(), b => AggregationsPayload(b)))
    case NotFoundRoute => Returned(WithPayload(CreateErrorResponse(404, "Not Found"), b => ErrorPayload(b)))
  }

  /** The catch: a returned response passes through, a thrown value becomes a 500 carrying it. */
  function Catch(o: Outcome): (r: Response<Payload>)
    ensures o.Returned? ==> r == o.response
    ensures o.Threw? ==> r.statusCode == 500 && r.body.ErrorPayload?
                         && r.body.failure.error == "Internal Server Error"
    ensures o.Threw? ==> (r.body.failure.details == Some(o.error) <==> Truthy(o.error))
    ensures o.Threw? ==> (r.body.failure.details.None? <==> !Truthy(o.error))
    ensures o.Threw? ==> r.headers == map[ContentType := ApplicationJson]
  {
    match o
    case Returned(response) => response
    case Threw(e) => WithPayload(CreateErrorResponse(500, "Internal Server Error", e), b => ErrorPayload(b))
  }

  /** handler: the try block under the catch. */
  function Handle(event: Event): (r: Response<Payload>)
    ensures r.statusCode in {200, 404, 500}
    ensures r.headers == map[ContentType := ApplicationJson]
    ensures r.statusCode == 500 ==> r.body.ErrorPayload? && r.body.failure.error == "Internal Server Error"
  {
    Catch(Run(event))
  }

  // ---------------------------------------------------------------------------
  // Handler properties
  // ---------------------------------------------------------------------------

  /** A search request is answered with 200 and an empty page. */
  lemma HandleSearch(event: Event)
    requires Dispatch(event.path, event.httpMethod) == SearchRoute
    ensures Handle(event).statusCode == 200
    ensures Handle(event).body == SearchPayload(SearchJobsResponse([], 0, None))
  {
  }

  /** Every get-job request ends in 500 with the NotFoundError as details, never in 404. */
  lemma HandleGetJobIs500(event: Event)
    requires Dispatch(event.path, event.httpMethod).GetJobRoute?
    ensures var id := Dispatch(event.path, event.httpMethod).jobId;
      Handle(event).statusCode == 500
      && Handle(event).body == ErrorPayload(ErrorBody("Internal Server Error", Some(NotFoundError("Job", id))))
  {
  }

  /** An unmatched request is answered with 404 "Not Found" and no details. */
  lemma HandleNotFound(event: Event)
    requires Dispatch(event.path, event.httpMethod) == NotFoundRoute
    ensures Handle(event).statusCode == 404
    ensures Handle(event).body == ErrorPayload(ErrorBody("Not Found", None))
  {
  }

  /** The status is 200, 404 or 500, and 404 exactly when no route matched. */
  lemma HandleStatus(event: Event)
    ensures Handle(event).statusCode in {200, 404, 500}
    ensures Handle(event).statusCode == 404 <==> Dispatch(event.path, event.httpMethod) == NotFoundRoute
    ensures Handle(event).statusCode == 500 <==> Dispatch(event.path, event.httpMethod).GetJobRoute?
  {
  }
}
