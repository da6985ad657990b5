# job-finder helpers in Dafny

This project models the deterministic helpers of the job-finder scaffold: the resource
naming used by the infrastructure stacks, the input validators, the environment lookups,
the API response builders, the query-parameter mapping of the search handler, and the
request router of the job-search Lambda. Search, aggregation, get-job and sync are stubs
in the repository; the model reproduces exactly what the stubs do (an empty page, an
empty aggregation, a thrown `NotFoundError`) and invents no search behaviour.

Modules, one per source file plus two shared ones:

- `Wrappers` (`wrappers.dfy`): `Option` (an absent value, `undefined`) and `Result`
  (a value, or a thrown `Error` with its message).
- `Js` (`js.dfy`): the JavaScript semantics the helpers lean on: truthiness, the decimal
  text of an integer (template literals), `Number()` on decimal-integer text, and
  `indexOf`, `split`, `join`, `pop`, `startsWith`, `includes`.
- `Naming` (`naming.dfy`, infrastructure/lib/utils/naming.ts): `GetResourceName` and
  `GetResourceId` are methods that push parts onto a local sequence and join it, as the
  source does; each is proved equal to a function that spells out the output string.
- `Validation` (`validation.dfy`, packages/utils/src/validation.ts): the four validators,
  with the email regular expression `^[^\s@]+@[^\s@]+\.[^\s@]+$` written as a predicate
  over splits of the string and proved equivalent to a character-level statement.
- `Env` (`env.dfy`, packages/config/src/env.ts): `GetEnv` and `GetEnvAsBoolean` over an
  explicit environment map.
- `ApiGateway` (`api_gateway.dfy`, packages/types/src/aws/api-gateway.ts): the header merge
  and the conditional `details` of error bodies.
- `JobSearchTypes` (`job_search_types.dfy`): the request and response shapes.
- `SearchJobs` (`search_jobs.dfy`, services/job-search/src/handlers/search-jobs.ts).
- `JobSearchService` (`job_search_service.dfy`, services/job-search/src/index.ts): the
  routing decision `Dispatch`, the sub-handlers, and the catch that turns a throw into 500.

Three consequences of the code as written, each proved below:

- `MAX_PAGE_SIZE` (100) is declared at packages/config/src/constants.ts:8, but search-jobs.ts:23
  never consults it: a larger `limit` is passed on as written (`SearchJobs.LimitNotClamped`).
  No `min_salary <= max_salary` check is made at search-jobs.ts:21-22 either.
- `GET /api/v1/jobs/{id}` never answers 404: get-job.ts:17 always throws `NotFoundError`, and
  the catch at services/job-search/src/index.ts:42-45 turns every throw into 500
  (`JobSearchService.HandleGetJobIs500`).
- `provider` and `posted_after` are declared at packages/types/src/api/job-search.ts:11-12,
  but the request built at search-jobs.ts:17-25 never sets them (`SearchJobs.BuildRequest`).

## Model

| member | source | states |
|---|---|---|
| Naming.GetResourceName | infrastructure/lib/utils/naming.ts:14-25 | The name is exactly "job-finder-" + environment + "-" + service + "-" + resource when the service is truthy, and "job-finder-" + environment + "-" + resource otherwise (`ResourceName`). |
| Naming.GetResourceId | infrastructure/lib/utils/naming.ts:30-41 | The id is "JobFinder", the capitalised environment, the service part when the service is truthy, and the resource part, concatenated with no separator (`ResourceId`). |
| Naming.ResourceNameShape | infrastructure/lib/utils/naming.ts:16-24 | Every name starts with "job-finder-" + environment + "-" and ends with the resource. |
| Naming.EmptyServiceOmitted | infrastructure/lib/utils/naming.ts:18-20 | An empty service and an absent one give the same name and the same id. |
| Naming.RemoveHyphens | infrastructure/lib/utils/naming.ts:35 | `replace(/-/g, '')` leaves no hyphen and never lengthens the string. |
| Naming.RemoveHyphensKeepsOthers | infrastructure/lib/utils/naming.ts:38 | Hyphen removal keeps every other character as often as it occurred. |
| Naming.RemoveHyphensNoop | infrastructure/lib/utils/naming.ts:38 | A hyphen-free part is left unchanged. |
| Naming.RemoveHyphensAppend | infrastructure/lib/utils/naming.ts:38 | Hyphen removal distributes over concatenation, so the kept characters stay in order. |
| Naming.CapitalizeKeepsRest | infrastructure/lib/utils/naming.ts:32 | Only the first character of the environment is upper-cased; the rest, hyphens included, is kept and the length is unchanged. |
| Naming.IdPartShape | infrastructure/lib/utils/naming.ts:35-38 | A service or resource part is empty iff its input is; its first character is the upper-cased first input character (a leading hyphen survives); no hyphen follows it. |
| Naming.ResourceIdPrefix | infrastructure/lib/utils/naming.ts:32 | Every id starts with "JobFinder" followed by the capitalised environment. |
| Naming.ServiceContributesIff | infrastructure/lib/utils/naming.ts:34-36 | Giving a service changes the id iff the service is non-empty. |
| Js.JoinPush | infrastructure/lib/utils/naming.ts:24 | Pushing a part and joining equals joining, then appending the separator and the part. |
| Js.GivenIsTruthy | infrastructure/lib/utils/naming.ts:18 | An optional string is given exactly when it is truthy in JavaScript. |
| Js.SplitPieces | services/job-search/src/index.ts:31 | No piece of `split('/')` contains '/'. |
| Js.SplitJoin | services/job-search/src/index.ts:31 | Joining the pieces of `split(sep)` with sep gives the string back. |
| Js.LastSegmentIsPop | services/job-search/src/index.ts:31 | `split('/').pop()` is the text after the last '/' (the whole path if there is none). |
| Js.LastSegmentOf | services/job-search/src/index.ts:31 | For any path `a + "/" + id` with no '/' in id, the popped segment is id. |
| Js.ToNumber | services/job-search/src/handlers/search-jobs.ts:23 | Decimal-integer text is read as the integer it spells (exactly, with no double rounding), and only such text is; any other text is kept unconverted. |
| Js.Truthy | infrastructure/lib/utils/naming.ts:18 | `undefined` and `null` are falsy, every object is truthy, and a string is truthy iff it is non-empty. |
| Js.Includes | services/job-search/src/index.ts:32 | `includes` finds only substrings no longer than the string, and always finds a prefix. |
| Js.Split | services/job-search/src/index.ts:31 | `split(sep)` gives at least one piece; the whole string when sep is absent, else at least two pieces, the first being the text before the first sep. |
| Js.LastSegment | services/job-search/src/index.ts:31 | The popped segment has no sep and is no longer than the string; it is the whole string when sep is absent and empty when the string ends in sep. |
| Js.DecimalRoundTrip | services/job-search/src/handlers/search-jobs.ts:21-23 | `Number()` of an integer's decimal text gives that integer back. |
| Validation.ValidateRequired | packages/utils/src/validation.ts:5-10 | Succeeds iff the value is neither undefined nor null, and then returns it unchanged; otherwise fails with "<field> is required". |
| Validation.ValidateString | packages/utils/src/validation.ts:12-23 | Succeeds iff the value is a string whose length is within both optional inclusive bounds, returning that string; a non-string fails with "<field> must be a string". |
| Validation.ValidateStringMinimumFirst | packages/utils/src/validation.ts:16-18 | A string below the minimum gets the minimum-length error whatever the maximum, so when both bounds fail the minimum error wins. |
| Validation.ValidateStringMaximum | packages/utils/src/validation.ts:19-21 | A string meeting the minimum but over the maximum gets the maximum-length error. |
| Validation.ValidateNumber | packages/utils/src/validation.ts:25-37 | Succeeds iff the coerced number is not NaN and lies within both optional inclusive bounds, returning it; NaN fails with "<field> must be a number". |
| Validation.ValidateNumberMaximum | packages/utils/src/validation.ts:33-35 | A number that meets the minimum (or has none) but exceeds the maximum fails with "<field> must be at most <max>". |
| Validation.ValidateNumberMinimumFirst | packages/utils/src/validation.ts:30-32 | A number below the minimum gets the minimum error whatever the maximum. |
| Validation.OccurrencesOnce | packages/utils/src/validation.ts:41 | A character occurs exactly once iff no other position holds it. |
| Validation.EmailShapeMatches | packages/utils/src/validation.ts:41 | No white space, exactly one '@', a non-empty local part and a '.' strictly inside the domain make the regular expression match. |
| Validation.EmailPatternHasShape | packages/utils/src/validation.ts:41 | A string the regular expression matches has that character-level shape. |
| Validation.EmailShapeIffPattern | packages/utils/src/validation.ts:41-42 | The regular expression accepts a string iff it has the character-level email shape. |
| Validation.ValidateEmail | packages/utils/src/validation.ts:39-46 | Runs the string check first (non-strings fail with the string error); succeeds iff the string has the email shape, returning it unchanged; otherwise fails with "<field> must be a valid email address"; the field name defaults to "email". |
| Env.GetEnv | packages/config/src/env.ts:5-14 | Succeeds iff the variable is set or a default is given; a set value is returned verbatim (the default ignored), else the default; the failure message is "Environment variable <key> is required". |
| Env.GetEnvAsBoolean | packages/config/src/env.ts:25-28 | A set variable reads true iff its text is exactly "true" or "1"; an unset one gives the boolean default unchanged; with neither, getEnv's error. |
| Env.GetEnvSetWins | packages/config/src/env.ts:6-13 | After setting a variable, even to "", the lookup returns that value whatever the default. |
| Env.GetEnvOtherKey | packages/config/src/env.ts:6 | Setting a different variable does not change a lookup. |
| Env.BooleanTextRoundTrip | packages/config/src/env.ts:26-27 | A boolean default read back through its "true"/"false" text is the same boolean. |
| Env.NonCanonicalTextIsFalse | packages/config/src/env.ts:27 | "TRUE", "True", "yes", "on" and "" read as false. |
| ApiGateway.CreateResponse | packages/types/src/aws/api-gateway.ts:11-20 | The status code and body pass through; the header keys are exactly "Content-Type" plus the caller's keys; every caller header keeps its value; "application/json" is used unless the caller supplies "Content-Type". |
| ApiGateway.DefaultHeaders | packages/types/src/aws/api-gateway.ts:14-17 | Without caller headers the only header is the JSON content type. |
| ApiGateway.CreateErrorResponse | packages/types/src/aws/api-gateway.ts:22-27 | The body's error is the message; details are present iff the error argument is truthy, and then equal it. |
| SearchJobs.BuildRequest | services/job-search/src/handlers/search-jobs.ts:17-25 | q, location and cursor are copied verbatim; remote is true iff the parameter is exactly "true"; salaries are present iff their parameter is non-empty, and then are the `Number()` conversion of that parameter; limit is 20 when its parameter is absent or empty, else its conversion; provider and posted_after stay unset. |
| SearchJobs.SearchJobs | services/job-search/src/handlers/search-jobs.ts:27-33 | The answer is always 200 with no jobs, total 0 and no next cursor. |
| SearchJobs.LimitRoundTrip | services/job-search/src/handlers/search-jobs.ts:23 | Any integer limit written in decimal reaches the request unchanged. |
| SearchJobs.LimitNotClamped | packages/config/src/constants.ts:8 | A limit above MAX_PAGE_SIZE is passed on as written, not clamped. |
| SearchJobs.SalaryRoundTrip | services/job-search/src/handlers/search-jobs.ts:21-22 | Integer salary bounds written in decimal reach the request unchanged, with no min <= max check. |
| SearchJobs.RemoteRoundTrip | services/job-search/src/handlers/search-jobs.ts:20 | A boolean written as "true"/"false" reaches the request as that boolean. |
| SearchJobs.NoQueryString | services/job-search/src/handlers/search-jobs.ts:17-25 | With no query string, every optional field is absent, remote is false and limit is 20. |
| JobSearchService.Dispatch | services/job-search/src/index.ts:26-41 | A method other than GET is never routed; search is chosen iff GET on "/api/v1/jobs"; a get-job route has the path under "/api/v1/jobs/" and as id its last segment, non-empty, without '/' and without "aggregations"; aggregations only for its exact path. |
| JobSearchService.GetJob | services/job-search/src/handlers/get-job.ts:17 | Always throws a truthy `NotFoundError` object carrying the job id. |
| JobSearchService.GetAggregations | services/job-search/src/handlers/get-aggregations.ts:18-23 | Answers 200 with JSON headers and empty locations and salary ranges. |
| JobSearchService.Run | services/job-search/src/index.ts:22-41 | The routed call throws iff the route is get-job; otherwise it returns 200, or 404 iff no route matched, with JSON headers. |
| JobSearchService.Handle | services/job-search/src/index.ts:22-45 | Every event is answered 200, 404 or 500 with JSON headers; a 500 carries "Internal Server Error". |
| JobSearchService.DispatchSearchIff | services/job-search/src/index.ts:26-28 | Search is chosen iff the method is GET and the path is exactly "/api/v1/jobs". |
| JobSearchService.DispatchGetJobIff | services/job-search/src/index.ts:30-34 | Get-job(id) is chosen iff the method is GET, the path starts with "/api/v1/jobs/", and id is the text after the last '/', non-empty and without "aggregations". |
| JobSearchService.DispatchNestedId | services/job-search/src/index.ts:31 | Under nested segments only the last one is the id. |
| JobSearchService.DispatchDirectId | services/job-search/src/index.ts:30-34 | GET "/api/v1/jobs/" + id goes to get-job(id) for a non-empty id with no '/' and no "aggregations". |
| JobSearchService.DispatchNestedExample | services/job-search/src/index.ts:31 | GET "/api/v1/jobs/a/b" goes to get-job with id "b". |
| JobSearchService.DispatchAggregationsIff | services/job-search/src/index.ts:37-39 | Aggregations is chosen iff the method is GET and the path is exactly "/api/v1/jobs/aggregations"; that path never reaches get-job. |
| JobSearchService.GetJobIdNeverAggregations | services/job-search/src/index.ts:32 | No get-job id ever contains "aggregations". |
| JobSearchService.NonGetNotFound | services/job-search/src/index.ts:41 | Every method other than GET falls through to not found. |
| JobSearchService.TrailingSlashNotFound | services/job-search/src/index.ts:32 | Any path ending in '/', "/api/v1/jobs/" included, is not found. |
| JobSearchService.JobsPathLastSegment | services/job-search/src/index.ts:26 | The last segment of "/api/v1/jobs" is "jobs". |
| JobSearchService.AggregationsInIdNotFound | services/job-search/src/index.ts:32-41 | A last segment containing "aggregations", other than the aggregations path itself, is not found. |
| JobSearchService.Catch | services/job-search/src/index.ts:42-45 | A returned response passes through; any thrown value becomes 500 "Internal Server Error" with the JSON headers, whose details are that value iff it is truthy. |
| JobSearchService.HandleSearch | services/job-search/src/index.ts:26-28 | A search request is answered 200 with an empty page. |
| JobSearchService.HandleGetJobIs500 | services/job-search/src/handlers/get-job.ts:17 | Every get-job request ends in 500 carrying the NotFoundError('Job', id) as details, never in 404. |
| JobSearchService.HandleNotFound | services/job-search/src/index.ts:41 | An unmatched request is answered 404 "Not Found" with no details. |
| JobSearchService.HandleStatus | services/job-search/src/index.ts:22-45 | The status is 200, 404 or 500; 404 iff no route matched; 500 iff the route is get-job. |

## Left out

- Logging: the request logger and every `logger` call are dropped; they only write output.
- `async`/`await` and the Lambda `context`: the handler is modelled as a function of the event.
- JSON encoding: a response carries its body value; `JSON.stringify` is not modelled.
- `Number()` on text outside the decimal-integer grammar (floats, exponents, blanks, "abc"
  giving NaN) is kept abstract as the unconverted text; "-0" reads as 0.
- Js.ToNumber: reads decimal-integer text as an exact unbounded integer; the rounding of a JavaScript double beyond 2^53 and the overflow of very long digit strings to Infinity are not modelled.
- Js.IntToDecimal: always writes plain decimal digits; JavaScript writes integers of magnitude 1e21 and above in exponent form ("1e+21"), so the validator messages for such bounds differ.
- SearchJobs.LimitRoundTrip: holds for every integer in the model; in JavaScript only integers of magnitude up to 2^53 survive the text round trip unchanged.
- SearchJobs.SalaryRoundTrip: same limit as LimitRoundTrip, beyond 2^53 a double would round the salary.
- SearchJobs.LimitNotClamped: the limit passed on is exact in the model; in JavaScript one beyond 2^53 arrives rounded (still unclamped).
- Validation.ValidateNumber: takes the number after `Number()` coercion, restricted to integers and NaN; the coercion itself, fractions and infinities are not modelled.
- Validation.ValidateString: lengths and bounds are counted in characters, not UTF-16 code units, and the bounds are integers.
- Naming.GetResourceId: upper-cases only the ASCII letters a-z; full Unicode case mapping (which can change a string's length) is not modelled.
- `getEnvAsNumber` and the module-level `env` object of packages/config/src/env.ts: the first rests on `Number()` coercion, the second reads the process environment at load time.
- The `NotFoundError` class is not part of this model beyond its constructor arguments; a thrown instance is an object value, hence truthy.
- Handlers that are constant stubs: get-aggregations is modelled only as its fixed empty 200 answer; the search-management, user, job-sync and provider-integration services are not part of this model.
- packages/utils/src/date.ts and crypto.ts (calendar arithmetic, randomness, hashing), packages/aws-sdk (network clients) and the CDK wiring under infrastructure/bin and tags.ts are not part of this model.
- Search ranking, pagination cursors, aggregation buckets and ingestion have no code in the repository and are not modelled.
