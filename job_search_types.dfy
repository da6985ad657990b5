/** The job-search API shapes (packages/types/src/api/job-search.ts). */
module JobSearchTypes {
  import opened Wrappers
  import opened Js

  datatype Job = Job(
    job_id: string,
    provider_id: string,
    title: string,
    description: string,
    company: string,
    location: string,
    remote: bool,
    min_salary: Option<int>,
    max_salary: Option<int>,
    posted_date: string,
    expires_at: Option<string>,
    apply_url: string,
    tags: Option<seq<string>>)

  /** A search request; every field is optional. Numbers are what `Number()` made of the text. */
  datatype SearchJobsRequest = SearchJobsRequest(
    q: Option<string>,
    location: Option<string>,
    remote: Option<bool>,
    min_salary: Option<Converted>,
    max_salary: Option<Converted>,
    provider: Option<string>,
    posted_after: Option<string>,
    limit: Option<Converted>,
    cursor: Option<string>)

  datatype SearchJobsResponse = SearchJobsResponse(jobs: seq<Job>, total: int, next_cursor: Option<string>)

  datatype LocationCount = LocationCount(location: string, count: int)
  datatype SalaryRangeCount = SalaryRangeCount(range: string, count: int)
  datatype AggregationsResponse = AggregationsResponse(locations: seq<LocationCount>, salary_ranges: seq<SalaryRangeCount>)
}
