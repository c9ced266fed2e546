/** The records exchanged by the search engine, its callers and its cache:
    a job listing as the service returns it, a search query and a search
    result. Timestamps are instants (milliseconds since the epoch); a
    JavaScript optional field is an `Option`. */
module Types {
  import opened Wrappers

  datatype JobListing = JobListing(
    id: string,
    title: string,
    description: string,
    skills: seq<string>,
    skillsEmbedding: Option<seq<real>>,
    company: string,
    location: string,
    salaryMin: Option<int>,
    salaryMax: Option<int>,
    createdAt: int,
    updatedAt: int)

  /** A query as the controllers build it; `limit` and `offset` may be left
      out, in which case the services use `DefaultLimit` and `DefaultOffset`. */
  datatype SearchQuery = SearchQuery(
    skills: seq<string>,
    location: Option<string>,
    salaryMin: Option<int>,
    salaryMax: Option<int>,
    limit: Option<int>,
    offset: Option<int>)

  datatype SearchResult = SearchResult(
    jobListings: seq<JobListing>,
    total: int,
    limit: int,
    offset: int)

  const DefaultLimit: int := 10
  const DefaultOffset: int := 0

  /** JavaScript truthiness of an optional number: present and not 0. */
  predicate Truthy(n: Option<int>) {
    n.Some? && n.value != 0
  }

  /** JavaScript truthiness of an optional string: present and not empty. */
  predicate NonEmpty(s: Option<string>) {
    s.Some? && s.value != ""
  }

  /** The query the services build when only skills are given. */
  function SkillsOnly(skills: seq<string>): SearchQuery {
    SearchQuery(skills, None, None, None, None, None)
  }
}
