/** The controller of the pgvector service: the two GET handlers, `search`
    and `exportSearch`, as functions from a request to a response. The
    routes' validation chain of this variant is not part of the model: its
    verdict is the parameter `validated`. The search service and the clock
    are parameters as well: `serve` is what `searchJobs` does with a query,
    `None` when it throws; `cached` says that `searchJobs` answered the
    query from the cache; `iso` writes a timestamp. */
module VectorController {
  import opened Wrappers
  import opened Text
  import opened Types
  import opened Paging
  import opened Http
  import VectorExport
  import RecencyExport
  import RecencyController

  /** The skills of a request: every comma-separated segment, trimmed.
      Blank segments are kept; an absent or empty parameter has none. */
  function Skills(param: Option<string>): (r: seq<string>)
    ensures |r| == 0 <==> param.None? || param.value == ""
    ensures |r| > 0 ==> |r| == |Split(param.value, ',')|
                        && forall i :: 0 <= i < |r| ==> r[i] == Trim(Split(param.value, ',')[i])
  {
    if param.Some? && param.value != "" then TrimAll(Split(param.value, ',')) else []
  }

  /** A non-empty parameter has one skill more than it has commas. */
  lemma SkillsCount(param: Option<string>)
    ensures |Skills(param)| == if param.None? || param.value == "" then 0 else Occurrences(param.value, ',') + 1
  {
    if param.Some? && param.value != "" {
      SplitCount(param.value, ',');
    }
  }

  /** The numeric parameters are integer texts whenever they are present
      and not empty. */
  predicate NumbersReadable(req: Request) {
    Readable(req.salaryMin) && Readable(req.salaryMax) && Readable(req.limit) && Readable(req.offset)
  }

  /** What `search` does before it calls the service: the query it passes
      on, or the response it gives without calling the service. An absent
      or empty limit is 10 and the limit is capped at 100; an absent or
      empty offset is 0. */
  function ParseSearch(validated: bool, req: Request): Result<SearchQuery, Response>
    requires NumbersReadable(req)
  {
    if !validated then Failure(InvalidParameters)
    else if |Skills(req.skills)| == 0 then Failure(BadRequest(SkillRequired))
    else
      var limit := OptionalInt(req.limit).GetOr(DefaultLimit);
      var offset := OptionalInt(req.offset).GetOr(DefaultOffset);
      Success(SearchQuery(Skills(req.skills), req.location, OptionalInt(req.salaryMin), OptionalInt(req.salaryMax),
                          Some(Min(limit, MaxLimit)), Some(offset)))
  }

  /** `search`. */
  function Search(validated: bool, req: Request, serve: SearchQuery -> Option<SearchResult>): Response
    requires NumbersReadable(req)
  {
    match ParseSearch(validated, req)
    case Failure(early) => early
    case Success(q) => if serve(q).Some? then Ok(serve(q).value) else ServerError(InternalError)
  }

  /** What `exportSearch` does before it calls the service. The export
      flag is checked before the validation verdict, and the query always
      asks for the first 1000 results. */
  function ParseExport(exportEnabled: bool, validated: bool, req: Request): Result<SearchQuery, Response>
    requires NumbersReadable(req)
  {
    if !exportEnabled then Failure(Forbidden(ExportDisabled))
    else if !validated then Failure(InvalidParameters)
    else if |Skills(req.skills)| == 0 then Failure(BadRequest(SkillRequired))
    else Success(SearchQuery(Skills(req.skills), req.location, OptionalInt(req.salaryMin), OptionalInt(req.salaryMax),
                             Some(ExportLimit), Some(ExportOffset)))
  }

  /** `exportSearch`: the search result rendered by the pgvector export.
      A result answered from the cache has its creation times as text,
      which the export cannot convert: unless it holds no listing, the
      export throws and the request gets 500. */
  function ExportSearch(exportEnabled: bool, validated: bool, req: Request,
                        serve: SearchQuery -> Option<SearchResult>, cached: SearchQuery -> bool,
                        iso: int -> string): Response
    requires NumbersReadable(req)
  {
    match ParseExport(exportEnabled, validated, req)
    case Failure(early) => early
    case Success(q) =>
      if serve(q).None? || (cached(q) && |serve(q).value.jobListings| > 0) then ServerError(ExportFailed)
      else CsvAttachment(VectorExport.Render(serve(q).value.jobListings, iso))
  }

  /** `exportSearch` as the recency variant writes its export: a creation
      time given as text is read back into a date before it is written,
      so a result answered from the cache exports like any other. */
  function ExportSearchIntended(exportEnabled: bool, validated: bool, req: Request,
                                serve: SearchQuery -> Option<SearchResult>, iso: int -> string): Response
    requires NumbersReadable(req)
  {
    match ParseExport(exportEnabled, validated, req)
    case Failure(early) => early
    case Success(q) =>
      if serve(q).None? then ServerError(ExportFailed)
      else CsvAttachment(RecencyExport.Render(RecencyExport.LooseAll(serve(q).value.jobListings), iso))
  }

  /** An export whose search is answered from the cache with at least one
      listing fails with 500, where the same result read from the
      database is sent as CSV. */
  lemma CachedExportFails(exportEnabled: bool, validated: bool, req: Request,
                          serve: SearchQuery -> Option<SearchResult>, cached: SearchQuery -> bool,
                          iso: int -> string)
    requires NumbersReadable(req)
    requires ParseExport(exportEnabled, validated, req).Success?
    requires var q := ParseExport(exportEnabled, validated, req).value;
             serve(q).Some? && |serve(q).value.jobListings| > 0 && cached(q)
    ensures ExportSearch(exportEnabled, validated, req, serve, cached, iso) == ServerError(ExportFailed)
    ensures var q := ParseExport(exportEnabled, validated, req).value;
            ExportSearch(exportEnabled, validated, req, serve, _ => false, iso)
            == CsvAttachment(VectorExport.Render(serve(q).value.jobListings, iso))
  {
  }

  /** The intended export answers every request, whether or not its
      search was answered from the cache, as the code answers it when the
      result comes from the database; the two differ only on a result
      with listings answered from the cache. */
  lemma IntendedExportIgnoresCache(exportEnabled: bool, validated: bool, req: Request,
                                   serve: SearchQuery -> Option<SearchResult>, cached: SearchQuery -> bool,
                                   iso: int -> string)
    requires NumbersReadable(req)
    ensures ExportSearchIntended(exportEnabled, validated, req, serve, iso)
            == ExportSearch(exportEnabled, validated, req, serve, _ => false, iso)
    ensures ExportSearchIntended(exportEnabled, validated, req, serve, iso)
            != ExportSearch(exportEnabled, validated, req, serve, cached, iso)
            ==> var parsed := ParseExport(exportEnabled, validated, req);
                && parsed.Success? && cached(parsed.value)
                && serve(parsed.value).Some? && |serve(parsed.value).value.jobListings| > 0
  {
    var parsed := ParseExport(exportEnabled, validated, req);
    if parsed.Success? && serve(parsed.value).Some? {
      RecencyExport.AgreesWithVectorExport(serve(parsed.value).value.jobListings, iso);
    }
  }

  /** A request the validation chain rejects gets 400 with its errors; one
      with an absent or empty `skills` gets 400 with a message; neither
      reaches the service, so the response does not depend on it.
      Otherwise the service's result is sent unchanged with 200, and a
      failure of the service gives 500. */
  lemma SearchOutcome(validated: bool, req: Request, serve: SearchQuery -> Option<SearchResult>)
    requires NumbersReadable(req)
    ensures !validated ==> Search(validated, req, serve) == InvalidParameters
    ensures Search(validated, req, serve) == BadRequest(SkillRequired)
            <==> validated && (req.skills.None? || req.skills.value == "")
    ensures ParseSearch(validated, req).Failure? ==> forall other :: Search(validated, req, other) == Search(validated, req, serve)
    ensures ParseSearch(validated, req).Success? ==>
              var q := ParseSearch(validated, req).value;
              Search(validated, req, serve) == if serve(q).Some? then Ok(serve(q).value) else ServerError(InternalError)
    ensures Status(Search(validated, req, serve)) in {200, 400, 500}
  {
  }

  /** The query a search passes on has one skill per comma-separated
      segment of the parameter, blank ones included. The limit is at most
      100, 10 when absent or empty, and otherwise the parameter's value
      capped at 100; the offset is the parameter's value, 0 when absent or
      empty; a salary bound is set exactly when its parameter is present
      and not empty. */
  lemma ParsedQuery(validated: bool, req: Request)
    requires NumbersReadable(req)
    ensures ParseSearch(validated, req).Success? ==>
              var q := ParseSearch(validated, req).value;
              && |q.skills| == Occurrences(req.skills.value, ',') + 1
              && q.skills == Skills(req.skills)
              && q.location == req.location
              && q.limit.Some? && q.limit.value <= MaxLimit
              && (req.limit.None? || req.limit.value == "" ==> q.limit == Some(DefaultLimit))
              && (req.limit.Some? && req.limit.value != "" ==> q.limit == Some(Min(IntValue(req.limit.value), MaxLimit)))
              && (req.offset.None? || req.offset.value == "" ==> q.offset == Some(DefaultOffset))
              && (req.offset.Some? && req.offset.value != "" ==> q.offset == Some(IntValue(req.offset.value)))
              && (q.salaryMin.Some? <==> req.salaryMin.Some? && req.salaryMin.value != "")
              && (q.salaryMax.Some? <==> req.salaryMax.Some? && req.salaryMax.value != "")
  {
    SkillsCount(req.skills);
  }

  /** The two variants differ on a blank `skills` parameter: the recency
      controller drops blank segments and refuses a request left with no
      skill, while this one searches for the empty skill. */
  lemma BlankSkillSearched(w: string, serve: SearchQuery -> Option<SearchResult>)
    requires |w| > 0 && forall i :: 0 <= i < |w| ==> IsWhitespace(w[i])
    ensures var req := Request(Some(w), None, None, None, None, None);
            && RecencyController.Search(req, serve) == BadRequest(SkillRequired)
            && ParseSearch(true, req)
               == Success(SearchQuery([""], None, None, None, Some(DefaultLimit), Some(DefaultOffset)))
  {
    var req := Request(Some(w), None, None, None, None, None);
    assert ',' !in w by {
      assert !IsWhitespace(',');
    }
    SplitPrefix(w, "", ',');
    assert w + "" == w;
    assert Split(w, ',') == [w];
    assert Trim(w) == "";
    assert Skills(req.skills) == [""];
    RecencyController.SearchOutcome(req, serve);
  }

  /** With the export flag off every export is refused with 403, whatever
      the request. With it on, an export is refused exactly when a search
      would be, and otherwise searches with the same skills, location and
      salaries as the search, for the first 1000 results; the result is
      sent as the pgvector export's text, and a failure of the service, or
      a result with listings answered from the cache, gives 500. */
  lemma ExportOutcome(exportEnabled: bool, validated: bool, req: Request,
                      serve: SearchQuery -> Option<SearchResult>, cached: SearchQuery -> bool,
                      iso: int -> string)
    requires NumbersReadable(req)
    ensures !exportEnabled ==> ExportSearch(exportEnabled, validated, req, serve, cached, iso) == Forbidden(ExportDisabled)
    ensures exportEnabled ==>
              && (ParseExport(exportEnabled, validated, req).Success? <==> ParseSearch(validated, req).Success?)
              && (ParseSearch(validated, req).Failure? ==>
                    ExportSearch(exportEnabled, validated, req, serve, cached, iso) == Search(validated, req, serve))
    ensures ParseExport(exportEnabled, validated, req).Success? ==>
              var q := ParseExport(exportEnabled, validated, req).value;
              && q == ParseSearch(validated, req).value.(limit := Some(ExportLimit), offset := Some(ExportOffset))
              && ExportSearch(exportEnabled, validated, req, serve, cached, iso)
                 == if serve(q).Some? && (!cached(q) || serve(q).value.jobListings == [])
                    then CsvAttachment(VectorExport.Render(serve(q).value.jobListings, iso))
                    else ServerError(ExportFailed)
  {
  }
}
