/** The controller of the recency service: the two GET handlers, `search`
    and `exportSearch`, as functions from a request to a response. The
    search service and the clock are parameters: `serve` is what
    `searchJobs` does with a query, `None` when it throws; `iso` writes a
    timestamp. The request is first checked by the validation chain of the
    search routes. */
module RecencyController {
  import opened Wrappers
  import opened Text
  import opened Types
  import opened Paging
  import opened Http
  import RecencyExport

  /** An optional integer parameter that, when present, lies in
      `[lo, hi]` (no upper bound when `hi` is `None`). */
  predicate IntWithin(p: Option<string>, lo: int, hi: Option<int>) {
    p.None? || (IsIntText(p.value) && lo <= IntValue(p.value) && (hi.None? || IntValue(p.value) <= hi.value))
  }

  /** The validation chain of the search routes: `skills` is a non-empty
      string, the salaries and the offset are integers of at least 0 and
      the limit an integer from 1 to 100, each when present; any location
      string is accepted. */
  predicate Valid(req: Request) {
    && req.skills.Some? && req.skills.value != ""
    && IntWithin(req.salaryMin, 0, None)
    && IntWithin(req.salaryMax, 0, None)
    && IntWithin(req.limit, 1, Some(MaxLimit))
    && IntWithin(req.offset, 0, None)
  }

  /** The skills of a request: its comma-separated segments, trimmed, with
      the empty ones dropped. */
  function Skills(param: Option<string>): (r: seq<string>)
    ensures forall x :: x in r <==> param.Some? && x != "" && exists seg :: seg in Split(param.value, ',') && Trim(seg) == x
  {
    if param.Some? then
      var trimmed := TrimAll(Split(param.value, ','));
      TrimmedMembers(Split(param.value, ','));
      Filter(trimmed, NonBlank)
    else []
  }

  /** The skills of a parameter are those of the text before a comma
      followed by those of the text after it: order and repetitions are
      kept. */
  lemma SkillsConcat(a: string, b: string)
    ensures Skills(Some(a + "," + b)) == Skills(Some(a)) + Skills(Some(b))
  {
    assert a + "," + b == a + [','] + b;
    SplitConcat(a, b, ',');
    TrimAllConcat(Split(a, ','), Split(b, ','));
    FilterConcat(TrimAll(Split(a, ',')), TrimAll(Split(b, ',')), NonBlank);
  }

  /** A segment without a comma gives its trimmed text as its one skill,
      or no skill when it is blank. */
  lemma SegmentSkills(w: string)
    requires ',' !in w
    ensures Skills(Some(w)) == if Trim(w) == "" then [] else [Trim(w)]
  {
    SplitPrefix(w, "", ',');
    assert w + "" == w;
    assert Split(w, ',') == [w];
    assert TrimAll([w]) == [Trim(w)];
    assert [Trim(w)][1..] == [];
  }

  /** The filter part of a request, with the given limit and offset. */
  function QueryOf(req: Request, limit: int, offset: int): SearchQuery
    requires Valid(req)
  {
    SearchQuery(Skills(req.skills), req.location, OptionalInt(req.salaryMin), OptionalInt(req.salaryMax),
                Some(limit), Some(offset))
  }

  /** What `search` does before it calls the service: the query it passes
      on, or the response it gives without calling the service. The
      limit, 10 when absent, is capped at 100; the offset is 0 when
      absent. */
  function ParseSearch(req: Request): Result<SearchQuery, Response> {
    if !Valid(req) then Failure(InvalidParameters)
    else if |Skills(req.skills)| == 0 then Failure(BadRequest(SkillRequired))
    else
      // The defaults '10' and '0' read as 10 and 0.
      var limit := if req.limit.Some? then IntValue(req.limit.value) else DefaultLimit;
      var offset := if req.offset.Some? then IntValue(req.offset.value) else DefaultOffset;
      Success(QueryOf(req, Min(limit, MaxLimit), offset))
  }

  /** `search`. */
  function Search(req: Request, serve: SearchQuery -> Option<SearchResult>): Response {
    match ParseSearch(req)
    case Failure(early) => early
    case Success(q) => if serve(q).Some? then Ok(serve(q).value) else ServerError(InternalError)
  }

  /** What `exportSearch` does before it calls the service. The export
      flag is checked before the request is validated, and the query
      always asks for the first 1000 results. */
  function ParseExport(exportEnabled: bool, req: Request): Result<SearchQuery, Response> {
    if !exportEnabled then Failure(Forbidden(ExportDisabled))
    else if !Valid(req) then Failure(InvalidParameters)
    else if |Skills(req.skills)| == 0 then Failure(BadRequest(SkillRequired))
    else Success(QueryOf(req, ExportLimit, ExportOffset))
  }

  /** `exportSearch`: the search result rendered by the recency export. */
  function ExportSearch(exportEnabled: bool, req: Request, serve: SearchQuery -> Option<SearchResult>,
                        iso: int -> string): Response
  {
    match ParseExport(exportEnabled, req)
    case Failure(early) => early
    case Success(q) =>
      if serve(q).Some?
      then CsvAttachment(RecencyExport.Render(RecencyExport.LooseAll(serve(q).value.jobListings), iso))
      else ServerError(ExportFailed)
  }

  /** A request the validation chain rejects gets 400 with its errors; one
      whose skills are all blank gets 400 with a message; neither reaches
      the service, so the response does not depend on it. Otherwise the
      service's result is sent unchanged with 200, and a failure of the
      service gives 500. */
  lemma SearchOutcome(req: Request, serve: SearchQuery -> Option<SearchResult>)
    ensures !Valid(req) ==> Search(req, serve) == InvalidParameters
    ensures Search(req, serve) == BadRequest(SkillRequired)
            <==> Valid(req) && forall seg :: seg in Split(req.skills.value, ',') ==> Trim(seg) == ""
    ensures ParseSearch(req).Failure? ==> forall other :: Search(req, other) == Search(req, serve)
    ensures ParseSearch(req).Success? ==>
              var q := ParseSearch(req).value;
              Search(req, serve) == if serve(q).Some? then Ok(serve(q).value) else ServerError(InternalError)
    ensures Status(Search(req, serve)) in {200, 400, 500}
  {
    if Valid(req) {
      BlankSkills(req.skills);
    }
  }

  /** A string parameter yields no skill exactly when every segment is
      blank. */
  lemma BlankSkills(param: Option<string>)
    requires param.Some?
    ensures |Skills(param)| == 0 <==> forall seg :: seg in Split(param.value, ',') ==> Trim(seg) == ""
  {
    var parts := Split(param.value, ',');
    if |Skills(param)| > 0 {
      assert Skills(param)[0] in Skills(param);
    }
    if exists seg :: seg in parts && Trim(seg) != "" {
      var seg :| seg in parts && Trim(seg) != "";
      assert Trim(seg) in Skills(param);
    }
  }

  /** Every skill is non-empty, holds no comma, and neither starts nor
      ends with white space. */
  lemma SkillsShape(param: Option<string>)
    ensures forall s :: s in Skills(param) ==>
              |s| > 0 && ',' !in s && !IsWhitespace(s[0]) && !IsWhitespace(s[|s| - 1])
  {
    forall s | s in Skills(param)
      ensures |s| > 0 && ',' !in s && !IsWhitespace(s[0]) && !IsWhitespace(s[|s| - 1])
    {
      var seg :| seg in Split(param.value, ',') && Trim(seg) == s;
      TrimInside(seg);
    }
  }

  /** The query a search passes on has at least one skill, each a trimmed
      segment of the parameter. The limit is between 1 and 100, 10 when
      absent; the offset is not negative, 0 when absent; a salary bound is
      set exactly when its parameter is present, and is not negative. */
  lemma ParsedQuery(req: Request)
    ensures ParseSearch(req).Success? ==>
              var q := ParseSearch(req).value;
              && |q.skills| >= 1
              && q.skills == Skills(req.skills)
              && q.location == req.location
              && q.limit.Some? && 1 <= q.limit.value <= MaxLimit
              && (req.limit.None? ==> q.limit == Some(DefaultLimit))
              && q.offset.Some? && q.offset.value >= 0
              && (req.offset.None? ==> q.offset == Some(DefaultOffset))
              && (q.salaryMin.Some? <==> req.salaryMin.Some?) && (q.salaryMin.Some? ==> q.salaryMin.value >= 0)
              && (q.salaryMax.Some? <==> req.salaryMax.Some?) && (q.salaryMax.Some? ==> q.salaryMax.value >= 0)
  {
  }

  /** Two words separated by a comma, with no other parameter, are
      searched as those two skills, ten results from the first: so
      `typescript,azure` is searched as `typescript` and `azure`. */
  lemma TwoSkills(a: string, b: string)
    requires |a| > 0 && forall i :: 0 <= i < |a| ==> '!' <= a[i] <= '~' && a[i] != ','
    requires |b| > 0 && forall i :: 0 <= i < |b| ==> '!' <= b[i] <= '~' && b[i] != ','
    ensures ParseSearch(Request(Some(a + "," + b), None, None, None, None, None))
            == Success(SearchQuery([a, b], None, None, None, Some(DefaultLimit), Some(DefaultOffset)))
  {
    TwoWords(a, b);
    SkillsOnlySearch(a + "," + b, [a, b]);
  }

  /** A request with only a non-empty `skills` parameter that yields some
      skills searches for them, ten results from the first. */
  lemma SkillsOnlySearch(param: string, skills: seq<string>)
    requires param != "" && Skills(Some(param)) == skills && |skills| > 0
    ensures ParseSearch(Request(Some(param), None, None, None, None, None))
            == Success(SearchQuery(skills, None, None, None, Some(DefaultLimit), Some(DefaultOffset)))
  {
    assert Valid(Request(Some(param), None, None, None, None, None));
  }

  lemma TwoWords(a: string, b: string)
    requires |a| > 0 && forall i :: 0 <= i < |a| ==> '!' <= a[i] <= '~' && a[i] != ','
    requires |b| > 0 && forall i :: 0 <= i < |b| ==> '!' <= b[i] <= '~' && b[i] != ','
    ensures Skills(Some(a + "," + b)) == [a, b]
  {
    assert ',' !in a && ',' !in b;
    assert a + "," + b == a + [','] + b;
    SplitWords(a, b, ',');
    TrimWord(a);
    TrimWord(b);
    KeepTwo(a, b);
  }

  /** Two non-empty words that trimming leaves as they are survive the
      trim and the filter. */
  lemma KeepTwo(a: string, b: string)
    requires Trim(a) == a != "" && Trim(b) == b != ""
    ensures Filter(TrimAll([a, b]), NonBlank) == [a, b]
  {
    assert TrimAll([a, b]) == [a, b];
    FilterTwo(a, b);
  }

  lemma FilterTwo(a: string, b: string)
    requires a != "" && b != ""
    ensures Filter([a, b], NonBlank) == [a, b]
  {
    assert Filter([b], NonBlank) == [b] by {
      assert [b][1..] == [];
    }
    assert [a, b][1..] == [b];
  }

  /** With the export flag off every export is refused with 403, whatever
      the request. With it on, an export is refused exactly when a search
      would be, and otherwise searches with the same skills, location and
      salaries as the search, for the first 1000 results; the result is
      sent as the recency export's text, and a failure gives 500. */
  lemma ExportOutcome(exportEnabled: bool, req: Request, serve: SearchQuery -> Option<SearchResult>,
                      iso: int -> string)
    ensures !exportEnabled ==> ExportSearch(exportEnabled, req, serve, iso) == Forbidden(ExportDisabled)
    ensures exportEnabled ==>
              && (ParseExport(exportEnabled, req).Success? <==> ParseSearch(req).Success?)
              && (ParseSearch(req).Failure? ==> ExportSearch(exportEnabled, req, serve, iso) == Search(req, serve))
    ensures ParseExport(exportEnabled, req).Success? ==>
              var q := ParseExport(exportEnabled, req).value;
              && q == ParseSearch(req).value.(limit := Some(ExportLimit), offset := Some(ExportOffset))
              && ExportSearch(exportEnabled, req, serve, iso)
                 == if serve(q).Some?
                    then CsvAttachment(RecencyExport.Render(RecencyExport.LooseAll(serve(q).value.jobListings), iso))
                    else ServerError(ExportFailed)
  {
  }
}
