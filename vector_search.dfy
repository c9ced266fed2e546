/** The pgvector search service: it embeds the query's skills, orders the
    rows that have a stored embedding by their similarity to it, filters
    them by location and salary, counts them with a second query whose
    placeholders are numbered from 1, caches results for five minutes and
    reports every search on the event bus. Any database or row error
    becomes the single error "Failed to search jobs". */
module VectorSearch {
  import opened Wrappers
  import opened Text
  import opened Types
  import opened Paging
  import opened Sql
  import opened DataSource
  import opened Cache
  import opened Events
  import opened Embedding

  /** `new Error('Failed to search jobs')`. */
  datatype SearchError = SearchFailed

  const FailureMessage: string := "Failed to search jobs"

  /** The query's location as a substring of the row's, ignoring the case
      of ASCII letters. */
  predicate LocationPart(q: SearchQuery, row: JobRow) {
    NonEmpty(q.location) ==> Contains(Lower(row.location), Lower(q.location.value))
  }

  /** A given minimum salary (0 included) is reached by the row's maximum;
      a row without a maximum passes. */
  predicate SalaryMinPart(q: SearchQuery, row: JobRow) {
    q.salaryMin.Some? ==> row.salaryMax.None? || row.salaryMax.value >= q.salaryMin.value
  }

  /** A given maximum salary (0 included) is not exceeded by the row's
      minimum; a row without a minimum passes. */
  predicate SalaryMaxPart(q: SearchQuery, row: JobRow) {
    q.salaryMax.Some? ==> row.salaryMin.None? || row.salaryMin.value <= q.salaryMax.value
  }

  /** The rows the query admits: those with a stored embedding that pass
      the location and salary filters. The skills do not filter; they
      only order the rows. */
  predicate Matches(q: SearchQuery, row: JobRow) {
    row.skillsEmbedding.Some? && LocationPart(q, row) && SalaryMinPart(q, row) && SalaryMaxPart(q, row)
  }

  function MatchesOf(q: SearchQuery): JobRow -> bool {
    row => Matches(q, row)
  }

  /** `ORDER BY similarity DESC`, the similarity to the query's vector. */
  function SimilarityTo(sim: (seq<real>, seq<real>) -> real, e: seq<real>): JobRow -> real {
    row => SimilarityScore(sim, e, row)
  }

  /** A filter the query asks for, with the value bound to its
      placeholder. */
  datatype Condition = LocationFilter(pattern: string) | MinSalaryFilter(amount: int) | MaxSalaryFilter(amount: int)

  /** The filters of `q`, in the order both queries append them: location
      when it is non-empty, each salary bound when it is given. */
  function Filters(q: SearchQuery): seq<Condition> {
    (if NonEmpty(q.location) then [LocationFilter("%" + q.location.value + "%")] else [])
    + (if q.salaryMin.Some? then [MinSalaryFilter(q.salaryMin.value)] else [])
    + (if q.salaryMax.Some? then [MaxSalaryFilter(q.salaryMax.value)] else [])
  }

  function ClauseFor(f: Condition, ph: nat): Clause {
    match f
    case LocationFilter(_) => LocationILike(ph)
    case MinSalaryFilter(_) => SalaryMaxAtLeast(ph)
    case MaxSalaryFilter(_) => SalaryMinAtMost(ph)
  }

  function ValueOf(f: Condition): Value {
    match f
    case LocationFilter(p) => StringParam(p)
    case MinSalaryFilter(n) => IntParam(n)
    case MaxSalaryFilter(n) => IntParam(n)
  }

  /** The clauses of `fs` with placeholders numbered from `base + 1`. */
  function Clauses(fs: seq<Condition>, base: nat): (w: seq<Clause>)
    ensures |w| == |fs|
    ensures forall i :: 0 <= i < |w| ==> w[i] == ClauseFor(fs[i], base + i + 1)
  {
    seq(|fs|, i requires 0 <= i < |fs| => ClauseFor(fs[i], base + i + 1))
  }

  function Values(fs: seq<Condition>): (v: seq<Value>)
    ensures |v| == |fs|
    ensures forall i :: 0 <= i < |v| ==> v[i] == ValueOf(fs[i])
  {
    seq(|fs|, i requires 0 <= i < |fs| => ValueOf(fs[i]))
  }

  /** The clause's placeholder moved one place up, as in the page query,
      whose `$1` is the embedding. */
  function Shift(c: Clause): Clause {
    match c
    case SkillsOverlap(ph) => SkillsOverlap(ph + 1)
    case LowerLocationLike(ph) => LowerLocationLike(ph + 1)
    case LocationILike(ph) => LocationILike(ph + 1)
    case SalaryMaxAtLeast(ph) => SalaryMaxAtLeast(ph + 1)
    case SalaryMinAtMost(ph) => SalaryMinAtMost(ph + 1)
    case EmbeddingNotNull => EmbeddingNotNull
  }

  function ShiftAll(w: seq<Clause>): (r: seq<Clause>)
    ensures |r| == |w|
    ensures forall i :: 0 <= i < |w| ==> r[i] == Shift(w[i])
  {
    seq(|w|, i requires 0 <= i < |w| => Shift(w[i]))
  }

  /** The two queries of a search and their parameter arrays: the page
      query binds the embedding to `$1`, the filter values after it, then
      LIMIT and OFFSET; the count query binds the same filter values from
      `$1`, so each of its clauses is the page query's with the
      placeholder one lower. Both are accepted by the database and both
      select exactly the rows `q` admits. */
  ghost predicate QueriesFor(q: SearchQuery, e: seq<real>, limit: int, offset: int,
                             pageQuery: Query, params: seq<Value>, countQuery: Query, countParams: seq<Value>)
  {
    && QueriesShaped(e, limit, offset, pageQuery, params, countQuery, countParams)
    && QueriesSelect(q, pageQuery, params, countQuery, countParams)
  }

  /** The text of the two queries and their parameter arrays. */
  ghost predicate QueriesShaped(e: seq<real>, limit: int, offset: int,
                                pageQuery: Query, params: seq<Value>, countQuery: Query, countParams: seq<Value>)
  {
    && countQuery.CountRows? && |countQuery.where| >= 1 && countQuery.where[0] == EmbeddingNotNull
    && Numbered(countQuery.where[1..], countParams)
    && pageQuery == SelectPage([EmbeddingNotNull] + ShiftAll(countQuery.where[1..]), SimilarityDesc(1),
                               |countParams| + 2, |countParams| + 3)
    && params == [VectorParam(e)] + countParams + [IntParam(limit), IntParam(offset)]
    && Bound(countQuery, countParams)
    && Bound(pageQuery, params)
  }

  /** What the two queries select. */
  ghost predicate QueriesSelect(q: SearchQuery, pageQuery: Query, params: seq<Value>, countQuery: Query, countParams: seq<Value>)
    requires pageQuery.SelectPage? && countQuery.CountRows?
  {
    && (forall row :: AllHold(countQuery.where, countParams, row) <==> Matches(q, row))
    && (forall row :: AllHold(pageQuery.where, params, row) <==> Matches(q, row))
  }

  /** The query text and parameters of `searchJobs`: the page query is
      built first, with `paramIndex` starting at 2, then the count query,
      with `countParamIndex` starting at 1. */
  method BuildQueries(q: SearchQuery, e: seq<real>, limit: int, offset: int)
    returns (pageQuery: Query, params: seq<Value>, countQuery: Query, countParams: seq<Value>)
    ensures QueriesFor(q, e, limit, offset, pageQuery, params, countQuery, countParams)
  {
    var pageFilters, paramIndex;
    pageFilters, params, paramIndex := AppendFilters(q, [VectorParam(e)]);
    pageQuery := SelectPage([EmbeddingNotNull] + pageFilters, SimilarityDesc(1), paramIndex, paramIndex + 1);
    params := params + [IntParam(limit), IntParam(offset)];

    var countFilters, countParamIndex;
    countFilters, countParams, countParamIndex := AppendFilters(q, []);
    countQuery := CountRows([EmbeddingNotNull] + countFilters);

    var fs := Filters(q);
    assert pageQuery == SelectPage([EmbeddingNotNull] + Clauses(fs, 1), SimilarityDesc(1), |fs| + 2, |fs| + 3);
    assert params == [VectorParam(e)] + Values(fs) + [IntParam(limit), IntParam(offset)];
    CanonicalQueries(q, e, limit, offset, pageQuery, params, countQuery, countParams);
  }

  /** One of the two filter-building passes of `searchJobs`: after the
      values already in `params`, each filter the query asks for appends
      its clause, numbered by the running index, and its value. */
  method AppendFilters(q: SearchQuery, params: seq<Value>)
    returns (filters: seq<Clause>, params': seq<Value>, paramIndex: nat)
    ensures filters == Clauses(Filters(q), |params|)
    ensures params' == params + Values(Filters(q))
    ensures paramIndex == |params'| + 1
  {
    filters := [];
    params' := params;
    paramIndex := |params| + 1;
    if NonEmpty(q.location) {
      filters := filters + [LocationILike(paramIndex)];
      params' := params' + [StringParam("%" + q.location.value + "%")];
      paramIndex := paramIndex + 1;
    }
    if q.salaryMin.Some? {
      filters := filters + [SalaryMaxAtLeast(paramIndex)];
      params' := params' + [IntParam(q.salaryMin.value)];
      paramIndex := paramIndex + 1;
    }
    if q.salaryMax.Some? {
      filters := filters + [SalaryMinAtMost(paramIndex)];
      params' := params' + [IntParam(q.salaryMax.value)];
      paramIndex := paramIndex + 1;
    }
  }

  /** The queries built from the filters of `q` are the ones
      `QueriesFor` describes. */
  lemma CanonicalQueries(q: SearchQuery, e: seq<real>, limit: int, offset: int,
                         pageQuery: Query, params: seq<Value>, countQuery: Query, countParams: seq<Value>)
    requires pageQuery == SelectPage([EmbeddingNotNull] + Clauses(Filters(q), 1), SimilarityDesc(1),
                                     |Filters(q)| + 2, |Filters(q)| + 3)
    requires params == [VectorParam(e)] + Values(Filters(q)) + [IntParam(limit), IntParam(offset)]
    requires countQuery == CountRows([EmbeddingNotNull] + Clauses(Filters(q), 0))
    requires countParams == Values(Filters(q))
    ensures QueriesFor(q, e, limit, offset, pageQuery, params, countQuery, countParams)
  {
    CanonicalShape(Filters(q), e, limit, offset, pageQuery, params, countQuery, countParams);
    CountQueryMeaning(q);
    PageQueryMeaning(q, [VectorParam(e)], [IntParam(limit), IntParam(offset)]);
  }

  /** The queries built from some filters have the text and parameters
      `QueriesShaped` describes. */
  lemma CanonicalShape(fs: seq<Condition>, e: seq<real>, limit: int, offset: int,
                       pageQuery: Query, params: seq<Value>, countQuery: Query, countParams: seq<Value>)
    requires pageQuery == SelectPage([EmbeddingNotNull] + Clauses(fs, 1), SimilarityDesc(1), |fs| + 2, |fs| + 3)
    requires params == [VectorParam(e)] + Values(fs) + [IntParam(limit), IntParam(offset)]
    requires countQuery == CountRows([EmbeddingNotNull] + Clauses(fs, 0))
    requires countParams == Values(fs)
    ensures QueriesShaped(e, limit, offset, pageQuery, params, countQuery, countParams)
  {
    assert countQuery.where[1..] == Clauses(fs, 0);
    ClausesShifted(fs);
    CountQueryBound(fs);
    PageQueryBound(fs, e, limit, offset);
  }

  /** Numbering the clauses from `$2` is numbering them from `$1` and
      moving every placeholder one place up. */
  lemma ClausesShifted(fs: seq<Condition>)
    ensures Clauses(fs, 1) == ShiftAll(Clauses(fs, 0))
  {
    var page := Clauses(fs, 1);
    var shifted := ShiftAll(Clauses(fs, 0));
    forall i | 0 <= i < |fs|
      ensures page[i] == shifted[i]
    {
      ShiftedClause(fs[i], i + 1);
    }
  }

  lemma ShiftedClause(f: Condition, n: nat)
    ensures Shift(ClauseFor(f, n)) == ClauseFor(f, n + 1)
  {
  }

  /** The count query selects exactly the rows `q` admits. */
  lemma CountQueryMeaning(q: SearchQuery)
    ensures forall row :: AllHold([EmbeddingNotNull] + Clauses(Filters(q), 0), Values(Filters(q)), row) <==> Matches(q, row)
  {
    var fs := Filters(q);
    forall row
      ensures AllHold([EmbeddingNotNull] + Clauses(fs, 0), Values(fs), row) <==> Matches(q, row)
    {
      ClausesMeaning(fs, [], [], row);
      assert [] + Values(fs) + [] == Values(fs);
      FiltersMeaning(q, row);
      PrependNotNull(Clauses(fs, 0), Values(fs), row);
    }
  }

  /** The page query selects exactly the rows `q` admits, whatever is
      bound before and after the filter values. */
  lemma PageQueryMeaning(q: SearchQuery, pre: seq<Value>, extra: seq<Value>)
    ensures forall row :: AllHold([EmbeddingNotNull] + Clauses(Filters(q), |pre|), pre + Values(Filters(q)) + extra, row)
                          <==> Matches(q, row)
  {
    var fs := Filters(q);
    forall row
      ensures AllHold([EmbeddingNotNull] + Clauses(fs, |pre|), pre + Values(fs) + extra, row) <==> Matches(q, row)
    {
      ClausesMeaning(fs, pre, extra, row);
      FiltersMeaning(q, row);
      PrependNotNull(Clauses(fs, |pre|), pre + Values(fs) + extra, row);
    }
  }

  lemma CountQueryBound(fs: seq<Condition>)
    ensures Bound(CountRows([EmbeddingNotNull] + Clauses(fs, 0)), Values(fs))
  {
    var count := CountRows([EmbeddingNotNull] + Clauses(fs, 0));
    ClausesTyped(fs, [], []);
    assert [] + Values(fs) + [] == Values(fs);
    assert count.where[1..] == Clauses(fs, 0);
    NotNullUses(fs, 0, count);
    NotNullBound(count, Values(fs));
  }

  lemma PageQueryBound(fs: seq<Condition>, e: seq<real>, limit: int, offset: int)
    ensures Bound(SelectPage([EmbeddingNotNull] + Clauses(fs, 1), SimilarityDesc(1), |fs| + 2, |fs| + 3),
                  [VectorParam(e)] + Values(fs) + [IntParam(limit), IntParam(offset)])
  {
    var page := SelectPage([EmbeddingNotNull] + Clauses(fs, 1), SimilarityDesc(1), |fs| + 2, |fs| + 3);
    var params := [VectorParam(e)] + Values(fs) + [IntParam(limit), IntParam(offset)];
    ClausesTyped(fs, [VectorParam(e)], [IntParam(limit), IntParam(offset)]);
    assert page.where[1..] == Clauses(fs, 1);
    NotNullUses(fs, 1, page);
    assert Uses(page, 1) && Uses(page, |fs| + 2) && Uses(page, |fs| + 3);
    NotNullBound(page, params);
  }

  /** Whether the row passes the filter. */
  predicate FilterHolds(f: Condition, row: JobRow) {
    match f
    case LocationFilter(p) => LikeSubstring(Lower(row.location), Lower(p))
    case MinSalaryFilter(n) => row.salaryMax.None? || row.salaryMax.value >= n
    case MaxSalaryFilter(n) => row.salaryMin.None? || row.salaryMin.value <= n
  }

  /** The filters of `q` together mean its location and salary parts. */
  lemma FiltersMeaning(q: SearchQuery, row: JobRow)
    ensures (forall f :: f in Filters(q) ==> FilterHolds(f, row))
            <==> LocationPart(q, row) && SalaryMinPart(q, row) && SalaryMaxPart(q, row)
  {
    var l := if NonEmpty(q.location) then [LocationFilter("%" + q.location.value + "%")] else [];
    var m := if q.salaryMin.Some? then [MinSalaryFilter(q.salaryMin.value)] else [];
    var x := if q.salaryMax.Some? then [MaxSalaryFilter(q.salaryMax.value)] else [];
    assert Filters(q) == l + m + x;
    if NonEmpty(q.location) {
      LikeWrapped(Lower(row.location), q.location.value);
      assert FilterHolds(l[0], row) <==> LocationPart(q, row);
    }
    assert (forall f :: f in l ==> FilterHolds(f, row)) <==> LocationPart(q, row) by {
      if NonEmpty(q.location) {
        assert forall f :: f in l <==> f == l[0];
      }
    }
    assert (forall f :: f in m ==> FilterHolds(f, row)) <==> SalaryMinPart(q, row) by {
      if q.salaryMin.Some? {
        assert FilterHolds(m[0], row) <==> SalaryMinPart(q, row);
        assert forall f :: f in m <==> f == m[0];
      }
    }
    assert (forall f :: f in x ==> FilterHolds(f, row)) <==> SalaryMaxPart(q, row) by {
      if q.salaryMax.Some? {
        assert FilterHolds(x[0], row) <==> SalaryMaxPart(q, row);
        assert forall f :: f in x <==> f == x[0];
      }
    }
    assert forall f :: f in l + m + x <==> f in l || f in m || f in x;
  }

  /** Clauses numbered from `|pre| + 1`, with their values bound after
      `pre` and followed by `extra`, hold exactly when every filter does. */
  lemma ClausesMeaning(fs: seq<Condition>, pre: seq<Value>, extra: seq<Value>, row: JobRow)
    ensures AllHold(Clauses(fs, |pre|), pre + Values(fs) + extra, row)
            <==> forall f :: f in fs ==> FilterHolds(f, row)
  {
    var w := Clauses(fs, |pre|);
    var ps := pre + Values(fs) + extra;
    forall i | 0 <= i < |fs|
      ensures ClauseHolds(w[i], ps, row) <==> FilterHolds(fs[i], row)
    {
      assert ps[|pre| + i] == ValueOf(fs[i]);
    }
    if forall f :: f in fs ==> FilterHolds(f, row) {
      assert forall i :: 0 <= i < |fs| ==> FilterHolds(fs[i], row);
    }
    if AllHold(w, ps, row) {
      forall f | f in fs
        ensures FilterHolds(f, row)
      {
        var i :| 0 <= i < |fs| && fs[i] == f;
        assert ClauseHolds(w[i], ps, row);
      }
    }
  }

  /** Clauses numbered from `|pre| + 1` are typed by their values bound
      after `pre`. */
  lemma ClausesTyped(fs: seq<Condition>, pre: seq<Value>, extra: seq<Value>)
    ensures AllTyped(Clauses(fs, |pre|), pre + Values(fs) + extra)
  {
    var w, ps := Clauses(fs, |pre|), pre + Values(fs) + extra;
    forall i | 0 <= i < |fs|
      ensures ClauseTyped(w[i], ps)
    {
      assert ps[|pre| + i] == ValueOf(fs[i]);
    }
  }

  /** Behind the `skills_embedding IS NOT NULL` clause, the clauses
      numbered from `base + 1` use placeholders `base + 1` to
      `base + |fs|`. */
  lemma NotNullUses(fs: seq<Condition>, base: nat, q: Query)
    requires q.where == [EmbeddingNotNull] + Clauses(fs, base)
    ensures forall k :: base + 1 <= k <= base + |fs| ==> Uses(q, k)
  {
    forall k | base + 1 <= k <= base + |fs|
      ensures Uses(q, k)
    {
      var i := k - base;
      assert q.where[i] == Clauses(fs, base)[i - 1];
      assert q.where[i].HasPlaceholder() && q.where[i].ph == k;
    }
  }

  lemma PrependNotNull(w: seq<Clause>, ps: seq<Value>, row: JobRow)
    ensures AllHold([EmbeddingNotNull] + w, ps, row) <==> row.skillsEmbedding.Some? && AllHold(w, ps, row)
  {
    var all := [EmbeddingNotNull] + w;
    assert forall i :: 0 <= i < |w| ==> all[i + 1] == w[i];
    if row.skillsEmbedding.Some? && AllHold(w, ps, row) {
      forall i | 0 <= i < |all|
        ensures ClauseHolds(all[i], ps, row)
      {
        if i > 0 {
          assert all[i] == w[i - 1];
        }
      }
    }
    if AllHold(all, ps, row) {
      assert ClauseHolds(all[0], ps, row);
      forall i | 0 <= i < |w|
        ensures ClauseHolds(w[i], ps, row)
      {
        assert ClauseHolds(all[i + 1], ps, row);
      }
    }
  }

  /** The count and page queries over `[EmbeddingNotNull] + w` are accepted
      once every clause is typed and every placeholder is used. */
  lemma NotNullBound(q: Query, ps: seq<Value>)
    requires q.where != [] && q.where[0] == EmbeddingNotNull
    requires AllTyped(q.where[1..], ps)
    requires q.SelectPage? ==> OrderTyped(q.order, ps) && IntAt(ps, q.limitPh) && IntAt(ps, q.offsetPh)
    requires forall k :: 1 <= k <= |ps| ==> Uses(q, k)
    ensures Bound(q, ps)
  {
    forall i | 0 <= i < |q.where|
      ensures ClauseTyped(q.where[i], ps)
    {
      if i > 0 {
        assert q.where[i] == q.where[1..][i - 1];
      }
    }
  }

  /** The skills of a row as the service hands them out: a `text[]` array
      as it is, NULL as the empty list, text as what `JSON.parse` makes of
      it, and `None` when the text does not parse. */
  function SkillsOf(s: RawSkills): Option<seq<string>> {
    match s
    case SkillArray(items) => Some(items)
    case SkillNull => Some([])
    case SkillText(decoded) => decoded
  }

  /** The listing built from a row and its skills; the stored embedding is
      not part of it. */
  function Listing(row: JobRow, skills: seq<string>): JobListing {
    JobListing(row.id, row.title, row.description, skills, None, row.company,
               row.location, row.salaryMin, row.salaryMax, row.createdAt, row.updatedAt)
  }

  /** `results.rows.map(...)`: one listing per row, in order, or `None`
      when the skills of some row do not parse, which makes the map
      throw. */
  function Listings(rows: seq<JobRow>): (r: Option<seq<JobListing>>)
    ensures r.Some? <==> forall row :: row in rows ==> SkillsOf(row.skills).Some?
    ensures r.Some? ==> |r.value| == |rows|
    ensures r.Some? ==> forall i :: 0 <= i < |rows| ==>
              SkillsOf(rows[i].skills) == Some(r.value[i].skills) && r.value[i] == Listing(rows[i], r.value[i].skills)
    decreases |rows|
  {
    if |rows| == 0 then Some([])
    else
      assert rows == [rows[0]] + rows[1..];
      match (SkillsOf(rows[0].skills), Listings(rows[1..]))
      case (Some(skills), Some(rest)) => Some([Listing(rows[0], skills)] + rest)
      case _ => None
  }

  /** The answer to `q` over `rows` when nothing is cached: the rows the
      query admits, most similar to the embedding of its skills first,
      `offset` of them skipped and at most `limit` kept, with the number
      of all admitted rows. A LIMIT or OFFSET outside `bigint` or
      negative, or a row whose skills do not parse, fails the search. */
  ghost function Answer(rows: seq<JobRow>, sim: (seq<real>, seq<real>) -> real, q: SearchQuery)
    : Result<SearchResult, SearchError>
  {
    var limit := q.limit.GetOr(DefaultLimit);
    var offset := q.offset.GetOr(DefaultOffset);
    if !IsBigint(limit) || !IsBigint(offset) || limit < 0 || offset < 0 then Failure(SearchFailed)
    else
      match Listings(Page(rows, MatchesOf(q), SimilarityTo(sim, Embedding.Embedding(q.skills)), offset, limit))
      case None => Failure(SearchFailed)
      case Some(listings) => Success(SearchResult(listings, |Filter(rows, MatchesOf(q))|, limit, offset))
  }

  /** A search succeeds exactly when the limit and offset are neither
      negative nor beyond `bigint`, and every row on its page has readable
      skills. A successful answer
      echoes the limit and offset and counts every admitted row; its page
      holds at most `limit` listings, no more than there are matches, and
      none once `offset` reaches the count. */
  lemma AnswerBounds(rows: seq<JobRow>, sim: (seq<real>, seq<real>) -> real, q: SearchQuery)
    ensures var limit, offset := q.limit.GetOr(DefaultLimit), q.offset.GetOr(DefaultOffset);
            Answer(rows, sim, q).Success?
            <==> 0 <= limit <= MaxBigint && 0 <= offset <= MaxBigint
                 && forall row :: row in Page(rows, MatchesOf(q), SimilarityTo(sim, Embedding.Embedding(q.skills)), offset, limit)
                                  ==> SkillsOf(row.skills).Some?
    ensures Answer(rows, sim, q).Success? ==>
              var a := Answer(rows, sim, q).value;
              && a.limit == q.limit.GetOr(DefaultLimit)
              && a.offset == q.offset.GetOr(DefaultOffset)
              && a.total == |Filter(rows, MatchesOf(q))|
              && |a.jobListings| <= a.limit
              && |a.jobListings| <= a.total
              && (a.offset >= a.total ==> a.jobListings == [])
              && |a.jobListings| == if a.offset >= a.total then 0 else Min(a.limit, a.total - a.offset)
  {
    var limit, offset := q.limit.GetOr(DefaultLimit), q.offset.GetOr(DefaultOffset);
    if IsBigint(limit) && IsBigint(offset) && limit >= 0 && offset >= 0 {
      var key := SimilarityTo(sim, Embedding.Embedding(q.skills));
      var page := Page(rows, MatchesOf(q), key, offset, limit);
      PageSize(rows, MatchesOf(q), key, offset, limit);
      if Listings(page).Some? {
        assert Answer(rows, sim, q) == Success(SearchResult(Listings(page).value, |Filter(rows, MatchesOf(q))|, limit, offset));
      }
    }
  }

  /** The listings of a successful search are built, in order, from rows
      of the table that the query admits, and those rows are ordered by
      their similarity to the embedding of the query's skills, highest
      first. */
  lemma AnswerRanked(rows: seq<JobRow>, sim: (seq<real>, seq<real>) -> real, q: SearchQuery)
    ensures Answer(rows, sim, q).Success? ==>
              var ls := Answer(rows, sim, q).value.jobListings;
              exists page: seq<JobRow> ::
                && |page| == |ls|
                && NonIncreasing(page, SimilarityTo(sim, Embedding.Embedding(q.skills)))
                && forall i :: 0 <= i < |page| ==>
                     page[i] in rows && Matches(q, page[i]) && ls[i] == Listing(page[i], ls[i].skills)
                     && SkillsOf(page[i].skills) == Some(ls[i].skills)
  {
    var limit, offset := q.limit.GetOr(DefaultLimit), q.offset.GetOr(DefaultOffset);
    if Answer(rows, sim, q).Success? {
      var key := SimilarityTo(sim, Embedding.Embedding(q.skills));
      var page := Page(rows, MatchesOf(q), key, offset, limit);
      PageRowsMatch(rows, MatchesOf(q), key, offset, limit);
      PageOrdered(rows, MatchesOf(q), key, offset, limit);
      var ls := Listings(page).value;
      assert Answer(rows, sim, q).value.jobListings == ls;
      RankedPage(rows, q, key, page, ls);
    }
  }

  /** The listings of a successful search are the run of the ranking that
      starts after the `offset` best-ranked matching rows: each listing is
      built from the row in its place on the page, every skipped row ranks
      at least as high as every listed one, and a matching row that ranks
      higher than a listed one is listed or skipped. */
  lemma AnswerTopRun(rows: seq<JobRow>, sim: (seq<real>, seq<real>) -> real, q: SearchQuery)
    ensures Answer(rows, sim, q).Success? ==>
              var limit, offset := q.limit.GetOr(DefaultLimit), q.offset.GetOr(DefaultOffset);
              var key := SimilarityTo(sim, Embedding.Embedding(q.skills));
              var ls := Answer(rows, sim, q).value.jobListings;
              var page := Page(rows, MatchesOf(q), key, offset, limit);
              var skipped := Skipped(rows, MatchesOf(q), key, offset);
              && |skipped| == Min(offset, |Filter(rows, MatchesOf(q))|)
              && |ls| == |page|
              && (forall i :: 0 <= i < |ls| ==> ls[i] == Listing(page[i], ls[i].skills))
              && (forall x, i :: x in skipped && 0 <= i < |page| ==> key(x) >= key(page[i]))
              && (forall x, i :: 0 <= i < |page| && x in rows && Matches(q, x) && key(x) > key(page[i])
                                 ==> x in page || x in skipped)
  {
    var limit, offset := q.limit.GetOr(DefaultLimit), q.offset.GetOr(DefaultOffset);
    if Answer(rows, sim, q).Success? {
      var key := SimilarityTo(sim, Embedding.Embedding(q.skills));
      var page := Page(rows, MatchesOf(q), key, offset, limit);
      PageIsTopRun(rows, MatchesOf(q), key, offset, limit);
      assert Answer(rows, sim, q).value.jobListings == Listings(page).value;
    }
  }

  /** The listings built from an ordered page of admitted rows witness the
      ranking `AnswerRanked` states. */
  lemma RankedPage(rows: seq<JobRow>, q: SearchQuery, key: JobRow -> real, page: seq<JobRow>, ls: seq<JobListing>)
    requires NonIncreasing(page, key)
    requires forall x :: x in page ==> x in rows && Matches(q, x)
    requires Listings(page) == Some(ls)
    ensures |page| == |ls|
    ensures forall i :: 0 <= i < |page| ==>
              page[i] in rows && Matches(q, page[i]) && ls[i] == Listing(page[i], ls[i].skills)
              && SkillsOf(page[i].skills) == Some(ls[i].skills)
  {
    forall i | 0 <= i < |page|
      ensures page[i] in rows && Matches(q, page[i])
    {
      assert page[i] in page;
    }
  }

  /** The skills of a query never change which rows it admits, so they
      never change its total: only the order of the rows depends on them. */
  lemma SkillsDoNotFilter(rows: seq<JobRow>, q: SearchQuery, skills: seq<string>)
    ensures Filter(rows, MatchesOf(q)) == Filter(rows, MatchesOf(q.(skills := skills)))
  {
    FilterCongruent(rows, MatchesOf(q), MatchesOf(q.(skills := skills)));
  }

  /** Every readable entry of `entries` holds the answer `rows` give to the
      query it is keyed by. */
  ghost predicate Coherent(rows: seq<JobRow>, sim: (seq<real>, seq<real>) -> real, entries: map<CacheKey, Entry>) {
    forall k :: k in entries && entries[k].payload.ResultJson? ==>
      Answer(rows, sim, k.query) == Success(entries[k].payload.result)
  }

  /** The pgvector search service: a pool, the Redis cache behind a
      feature flag, and the event bus. */
  class SearchService {
    /** `featureFlags.enableRedisCache`. */
    const cacheEnabled: bool
    const store: JobStore
    const cache: RedisCache
    const bus: EventBus

    constructor(cacheEnabled: bool, store: JobStore, cache: RedisCache, bus: EventBus)
      ensures this.cacheEnabled == cacheEnabled && this.store == store && this.cache == cache && this.bus == bus
    {
      this.cacheEnabled := cacheEnabled;
      this.store := store;
      this.cache := cache;
      this.bus := bus;
    }

    /** The result the cache answers `q` with at time `now`, if it is
        consulted and hits. */
    function CachedAnswer(q: SearchQuery, now: int): Option<SearchResult>
      reads this, cache
    {
      if cacheEnabled then cache.Lookup(SearchKey(q), now) else None
    }

    ghost predicate CacheCoherent()
      reads this, store, cache
    {
      Coherent(store.rows, store.similarity, cache.entries)
    }

    /** The database part of `searchJobs`: the page query and the count
        query are both sent, and the table's answer is returned, or
        `SearchFailed` when either query or the row mapping fails. */
    method QueryDatabase(q: SearchQuery) returns (r: Result<SearchResult, SearchError>)
      modifies store`log
      ensures exists pageQuery, params, countQuery, countParams ::
                && QueriesFor(q, Embedding.Embedding(q.skills), q.limit.GetOr(DefaultLimit), q.offset.GetOr(DefaultOffset),
                              pageQuery, params, countQuery, countParams)
                && store.log == old(store.log) + [Issued(pageQuery, params), Issued(countQuery, countParams)]
      ensures r == if store.up then Answer(store.rows, store.similarity, q) else Failure(SearchFailed)
    {
      var limit := q.limit.GetOr(DefaultLimit);
      var offset := q.offset.GetOr(DefaultOffset);
      var e := GenerateEmbedding(q.skills);
      var pageQuery, params, countQuery, countParams := BuildQueries(q, e, limit, offset);
      var results := store.Query(pageQuery, params);
      var counted := store.Query(countQuery, countParams);
      assert store.log == old(store.log) + [Issued(pageQuery, params), Issued(countQuery, countParams)];

      assert params[pageQuery.limitPh - 1] == IntParam(limit) && params[pageQuery.offsetPh - 1] == IntParam(offset);
      ExecutePage(store.rows, store.similarity, pageQuery, params, MatchesOf(q), SimilarityTo(store.similarity, e),
                  limit, offset);
      ExecuteCount(store.rows, store.similarity, countQuery.where, countParams, MatchesOf(q));
      if results.Failure? || counted.Failure? {
        return Failure(SearchFailed);
      }

      var listings := Listings(results.value.rows);
      if listings.None? {
        return Failure(SearchFailed);
      }
      var total := counted.value.n;
      return Success(SearchResult(listings.value, total, limit, offset));
    }

    /** `searchJobs`. A cache hit is returned as it is: no query, no
        event. Otherwise the database is queried; a success is cached for
        `TtlSeconds` and then reported as a `job.search` event with the
        query, the number of listings and the total. A coherent cache
        stays coherent, so every success is the table's answer. */
    method SearchJobs(q: SearchQuery, now: int) returns (r: Result<SearchResult, SearchError>)
      modifies store`log, cache`entries, bus`delivered
      ensures old(CachedAnswer(q, now)).Some? ==>
                && r == Success(old(CachedAnswer(q, now)).value)
                && store.log == old(store.log)
                && cache.entries == old(cache.entries)
                && bus.delivered == old(bus.delivered)
      ensures old(CachedAnswer(q, now)).None? ==>
                && (exists pageQuery, params, countQuery, countParams ::
                      && QueriesFor(q, Embedding.Embedding(q.skills), q.limit.GetOr(DefaultLimit), q.offset.GetOr(DefaultOffset),
                                    pageQuery, params, countQuery, countParams)
                      && store.log == old(store.log) + [Issued(pageQuery, params), Issued(countQuery, countParams)])
                && r == (if store.up then Answer(store.rows, store.similarity, q) else Failure(SearchFailed))
                && cache.entries
                   == (if cacheEnabled && r.Success?
                       then Write(cache.connected, cache.healthy, old(cache.entries), SearchKey(q), r.value, TtlSeconds, now)
                       else old(cache.entries))
                && bus.delivered
                   == (if r.Success? && bus.available
                       then old(bus.delivered)
                            + [Event("job.search", SearchPerformed(q, |r.value.jobListings|, r.value.total))]
                       else old(bus.delivered))
      ensures old(CacheCoherent()) ==>
                CacheCoherent() && (r.Success? ==> r == Answer(store.rows, store.similarity, q))
    {
      if cacheEnabled {
        var cached := cache.Get(SearchKey(q), now);
        if cached.Some? {
          return Success(cached.value);
        }
      }

      r := QueryDatabase(q);
      if r.Success? {
        if cacheEnabled {
          cache.SetEx(SearchKey(q), r.value, TtlSeconds, now);
        }
        bus.SendEvent(Event("job.search", SearchPerformed(q, |r.value.jobListings|, r.value.total)));
      }
    }
  }
}
