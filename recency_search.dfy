/** The recency-ordered search service: it builds the WHERE clauses of a
    query with a running placeholder counter, counts the matching rows,
    fetches the requested page newest first, and keeps results in the
    Redis cache for five minutes. Database errors reach the caller as they
    are. */
module RecencySearch {
  import opened Wrappers
  import opened Text
  import opened Types
  import opened Paging
  import opened Sql
  import opened DataSource
  import opened Cache

  /** A skill in common with the query's skills, when it has any. */
  predicate SkillsPart(q: SearchQuery, row: JobRow) {
    |q.skills| > 0 ==> row.skills.SkillArray? && Overlaps(row.skills.items, q.skills)
  }

  /** The query's location as a substring of the row's, ignoring the case
      of ASCII letters. */
  predicate LocationPart(q: SearchQuery, row: JobRow) {
    NonEmpty(q.location) ==> Contains(Lower(row.location), Lower(q.location.value))
  }

  /** The row's maximum salary reaches the query's minimum; a row without
      a maximum passes. */
  predicate SalaryMinPart(q: SearchQuery, row: JobRow) {
    Truthy(q.salaryMin) ==> row.salaryMax.None? || row.salaryMax.value >= q.salaryMin.value
  }

  /** The row's minimum salary does not exceed the query's maximum; a row
      without a minimum passes. */
  predicate SalaryMaxPart(q: SearchQuery, row: JobRow) {
    Truthy(q.salaryMax) ==> row.salaryMin.None? || row.salaryMin.value <= q.salaryMax.value
  }

  /** The rows the query admits: each filter applies only when the query
      gives its field a truthy value. */
  predicate Matches(q: SearchQuery, row: JobRow) {
    SkillsPart(q, row) && LocationPart(q, row) && SalaryMinPart(q, row) && SalaryMaxPart(q, row)
  }

  function MatchesOf(q: SearchQuery): JobRow -> bool {
    row => Matches(q, row)
  }

  /** `ORDER BY created_at DESC`. */
  function CreatedAt(row: JobRow): real {
    row.createdAt as real
  }

  /** The clauses and values built for `q`: numbered `$1..$n` in order,
      accepted by the database, and meaning exactly `Matches(q, ·)`. */
  ghost predicate FiltersFor(q: SearchQuery, where: seq<Clause>, params: seq<Value>) {
    && Numbered(where, params)
    && Bound(CountRows(where), params)
    && (forall row :: AllHold(where, params, row) <==> Matches(q, row))
  }

  /** What the first `k` filter steps require of a row: skills, then
      location, then the minimum and the maximum salary. */
  predicate Stage(k: nat, q: SearchQuery, row: JobRow) {
    && (k >= 1 ==> SkillsPart(q, row))
    && (k >= 2 ==> LocationPart(q, row))
    && (k >= 3 ==> SalaryMinPart(q, row))
    && (k >= 4 ==> SalaryMaxPart(q, row))
  }

  /** The clauses and values after `k` filter steps: numbered, typed, and
      meaning `Stage(k, q, ·)`. */
  ghost predicate Built(k: nat, q: SearchQuery, where: seq<Clause>, params: seq<Value>) {
    && Numbered(where, params)
    && AllTyped(where, params)
    && forall row :: AllHold(where, params, row) <==> Stage(k, q, row)
  }

  /** The filter part of `searchJobs`: appends a clause and its value for
      each truthy field, advancing `paramIndex` past every placeholder it
      hands out. */
  method BuildFilter(q: SearchQuery) returns (where: seq<Clause>, params: seq<Value>, paramIndex: nat)
    ensures FiltersFor(q, where, params)
    ensures paramIndex == |params| + 1
  {
    where, params, paramIndex := [], [], 1;
    assert Built(0, q, where, params);

    SkillsStep(q, where, params);
    if |q.skills| > 0 {
      where := where + [SkillsOverlap(paramIndex)];
      params := params + [TextArrayParam(q.skills)];
      paramIndex := paramIndex + 1;
    }
    assert paramIndex == |params| + 1 && Built(1, q, where, params);

    LocationStep(q, where, params);
    if NonEmpty(q.location) {
      where := where + [LowerLocationLike(paramIndex)];
      params := params + [StringParam("%" + q.location.value + "%")];
      paramIndex := paramIndex + 1;
    }
    assert paramIndex == |params| + 1 && Built(2, q, where, params);

    SalaryMinStep(q, where, params);
    if Truthy(q.salaryMin) {
      where := where + [SalaryMaxAtLeast(paramIndex)];
      params := params + [IntParam(q.salaryMin.value)];
      paramIndex := paramIndex + 1;
    }
    assert paramIndex == |params| + 1 && Built(3, q, where, params);

    SalaryMaxStep(q, where, params);
    if Truthy(q.salaryMax) {
      where := where + [SalaryMinAtMost(paramIndex)];
      params := params + [IntParam(q.salaryMax.value)];
      paramIndex := paramIndex + 1;
    }
    BuiltFilters(q, where, params);
  }

  /** All four steps build the filters of `q`. */
  lemma BuiltFilters(q: SearchQuery, where: seq<Clause>, params: seq<Value>)
    requires Built(4, q, where, params)
    ensures FiltersFor(q, where, params)
  {
    NumberedBound(where, params);
  }

  /** The skills step: a clause when the query has skills, nothing
      otherwise. */
  lemma SkillsStep(q: SearchQuery, where: seq<Clause>, params: seq<Value>)
    requires Built(0, q, where, params)
    ensures |q.skills| > 0 ==>
              Built(1, q, where + [SkillsOverlap(|params| + 1)], params + [TextArrayParam(q.skills)])
    ensures |q.skills| == 0 ==> Built(1, q, where, params)
  {
    if |q.skills| > 0 {
      AppendClause(where, params, SkillsOverlap(|params| + 1), TextArrayParam(q.skills));
    }
  }

  /** The location step: a clause when the location is a non-empty
      string, nothing otherwise. */
  lemma LocationStep(q: SearchQuery, where: seq<Clause>, params: seq<Value>)
    requires Built(1, q, where, params)
    ensures NonEmpty(q.location) ==>
              Built(2, q, where + [LowerLocationLike(|params| + 1)],
                    params + [StringParam("%" + q.location.value + "%")])
    ensures !NonEmpty(q.location) ==> Built(2, q, where, params)
  {
    if NonEmpty(q.location) {
      var c, v := LowerLocationLike(|params| + 1), StringParam("%" + q.location.value + "%");
      AppendClause(where, params, c, v);
      forall row: JobRow
        ensures ClauseHolds(c, params + [v], row) <==> LocationPart(q, row)
      {
        LikeWrapped(Lower(row.location), q.location.value);
      }
    }
  }

  /** The minimum-salary step: a clause when the minimum is truthy (so
      not for 0), nothing otherwise. */
  lemma SalaryMinStep(q: SearchQuery, where: seq<Clause>, params: seq<Value>)
    requires Built(2, q, where, params)
    ensures Truthy(q.salaryMin) ==>
              Built(3, q, where + [SalaryMaxAtLeast(|params| + 1)], params + [IntParam(q.salaryMin.value)])
    ensures !Truthy(q.salaryMin) ==> Built(3, q, where, params)
  {
    if Truthy(q.salaryMin) {
      AppendClause(where, params, SalaryMaxAtLeast(|params| + 1), IntParam(q.salaryMin.value));
    }
  }

  /** The maximum-salary step: a clause when the maximum is truthy (so
      not for 0), nothing otherwise. */
  lemma SalaryMaxStep(q: SearchQuery, where: seq<Clause>, params: seq<Value>)
    requires Built(3, q, where, params)
    ensures Truthy(q.salaryMax) ==>
              Built(4, q, where + [SalaryMinAtMost(|params| + 1)], params + [IntParam(q.salaryMax.value)])
    ensures !Truthy(q.salaryMax) ==> Built(4, q, where, params)
  {
    if Truthy(q.salaryMax) {
      AppendClause(where, params, SalaryMinAtMost(|params| + 1), IntParam(q.salaryMax.value));
    }
  }

  /** `row.skills || []` for a `text[]` column: NULL becomes the empty
      list. */
  function SkillsOf(s: RawSkills): seq<string>
    requires !s.SkillText?
  {
    if s.SkillArray? then s.items else []
  }

  /** The `skills` column is `text[]`, which the `&&` operator the service
      emits needs. */
  ghost predicate TextArraySchema(rows: seq<JobRow>) {
    forall row :: row in rows ==> !row.skills.SkillText?
  }

  /** The listing the service builds from a row. */
  function Listing(row: JobRow): JobListing
    requires !row.skills.SkillText?
  {
    JobListing(row.id, row.title, row.description, SkillsOf(row.skills), None, row.company,
               row.location, row.salaryMin, row.salaryMax, row.createdAt, row.updatedAt)
  }

  function Listings(rows: seq<JobRow>): (ls: seq<JobListing>)
    requires TextArraySchema(rows)
    ensures |ls| == |rows|
    ensures forall i :: 0 <= i < |rows| ==> ls[i] == Listing(rows[i])
  {
    seq(|rows|, i requires 0 <= i < |rows| => Listing(rows[i]))
  }

  /** The answer to `q` over `rows` when nothing is cached: the matching
      rows newest first, `offset` of them skipped and at most `limit`
      kept, with the number of all matching rows. A LIMIT or OFFSET
      outside `bigint`, or a negative one, is the database's error. */
  ghost function Answer(rows: seq<JobRow>, q: SearchQuery): Result<SearchResult, DbError>
    requires TextArraySchema(rows)
  {
    var limit := q.limit.GetOr(DefaultLimit);
    var offset := q.offset.GetOr(DefaultOffset);
    if !IsBigint(limit) || !IsBigint(offset) then Failure(OutOfRange)
    else if offset < 0 then Failure(NegativeOffset)
    else if limit < 0 then Failure(NegativeLimit)
    else
      PageRowsMatch(rows, MatchesOf(q), CreatedAt, offset, limit);
      var page := Page(rows, MatchesOf(q), CreatedAt, offset, limit);
      Success(SearchResult(Listings(page), |Filter(rows, MatchesOf(q))|, limit, offset))
  }

  /** The queries a search sends on a cache miss: the COUNT first, then,
      if it succeeded, the page with LIMIT and OFFSET bound after the
      filter values. Both carry the same clauses and filter values. */
  function Sent(where: seq<Clause>, params: seq<Value>, limit: int, offset: int, up: bool): seq<Issued> {
    [Issued(CountRows(where), params)]
    + if up then [Issued(SelectPage(where, CreatedAtDesc, |params| + 1, |params| + 2),
                         params + [IntParam(limit), IntParam(offset)])]
      else []
  }

  /** The page query reuses the count's clauses and values, so it binds
      and means the same rows; LIMIT and OFFSET take the next two
      placeholders. */
  lemma PageQueryBound(q: SearchQuery, where: seq<Clause>, params: seq<Value>, limit: int, offset: int)
    requires FiltersFor(q, where, params)
    ensures Bound(SelectPage(where, CreatedAtDesc, |params| + 1, |params| + 2),
                  params + [IntParam(limit), IntParam(offset)])
    ensures forall row :: AllHold(where, params + [IntParam(limit), IntParam(offset)], row) <==> Matches(q, row)
  {
    var extra := [IntParam(limit), IntParam(offset)];
    var page := SelectPage(where, CreatedAtDesc, |params| + 1, |params| + 2);
    forall row
      ensures AllHold(where, params + extra, row) == AllHold(where, params, row)
    {
      AllHoldExtend(where, params, extra, row);
    }
    AllTypedExtend(where, params, extra);
    forall k | 1 <= k <= |params + extra|
      ensures Uses(page, k)
    {
      if k <= |params| {
        assert where[k - 1].HasPlaceholder() && where[k - 1].ph == k;
      }
    }
  }

  /** What the database answers to the two queries built for `q`: the
      COUNT gives the number of matching rows, and the page query fails
      exactly when `Answer` does, with the same error, or else returns the
      rows the listings of `Answer` are built from. */
  lemma DatabaseAnswer(rows: seq<JobRow>, sim: (seq<real>, seq<real>) -> real, q: SearchQuery,
                       where: seq<Clause>, params: seq<Value>)
    requires TextArraySchema(rows)
    requires FiltersFor(q, where, params)
    ensures Execute(rows, sim, CountRows(where), params) == Success(Count(|Filter(rows, MatchesOf(q))|))
    ensures var limit, offset := q.limit.GetOr(DefaultLimit), q.offset.GetOr(DefaultOffset);
            var page := Execute(rows, sim, SelectPage(where, CreatedAtDesc, |params| + 1, |params| + 2),
                                params + [IntParam(limit), IntParam(offset)]);
            && (page.Failure? <==> Answer(rows, q).Failure?)
            && (page.Failure? ==> page.error == Answer(rows, q).error)
            && (page.Success? ==>
                  && page.value.Rows? && TextArraySchema(page.value.rows)
                  && Answer(rows, q)
                     == Success(SearchResult(Listings(page.value.rows), |Filter(rows, MatchesOf(q))|, limit, offset)))
  {
    var limit, offset := q.limit.GetOr(DefaultLimit), q.offset.GetOr(DefaultOffset);
    ExecuteCount(rows, sim, where, params, MatchesOf(q));
    PageQueryBound(q, where, params, limit, offset);
    var pageParams := params + [IntParam(limit), IntParam(offset)];
    var pageQuery := SelectPage(where, CreatedAtDesc, |params| + 1, |params| + 2);
    ExecutePage(rows, sim, pageQuery, pageParams, MatchesOf(q), CreatedAt, limit, offset);
    if IsBigint(limit) && IsBigint(offset) && limit >= 0 && offset >= 0 {
      PageRowsMatch(rows, MatchesOf(q), CreatedAt, offset, limit);
    }
  }

  /** A successful answer echoes the effective limit and offset and counts
      every matching row; its page holds at most `limit` listings, no more
      than there are matches, and none once `offset` reaches the count. A
      limit or offset beyond `bigint` is refused as out of range, and
      then a negative offset or limit as such. */
  lemma AnswerBounds(rows: seq<JobRow>, q: SearchQuery)
    requires TextArraySchema(rows)
    ensures var limit, offset := q.limit.GetOr(DefaultLimit), q.offset.GetOr(DefaultOffset);
            && (Answer(rows, q).Success? <==> 0 <= limit <= MaxBigint && 0 <= offset <= MaxBigint)
            && (Answer(rows, q).Failure? ==>
                  Answer(rows, q).error
                  == if !IsBigint(limit) || !IsBigint(offset) then OutOfRange
                     else if offset < 0 then NegativeOffset
                     else NegativeLimit)
    ensures Answer(rows, q).Success? ==>
              var a := Answer(rows, q).value;
              && a.limit == q.limit.GetOr(DefaultLimit)
              && a.offset == q.offset.GetOr(DefaultOffset)
              && a.total == |Filter(rows, MatchesOf(q))|
              && |a.jobListings| <= a.limit
              && |a.jobListings| <= a.total
              && (a.offset >= a.total ==> a.jobListings == [])
              && |a.jobListings| == if a.offset >= a.total then 0 else Min(a.limit, a.total - a.offset)
  {
    var limit, offset := q.limit.GetOr(DefaultLimit), q.offset.GetOr(DefaultOffset);
    if IsBigint(limit) && IsBigint(offset) && limit >= 0 && offset >= 0 {
      PageSize(rows, MatchesOf(q), CreatedAt, offset, limit);
    }
  }

  /** Every listing of a page is built from a row of the table that the
      query admits. */
  lemma AnswerListingsMatch(rows: seq<JobRow>, q: SearchQuery)
    requires TextArraySchema(rows)
    ensures Answer(rows, q).Success? ==>
              forall l :: l in Answer(rows, q).value.jobListings ==>
                exists row :: row in rows && Matches(q, row) && l == Listing(row)
  {
    var limit, offset := q.limit.GetOr(DefaultLimit), q.offset.GetOr(DefaultOffset);
    if IsBigint(limit) && IsBigint(offset) && limit >= 0 && offset >= 0 {
      var page := Page(rows, MatchesOf(q), CreatedAt, offset, limit);
      PageRowsMatch(rows, MatchesOf(q), CreatedAt, offset, limit);
      var listings := Answer(rows, q).value.jobListings;
      assert listings == Listings(page);
      forall l | l in listings
        ensures exists row :: row in rows && Matches(q, row) && l == Listing(row)
      {
        var i :| 0 <= i < |listings| && listings[i] == l;
        assert page[i] in page;
      }
    }
  }

  /** A page is ordered newest first. */
  lemma AnswerNewestFirst(rows: seq<JobRow>, q: SearchQuery)
    requires TextArraySchema(rows)
    ensures Answer(rows, q).Success? ==>
              var ls := Answer(rows, q).value.jobListings;
              forall i, j :: 0 <= i < j < |ls| ==> ls[i].createdAt >= ls[j].createdAt
  {
    var limit, offset := q.limit.GetOr(DefaultLimit), q.offset.GetOr(DefaultOffset);
    if IsBigint(limit) && IsBigint(offset) && limit >= 0 && offset >= 0 {
      var page := Page(rows, MatchesOf(q), CreatedAt, offset, limit);
      PageOrdered(rows, MatchesOf(q), CreatedAt, offset, limit);
      var ls := Answer(rows, q).value.jobListings;
      forall i, j | 0 <= i < j < |ls|
        ensures ls[i].createdAt >= ls[j].createdAt
      {
        assert CreatedAt(page[i]) >= CreatedAt(page[j]);
      }
    }
  }

  /** The listings of a successful search are the run of the newest
      matching rows that starts after the `offset` newest ones: each
      listing is built from the row in its place on the page, every
      skipped row is at least as new as every listed one, and a matching
      row newer than a listed one is listed or skipped. */
  lemma AnswerTopRun(rows: seq<JobRow>, q: SearchQuery)
    requires TextArraySchema(rows)
    ensures Answer(rows, q).Success? ==>
              var limit, offset := q.limit.GetOr(DefaultLimit), q.offset.GetOr(DefaultOffset);
              var ls := Answer(rows, q).value.jobListings;
              var page := Page(rows, MatchesOf(q), CreatedAt, offset, limit);
              var skipped := Skipped(rows, MatchesOf(q), CreatedAt, offset);
              && |skipped| == Min(offset, |Filter(rows, MatchesOf(q))|)
              && |ls| == |page|
              && (forall i :: 0 <= i < |ls| ==> !page[i].skills.SkillText? && ls[i] == Listing(page[i]))
              && (forall x, i :: x in skipped && 0 <= i < |page| ==> x.createdAt >= page[i].createdAt)
              && (forall x, i :: 0 <= i < |page| && x in rows && Matches(q, x) && x.createdAt > page[i].createdAt
                                 ==> x in page || x in skipped)
  {
    var limit, offset := q.limit.GetOr(DefaultLimit), q.offset.GetOr(DefaultOffset);
    if IsBigint(limit) && IsBigint(offset) && limit >= 0 && offset >= 0 {
      PageRowsMatch(rows, MatchesOf(q), CreatedAt, offset, limit);
      PageIsTopRun(rows, MatchesOf(q), CreatedAt, offset, limit);
      var page := Page(rows, MatchesOf(q), CreatedAt, offset, limit);
      assert Answer(rows, q).value.jobListings == Listings(page);
    }
  }

  /** Every readable entry of `entries` holds the answer `rows` give to
      the query it is keyed by. */
  ghost predicate Coherent(rows: seq<JobRow>, entries: map<CacheKey, Entry>) {
    && TextArraySchema(rows)
    && forall k :: k in entries && entries[k].payload.ResultJson? ==>
         Answer(rows, k.query) == Success(entries[k].payload.result)
  }

  /** A hit in a coherent cache is the table's answer. */
  lemma CoherentHit(rows: seq<JobRow>, connected: bool, healthy: bool, entries: map<CacheKey, Entry>,
                    key: CacheKey, now: int)
    ensures Coherent(rows, entries) && Read(connected, healthy, entries, key, now).Some? ==>
              Answer(rows, key.query) == Success(Read(connected, healthy, entries, key, now).value)
  {
  }

  /** Writing the table's answer under its query keeps the cache
      coherent. */
  lemma CoherentAfterWrite(rows: seq<JobRow>, connected: bool, healthy: bool, entries: map<CacheKey, Entry>,
                           q: SearchQuery, result: SearchResult, now: int)
    requires TextArraySchema(rows)
    ensures Coherent(rows, entries) && Answer(rows, q) == Success(result) ==>
              Coherent(rows, Write(connected, healthy, entries, SearchKey(q), result, TtlSeconds, now))
  {
  }

  /** The recency search service: a pool and, behind a feature flag, the
      Redis cache. */
  class SearchService {
    /** `featureFlags.enableRedisCache`. */
    const cacheEnabled: bool
    const store: JobStore
    const cache: RedisCache

    constructor(cacheEnabled: bool, store: JobStore, cache: RedisCache)
      ensures this.cacheEnabled == cacheEnabled && this.store == store && this.cache == cache
    {
      this.cacheEnabled := cacheEnabled;
      this.store := store;
      this.cache := cache;
    }

    /** The result the cache answers `q` with at time `now`, if it is
        consulted and hits. */
    function CachedAnswer(q: SearchQuery, now: int): Option<SearchResult>
      reads this, cache
    {
      if cacheEnabled then cache.Lookup(SearchKey(q), now) else None
    }

    /** Every readable cache entry holds the answer the table gives now to
        the query it is keyed by. */
    ghost predicate CacheCoherent()
      reads this, store, cache
    {
      Coherent(store.rows, cache.entries)
    }

    /** The database part of `searchJobs`: the COUNT and then the page are
        sent with the same clauses and values, and the table's answer, or
        the database's error, is returned. */
    method QueryDatabase(q: SearchQuery) returns (r: Result<SearchResult, DbError>)
      requires TextArraySchema(store.rows)
      modifies store`log
      ensures exists where, params :: FiltersFor(q, where, params)
                && store.log == old(store.log) + Sent(where, params, q.limit.GetOr(DefaultLimit),
                                                      q.offset.GetOr(DefaultOffset), store.up)
      ensures r == if store.up then Answer(store.rows, q) else Failure(ConnectionFailed)
    {
      var limit := q.limit.GetOr(DefaultLimit);
      var offset := q.offset.GetOr(DefaultOffset);

      var where, params, paramIndex := BuildFilter(q);
      var total := CountMatching(q, where, params);
      if total.Failure? {
        return Failure(total.error);
      }
      var listings := FetchPage(q, where, params, paramIndex, limit, offset);
      if listings.Failure? {
        return Failure(listings.error);
      }
      return Success(SearchResult(listings.value, total.value, limit, offset));
    }

    /** The COUNT wrapped around the filtered query: the number of rows
        the query admits. */
    method CountMatching(q: SearchQuery, where: seq<Clause>, params: seq<Value>) returns (r: Result<nat, DbError>)
      requires TextArraySchema(store.rows)
      requires FiltersFor(q, where, params)
      modifies store`log
      ensures store.log == old(store.log) + [Issued(CountRows(where), params)]
      ensures r == if store.up then Success(|Filter(store.rows, MatchesOf(q))|) else Failure(ConnectionFailed)
    {
      DatabaseAnswer(store.rows, store.similarity, q, where, params);
      var counted := store.Query(CountRows(where), params);
      if counted.Failure? {
        return Failure(counted.error);
      }
      return Success(counted.value.n);
    }

    /** The page query, `LIMIT $paramIndex OFFSET $paramIndex+1` after the
        filters, and the listings built from its rows. */
    method FetchPage(q: SearchQuery, where: seq<Clause>, params: seq<Value>, paramIndex: nat, limit: int, offset: int)
      returns (r: Result<seq<JobListing>, DbError>)
      requires TextArraySchema(store.rows)
      requires FiltersFor(q, where, params) && paramIndex == |params| + 1
      requires limit == q.limit.GetOr(DefaultLimit) && offset == q.offset.GetOr(DefaultOffset)
      modifies store`log
      ensures store.log == old(store.log) + [Issued(SelectPage(where, CreatedAtDesc, paramIndex, paramIndex + 1),
                                                    params + [IntParam(limit), IntParam(offset)])]
      ensures !store.up ==> r == Failure(ConnectionFailed)
      ensures store.up ==>
                && (r.Failure? <==> Answer(store.rows, q).Failure?)
                && (r.Failure? ==> r.error == Answer(store.rows, q).error)
                && (r.Success? ==>
                      Answer(store.rows, q) == Success(SearchResult(r.value, |Filter(store.rows, MatchesOf(q))|, limit, offset)))
    {
      DatabaseAnswer(store.rows, store.similarity, q, where, params);
      var fetched := store.Query(SelectPage(where, CreatedAtDesc, paramIndex, paramIndex + 1),
                                 params + [IntParam(limit), IntParam(offset)]);
      if fetched.Failure? {
        return Failure(fetched.error);
      }
      return Success(Listings(fetched.value.rows));
    }

    /** `searchJobs`. A cache hit is returned without touching the
        database. Otherwise the database is queried, and a success is
        cached for `TtlSeconds`. A coherent cache stays coherent, so every
        success is the table's answer. */
    method SearchJobs(q: SearchQuery, now: int) returns (r: Result<SearchResult, DbError>)
      requires TextArraySchema(store.rows)
      modifies store`log, cache`entries
      ensures old(CachedAnswer(q, now)).Some? ==>
                && r == Success(old(CachedAnswer(q, now)).value)
                && store.log == old(store.log)
                && cache.entries == old(cache.entries)
      ensures old(CachedAnswer(q, now)).None? ==>
                && (exists where, params :: FiltersFor(q, where, params)
                      && store.log == old(store.log) + Sent(where, params, q.limit.GetOr(DefaultLimit),
                                                            q.offset.GetOr(DefaultOffset), store.up))
                && r == (if store.up then Answer(store.rows, q) else Failure(ConnectionFailed))
                && cache.entries
                   == if cacheEnabled && r.Success?
                      then Write(cache.connected, cache.healthy, old(cache.entries), SearchKey(q), r.value, TtlSeconds, now)
                      else old(cache.entries)
      ensures old(CacheCoherent()) ==> CacheCoherent() && (r.Success? ==> r == Answer(store.rows, q))
    {
      if cacheEnabled {
        var cached := cache.Get(SearchKey(q), now);
        if cached.Some? {
          CoherentHit(store.rows, cache.connected, cache.healthy, cache.entries, SearchKey(q), now);
          return Success(cached.value);
        }
      }

      r := QueryDatabase(q);
      if cacheEnabled && r.Success? {
        CoherentAfterWrite(store.rows, cache.connected, cache.healthy, cache.entries, q, r.value, now);
        cache.SetEx(SearchKey(q), r.value, TtlSeconds, now);
      }
    }

    /** `semanticSearch`: the listings of a search on the skills alone. */
    method SemanticSearch(skills: seq<string>, now: int) returns (r: Result<seq<JobListing>, DbError>)
      requires TextArraySchema(store.rows)
      modifies store`log, cache`entries
      ensures old(CacheCoherent()) ==> CacheCoherent()
      ensures old(CacheCoherent()) && r.Success? ==>
                Answer(store.rows, SkillsOnly(skills)).Success?
                && r.value == Answer(store.rows, SkillsOnly(skills)).value.jobListings
      ensures store.up ==> r.Success?
      ensures r.Failure? ==> r.error == ConnectionFailed
    {
      var result := SearchJobs(SkillsOnly(skills), now);
      match result
      case Success(found) => r := Success(found.jobListings);
      case Failure(e) => r := Failure(e);
    }
  }
}
