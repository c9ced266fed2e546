/** The part of PostgreSQL the search services rely on, over an in-memory
    table of `job_listings` rows: the WHERE clauses the services emit (each
    a clause kind plus the `$n` placeholder of its bound value), their
    meaning on a row, and the two query shapes, a COUNT and an ordered,
    paged SELECT. A query whose placeholders do not match its parameter
    array is refused, as PostgreSQL refuses it. */
module Sql {
  import opened Wrappers
  import opened Text
  import opened Paging

  /** The `skills` column as the driver hands it over: a `text[]` array,
      SQL NULL, or text holding JSON. `decoded` is what
      `JSON.parse(text || '[]')` yields, `None` when it throws. */
  datatype RawSkills = SkillArray(items: seq<string>) | SkillNull | SkillText(decoded: Option<seq<string>>)

  /** A row of `job_listings`. */
  datatype JobRow = JobRow(
    id: string,
    title: string,
    description: string,
    skills: RawSkills,
    company: string,
    location: string,
    salaryMin: Option<int>,
    salaryMax: Option<int>,
    createdAt: int,
    updatedAt: int,
    skillsEmbedding: Option<seq<real>>)

  /** A bound parameter value. */
  datatype Value =
    | TextArrayParam(items: seq<string>)
    | StringParam(str: string)
    | IntParam(n: int)
    | VectorParam(v: seq<real>)

  /** A WHERE clause; `ph` is the number n of its placeholder `$n`. */
  datatype Clause =
    | SkillsOverlap(ph: nat)       // skills && $n::text[]
    | LowerLocationLike(ph: nat)   // LOWER(location) LIKE LOWER($n)
    | LocationILike(ph: nat)       // location ILIKE $n
    | SalaryMaxAtLeast(ph: nat)    // (salary_max >= $n OR salary_max IS NULL)
    | SalaryMinAtMost(ph: nat)     // (salary_min <= $n OR salary_min IS NULL)
    | EmbeddingNotNull             // skills_embedding IS NOT NULL
  {
    predicate HasPlaceholder() {
      !EmbeddingNotNull?
    }
  }

  /** ORDER BY: `created_at DESC`, or the similarity
      `1 - (skills_embedding <=> $n::vector)` descending. */
  datatype Ordering = CreatedAtDesc | SimilarityDesc(vectorPh: nat)

  /** `SELECT COUNT(*)` over the rows the clauses admit, or the SELECT of
      those rows with ORDER BY and `LIMIT $limitPh OFFSET $offsetPh`. */
  datatype Query =
    | CountRows(where: seq<Clause>)
    | SelectPage(where: seq<Clause>, order: Ordering, limitPh: nat, offsetPh: nat)

  datatype Reply = Count(n: nat) | Rows(rows: seq<JobRow>)

  datatype DbError = ConnectionFailed | BadParameters | OutOfRange | NegativeLimit | NegativeOffset

  /** The largest value of PostgreSQL's `bigint`, the type LIMIT and
      OFFSET values are read as. */
  const MaxBigint := 0x7FFF_FFFF_FFFF_FFFF

  predicate IsBigint(n: int) {
    -MaxBigint - 1 <= n <= MaxBigint
  }

  predicate InRange(params: seq<Value>, ph: nat) {
    1 <= ph <= |params|
  }

  predicate IntAt(params: seq<Value>, ph: nat) {
    InRange(params, ph) && params[ph - 1].IntParam?
  }

  /** The value bound to the clause's placeholder has the type the clause
      compares it with. */
  predicate ClauseTyped(c: Clause, params: seq<Value>) {
    match c
    case SkillsOverlap(ph) => InRange(params, ph) && params[ph - 1].TextArrayParam?
    case LowerLocationLike(ph) => InRange(params, ph) && params[ph - 1].StringParam?
    case LocationILike(ph) => InRange(params, ph) && params[ph - 1].StringParam?
    case SalaryMaxAtLeast(ph) => IntAt(params, ph)
    case SalaryMinAtMost(ph) => IntAt(params, ph)
    case EmbeddingNotNull => true
  }

  predicate OrderTyped(o: Ordering, params: seq<Value>) {
    o.SimilarityDesc? ==> InRange(params, o.vectorPh) && params[o.vectorPh - 1].VectorParam?
  }

  /** Placeholder `$k` occurs in the query text. */
  predicate Uses(q: Query, k: nat) {
    (exists i :: 0 <= i < |q.where| && q.where[i].HasPlaceholder() && q.where[i].ph == k)
    || (q.SelectPage? && (k == q.limitPh || k == q.offsetPh
                          || (q.order.SimilarityDesc? && q.order.vectorPh == k)))
  }

  /** PostgreSQL accepts the parameter array: every placeholder has a value
      of the right type and every value has a placeholder. */
  predicate Bound(q: Query, params: seq<Value>) {
    && (forall i :: 0 <= i < |q.where| ==> ClauseTyped(q.where[i], params))
    && (q.SelectPage? ==> OrderTyped(q.order, params) && IntAt(params, q.limitPh) && IntAt(params, q.offsetPh))
    && (forall k :: 1 <= k <= |params| ==> Uses(q, k))
  }

  /** Some element occurs in both arrays (the `&&` array operator). */
  predicate Overlaps(a: seq<string>, b: seq<string>) {
    exists x :: x in a && x in b
  }

  /** LIKE against the patterns the services build, `%s%`: `s` occurs in
      the text. Any other pattern is compared literally. */
  predicate LikeSubstring(text: string, pattern: string) {
    if |pattern| >= 2 && pattern[0] == '%' && pattern[|pattern| - 1] == '%'
    then Contains(text, pattern[1..|pattern| - 1])
    else text == pattern
  }

  /** The clause is true of the row (SQL NULL counts as false). */
  predicate ClauseHolds(c: Clause, params: seq<Value>, row: JobRow) {
    match c
    case SkillsOverlap(ph) =>
      InRange(params, ph) && params[ph - 1].TextArrayParam?
      && row.skills.SkillArray? && Overlaps(row.skills.items, params[ph - 1].items)
    case LowerLocationLike(ph) =>
      InRange(params, ph) && params[ph - 1].StringParam?
      && LikeSubstring(Lower(row.location), Lower(params[ph - 1].str))
    case LocationILike(ph) =>
      InRange(params, ph) && params[ph - 1].StringParam?
      && LikeSubstring(Lower(row.location), Lower(params[ph - 1].str))
    case SalaryMaxAtLeast(ph) =>
      IntAt(params, ph) && (row.salaryMax.None? || row.salaryMax.value >= params[ph - 1].n)
    case SalaryMinAtMost(ph) =>
      IntAt(params, ph) && (row.salaryMin.None? || row.salaryMin.value <= params[ph - 1].n)
    case EmbeddingNotNull =>
      row.skillsEmbedding.Some?
  }

  predicate AllHold(where: seq<Clause>, params: seq<Value>, row: JobRow) {
    forall i :: 0 <= i < |where| ==> ClauseHolds(where[i], params, row)
  }

  function Matcher(where: seq<Clause>, params: seq<Value>): JobRow -> bool {
    row => AllHold(where, params, row)
  }

  /** The similarity of the row's stored vector to `v`, as the database's
      `1 - (skills_embedding <=> v)`; rows without a vector score 0. */
  function SimilarityScore(sim: (seq<real>, seq<real>) -> real, v: seq<real>, row: JobRow): real {
    match row.skillsEmbedding
    case Some(e) => sim(e, v)
    case None => 0.0
  }

  function OrderKey(o: Ordering, params: seq<Value>, sim: (seq<real>, seq<real>) -> real): JobRow -> real {
    match o
    case CreatedAtDesc => (row: JobRow) => row.createdAt as real
    case SimilarityDesc(ph) =>
      var v := if InRange(params, ph) && params[ph - 1].VectorParam? then params[ph - 1].v else [];
      (row: JobRow) => SimilarityScore(sim, v, row)
  }

  /** What the database answers to `q` with `params` over `rows`. A
      LIMIT or OFFSET value outside `bigint` is refused when the values
      are bound, before the query runs; a negative OFFSET is then reported
      before a negative LIMIT, in the order PostgreSQL's executor checks
      them. */
  function Execute(rows: seq<JobRow>, sim: (seq<real>, seq<real>) -> real, q: Query, params: seq<Value>)
    : Result<Reply, DbError>
  {
    if !Bound(q, params) then Failure(BadParameters)
    else
      match q
      case CountRows(where) => Success(Count(|Filter(rows, Matcher(where, params))|))
      case SelectPage(where, order, limitPh, offsetPh) =>
        var limit := params[limitPh - 1].n;
        var offset := params[offsetPh - 1].n;
        if !IsBigint(limit) || !IsBigint(offset) then Failure(OutOfRange)
        else if offset < 0 then Failure(NegativeOffset)
        else if limit < 0 then Failure(NegativeLimit)
        else Success(Rows(Page(rows, Matcher(where, params), OrderKey(order, params, sim), offset, limit)))
  }

  /** Clause i holds placeholder `$(i+1)` and there is one value per
      clause: the numbering a `paramIndex` counter starting at 1 produces. */
  predicate Numbered(where: seq<Clause>, params: seq<Value>) {
    && |where| == |params|
    && forall i :: 0 <= i < |where| ==> where[i].HasPlaceholder() && where[i].ph == i + 1
  }

  lemma ClauseExtend(c: Clause, params: seq<Value>, extra: seq<Value>, row: JobRow)
    requires c.HasPlaceholder() ==> c.ph <= |params|
    ensures ClauseHolds(c, params + extra, row) == ClauseHolds(c, params, row)
  {
    if c.HasPlaceholder() && InRange(params, c.ph) {
      assert (params + extra)[c.ph - 1] == params[c.ph - 1];
    }
  }

  lemma ClauseTypedExtend(c: Clause, params: seq<Value>, extra: seq<Value>)
    requires c.HasPlaceholder() ==> c.ph <= |params|
    ensures ClauseTyped(c, params + extra) == ClauseTyped(c, params)
  {
    if c.HasPlaceholder() && InRange(params, c.ph) {
      assert (params + extra)[c.ph - 1] == params[c.ph - 1];
    }
  }

  /** Values appended after the last placeholder of the clauses change
      neither their meaning nor their typing. */
  lemma AllHoldExtend(where: seq<Clause>, params: seq<Value>, extra: seq<Value>, row: JobRow)
    requires forall i :: 0 <= i < |where| ==> where[i].HasPlaceholder() ==> where[i].ph <= |params|
    ensures AllHold(where, params + extra, row) == AllHold(where, params, row)
  {
    forall i | 0 <= i < |where|
      ensures ClauseHolds(where[i], params + extra, row) == ClauseHolds(where[i], params, row)
    {
      ClauseExtend(where[i], params, extra, row);
    }
  }

  /** Every clause's placeholder has a value of the type it needs. */
  predicate AllTyped(where: seq<Clause>, params: seq<Value>) {
    forall i :: 0 <= i < |where| ==> ClauseTyped(where[i], params)
  }

  lemma AllTypedExtend(where: seq<Clause>, params: seq<Value>, extra: seq<Value>)
    requires forall i :: 0 <= i < |where| ==> where[i].HasPlaceholder() ==> where[i].ph <= |params|
    requires AllTyped(where, params)
    ensures AllTyped(where, params + extra)
  {
    forall i | 0 <= i < |where|
      ensures ClauseTyped(where[i], params + extra)
    {
      ClauseTypedExtend(where[i], params, extra);
    }
  }

  /** Appending a clause with the next placeholder and its value keeps the
      numbering and adds the clause to the conjunction. */
  lemma AppendClause(where: seq<Clause>, params: seq<Value>, c: Clause, v: Value)
    requires Numbered(where, params) && AllTyped(where, params)
    requires c.HasPlaceholder() && c.ph == |params| + 1 && ClauseTyped(c, params + [v])
    ensures Numbered(where + [c], params + [v]) && AllTyped(where + [c], params + [v])
    ensures forall row :: AllHold(where + [c], params + [v], row)
                          <==> AllHold(where, params, row) && ClauseHolds(c, params + [v], row)
  {
    AllTypedExtend(where, params, [v]);
    forall row
      ensures AllHold(where + [c], params + [v], row)
              <==> AllHold(where, params, row) && ClauseHolds(c, params + [v], row)
    {
      AllHoldExtend(where, params, [v], row);
      assert forall i :: 0 <= i < |where| ==> (where + [c])[i] == where[i];
      assert (where + [c])[|where|] == c;
    }
  }

  /** A numbered clause list whose clauses are typed is accepted by
      PostgreSQL as a COUNT. */
  lemma NumberedBound(where: seq<Clause>, params: seq<Value>)
    requires Numbered(where, params) && AllTyped(where, params)
    ensures Bound(CountRows(where), params)
  {
    forall k | 1 <= k <= |params|
      ensures Uses(CountRows(where), k)
    {
      assert where[k - 1].HasPlaceholder() && where[k - 1].ph == k;
    }
  }

  /** Lower-casing the `%s%` pattern a service builds and matching it with
      LIKE is a substring test that ignores the case of ASCII letters. */
  lemma LikeWrapped(text: string, s: string)
    ensures LikeSubstring(text, Lower("%" + s + "%")) == Contains(text, Lower(s))
  {
    var p := Lower("%" + s + "%");
    assert p == "%" + Lower(s) + "%";
    assert p[1..|p| - 1] == Lower(s);
  }

  /** A COUNT whose clauses mean `pred` counts the rows satisfying `pred`. */
  lemma ExecuteCount(rows: seq<JobRow>, sim: (seq<real>, seq<real>) -> real, where: seq<Clause>,
                     params: seq<Value>, pred: JobRow -> bool)
    requires Bound(CountRows(where), params)
    requires forall row :: AllHold(where, params, row) <==> pred(row)
    ensures Execute(rows, sim, CountRows(where), params) == Success(Count(|Filter(rows, pred)|))
  {
    FilterCongruent(rows, Matcher(where, params), pred);
  }

  /** A paged SELECT that PostgreSQL accepts returns the page its clauses
      and ordering select, or the error it raises for a LIMIT or OFFSET
      outside `bigint` or negative. */
  lemma ExecuteSelect(rows: seq<JobRow>, sim: (seq<real>, seq<real>) -> real, q: Query, params: seq<Value>)
    requires q.SelectPage? && Bound(q, params)
    ensures var limit, offset := params[q.limitPh - 1].n, params[q.offsetPh - 1].n;
            Execute(rows, sim, q, params)
            == if !IsBigint(limit) || !IsBigint(offset) then Failure(OutOfRange)
               else if offset < 0 then Failure(NegativeOffset)
               else if limit < 0 then Failure(NegativeLimit)
               else Success(Rows(Page(rows, Matcher(q.where, params), OrderKey(q.order, params, sim), offset, limit)))
  {
  }

  /** A paged SELECT whose clauses mean `pred` and whose ordering means
      `key` returns the page of `pred` ordered by `key`, or the error
      PostgreSQL raises for a LIMIT or OFFSET outside `bigint` or
      negative. */
  lemma ExecutePage(rows: seq<JobRow>, sim: (seq<real>, seq<real>) -> real, q: Query,
                    params: seq<Value>, pred: JobRow -> bool, key: JobRow -> real, limit: int, offset: int)
    requires q.SelectPage? && Bound(q, params)
    requires forall row :: AllHold(q.where, params, row) <==> pred(row)
    requires forall row :: OrderKey(q.order, params, sim)(row) == key(row)
    requires params[q.limitPh - 1] == IntParam(limit) && params[q.offsetPh - 1] == IntParam(offset)
    ensures Execute(rows, sim, q, params)
            == if !IsBigint(limit) || !IsBigint(offset) then Failure(OutOfRange)
               else if offset < 0 then Failure(NegativeOffset)
               else if limit < 0 then Failure(NegativeLimit)
               else Success(Rows(Page(rows, pred, key, offset, limit)))
  {
    ExecuteSelect(rows, sim, q, params);
    if IsBigint(limit) && IsBigint(offset) && limit >= 0 && offset >= 0 {
      var m := Matcher(q.where, params);
      var k := OrderKey(q.order, params, sim);
      FilterCongruent(rows, m, pred);
      SortCongruent(Filter(rows, pred), k, key);
    }
  }
}
