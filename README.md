# Job search engine: a Dafny model

This project models the core of a job-search API that exists in two
near-duplicate variants:

- the **recency** variant (`azure/src/…`) filters job listings by skills,
  location and salary and returns them newest first;
- the **pgvector** variant (`azure/job-matching-api/src/…`) embeds the
  query's skills into a 1536-slot placeholder vector and returns the
  listings that have a stored embedding, filtered by location and salary,
  most similar first.

Each variant has three parts:

- a search service that builds SQL clauses with a running `$n`
  placeholder counter, counts and pages the matching rows, and caches
  results in Redis for 300 seconds (the pgvector one also reports every
  search on an event bus);
- an export service that renders a result as comma-separated text;
- a controller that turns query parameters into a search query and a
  response.

The database is an in-memory `job_listings` table together with the part
of PostgreSQL the services rely on (`Sql`, `DataSource`). Redis is a map
from keys to entries with an expiry (`Cache`). The Service Bus is an event
log (`Events`).

Each search service is a class whose methods change the query log, the
cache and the event log. Each is proved against a specification function
`Answer`: filter, then sort by the ranking key highest first, then skip
`offset` rows and keep `limit` (`Paging`). Lemmas prove what `Answer`
guarantees: size bounds, the total, ordering, and that every row matches.
The cache is proved coherent with a table that does not change while its entries live. The CSV writer is proved
against a reader: every document the exports write is read back into the
values it was written from. The controllers are functions from a request
to a response, and lemmas fix every status code they can give.

The files:

| file | module |
|---|---|
| `wrappers.dfy`, `text.dfy`, `types.dfy` | `Option`/`Result`, string helpers (`split`, `join`, `trim`, `toString`), the records of `types/index.ts` |
| `paging.dfy` | filter, descending sort, `LIMIT`/`OFFSET` window |
| `sql.dfy`, `datasource.dfy` | clause kinds and their meaning, query execution, the pool with its query log |
| `cache.dfy`, `events.dfy` | the Redis cache and the Service Bus |
| `recency_search.dfy` | the recency `SearchService` |
| `embedding.dfy`, `vector_search.dfy` | `generateEmbedding` and the pgvector `SearchService` |
| `csv.dfy`, `recency_export.dfy`, `vector_export.dfy` | `escapeCSV`, a CSV reader, and both `exportToCSV` |
| `http.dfy`, `recency_controller.dfy`, `vector_controller.dfy` | request parameters, responses, and both controllers |

## Model

| member | source | states |
|---|---|---|
| Paging.Filter | azure/src/services/searchService.ts:28-56 | the kept rows are exactly the rows of the table that satisfy the predicate, each kept no more often than it occurs |
| Paging.FilterMultiplicity | azure/src/services/searchService.ts:28-56 | a row that satisfies the predicate is kept exactly as often as it occurs in the table, and one that does not is never kept |
| Paging.FilterConcat | azure/src/services/searchService.ts:28-56 | filtering keeps the table's order: filtering two pieces and joining the results is filtering the whole |
| Paging.SortDesc | azure/src/services/searchService.ts:62 | `ORDER BY … DESC` yields a permutation of the rows that is non-increasing in the key |
| Paging.InsertOrdered | azure/src/services/searchService.ts:62 | inserting a row into a highest-first sequence keeps it highest-first |
| Paging.Window | azure/src/services/searchService.ts:62-63 | `LIMIT l OFFSET o` keeps the run starting at `o` of length `min(l, n - o)`, empty once `o >= n` |
| Paging.PageSize | azure/src/services/searchService.ts:62-63 | a page holds at most `limit` rows; its size is fixed by `offset`, `limit` and the number of matching rows |
| Paging.PageRowsMatch | azure/src/services/searchService.ts:28-62 | every row on a page is a table row that satisfies the predicate (sub-multiset of the matching rows) |
| Paging.PageOrdered | azure/src/services/searchService.ts:62 | a page is ordered highest key first |
| Paging.PageIsTopRun | azure/src/services/searchService.ts:62-63 | `ORDER BY … DESC LIMIT … OFFSET …` returns the run of the ranking after the `offset` skipped rows: every skipped row ranks at least as high as every row on the page, and a matching row that ranks higher than a row on the page is on the page or skipped |
| Paging.FilterCongruent | azure/src/services/searchService.ts:58-59 | two predicates that agree on the table's rows keep the same rows |
| Paging.SortCongruent | azure/src/services/searchService.ts:62 | two keys that agree on the rows sort them the same way |
| Text.Split | azure/job-matching-api/src/controllers/searchController.ts:42 | `split(',')` yields at least one part and no part holds the separator |
| Text.SplitConcat | azure/src/controllers/searchController.ts:35 | splitting `a + sep + b` gives the parts of `a` followed by the parts of `b` |
| Text.JoinSplit | azure/job-matching-api/src/controllers/searchController.ts:42 | joining the parts of a split with the separator gives the string back |
| Text.SplitCount | azure/job-matching-api/src/controllers/searchController.ts:42 | a split has one part more than the string has separators |
| Text.SplitWords | azure/src/controllers/searchController.ts:35 | two comma-free words joined by a comma split into those two words |
| Text.Trim | azure/src/controllers/searchController.ts:35 | `trim()` returns the infix of the string that is left once the white space at both ends is removed: only white space lies outside it, it neither starts nor ends with white space, and it is empty exactly when the string is all white space |
| Text.TrimWord | azure/src/controllers/searchController.ts:35 | trimming a word of visible ASCII characters leaves it unchanged |
| Text.IntToString | azure/src/services/exportService.ts:29-30 | `toString()` of an integer is non-empty and made of digits and a leading minus sign |
| Sql.AppendClause | azure/src/services/searchService.ts:34-56 | appending a clause with placeholder `$(n+1)` and its value keeps the numbering and conjoins the clause's meaning |
| Sql.NumberedBound | azure/src/services/searchService.ts:58-59 | clauses numbered `$1..$n` with typed values form a COUNT the database accepts |
| Sql.LikeWrapped | azure/src/services/searchService.ts:41-42 | LIKE against the lower-cased pattern `'%' + s + '%'` holds exactly when the lower-cased `s` is a substring of the text, lower-casing only ASCII letters |
| Sql.ExecuteCount | azure/src/services/searchService.ts:58-60 | a COUNT whose clauses mean a predicate returns the number of rows satisfying it |
| Sql.ExecutePage | azure/src/services/searchService.ts:62-65 | an accepted paged SELECT returns the page of its predicate ordered by its key; a LIMIT or OFFSET outside PostgreSQL's `bigint` is refused as out of range, and then a negative OFFSET or LIMIT as such |
| DataSource.JobStore.Query | azure/src/services/searchService.ts:59 | `pool.query` logs the query and returns the database's answer, or a connection error when the database is down |
| Cache.Read | azure/src/services/searchService.ts:111-122 | a lookup hits exactly when there is a client, the command succeeds, the key is live and its value parses; a hit is the stored result |
| Cache.Write | azure/src/services/searchService.ts:127-136 | `setEx` stores the result under the key with expiry `now + ttl`, touches no other key, and a failing write changes nothing |
| Cache.ReadAfterWrite | azure/src/services/searchService.ts:87-89 | a result written with TTL 300 is read back under the same key until the TTL ends, and is gone afterwards |
| Cache.WriteIsolated | azure/src/services/searchService.ts:127-136 | a write leaves what every other key reads unchanged |
| Cache.RedisCache.Get | azure/src/services/searchService.ts:111-122 | `getFromCache` returns the live, readable entry or a miss |
| Cache.RedisCache.SetEx | azure/src/services/searchService.ts:127-136 | `setCache` replaces the entries by their `Write` |
| Events.EventBus.SendEvent | azure/src/config/azureServiceBus.ts:34-53 | the event is appended when a sender is available and dropped otherwise; sending never raises, as the recency variant's sender is written (the pgvector variant's is taken to match) |
| RecencySearch.BuildFilter | azure/src/services/searchService.ts:31-56 | the clauses are numbered `$1..$n` in step with `params`, the database accepts them, `paramIndex = n + 1`, and a row passes them exactly when it has a common skill (if skills are given), contains the location up to the case of ASCII letters (if truthy), and meets the truthy salary bounds or has NULL there |
| RecencySearch.PageQueryBound | azure/src/services/searchService.ts:58-63 | the page query reuses the count's clauses and values, binds LIMIT and OFFSET to the next two placeholders, and selects the same rows |
| RecencySearch.AnswerBounds | azure/src/services/searchService.ts:60-85 | a search succeeds exactly when limit and offset lie in 0..2^63-1, PostgreSQL's non-negative `bigint` values, failing as out of range beyond `bigint` and otherwise with the negative one; it echoes them (default 10 and 0), `total` counts every matching row, and the page holds at most `limit` and at most `total` listings, none once `offset >= total` |
| RecencySearch.AnswerListingsMatch | azure/src/services/searchService.ts:65-78 | every listing on a page is built from a table row the query admits |
| RecencySearch.AnswerNewestFirst | azure/src/services/searchService.ts:62 | the listings are ordered by creation time, newest first |
| RecencySearch.AnswerTopRun | azure/src/services/searchService.ts:58-78 | the listings are built from the page rows in place, and the page is the run of the newest matching rows after the `offset` newest: every skipped row is at least as new as every listed one, and a matching row newer than a listed one is listed or skipped |
| RecencySearch.CoherentHit | azure/src/services/searchService.ts:16-20 | a hit in a coherent cache is the table's answer to the query |
| RecencySearch.CoherentAfterWrite | azure/src/services/searchService.ts:87-90 | caching the table's answer under its query keeps the cache coherent |
| RecencySearch.SearchService.QueryDatabase | azure/src/services/searchService.ts:58-85 | the COUNT and then the page go out with the same clauses and values; the page is not sent if the COUNT failed; the result is the table's `Answer` or the connection error |
| RecencySearch.SearchService.CountMatching | azure/src/services/searchService.ts:58-60 | the COUNT wrapped around the filtered query is logged as sent and, with the database up, answers the number of rows the query admits; otherwise the connection error |
| RecencySearch.SearchService.FetchPage | azure/src/services/searchService.ts:62-78 | the page query, with LIMIT and OFFSET placeholders after the filter values, is logged as sent; with the database up it fails exactly when `Answer` does, with the same error, and otherwise its listings are `Answer`'s |
| RecencySearch.SearchService.SearchJobs | azure/src/services/searchService.ts:12-93 | a hit returns the cached result with no query and no write; a miss sends the two queries and caches a success for 300 s under the same key; coherence is preserved, so every success is the table's answer |
| RecencySearch.SearchService.SemanticSearch | azure/src/services/searchService.ts:98-103 | returns the listings of a search on the skills alone; succeeds whenever the database is up |
| Embedding.Embedding | azure/job-matching-api/src/services/searchService.ts:17-25 | the embedding has exactly 1536 entries, each in [0, 1) |
| Embedding.GenerateEmbedding | azure/job-matching-api/src/services/searchService.ts:14-26 | the array filled slot by slot in the `forEach` loop is `Embedding(skills)` |
| Embedding.FoldIntoZero | azure/job-matching-api/src/services/searchService.ts:22 | folding a hash into a zero slot gives `(hash % 1000) / 1000` |
| Embedding.EmbeddingOfFewSkills | azure/job-matching-api/src/services/searchService.ts:20-23 | with at most 1536 skills, slot i is `(hash_i % 1000) / 1000` and the slots past the last skill stay 0 |
| VectorSearch.AppendFilters | azure/job-matching-api/src/services/searchService.ts:69-86 | the filter step appends the location clause (when non-empty) and each salary clause (when given, 0 included) with placeholders counted on from the parameters so far, and `paramIndex` ends one past the last value |
| VectorSearch.BuildQueries | azure/job-matching-api/src/services/searchService.ts:56-117 | the page query binds the embedding to `$1`, the filter values after it, then LIMIT and OFFSET; the count query binds the same values from `$1`, each clause one placeholder lower; both are accepted and both select exactly the rows the query admits |
| VectorSearch.CanonicalQueries | azure/job-matching-api/src/services/searchService.ts:93-117 | the two queries built from the same filter list satisfy the relation stated for `BuildQueries` |
| VectorSearch.CountQueryMeaning | azure/job-matching-api/src/services/searchService.ts:93-117 | the count query admits a row exactly when it has a stored embedding and passes the location and salary filters |
| VectorSearch.PageQueryMeaning | azure/job-matching-api/src/services/searchService.ts:57-86 | the page query admits exactly the same rows, whatever is bound before and after the filter values |
| VectorSearch.Listings | azure/job-matching-api/src/services/searchService.ts:125-136 | row mapping succeeds exactly when every row's skills are an array, NULL (read as `[]`) or parseable JSON text; it then yields one listing per row, in order |
| VectorSearch.AnswerBounds | azure/job-matching-api/src/services/searchService.ts:119-145 | a search succeeds exactly when limit and offset lie in 0..2^63-1, PostgreSQL's non-negative `bigint` values, and every row of its page has readable skills; it echoes limit and offset, `total` counts every admitted row, and the page holds at most `limit` and at most `total` listings, none once `offset >= total` |
| VectorSearch.AnswerRanked | azure/job-matching-api/src/services/searchService.ts:57-90 | the listings come, in order, from admitted table rows whose similarity to the embedding of the query's skills does not increase |
| VectorSearch.AnswerTopRun | azure/job-matching-api/src/services/searchService.ts:57-90 | the listings are built from the page rows in place, and the page is the run of the similarity ranking after the `offset` best-ranked matches: every skipped row ranks at least as high as every listed one, and a matching row ranked higher than a listed one is listed or skipped |
| VectorSearch.SkillsDoNotFilter | azure/job-matching-api/src/services/searchService.ts:57-64 | changing the query's skills never changes which rows are admitted, so never the total |
| VectorSearch.SearchService.QueryDatabase | azure/job-matching-api/src/services/searchService.ts:119-145 | both queries are sent, page first, as `BuildQueries` describes; the result is the table's `Answer`, and any database or mapping failure is the single search error |
| VectorSearch.SearchService.SearchJobs | azure/job-matching-api/src/services/searchService.ts:31-175 | a hit returns the cached result with no query, no write and no event; a miss sends the two queries, caches a success for 300 s, and then delivers `job.search` with the query, the number of listings and the total; coherence is preserved |
| Csv.SalaryText | azure/src/services/exportService.ts:29-30 | an absent salary is written as the empty string; a present one (0 included) as digits with an optional minus sign, never quoted |
| Csv.DoubleQuotes | azure/src/services/exportService.ts:52 | doubling the quotes lengthens the value by its number of quotes |
| Csv.DoubledQuotesPaired | azure/src/services/exportService.ts:52 | after doubling, every quote in the value is one of a pair |
| Csv.EscapeCsv | azure/src/services/exportService.ts:50-55 | a value is returned unchanged exactly when it holds no comma, quote or line feed; otherwise it is wrapped in quotes and grows by two plus its number of quotes |
| Csv.FieldRoundTrip | azure/src/services/exportService.ts:50-55 | reading an escaped field gives back the value and the rest of the text, for quoted and bare fields alike |
| Csv.QuotedRoundTrip | azure/job-matching-api/src/services/exportService.ts:53-58 | stripping the quotes and collapsing doubled quotes recovers the value |
| Csv.BareRoundTrip | azure/job-matching-api/src/services/exportService.ts:53-58 | a field without a separator is read back up to the next comma or line feed |
| Csv.RecordRoundTrip | azure/src/services/exportService.ts:36 | a record of escaped fields joined by commas reads back into its fields |
| Csv.DocumentRoundTrip | azure/src/services/exportService.ts:36 | records joined by line feeds read back into the records |
| Csv.HeaderText | azure/src/services/exportService.ts:12-21 | the header line is the eight column names joined by commas, none of them needing quotes |
| VectorExport.Records | azure/job-matching-api/src/services/exportService.ts:14-34 | the records are the header followed by one record of the listing's values per listing, in order |
| VectorExport.LineIsRecord | azure/job-matching-api/src/services/exportService.ts:25-34 | a listing's line is the CSV record of its eight values |
| VectorExport.LinesAreRecords | azure/job-matching-api/src/services/exportService.ts:25-39 | the header line followed by the listings' lines are the CSV records of `Records` |
| VectorExport.RenderReadsBack | azure/job-matching-api/src/services/exportService.ts:36-39 | the exported text reads back as the header and one eight-field record per listing, in order |
| VectorExport.ExportToCsv | azure/job-matching-api/src/services/exportService.ts:9-48 | with the flag off it fails with "Export service is disabled" and sends nothing; a result read back from the cache with at least one listing fails on the text `createdAt` with a TypeError and sends nothing; otherwise it returns the rendered text and delivers `job.export` with format `csv` and the number of listings |
| RecencyExport.LooseAll | azure/src/services/exportService.ts:23 | one listing per listing, in order |
| RecencyExport.Records | azure/src/services/exportService.ts:12-34 | the records are the header followed by one record per listing, with the empty string for each missing field |
| RecencyExport.LineIsRecord | azure/src/services/exportService.ts:23-36 | a listing's line is the CSV record of its eight values |
| RecencyExport.LinesAreRecords | azure/src/services/exportService.ts:36 | the header line followed by the listings' lines are the CSV records of `Records` |
| RecencyExport.RenderReadsBack | azure/src/services/exportService.ts:36 | the exported text reads back as the header and one eight-field record per listing, in order |
| RecencyExport.AgreesWithVectorExport | azure/src/services/exportService.ts:23-36 | on complete listings the recency export writes exactly what the pgvector export writes |
| RecencyExport.ExportToCsv | azure/src/services/exportService.ts:7-45 | with the flag off it fails with "Export service is disabled" and sends nothing; otherwise it returns the rendered text and delivers `job.export` with format `csv` and the number of listings |
| Http.NatTextValue | azure/src/controllers/searchController.ts:46-49 | the decimal form of a natural number is all digits and reads back as the number |
| Http.IntTextValue | azure/src/controllers/searchController.ts:46-49 | the decimal form of every integer is an integer text that `Number` reads back as the integer |
| Http.TrimAll | azure/src/controllers/searchController.ts:35 | `map(s => s.trim())` trims every part and keeps their number and order |
| Http.TrimAllConcat | azure/src/controllers/searchController.ts:35 | trimming the parts of two lists joined is joining the trimmed lists |
| Http.TrimmedMembers | azure/src/controllers/searchController.ts:35 | the trimmed parts are exactly the trims of the parts |
| Http.TrimInside | azure/src/controllers/searchController.ts:35 | every character of a trimmed string is a character of the original, so a trimmed segment holds no comma |
| Http.OptionalInt | azure/job-matching-api/src/controllers/searchController.ts:28-33 | an absent or empty parameter gives no number; any other gives its integer value |
| RecencyController.Skills | azure/src/controllers/searchController.ts:33-36 | a string is a skill exactly when it is non-empty and is the trim of some comma-separated segment of the parameter |
| RecencyController.SkillsConcat | azure/src/controllers/searchController.ts:33-36 | the skills of `a + "," + b` are the skills of `a` followed by those of `b`, so order and repetitions are kept |
| RecencyController.SegmentSkills | azure/src/controllers/searchController.ts:33-36 | a segment without a comma gives its trimmed text as its one skill, or none when blank; with `SkillsConcat` this fixes the skills, in order and with repetitions |
| RecencyController.SearchOutcome | azure/src/controllers/searchController.ts:15-60 | an invalid request gets 400 with the validator's errors; 400 "At least one skill is required" is sent exactly when the request is valid and every segment is blank; neither calls the service; otherwise the service's result is sent unchanged with 200, or 500 "Internal server error"; no other status occurs |
| RecencyController.BlankSkills | azure/src/controllers/searchController.ts:33-41 | a parameter yields no skill exactly when every segment is blank |
| RecencyController.SkillsShape | azure/src/controllers/searchController.ts:33-36 | every skill is non-empty, holds no comma, and starts and ends with a non-white-space character |
| RecencyController.ParsedQuery | azure/src/controllers/searchController.ts:24-50 | a query passed on has at least one skill, the location as given, a limit in 1..100 (10 when absent), an offset of at least 0 (0 when absent), and a non-negative salary bound exactly when its parameter is present |
| RecencyController.TwoSkills | azure/src/controllers/searchController.ts:24-50 | two comma-separated words with no other parameter are searched as those two skills with limit 10 and offset 0, as for `typescript,azure` |
| RecencyController.ExportOutcome | azure/src/controllers/searchController.ts:66-119 | with the flag off every export gets 403 before validation; otherwise an export fails exactly when the search would, in the same way, and else searches the same filters with limit 1000 and offset 0 and sends the recency export's text, or 500 "Failed to export search results" |
| VectorController.Skills | azure/job-matching-api/src/controllers/searchController.ts:41-43 | no skills exactly when the parameter is absent or empty; otherwise one trimmed skill per comma-separated segment, blank ones kept |
| VectorController.SkillsCount | azure/job-matching-api/src/controllers/searchController.ts:41-43 | a non-empty parameter yields one skill more than it has commas |
| VectorController.SearchOutcome | azure/job-matching-api/src/controllers/searchController.ts:18-66 | a request the validators reject gets 400 with their errors; 400 "At least one skill is required" is sent exactly when the request passes and `skills` is absent or empty; neither calls the service; otherwise the service's result is sent unchanged, or 500 "Internal server error"; no other status occurs |
| VectorController.ParsedQuery | azure/job-matching-api/src/controllers/searchController.ts:26-57 | a query passed on has one skill per segment, the location as given, the limit `min(value, 100)` (10 when absent or empty), the offset as given (0 when absent or empty), and a salary bound exactly when its parameter is non-empty |
| VectorController.BlankSkillSearched | azure/job-matching-api/src/controllers/searchController.ts:41-48 | a blank `skills` parameter is refused with 400 by the recency controller but searched as the single empty skill by this one |
| VectorController.ExportOutcome | azure/job-matching-api/src/controllers/searchController.ts:71-124 | with the flag off every export gets 403 before validation; otherwise an export fails exactly when the search would, and else searches the same filters with limit 1000 and offset 0 and sends the pgvector export's text, or 500 "Failed to export search results" when the service fails or answers from the cache with at least one listing |
| VectorController.CachedExportFails | azure/job-matching-api/src/services/exportService.ts:33 | an export whose search is answered from the cache with listings gets 500, where the same result read from the database is sent as CSV |
| VectorController.IntendedExportIgnoresCache | azure/src/services/exportService.ts:31-33 | the export written with the recency variant's date conversion answers every request, cached or not, as the code does for a result read from the database, and differs from the code only on cached results with listings |

## Findings

| source | as written | input that shows it | evidently intended | confidence | as-written member | corrected member |
|---|---|---|---|---|---|---|
| azure/job-matching-api/src/services/exportService.ts:33 | `job.createdAt.toISOString()` assumes a `Date`, but a search answered from the cache returns `JSON.parse` output whose `createdAt` is a string, so the export throws and the request gets 500 | `ENABLE_REDIS_CACHE=true`, `ENABLE_EXPORT_SERVICE=true`, `/search/export?skills=a` sent twice within 300 s with at least one listing matching | convert a text `createdAt` back into a date first, as azure/src/services/exportService.ts:31-33 does, so a cached result exports like a fresh one | high; not executed | VectorController.CachedExportFails | VectorController.IntendedExportIgnoresCache |

## Left out

- PostgreSQL itself, pgvector, `Promise.all`, Redis connection handling and the Service Bus client are replaced by the in-memory stand-ins above. The two concurrent queries of the pgvector search are sent one after the other, page first.
- The cosine similarity `1 - (a <=> b)` is an arbitrary function of two real vectors held by the store. Floating point is not modelled: the embedding and the similarity are reals.
- The embedding's text form `[e1,…]` is not modelled. Neither is `charCodeAt`, which counts UTF-16 code units where a Dafny `char` is a Unicode scalar value.
- `ORDER BY` has no tie-break in the code, so equal keys come back in whatever order the database picks, and a page is not deterministic among ties. The model fixes one such order. The contracts claim only a highest-first order, a permutation of the matching rows, and that a page is the run of that ranking after the skipped rows.
- `%` and `_` in a user's location act as LIKE/ILIKE wildcards. The model treats the location as a plain substring.
- The cache key is `"search:" + JSON.stringify(query)`, which depends on the order in which the query's fields were set. The model keys on the query record itself. JSON serialisation of the cached result is not modelled: a stored value is a result or unreadable text.
- Text.Lower / Sql.LikeWrapped: only the ASCII letters `A`-`Z` are lower-cased, as in a database with the C locale. `LOWER(…) LIKE LOWER(…)` and `ILIKE` fold case by the database's collation, which under a UTF-8 locale also folds letters such as `Ü`; that folding is not modelled.
- The table never changes in the model: no member writes `JobStore.rows`. Listings do change outside the search path, and a cached result is then served stale for up to 300 seconds. That staleness is not modelled, and cache coherence is claimed only for an unchanging table.
- RecencySearch.Answer: requires the `skills` column to be `text[]`. The `&&` operator the recency service emits is rejected by the database on any other column type, and that rejection is not modelled.
- Dates: `toISOString` and `new Date(…)` are the parameter `iso`. The export event's timestamp and the `Content-Disposition` file name, which holds `Date.now()`, are not modelled.
- Authentication, authorisation, rate limiting, health checks, the Express servers and telemetry are not part of this model.
- The pgvector routes file is not part of this model. Its validators are not known, so the pgvector controllers take the validators' verdict as the boolean `validated`, and their 400 body is not modelled.
- A repeated query parameter, which Express reads as an array, is not modelled; every parameter is a single string or absent.
- The controllers call the service through a function `serve` that yields a result or `None` for an exception. They do not model the services' cache or event side effects, which the service classes state; the pgvector export controller is told by the parameter `cached` whether `serve` answered from the cache.
- VectorController.ParseSearch: requires every non-empty numeric parameter to be an integer text. `parseInt` also reads a leading integer out of other text and yields NaN for text without one; neither case is modelled.
- VectorController.Search, VectorController.ParseExport, VectorController.ExportSearch: the same integer-text requirement as ParseSearch.
- Http.IntValue: reads only signed decimal integer texts. `Number` also accepts white space, fractions, exponents and hexadecimal, which the recency validators reject before `Number` runs.
- VectorExport.RenderReadsBack: requires ids and ISO timestamps that hold no comma, quote or line feed, because those two fields are written unescaped. An id holding a comma shifts the columns of its line.
- RecencyExport.RenderReadsBack: the same requirement on ids and timestamps as VectorExport.RenderReadsBack.
- The event the search sends carries the query record as given. Its JSON form is not modelled.
- Events.EventBus.SendEvent: modelled on the recency variant's `sendEvent` in azure/src/config/azureServiceBus.ts:34-53, which drops an event it cannot send. The pgvector variant's `azure/job-matching-api/src/config/azureServiceBus.ts` is not part of this model; its `sendEvent` is taken to behave the same way. If it threw, `searchJobs` would fail with "Failed to search jobs" after writing the cache, and that path is not modelled.
- Http.IntValue / Sql.Execute: `Number` and `parseInt` give a double, which the model reads as the exact integer. An offset from 2^63 - 512 to 2^63 - 1 rounds up to 2^63 and is refused by the database as out of range; the model accepts it.
- The salary bounds are bound against the `salary_min` and `salary_max` columns, whose type is not part of this model; a bound beyond that type's range, which the database would refuse, is accepted by the model.
