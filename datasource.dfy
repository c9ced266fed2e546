/** The PostgreSQL pool a search service holds: the `job_listings` table,
    whether the database can be reached, and the record of every query sent
    to it, in order. */
module DataSource {
  import opened Wrappers
  import opened Sql

  /** One `pool.query(text, params)` call. */
  datatype Issued = Issued(query: Query, params: seq<Value>)

  class JobStore {
    /** The rows of `job_listings`; no search writes to them. */
    var rows: seq<JobRow>
    /** The pool can reach the database; when it cannot, every query
        rejects. */
    var up: bool
    /** The `1 - (a <=> b)` cosine similarity pgvector computes. */
    const similarity: (seq<real>, seq<real>) -> real
    /** The queries sent so far. */
    var log: seq<Issued>

    constructor(rows: seq<JobRow>, up: bool, similarity: (seq<real>, seq<real>) -> real)
      ensures this.rows == rows && this.up == up && this.similarity == similarity
      ensures log == []
    {
      this.rows := rows;
      this.up := up;
      this.similarity := similarity;
      log := [];
    }

    /** `pool.query`: sends the query and returns the database's answer, or
        the connection error when the database cannot be reached. */
    method Query(q: Query, params: seq<Value>) returns (r: Result<Reply, DbError>)
      modifies this`log
      ensures log == old(log) + [Issued(q, params)]
      ensures r == if up then Execute(rows, similarity, q, params) else Failure(ConnectionFailed)
    {
      log := log + [Issued(q, params)];
      r := if up then Execute(rows, similarity, q, params) else Failure(ConnectionFailed);
    }
  }
}
