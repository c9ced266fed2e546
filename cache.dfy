/** The Redis cache in front of the searches: entries keyed by
    `search:` + the JSON of the query, each holding the JSON of a result and
    expiring `TtlSeconds` after it was written. Every cache failure (no
    client, a failing command, a value that does not parse) is a miss. */
module Cache {
  import opened Wrappers
  import opened Types

  /** `search:${JSON.stringify(query)}`. The key is a function of the query
      record as passed in; the model keys on that record. */
  datatype CacheKey = SearchKey(query: SearchQuery)

  /** Entries are written with `setEx(key, 300, …)`. */
  const TtlSeconds: int := 300

  /** A stored string: the JSON of a result, or text that `JSON.parse`
      rejects or that is empty. */
  datatype Payload = ResultJson(result: SearchResult) | Unreadable

  /** A stored value and the instant (in seconds) from which Redis no
      longer returns it. */
  datatype Entry = Entry(payload: Payload, expiresAt: int)

  /** What `get(key)` followed by `JSON.parse` yields at time `now`: the
      stored result while the entry lives, and a miss otherwise. */
  function Read(connected: bool, healthy: bool, entries: map<CacheKey, Entry>, key: CacheKey, now: int)
    : (r: Option<SearchResult>)
    ensures r.Some? <==> connected && healthy && key in entries && now < entries[key].expiresAt
                         && entries[key].payload.ResultJson?
    ensures r.Some? ==> r.value == entries[key].payload.result
  {
    if !connected || !healthy || key !in entries || now >= entries[key].expiresAt then None
    else match entries[key].payload
      case ResultJson(result) => Some(result)
      case Unreadable => None
  }

  /** The entries after `setEx(key, ttl, JSON.stringify(value))` at time
      `now`; a write that fails leaves them as they were. */
  function Write(connected: bool, healthy: bool, entries: map<CacheKey, Entry>, key: CacheKey,
                 value: SearchResult, ttl: int, now: int): (r: map<CacheKey, Entry>)
    ensures connected && healthy ==> key in r && r[key] == Entry(ResultJson(value), now + ttl)
    ensures forall k :: k != key ==> (k in r <==> k in entries) && (k in r ==> r[k] == entries[k])
    ensures !(connected && healthy) ==> r == entries
  {
    if connected && healthy then entries[key := Entry(ResultJson(value), now + ttl)] else entries
  }

  /** A result written with the service's TTL is read back until the TTL
      runs out, and is gone from then on. */
  lemma ReadAfterWrite(entries: map<CacheKey, Entry>, key: CacheKey, value: SearchResult, now: int, later: int)
    ensures Read(true, true, Write(true, true, entries, key, value, TtlSeconds, now), key, later)
            == if later < now + TtlSeconds then Some(value) else None
  {
  }

  /** A write leaves what the other keys read unchanged. */
  lemma WriteIsolated(connected: bool, healthy: bool, entries: map<CacheKey, Entry>, key: CacheKey,
                      other: CacheKey, value: SearchResult, ttl: int, now: int, later: int)
    requires other != key
    ensures Read(connected, healthy, Write(connected, healthy, entries, key, value, ttl, now), other, later)
            == Read(connected, healthy, entries, other, later)
  {
  }

  class RedisCache {
    /** `getRedisClient()` yields a client: caching is switched on and the
        connection succeeded. */
    var connected: bool
    /** Redis commands complete without raising. */
    var healthy: bool
    var entries: map<CacheKey, Entry>

    constructor(connected: bool, healthy: bool, entries: map<CacheKey, Entry>)
      ensures this.connected == connected && this.healthy == healthy && this.entries == entries
    {
      this.connected := connected;
      this.healthy := healthy;
      this.entries := entries;
    }

    function Lookup(key: CacheKey, now: int): Option<SearchResult>
      reads this
    {
      Read(connected, healthy, entries, key, now)
    }

    /** `getFromCache`: the live, readable result stored under `key`, or
        `None`. */
    method Get(key: CacheKey, now: int) returns (r: Option<SearchResult>)
      ensures r == Lookup(key, now)
    {
      r := Lookup(key, now);
    }

    /** `setCache`: stores `value` under `key` for `ttl` seconds; errors
        are swallowed. */
    method SetEx(key: CacheKey, value: SearchResult, ttl: int, now: int)
      modifies this`entries
      ensures entries == Write(connected, healthy, old(entries), key, value, ttl, now)
    {
      entries := Write(connected, healthy, entries, key, value, ttl, now);
    }
  }
}
