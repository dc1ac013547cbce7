/** The process-wide search cache (Server.js lines 24-25, 66-71 and 153): a
    map from `${query}:${page}` to the results and the time they were stored.
    An entry is served while its timestamp plus five minutes is later than
    the current time; it is never deleted, only overwritten. The clock is a
    parameter. */
module SearchCache {
  import opened Base
  import opened Candidates

  /** `CACHE_DURATION`: five minutes, in milliseconds. */
  const CacheDuration: int := 5 * 60 * 1000

  datatype CacheEntry = CacheEntry(results: seq<Candidate>, timestamp: int)

  /** `${query}:${page}` for an integer page. */
  function CacheKey(query: string, page: int): string {
    query + ":" + IntToString(page)
  }

  /** Two different requests never share a key: a page number prints without
      a colon, so the last colon in a key separates query and page. */
  lemma CacheKeyInjective(q1: string, p1: int, q2: string, p2: int)
    requires CacheKey(q1, p1) == CacheKey(q2, p2)
    ensures q1 == q2 && p1 == p2
  {
    var k := CacheKey(q1, p1);
    var s1, s2 := IntToString(p1), IntToString(p2);
    assert k[|q1|] == ':' && k[|q2|] == ':';
    assert q1 == k[..|q1|] == q2;
    assert s1 == k[|q1| + 1..] == s2;
    IntToStringInjective(p1, p2);
  }

  /** What a lookup at time `now` serves for `key`: the stored results while
      `timestamp + CACHE_DURATION > now`, nothing otherwise. */
  function FreshResults(entries: map<string, CacheEntry>, key: string, now: int): Option<seq<Candidate>> {
    if key in entries && entries[key].timestamp + CacheDuration > now then Some(entries[key].results) else None
  }

  /** After results are stored for a request at time t, a lookup for the same
      request at time `now` serves exactly those results (empty or not) iff
      fewer than five minutes have passed, and lookups for every other request
      are served as before. */
  lemma StoredSearchIsServed(entries: map<string, CacheEntry>, query: string, page: int,
                             results: seq<Candidate>, t: int, otherQuery: string, otherPage: int, now: int)
    requires otherQuery != query || otherPage != page
    ensures var after := entries[CacheKey(query, page) := CacheEntry(results, t)];
      && FreshResults(after, CacheKey(query, page), now) == (if now - t < CacheDuration then Some(results) else None)
      && FreshResults(after, CacheKey(otherQuery, otherPage), now) == FreshResults(entries, CacheKey(otherQuery, otherPage), now)
  {
    if CacheKey(otherQuery, otherPage) == CacheKey(query, page) {
      CacheKeyInjective(otherQuery, otherPage, query, page);
    }
  }

  /** Once an entry is stale it stays stale until it is overwritten. */
  lemma StaleStaysStale(entries: map<string, CacheEntry>, key: string, t: int, later: int)
    requires t <= later
    requires FreshResults(entries, key, t).None?
    ensures FreshResults(entries, key, later).None?
  {
  }

  /** The cache object: `searchCache`, a `Map` read and written in place. */
  class Cache {
    var entries: map<string, CacheEntry>

    constructor ()
      ensures entries == map[]
    {
      entries := map[];
    }

    /** `searchCache.get(key)` followed by the freshness test. */
    function Lookup(key: string, now: int): Option<seq<Candidate>>
      reads this
    {
      FreshResults(entries, key, now)
    }

    /** `searchCache.set(key, { results, timestamp: now })`. */
    method Store(key: string, results: seq<Candidate>, now: int)
      modifies this
      ensures entries == old(entries)[key := CacheEntry(results, now)]
    {
      entries := entries[key := CacheEntry(results, now)];
    }
  }
}
