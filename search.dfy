/** The `/search` handler (Server.js lines 58-160). The browser session that
    loads the results page is an oracle that either yields the scraped result
    elements or fails; the two readings of the clock (line 68 and line 153)
    are parameters. The handler scrapes at most once: there is no retry. */
module Search {
  import opened Base
  import opened Candidates
  import opened SearchCache

  /** What the browser session produced: the result elements in page order, or an error. */
  datatype ScrapeOutcome = Scraped(elements: seq<RawRecord>) | ScrapeError(message: string)

  /** The `page` field of a 200 reply. */
  datatype EchoedPage = RequestedPage(n: int) | BrowserTab

  datatype SearchReply =
    | Results(results: seq<Candidate>, page: EchoedPage) // 200 { results, page }
    | MissingQuery                                        // 400 "Missing or invalid query"
    | SearchFailed(details: string)                       // 500 "Search failed"

  function Status(reply: SearchReply): int {
    match reply
    case Results(_, _) => 200
    case MissingQuery => 400
    case SearchFailed(_) => 500
  }

  /** `const { query, page = 1 } = req.body`: the page defaults to 1. */
  function PageOrDefault(page: Option<int>): int {
    if page.Some? then page.value else 1
  }

  /** The page the reply echoes, as written: inside the try block the name
      `page` is declared again for the browser tab (line 78), so a reply
      built there (line 155) carries the tab, while a cache hit (line 70)
      carries the requested number. */
  function EchoedPageAsWritten(cacheHit: bool, page: int): EchoedPage {
    if cacheHit then RequestedPage(page) else BrowserTab
  }

  /** As written, the same request is echoed differently depending on the cache. */
  lemma EchoDependsOnCacheAsWritten(page: int)
    ensures EchoedPageAsWritten(true, page) != EchoedPageAsWritten(false, page)
    ensures EchoedPageAsWritten(false, page) == BrowserTab
  {
  }

  /** The page the reply is evidently meant to echo: the requested one. */
  function EchoedPageIntended(cacheHit: bool, page: int): EchoedPage {
    RequestedPage(page)
  }

  lemma EchoIntendedIgnoresCache(page: int, hit1: bool, hit2: bool)
    ensures EchoedPageIntended(hit1, page) == EchoedPageIntended(hit2, page) == RequestedPage(page)
  {
  }

  /** The results a successful scrape yields: the mapped elements, filtered. */
  function ScrapeResults(elements: seq<RawRecord>): seq<Candidate> {
    Survivors(MapAll(elements), |elements|)
  }

  /** Every scrape result is well formed, has an accepted link, and no two share an id. */
  lemma ScrapeResultsValid(elements: seq<RawRecord>)
    ensures forall x :: x in ScrapeResults(elements) ==> IsWellFormed(x) && x.url != ""
    ensures forall a, b :: 0 <= a < b < |ScrapeResults(elements)| ==>
              ScrapeResults(elements)[a].id != ScrapeResults(elements)[b].id
  {
    SurvivorsWellFormed(MapAll(elements), |elements|);
    SurvivorsDistinct(MapAll(elements), |elements|);
  }

  /** The handler. `scraped` tells whether the browser session was used. */
  method HandleSearch(cache: Cache, query: Option<string>, page: Option<int>,
                      lookupTime: int, storeTime: int, scrape: ScrapeOutcome)
    returns (reply: SearchReply, scraped: bool)
    modifies cache
    // a missing, empty or non-string query is refused and nothing else happens
    ensures !Truthy(query) ==> reply == MissingQuery && !scraped && cache.entries == old(cache.entries)
    // a fresh entry is served unchanged, without scraping
    ensures Truthy(query) && FreshResults(old(cache.entries), CacheKey(query.value, PageOrDefault(page)), lookupTime).Some? ==>
              && reply == Results(FreshResults(old(cache.entries), CacheKey(query.value, PageOrDefault(page)), lookupTime).value,
                                  RequestedPage(PageOrDefault(page)))
              && !scraped && cache.entries == old(cache.entries)
    // otherwise the page is scraped once; a result, even an empty one, is stored under the key with the second clock reading
    ensures Truthy(query) && FreshResults(old(cache.entries), CacheKey(query.value, PageOrDefault(page)), lookupTime).None? ==>
              && scraped
              && (scrape.Scraped? ==>
                    && reply == Results(ScrapeResults(scrape.elements), RequestedPage(PageOrDefault(page)))
                    && cache.entries == old(cache.entries)[CacheKey(query.value, PageOrDefault(page)) :=
                                                            CacheEntry(ScrapeResults(scrape.elements), storeTime)])
              && (scrape.ScrapeError? ==> reply == SearchFailed(scrape.message) && cache.entries == old(cache.entries))
  {
    if !Truthy(query) {
      return MissingQuery, false;
    }
    var p := PageOrDefault(page);
    var cacheKey := CacheKey(query.value, p);
    var cachedResult := cache.Lookup(cacheKey, lookupTime);
    if cachedResult.Some? {
      return Results(cachedResult.value, EchoedPageIntended(true, p)), false;
    }
    scraped := true;
    match scrape
    case ScrapeError(message) =>
      reply := SearchFailed(message);
    case Scraped(elements) =>
      var results := FilterCandidates(MapAll(elements));
      cache.Store(cacheKey, results, storeTime);
      reply := Results(results, EchoedPageIntended(false, p));
  }
}
