/**
 * The listing crawl of CrawData/src/services/movieService.ts
 * (`MovieService.crawlMovies`): walk the upstream listing page by page from
 * page 1, append every page's items, retry failed requests with one retry
 * budget shared by the whole crawl, and keep the result in a one-entry
 * cache for five minutes.
 *
 * Requests are answered by an oracle (Upstream.Respond); the clock is read
 * twice by the source, so `now` (the cache check) and `doneAt` (the cache
 * write) are parameters; the awaited back-off delays are recorded.
 */
module ListingCrawl {
  import opened Wrappers
  import opened JsValues
  import opened Upstream

  const CacheKey := "movies"
  const CacheDuration := 5 * 60 * 1000
  const MaxRetries: nat := 3
  const BackoffMs := 1000

  datatype CacheEntry = CacheEntry(data: seq<JsValue>, timestamp: int)

  /**
   * `isCacheValid`: an entry may be served until, but not at, five minutes
   * after its timestamp; one stamped at or after `now` is always valid.
   */
  function IsCacheValid(timestamp: int, now: int): (r: bool)
    ensures r <==> now < timestamp + 300000
    ensures now <= timestamp ==> r
  {
    now - timestamp < CacheDuration
  }

  /** The cache holds a listing that may be served at `now`. */
  predicate CachedAt(cache: map<string, CacheEntry>, now: int)
  {
    CacheKey in cache && IsCacheValid(cache[CacheKey].timestamp, now)
  }

  /** Why one request counted as failed: axios rejected, or the body failed a shape check. */
  datatype PageFailure = Network(error: HttpError) | InvalidStructure | ItemsNotArray

  /** A well-formed listing page: its items and its `pagination.totalPages` value, whatever that is. */
  datatype Page = Page(items: seq<JsValue>, totalPages: JsValue)

  /**
   * The shape checks on a response body: a falsy body, `items` or
   * `pagination` is an invalid structure; truthy `items` that are not an
   * array are rejected too.
   */
  function ParseBody(body: JsValue): (r: Result<Page, PageFailure>)
    ensures !Truthy(body) ==> r == Failure(InvalidStructure)
    ensures !Truthy(Get(body, "items")) || !Truthy(Get(body, "pagination")) ==> r == Failure(InvalidStructure)
    ensures Truthy(body) && Truthy(Get(body, "items")) && Truthy(Get(body, "pagination")) && !IsArray(Get(body, "items")) ==>
              r == Failure(ItemsNotArray)
    ensures r.Success? <==>
              Truthy(body) && Truthy(Get(body, "items")) && Truthy(Get(body, "pagination")) && IsArray(Get(body, "items"))
    ensures r.Success? ==> Get(body, "items") == Arr(r.value.items)
    ensures r.Success? ==> r.value.totalPages == Get(Get(body, "pagination"), "totalPages")
  {
    if !Truthy(body) || !Truthy(Get(body, "items")) || !Truthy(Get(body, "pagination")) then
      Failure(InvalidStructure)
    else
      var items := Get(body, "items");
      if IsArray(items) then Success(Page(items.elems, Get(Get(body, "pagination"), "totalPages")))
      else Failure(ItemsNotArray)
  }

  /** The body of a listing page with the given items and page count. */
  function PageBody(items: seq<JsValue>, totalPages: int): JsValue
  {
    Obj(map["items" := Arr(items), "pagination" := Obj(map["totalPages" := Num(totalPages)])])
  }

  /** What the crawl makes of its k-th request. */
  function Outcome(oracle: seq<Fetch>, k: nat): (r: Result<Page, PageFailure>)
    ensures k >= |oracle| ==> r == Failure(Network(NoResponse))
  {
    match Respond(oracle, k)
    case Threw(e) => Failure(Network(e))
    case Responded(body) => ParseBody(body)
  }

  /** The loop's variables after `next` requests, with the pages requested so far and the delays awaited so far. */
  datatype Progress = Progress(
    next: nat, page: int, retryCount: nat, movies: seq<JsValue>, requested: seq<int>, delays: seq<int>)

  /** A finished crawl: the listing or the error rethrown, every page requested in order, every delay awaited in order. */
  datatype CrawlRun = CrawlRun(result: Result<seq<JsValue>, PageFailure>, requested: seq<int>, delays: seq<int>)

  /** The `while (hasNextPage)` loop from a given state. */
  function CrawlFrom(oracle: seq<Fetch>, p: Progress): CrawlRun
    requires p.retryCount <= MaxRetries
    decreases if p.next < |oracle| then |oracle| - p.next else 0, MaxRetries - p.retryCount
  {
    var requested := p.requested + [p.page];
    match Outcome(oracle, p.next)
    case Success(pg) =>
      var movies := p.movies + pg.items;
      if LessThan(p.page, pg.totalPages) then
        CrawlFrom(oracle, Progress(p.next + 1, p.page + 1, p.retryCount, movies, requested, p.delays))
      else
        CrawlRun(Success(movies), requested, p.delays)
    case Failure(e) =>
      if p.retryCount < MaxRetries then
        var retryCount := p.retryCount + 1;
        CrawlFrom(oracle, Progress(p.next + 1, p.page, retryCount, p.movies, requested, p.delays + [BackoffMs * retryCount]))
      else
        CrawlRun(Failure(e), requested, p.delays)
  }

  /** The crawl that a cache miss performs: it requests page 1 first and awaits at most three back-offs. */
  function Crawl(oracle: seq<Fetch>): (r: CrawlRun)
    ensures |r.requested| >= 1 && r.requested[0] == 1
    ensures |r.delays| <= MaxRetries
  {
    CrawlFromExtends(oracle, Progress(0, 1, 0, [], [], []));
    CrawlFrom(oracle, Progress(0, 1, 0, [], [], []))
  }

  /**
   * The loop only appends: the pages already requested, then the current
   * page, start the page log; the delays and the items collected so far
   * start the final ones; and at most the retries left in the budget add
   * delays.
   */
  lemma {:induction false} CrawlFromExtends(oracle: seq<Fetch>, p: Progress)
    requires p.retryCount <= MaxRetries
    ensures p.requested + [p.page] <= CrawlFrom(oracle, p).requested
    ensures p.delays <= CrawlFrom(oracle, p).delays
    ensures |CrawlFrom(oracle, p).delays| <= |p.delays| + (MaxRetries - p.retryCount)
    ensures CrawlFrom(oracle, p).result.Success? ==> p.movies <= CrawlFrom(oracle, p).result.value
    decreases if p.next < |oracle| then |oracle| - p.next else 0, MaxRetries - p.retryCount
  {
    var requested := p.requested + [p.page];
    match Outcome(oracle, p.next)
    case Success(pg) =>
      if LessThan(p.page, pg.totalPages) {
        CrawlFromExtends(oracle, Progress(p.next + 1, p.page + 1, p.retryCount, p.movies + pg.items, requested, p.delays));
      }
    case Failure(e) =>
      if p.retryCount < MaxRetries {
        var retryCount := p.retryCount + 1;
        CrawlFromExtends(oracle, Progress(p.next + 1, p.page, retryCount, p.movies, requested, p.delays + [BackoffMs * retryCount]));
      }
  }

  /**
   * The message of the error `crawlMovies` rethrows: always led by
   * "Failed to crawl movies"; an HTTP failure appends its message and code,
   * a shape failure appends nothing.
   */
  function CrawlErrorMessage(e: PageFailure): (r: string)
    ensures "Failed to crawl movies" <= r
    ensures e.Network? ==> r == "Failed to crawl movies: " + e.error.message + " (" + e.error.code + ")"
    ensures !e.Network? ==> r == "Failed to crawl movies"
  {
    match e
    case Network(err) => "Failed to crawl movies: " + err.message + " (" + err.code + ")"
    case _ => "Failed to crawl movies"
  }

  /**
   * The `while (hasNextPage)` loop of `crawlMovies`, inside its `try`: the
   * result, the pages requested and the waits are those of Crawl.
   */
  method CrawlPages(oracle: seq<Fetch>)
    returns (result: Result<seq<JsValue>, PageFailure>, ghost requested: seq<int>, ghost delays: seq<int>)
    ensures CrawlRun(result, requested, delays) == Crawl(oracle)
  {
    var movies: seq<JsValue> := [];
    var currentPage := 1;
    var hasNextPage := true;
    var retryCount: nat := 0;
    var next: nat := 0;
    requested, delays := [], [];
    while hasNextPage
      invariant retryCount <= MaxRetries
      invariant hasNextPage ==> CrawlFrom(oracle, Progress(next, currentPage, retryCount, movies, requested, delays)) == Crawl(oracle)
      invariant !hasNextPage ==> Crawl(oracle) == CrawlRun(Success(movies), requested, delays)
      decreases if next < |oracle| then |oracle| - next else 0, MaxRetries - retryCount, hasNextPage
    {
      var response := Respond(oracle, next);
      var page := match response
        case Threw(e) => Failure(Network(e))
        case Responded(body) => ParseBody(body);
      requested := requested + [currentPage];
      next := next + 1;
      if page.Success? {
        movies := movies + page.value.items;
        hasNextPage := LessThan(currentPage, page.value.totalPages);
        currentPage := currentPage + 1;
      } else if retryCount < MaxRetries {
        retryCount := retryCount + 1;
        delays := delays + [BackoffMs * retryCount];
      } else {
        return Failure(page.error), requested, delays;
      }
    }
    result := Success(movies);
  }

  class MovieService {
    var cache: map<string, CacheEntry>

    constructor()
      ensures cache == map[]
    {
      cache := map[];
    }

    /**
     * `crawlMovies`. A listing cached less than five minutes before `now` is
     * returned without any request. Otherwise the crawl runs; on success the
     * cache holds exactly the returned listing stamped `doneAt`; on failure
     * the cache is unchanged and the error is rethrown.
     */
    method CrawlMovies(now: int, doneAt: int, oracle: seq<Fetch>)
      returns (r: Result<seq<JsValue>, string>, ghost requested: seq<int>, ghost delays: seq<int>)
      modifies this
      ensures CachedAt(old(cache), now) ==>
                r == Success(old(cache)[CacheKey].data) && cache == old(cache) && requested == [] && delays == []
      ensures !CachedAt(old(cache), now) ==>
                requested == Crawl(oracle).requested && delays == Crawl(oracle).delays
      ensures !CachedAt(old(cache), now) && Crawl(oracle).result.Success? ==>
                && r == Success(Crawl(oracle).result.value)
                && cache == old(cache)[CacheKey := CacheEntry(Crawl(oracle).result.value, doneAt)]
      ensures !CachedAt(old(cache), now) && Crawl(oracle).result.Failure? ==>
                r == Failure(CrawlErrorMessage(Crawl(oracle).result.error)) && cache == old(cache)
    {
      if CacheKey in cache && IsCacheValid(cache[CacheKey].timestamp, now) {
        return Success(cache[CacheKey].data), [], [];
      }
      var result;
      result, requested, delays := CrawlPages(oracle);
      if result.Failure? {
        return Failure(CrawlErrorMessage(result.error)), requested, delays;
      }
      cache := cache[CacheKey := CacheEntry(result.value, doneAt)];
      r := Success(result.value);
    }
  }
}
