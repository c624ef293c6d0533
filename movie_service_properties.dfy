/**
 * What the listing crawl (ListingCrawl.Crawl) guarantees, proved from its
 * definition: the order in which pages are requested, the single retry
 * budget shared by the whole crawl, the back-off delays, which error
 * escapes, and the listing a fully successful crawl returns.
 */
module ListingCrawlProperties {
  import opened Wrappers
  import opened JsValues
  import opened Upstream
  import opened ListingCrawl

  /** The number of failed requests among the first `n`. */
  function FailCount(oracle: seq<Fetch>, n: nat): nat
  {
    if n == 0 then 0 else FailCount(oracle, n - 1) + (if Outcome(oracle, n - 1).Failure? then 1 else 0)
  }

  /** The items of the successful requests among the first `n`, in request order. */
  function Collected(oracle: seq<Fetch>, n: nat): seq<JsValue>
  {
    if n == 0 then []
    else Collected(oracle, n - 1) + (if Outcome(oracle, n - 1).Success? then Outcome(oracle, n - 1).value.items else [])
  }

  /** The delays before the first `k` retries: 1000 ms, 2000 ms, ..., k * 1000 ms. */
  function Backoffs(k: nat): seq<int>
  {
    seq(k, i => BackoffMs * (i + 1))
  }

  /** The first request is for page 1; after a failure the same page is requested again, after a success the next one. */
  ghost predicate PagesFollow(oracle: seq<Fetch>, requested: seq<int>)
  {
    && (|requested| > 0 ==> requested[0] == 1)
    && forall i :: 0 <= i < |requested| - 1 ==>
         requested[i + 1] == requested[i] + (if Outcome(oracle, i).Success? then 1 else 0)
  }

  /**
   * `hasNextPage` held after every good page but the last request's: each
   * such page number was below the page's `totalPages`.
   */
  ghost predicate GoodPagesContinue(oracle: seq<Fetch>, requested: seq<int>)
  {
    forall i :: 0 <= i < |requested| - 1 ==> ContinuedAt(oracle, i, requested[i])
  }

  /** Request i, for the given page, was a failure or a good page below its `totalPages`. */
  ghost predicate ContinuedAt(oracle: seq<Fetch>, i: nat, page: int)
  {
    Outcome(oracle, i).Success? ==> LessThan(page, Outcome(oracle, i).value.totalPages)
  }

  /** The loop's variables agree with the requests made so far. */
  ghost predicate Consistent(oracle: seq<Fetch>, p: Progress)
  {
    && p.next == |p.requested|
    && p.retryCount == FailCount(oracle, p.next)
    && p.retryCount <= MaxRetries
    && p.delays == Backoffs(p.retryCount)
    && p.movies == Collected(oracle, p.next)
    && PagesFollow(oracle, p.requested + [p.page])
    && GoodPagesContinue(oracle, p.requested + [p.page])
  }

  /** What a finished crawl reports about the requests it made. */
  ghost predicate Final(oracle: seq<Fetch>, c: CrawlRun)
  {
    var n := |c.requested|;
    && n >= 1
    && PagesFollow(oracle, c.requested)
    && GoodPagesContinue(oracle, c.requested)
    && (c.result.Success? ==>
          && FailCount(oracle, n) <= MaxRetries
          && Outcome(oracle, n - 1).Success?
          && !LessThan(c.requested[n - 1], Outcome(oracle, n - 1).value.totalPages)
          && c.result.value == Collected(oracle, n)
          && c.delays == Backoffs(FailCount(oracle, n)))
    && (c.result.Failure? ==>
          && FailCount(oracle, n) == MaxRetries + 1
          && Outcome(oracle, n - 1) == Failure(c.result.error)
          && c.delays == Backoffs(MaxRetries))
  }

  /** Extending a well-ordered request log by the page that the last request's outcome calls for. */
  lemma PagesFollowSnoc(oracle: seq<Fetch>, rs: seq<int>, x: int)
    requires PagesFollow(oracle, rs) && rs != []
    requires x == rs[|rs| - 1] + (if Outcome(oracle, |rs| - 1).Success? then 1 else 0)
    ensures PagesFollow(oracle, rs + [x])
  {
    var ts := rs + [x];
    forall i | 0 <= i < |ts| - 1
      ensures ts[i + 1] == ts[i] + (if Outcome(oracle, i).Success? then 1 else 0)
    {
      if i < |ts| - 2 {
        assert ts[i] == rs[i] && ts[i + 1] == rs[i + 1];
      }
    }
  }

  /** Extending the request log past a request that was a failure or a good page below its `totalPages`. */
  lemma GoodPagesSnoc(oracle: seq<Fetch>, rs: seq<int>, x: int)
    requires GoodPagesContinue(oracle, rs) && rs != []
    requires ContinuedAt(oracle, |rs| - 1, rs[|rs| - 1])
    ensures GoodPagesContinue(oracle, rs + [x])
  {
    var ts := rs + [x];
    forall i | 0 <= i < |ts| - 1
      ensures ContinuedAt(oracle, i, ts[i])
    {
      assert ts[i] == rs[i];
    }
  }

  lemma AfterSuccess(oracle: seq<Fetch>, p: Progress, pg: Page)
    requires Consistent(oracle, p) && Outcome(oracle, p.next) == Success(pg)
    ensures var requested := p.requested + [p.page];
            var movies := p.movies + pg.items;
            && (LessThan(p.page, pg.totalPages) ==>
                  Consistent(oracle, Progress(p.next + 1, p.page + 1, p.retryCount, movies, requested, p.delays)))
            && (!LessThan(p.page, pg.totalPages) ==> Final(oracle, CrawlRun(Success(movies), requested, p.delays)))
  {
    var requested := p.requested + [p.page];
    assert FailCount(oracle, p.next + 1) == p.retryCount;
    assert Collected(oracle, p.next + 1) == p.movies + pg.items;
    PagesFollowSnoc(oracle, requested, p.page + 1);
    if LessThan(p.page, pg.totalPages) {
      GoodPagesSnoc(oracle, requested, p.page + 1);
    }
  }

  lemma AfterFailure(oracle: seq<Fetch>, p: Progress, e: PageFailure)
    requires Consistent(oracle, p) && Outcome(oracle, p.next) == Failure(e)
    ensures var requested := p.requested + [p.page];
            && (p.retryCount < MaxRetries ==>
                  Consistent(oracle, Progress(p.next + 1, p.page, p.retryCount + 1, p.movies, requested,
                                              p.delays + [BackoffMs * (p.retryCount + 1)])))
            && (p.retryCount == MaxRetries ==> Final(oracle, CrawlRun(Failure(e), requested, p.delays)))
  {
    var requested := p.requested + [p.page];
    assert FailCount(oracle, p.next + 1) == p.retryCount + 1;
    assert Collected(oracle, p.next + 1) == p.movies;
    assert p.delays + [BackoffMs * (p.retryCount + 1)] == Backoffs(p.retryCount + 1);
    PagesFollowSnoc(oracle, requested, p.page);
    GoodPagesSnoc(oracle, requested, p.page);
  }

  lemma FinalSame(oracle: seq<Fetch>, c: CrawlRun, d: CrawlRun)
    requires c == d && Final(oracle, d)
    ensures Final(oracle, c)
  {
  }

  /** Whether the loop goes round again after the request that `p` is about to make. */
  ghost predicate Continues(oracle: seq<Fetch>, p: Progress)
  {
    match Outcome(oracle, p.next)
    case Success(pg) => LessThan(p.page, pg.totalPages)
    case Failure(_) => p.retryCount < MaxRetries
  }

  /** The loop's variables after that request, when the loop goes round again. */
  ghost function Advance(oracle: seq<Fetch>, p: Progress): Progress
  {
    var requested := p.requested + [p.page];
    match Outcome(oracle, p.next)
    case Success(pg) => Progress(p.next + 1, p.page + 1, p.retryCount, p.movies + pg.items, requested, p.delays)
    case Failure(_) =>
      Progress(p.next + 1, p.page, p.retryCount + 1, p.movies, requested, p.delays + [BackoffMs * (p.retryCount + 1)])
  }

  /** The finished crawl, when that request ends the loop. */
  ghost function Stopped(oracle: seq<Fetch>, p: Progress): CrawlRun
  {
    var requested := p.requested + [p.page];
    match Outcome(oracle, p.next)
    case Success(pg) => CrawlRun(Success(p.movies + pg.items), requested, p.delays)
    case Failure(e) => CrawlRun(Failure(e), requested, p.delays)
  }

  lemma CrawlFromUnfold(oracle: seq<Fetch>, p: Progress)
    requires p.retryCount <= MaxRetries
    ensures Continues(oracle, p) ==>
              Advance(oracle, p).retryCount <= MaxRetries && CrawlFrom(oracle, p) == CrawlFrom(oracle, Advance(oracle, p))
    ensures !Continues(oracle, p) ==> CrawlFrom(oracle, p) == Stopped(oracle, p)
  {
  }

  lemma AfterStep(oracle: seq<Fetch>, p: Progress)
    requires Consistent(oracle, p)
    ensures Continues(oracle, p) ==> Consistent(oracle, Advance(oracle, p))
    ensures !Continues(oracle, p) ==> Final(oracle, Stopped(oracle, p))
  {
    match Outcome(oracle, p.next)
    case Success(pg) => AfterSuccess(oracle, p, pg);
    case Failure(e) => AfterFailure(oracle, p, e);
  }

  lemma {:induction false} CrawlFromFinal(oracle: seq<Fetch>, p: Progress)
    requires Consistent(oracle, p)
    ensures Final(oracle, CrawlFrom(oracle, p))
    decreases if p.next < |oracle| then |oracle| - p.next else 0, MaxRetries - p.retryCount
  {
    CrawlFromUnfold(oracle, p);
    AfterStep(oracle, p);
    if Continues(oracle, p) {
      var q := Advance(oracle, p);
      CrawlFromFinal(oracle, q);
      FinalSame(oracle, CrawlFrom(oracle, p), CrawlFrom(oracle, q));
    } else {
      FinalSame(oracle, CrawlFrom(oracle, p), Stopped(oracle, p));
    }
  }

  /**
   * Every crawl requests page 1 first; a failed request (a rejection or a
   * malformed body) is followed by a request for the same page and a
   * successful one by the next page. Every good page but the last request's
   * had a number below its `totalPages`, which is why the crawl went on. The
   * retry budget is never reset: a crawl that succeeds met at most 3
   * failures in all, ended on a good page whose number is not below its
   * `totalPages`, and returns the items of all good pages in request order; a crawl that
   * fails met exactly its 4th failure on its last request, and that failure
   * is the error rethrown. Every retry, and nothing else, is preceded by a
   * wait, the n-th of n * 1000 ms: a successful crawl waited once per
   * failure it met, a failed one three times.
   */
  lemma CrawlTrace(oracle: seq<Fetch>)
    ensures var c := Crawl(oracle);
            var n := |c.requested|;
            && n >= 1 && c.requested[0] == 1
            && (forall i :: 0 <= i < n - 1 ==>
                  c.requested[i + 1] == c.requested[i] + (if Outcome(oracle, i).Success? then 1 else 0))
            && (forall i :: 0 <= i < n - 1 && Outcome(oracle, i).Success? ==>
                  LessThan(c.requested[i], Outcome(oracle, i).value.totalPages))
            && (c.result.Success? ==>
                  && FailCount(oracle, n) <= MaxRetries
                  && Outcome(oracle, n - 1).Success?
                  && !LessThan(c.requested[n - 1], Outcome(oracle, n - 1).value.totalPages)
                  && c.result.value == Collected(oracle, n)
                  && c.delays == Backoffs(FailCount(oracle, n)))
            && (c.result.Failure? ==>
                  && FailCount(oracle, n) == MaxRetries + 1
                  && Outcome(oracle, n - 1) == Failure(c.result.error)
                  && c.delays == Backoffs(MaxRetries))
            && |c.delays| <= MaxRetries
            && (forall i :: 0 <= i < |c.delays| ==> c.delays[i] == BackoffMs * (i + 1))
  {
    var start := Progress(0, 1, 0, [], [], []);
    assert Backoffs(0) == [];
    assert PagesFollow(oracle, [1]);
    CrawlFromFinal(oracle, start);
    var c := Crawl(oracle);
    assert Final(oracle, c);
    var n := |c.requested|;
    assert c.delays == Backoffs(FailCount(oracle, n)) || c.delays == Backoffs(MaxRetries);
  }

  /** The waits before retries strictly increase. */
  lemma BackoffsIncrease(oracle: seq<Fetch>)
    ensures var d := Crawl(oracle).delays;
            forall i, j :: 0 <= i < j < |d| ==> d[i] < d[j]
  {
    CrawlTrace(oracle);
  }

  /** The pages' items one after the other. */
  function Flatten(pages: seq<seq<JsValue>>): seq<JsValue>
  {
    if pages == [] then [] else Flatten(pages[..|pages| - 1]) + pages[|pages| - 1]
  }

  /** The page numbers 1 .. n. */
  function PagesUpTo(n: nat): seq<int>
  {
    seq(n, i => i + 1)
  }

  /** The oracle answers request i with listing page i + 1 of `pages`, each reporting `totalPages`. */
  ghost predicate Serves(oracle: seq<Fetch>, pages: seq<seq<JsValue>>, totalPages: int)
  {
    |pages| <= |oracle| && forall i :: 0 <= i < |pages| ==> oracle[i] == Responded(PageBody(pages[i], totalPages))
  }

  lemma {:induction false} CrawlPagesFrom(oracle: seq<Fetch>, pages: seq<seq<JsValue>>, totalPages: int, i: nat)
    requires |pages| == (if totalPages < 1 then 1 else totalPages)
    requires Serves(oracle, pages, totalPages)
    requires i < |pages|
    ensures CrawlFrom(oracle, Progress(i, i + 1, 0, Flatten(pages[..i]), PagesUpTo(i), []))
            == CrawlRun(Success(Flatten(pages)), PagesUpTo(|pages|), [])
    decreases |pages| - i
  {
    assert Outcome(oracle, i) == Success(Page(pages[i], Num(totalPages)));
    assert pages[..i + 1][..i] == pages[..i];
    assert Flatten(pages[..i + 1]) == Flatten(pages[..i]) + pages[i];
    assert PagesUpTo(i) + [i + 1] == PagesUpTo(i + 1);
    if i + 1 < |pages| {
      CrawlPagesFrom(oracle, pages, totalPages, i + 1);
    } else {
      assert pages[..i + 1] == pages;
    }
  }

  /**
   * When every page answers well and reports the same `totalPages` T, the
   * crawl requests pages 1 .. T once each, never waits, and returns the
   * items of pages 1 .. T in page order. Page 1 is requested even when T is
   * below 1.
   */
  lemma CrawlAllPagesSucceed(oracle: seq<Fetch>, pages: seq<seq<JsValue>>, totalPages: int)
    requires |pages| == (if totalPages < 1 then 1 else totalPages)
    requires Serves(oracle, pages, totalPages)
    ensures Crawl(oracle) == CrawlRun(Success(Flatten(pages)), PagesUpTo(|pages|), [])
  {
    assert Flatten(pages[..0]) == [] && PagesUpTo(0) == [];
    CrawlPagesFrom(oracle, pages, totalPages, 0);
  }
}
