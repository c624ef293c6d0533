# LingMovie crawler core in Dafny

This project models the crawler backend of LingMovie (`CrawData/`) and the
page-number strips of its two React front ends, and proves what they
promise. It covers:

- **Listing crawl** (`MovieService.crawlMovies`). It walks the upstream
  listing page by page from page 1 and appends each page's `items`. A
  failed request is retried on the same page, with one budget of three
  retries for the whole crawl, and before retry n it waits n · 1000 ms. A
  result younger than five minutes is served from a one-entry cache.
- **Detail reconciliation** (`processMovieDetails`). It takes the catalog
  titles that have no detail record and handles them one at a time: a
  re-check, up to three fetch attempts, a payload check, and one insert.
  It counts successes and errors and never abandons the batch. A module
  flag prevents re-entry.
- **Catalog model.** The `trim` option and pre-save hook on `slug`, the
  required paths, and the unique slug index. For the detail collection,
  only the unique `movie.slug` index is modelled.
- **Helpers.** The recursive `retry`, `isObject`, the request-parameter
  validators, and the TTL `CacheManager`.
- **Scheduled jobs.** The two `isRunning` guards, as an Idle/Running state
  machine with separate trigger and settle steps.
- **Page-number strips.** Both widgets build the same strip, with a window
  of one page (Ophimcc) or two pages (Home) either side of the current
  page, plus the disabled conditions of the previous and next arrows.

JavaScript values are the datatype `JsValues.JsValue`. It covers
`undefined`, `null`, booleans, integer numbers, `NaN`, strings, arrays,
plain objects and functions, together with `typeof`, truthiness,
optional-chaining property reads, `trim`, `toLowerCase` and an integer
`Number(...)`.

Upstream HTTP is an oracle:

- The listing crawl consumes a sequence of outcomes, one per request. A
  request beyond its end is rejected as a network error, so every crawl
  terminates.
- A detail request for a title's a-th attempt settles as `fetch(slug, a)`.
- `retry` calls a function `fn(k)` for its k-th call.

Clocks are parameters (`now`, `doneAt`). Awaited delays are recorded in
order instead of slept.

Behaviour worth knowing:

- The listing crawl only returns and caches its result. There is no
  upsert of listings.
- The detail fetch waits 1000 ms and then 2000 ms between attempts. This
  is a linear back-off, not a fixed delay.
- The 1000 ms throttle delay follows only a saved title. Skips and errors
  do not wait.
- The payload check is truthiness of `data.movie` and `data.episodes`.
  `episodes` need not be an array.
- A detail record's key is the slug inside the fetched `movie`, not the
  catalog slug.
- A duplicate-key error on insert is counted as an error, like any other
  failure. No server-data slugs are derived.
- The listing retry budget is shared by all pages and never reset.

With no pages at all (`totalPages` 0) the next arrow stays enabled, since
it is disabled only when the current page equals `totalPages`.

## Model

| member | source | states |
|---|---|---|
| Common.IsObject | CrawData/src/utils/common.ts:33-35 | true exactly for plain objects: not null, typeof "object", not an array |
| Common.RetryFrom | CrawData/src/utils/common.ts:44-56 | from `made` earlier calls: at most retries+1 more calls; settles like its last call, with every earlier call rejected; a rejection means all calls were made; exactly one wait of delayMs between consecutive calls |
| Common.Retry | CrawData/src/utils/common.ts:44-56 | at most retries+1 calls; returns the first resolution and makes no call after it; rethrows only after retries+1 rejections; waits exactly delayMs between calls and never before the first or after the last |
| Common.RetryAllRejected | CrawData/src/utils/common.ts:51-54 | if every call rejects, exactly retries+1 calls are made and the last call's error is rethrown |
| Common.RetryDefaultsAllRejected | CrawData/src/utils/common.ts:46-47 | with the defaults, an always-failing function is called 4 times, with three waits of 1000 ms |
| Validation.IsValidNumber | CrawData/src/utils/validation.ts:1-5 | false for anything but a number or string; for a number, true exactly when it is not NaN; for a string, true exactly when Number() parses it; blank strings count as valid |
| Validation.SanitizeString | CrawData/src/utils/validation.ts:7-10 | undefined for a non-string and for a blank string; otherwise a non-empty substring of the input with only whitespace cut from its ends, and no whitespace left at either end |
| Validation.SanitizeStringIdempotent | CrawData/src/utils/validation.ts:9 | sanitising a sanitised string returns it unchanged |
| Validation.ValidatePaginationParams | CrawData/src/utils/validation.ts:12-20 | page ≥ 1 and 1 ≤ limit ≤ 100; a missing, zero or non-numeric value gives page 1 and limit 24; in-range values are kept; a negative page or limit gives 1; a limit above 100 gives 100 |
| Cache.CacheManager.Get | CrawData/src/utils/cache.ts:15-25 | an absent key gives null and leaves the map unchanged; an expired entry (now > expiry) gives null and only that key is deleted; otherwise the stored value, with the map unchanged (now == expiry is a hit) |
| Cache.CacheManager.Set | CrawData/src/utils/cache.ts:27-32 | stores the value with expiry now + ttl·1000 and replaces any earlier entry; no other key changes |
| Cache.CacheManager.CleanExpiredCache | CrawData/src/utils/cache.ts:34-41 | the remaining keys are exactly the entries that were not expired, each with its value and expiry kept |
| Cache.SetThenGet | CrawData/src/utils/cache.ts:15-32 | a get at the instant of the set, with ttl ≥ 0, returns the stored value |
| MovieModel.NormalizeSlug | CrawData/src/models/Movie.ts:120 | `toLowerCase().trim()`: the result is the lower-cased input with exactly its leading and trailing whitespace cut; it has no upper-case letter and no whitespace at either end, and is no longer than the input |
| MovieModel.HasRequiredFields | CrawData/src/models/Movie.ts:55-70 | true exactly when `year` is present and each of name, slug, origin_name, type, status, thumb_url and poster_url is a present non-empty string; so an accepted document has a non-empty slug |
| MovieModel.NormalizeSlugFixpoints | CrawData/src/models/Movie.ts:118-123 | normalising leaves a slug unchanged exactly when it is already lower-case and trimmed |
| MovieModel.NormalizeSlugIdempotent | CrawData/src/models/Movie.ts:120 | normalising twice equals normalising once |
| MovieModel.MovieDocument.constructor | CrawData/src/models/Movie.ts:58-63 | the `trim` schema option trims a slug when it is assigned; nothing else is changed |
| MovieModel.MovieDocument.PreSave | CrawData/src/models/Movie.ts:118-123 | a non-empty slug becomes its normal form; an empty or absent slug and every other path are left as they were |
| MovieModel.MovieCollection.Save | CrawData/src/models/Movie.ts:55-70 | a document missing a required path is rejected with nothing written; otherwise the hook normalises the slug and the unique index rejects a slug already stored; else exactly that document is added under its slug; the collection stays one document per normal, non-empty slug |
| MovieDetailModel.InsertInto | CrawData/src/models/MovieDetail.ts:152 | succeeds exactly when the record has a `movie.slug` that is not stored; a record without one is rejected; one whose slug is stored is rejected as a duplicate; a success adds exactly one key and keeps every earlier record; the index invariant is preserved |
| MovieDetailModel.DetailCollection.Exists | CrawData/src/services/movieDetailService.ts:34-35 | true exactly when some stored record has `movie.slug` equal to the slug |
| MovieDetailModel.DetailCollection.Create | CrawData/src/services/movieDetailService.ts:66-70 | the collection becomes the result of InsertInto on success and is unchanged on failure, whose error is returned |
| ListingCrawl.IsCacheValid | CrawData/src/services/movieService.ts:9-11 | valid exactly when less than 300000 ms have passed since the timestamp; an entry stamped at or after `now` is always valid |
| ListingCrawl.ParseBody | CrawData/src/services/movieService.ts:34-47 | a page is accepted exactly when the body, `items` and `pagination` are truthy and `items` is an array; a falsy body, `items` or `pagination` is an invalid structure; truthy non-array `items` are rejected; an accepted page's items are its `items` array and its page count is `pagination.totalPages` |
| ListingCrawl.CrawlFromExtends | CrawData/src/services/movieService.ts:27-57 | the loop only appends: the pages requested so far and the current page start the final page log; the delays and items so far start the final ones; at most the retries left in the budget add delays |
| ListingCrawl.Crawl | CrawData/src/services/movieService.ts:21-57 | a crawl from the initial variables requests page 1 first and awaits at most three back-offs |
| ListingCrawl.CrawlErrorMessage | CrawData/src/services/movieService.ts:61-66 | the rethrown message always starts with "Failed to crawl movies"; an HTTP failure appends ": message (code)", a shape failure nothing |
| ListingCrawl.CrawlPages | CrawData/src/services/movieService.ts:21-57 | the `while (hasNextPage)` loop's result, pages requested and waits are those of Crawl |
| ListingCrawl.MovieService.CrawlMovies | CrawData/src/services/movieService.ts:13-67 | a cache entry younger than 300000 ms is returned with no request; otherwise the pages and delays are those of the crawl; on success the cache holds exactly the returned list stamped with the finish time; on failure the cache is unchanged and "Failed to crawl movies: message (code)" (or the bare prefix for a malformed page) is rethrown |
| ListingCrawlProperties.CrawlFromFinal | CrawData/src/services/movieService.ts:27-57 | from any consistent loop state, the finished crawl's requests, failures, delays, items and page counts are related as in CrawlTrace |
| ListingCrawlProperties.CrawlTrace | CrawData/src/services/movieService.ts:22-57 | page 1 first; a failure re-requests the same page and a success the next; every good page before the last request had a number below its `totalPages`; success means at most 3 failures in all, a good last page whose number is not below its `totalPages`, and the items of all good pages in order; failure means exactly the 4th failure on the last request, which is rethrown; the waits are exactly 1000, 2000, … ms, one per failure retried: as many as the failures on success, three on failure |
| ListingCrawlProperties.BackoffsIncrease | CrawData/src/services/movieService.ts:49-53 | the retry waits strictly increase |
| ListingCrawlProperties.CrawlAllPagesSucceed | CrawData/src/services/movieService.ts:21-47 | if every page answers well with the same totalPages T, pages 1..max(1,T) are each requested once, with no wait, and their items are returned in page order |
| MovieDetailService.Candidates | CrawData/src/services/movieDetailService.ts:20-24 | every candidate is a catalog title with no detail record, with its id; every such title is a candidate; when the store lists each title once, no candidate is repeated |
| MovieDetailService.CandidatesFollowStoreOrder | CrawData/src/services/movieDetailService.ts:20-24 | of any two candidates, the earlier one's slug comes earlier in the store order |
| MovieDetailService.CandidatesAreMissingDetails | CrawData/src/services/movieDetailService.ts:20-24 | the candidate slugs are exactly the catalog slugs minus the detail slugs |
| MovieDetailService.FetchFrom | CrawData/src/services/movieDetailService.ts:41-57 | at most 3 attempts; the first response is kept; every earlier attempt failed; the third failure is rethrown; the wait after failure n is n·1000 ms |
| MovieDetailService.FetchDetail | CrawData/src/services/movieDetailService.ts:41-57 | the retry loop's response and waits are those of FetchFrom |
| MovieDetailService.ValidPayload | CrawData/src/services/movieDetailService.ts:59 | a payload passes exactly when it is an object whose `movie` and `episodes` are both present and truthy; a missing or falsy one (e.g. `movie: null`) is rejected |
| MovieDetailService.Handle | CrawData/src/services/movieDetailService.ts:31-81 | a title is skipped, untouched, exactly when it is already recorded; three failed attempts, a payload lacking movie or episodes, or a rejected insert are errors that write nothing and wait only the fetch's retry delays; a save adds exactly one record and keeps all others; the index invariant is kept |
| MovieDetailService.HandleInsert | CrawData/src/services/movieDetailService.ts:59-76 | for a new title with a valid payload, the title is saved exactly when the insert succeeds; a save stores the insert's result and then waits the 1000 ms throttle; a rejected insert is an error carrying the insert's error, with no throttle |
| MovieDetailService.HandleServed | CrawData/src/services/movieDetailService.ts:59-76 | a new title answered at once with a valid payload under its own slug is saved under that slug and followed by the 1000 ms throttle |
| MovieDetailService.Reconcile | CrawData/src/services/movieDetailService.ts:28-82 | the `for` loop over the candidates in order: successCount + errorCount never exceeds the number of candidates |
| MovieDetailService.ReconcileKeepsRecords | CrawData/src/services/movieDetailService.ts:31-82 | a batch keeps every existing record as it was and keeps the index; the number of records grows by exactly successCount; successCount + errorCount ≤ number of candidates |
| MovieDetailService.ReconcileAllServed | CrawData/src/services/movieDetailService.ts:28-82 | when all candidates are new, distinct and served at once, all are saved, no error is counted, exactly their slugs are added, and there is one throttle wait per title |
| MovieDetailService.DetailProcessor.HandleOne | CrawData/src/services/movieDetailService.ts:32-81 | one loop iteration has the verdict, new collection and waits given by Handle |
| MovieDetailService.DetailProcessor.HandleAll | CrawData/src/services/movieDetailService.ts:28-82 | the loop's collection, counters and waits are those of Reconcile over the candidates, and the index invariant is kept |
| MovieDetailService.DetailProcessor.ProcessMovieDetails | CrawData/src/services/movieDetailService.ts:10-96 | while a run is active, nothing is read or written; otherwise the flag is cleared on every exit; a failing candidate query writes nothing and is rethrown; otherwise the collection, counters and waits are those of handling the candidates in order |
| CrawlerJobs.Step | CrawData/src/cron/movieCrawlerJob.ts:13-29 | a trigger while running changes nothing; a trigger while idle starts exactly one service call; a settlement, failed or not, returns to idle |
| CrawlerJobs.ReplaySingleFlight | CrawData/src/cron/movieCrawlerJob.ts:14-28 | in any interleaving of triggers and settlements, calls started = calls settled + (1 while running), so at most one call is in flight |
| CrawlerJobs.SettleIgnoresOutcome | CrawData/src/cron/movieCrawlerJob.ts:24-28 | a failed service call leaves the job exactly as a successful one; the error does not escape |
| CrawlerJobs.MovieCrawlerJob.constructor | CrawData/src/cron/movieCrawlerJob.ts:9-39 | construction registers the schedule and makes the start-up run, so one service call is in flight |
| CrawlerJobs.MovieCrawlerJob.Trigger | CrawData/src/cron/movieCrawlerJob.ts:13-22 | starts (raises the flag and calls the service once) exactly when not running; otherwise nothing changes |
| CrawlerJobs.MovieCrawlerJob.Settle | CrawData/src/cron/movieCrawlerJob.ts:24-28 | the flag is cleared whatever the outcome |
| CrawlerJobs.MovieCrawlerJob.RunManually | CrawData/src/cron/movieCrawlerJob.ts:42-44 | while running nothing changes; otherwise one call runs to completion and the job is idle again |
| CrawlerJobs.MovieDetailCrawlerJob.constructor | CrawData/src/cronJob/movieDetailCrawlerJob.ts:8-34 | construction only registers the schedule: the job is idle with no call made |
| CrawlerJobs.MovieDetailCrawlerJob.Trigger | CrawData/src/cronJob/movieDetailCrawlerJob.ts:12-22 | starts (raises the flag and calls processMovieDetails once) exactly when not running; otherwise nothing changes |
| CrawlerJobs.MovieDetailCrawlerJob.Settle | CrawData/src/cronJob/movieDetailCrawlerJob.ts:23-27 | the flag is cleared whatever the outcome |
| CrawlerJobs.MovieDetailCrawlerJob.RunManually | CrawData/src/cronJob/movieDetailCrawlerJob.ts:36-38 | while running nothing changes; otherwise one call runs to completion and the job is idle again |
| CrawlerJobs.OverlappingTriggers | CrawData/src/cronJob/movieDetailCrawlerJob.ts:12-16 | for any idle detail job, of two triggers before the first run settles, exactly the first starts: one service call is made and the job is running |
| CrawlerJobs.OverlappingListingTriggers | CrawData/src/cron/movieCrawlerJob.ts:13-22 | the same for any idle listing job |
| PageWindow.RenderPageNumbers | Ophimcc/src/components/Pagination.tsx:11-28 | the strip built by the pushes and the loop is Layout(current, total, radius), for both widgets' radii |
| PageWindow.OphimPageNumbers | Ophimcc/src/components/Pagination.tsx:11-28 | the ±1 strip; for 1 ≤ c ≤ T it has at most 7 entries |
| PageWindow.HomePageNumbers | src/page/Movie/Home.tsx:56-77 | the ±2 strip; for 1 ≤ c ≤ T it has at most 9 entries |
| PageWindow.LayoutWellFormed | Ophimcc/src/components/Pagination.tsx:16-28 | for 1 ≤ c ≤ T: the first entry is 1 and the last is T; adjacent numbers differ by exactly 1; each ellipsis lies strictly inside the strip, between two numbers more than 1 apart |
| PageWindow.LayoutIncreasing | Ophimcc/src/components/Pagination.tsx:11-28 | for 1 ≤ c ≤ T the numbers strictly increase and all lie in [1, T] |
| PageWindow.WellFormedIncreasingStep | Ophimcc/src/components/Pagination.tsx:16-28 | in any strip with those local links, any later number exceeds any earlier one |
| PageWindow.LayoutPages | src/page/Movie/Home.tsx:58-76 | for 1 ≤ c ≤ T, page p is shown exactly when p = 1, p = T, or max(1, c−r) ≤ p ≤ min(T, c+r); so the whole window, c included, appears |
| PageWindow.LayoutLength | src/page/Movie/Home.tsx:56-77 | for 1 ≤ c ≤ T the strip has at most 2r + 5 entries |
| PageWindow.LayoutEmpty | Ophimcc/src/components/Pagination.tsx:13-28 | with T = 0 and a current page in 1..r+1 the strip is empty |
| PageWindow.PrevDisabled | Ophimcc/src/components/Pagination.tsx:51 | for a page c ≥ 1, the previous arrow is disabled exactly when c − 1 would fall below page 1 |
| PageWindow.NextDisabled | Ophimcc/src/components/Pagination.tsx:59 | for c ≤ T, the next arrow is disabled exactly when c + 1 would pass T; past the last page it is never disabled |

## Left out

- HTTP (`axios`), `setTimeout`/`setInterval`, `Date.now`, `node-cron` and console logging. Responses are oracles, times are parameters, delays are recorded, and schedules are a flag.
- JsValues.ToNumber: numbers are integers or `NaN`, and only numbers, booleans, `null` and strings holding an optionally signed run of decimal digits (white space around it allowed; a blank string is 0) convert; every other input is `NaN` here. In JavaScript, fractions (`Number("1.5")`), exponents, hexadecimal, binary and octal prefixes (`Number("0b11")` is 3, `Number("0o7")` is 7, so `validatePaginationParams("0b11")` gives page 3 in the source and page 1 here), `"Infinity"`, the empty array (`Number([])` is 0) and one-element arrays (`Number([7])` is 7) give numbers. Plain objects and functions are `NaN` in both.
- Unicode: `trim` and `toLowerCase` act on ASCII whitespace and letters only.
- Common.Retry: the retry count is a `nat`. A negative or fractional count, which never reaches `retries === 0` and so recurses without end, is not modelled.
- Mongoose casting, defaults, timestamps and text indexes. `distinct`, `$nin`, `findOne`, `create`, `select` and `lean` are reduced to map operations. The detail schema's other required paths are not checked: only `movie.slug` is, as required and unique.
- MovieDetailService.DetailProcessor.ProcessMovieDetails: a failure of the candidate query is one boolean input. Store failures inside a single insert appear only as InsertInto's validation and duplicate-key errors. The counters, which the source only logs, are returned. The method clears `isProcessing` on every exit, so the already-processing branch is reachable only from a state set up by hand: calls that overlap in time, as when the controller calls it during a scheduled run, are not modelled.
- MovieDetailModel.DetailRecord: the `movie_id` that `create` is given is not a path of the detail schema and is dropped by strict mode, so records hold only the `movie` and `episodes` payloads.
- ListingCrawl.Crawl: the upstream is a finite sequence of answers and any request past its end fails as a network error, so every modelled crawl ends. A crawl against an upstream whose `totalPages` always stays ahead of the page counter never ends in the source; such crawls are outside the model.
- Real asynchronous interleaving. A job run is split into a trigger step and a settle step. The service work between them is not run inside the job model.
- `getMovieDetail` in CrawData/src/services/movieService.ts:70-77 is a single HTTP call with a fixed error message, and is not part of this model.
- CrawData/src/cronJob/movieCrawlerJob.ts (scheduling glue), `generateRandomString`, `formatNumber`, controllers, routes, the database bootstrap, and all React rendering other than the two page-number strips.
- PageWindow.LayoutEmpty: stated only for a current page in 1..r+1. With a larger current page and no pages, the code as written still shows page 1, followed by an ellipsis when the window starts beyond page 2.
