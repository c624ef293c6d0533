/**
 * The detail reconciliation of CrawData/src/services/movieDetailService.ts
 * (`processMovieDetails`): find the catalog titles without a detail
 * record, then, one title at a time, re-check, fetch the detail page with
 * up to three attempts, check the payload, and insert one record, counting
 * successes and errors without ever abandoning the batch.
 *
 * The catalog and the detail collection are maps keyed by slug; the order
 * in which the store returns catalog documents is a parameter; the detail
 * request for a slug's a-th attempt (from 0) settles as `fetch(slug, a)`;
 * awaited delays are recorded instead of slept.
 */
module MovieDetailService {
  import opened Wrappers
  import opened JsValues
  import opened Upstream
  import opened MovieModel
  import opened MovieDetailModel

  const MaxAttempts: nat := 3
  const RetryDelayMs := 1000
  const ThrottleMs := 1000

  /** A catalog document as the query selects it: `_id` and `slug`. */
  datatype Candidate = Candidate(id: nat, slug: string)

  /** `order` lists every key of the catalog exactly once. */
  ghost predicate Enumerates(order: seq<string>, keys: set<string>)
  {
    && (forall i, j :: 0 <= i < j < |order| ==> order[i] != order[j])
    && (forall i :: 0 <= i < |order| ==> order[i] in keys)
    && (forall k :: k in keys ==> k in order)
  }

  /**
   * `MovieModel.find({slug: {$nin: distinct('movie.slug')}})`: the catalog
   * documents, in store order, whose slug is not among the detail slugs.
   */
  function Candidates(catalog: map<string, Movie>, order: seq<string>, detailSlugs: set<string>): (cs: seq<Candidate>)
    requires forall i :: 0 <= i < |order| ==> order[i] in catalog
    ensures |cs| <= |order|
    ensures forall c :: c in cs ==> c.slug in order && c.slug !in detailSlugs && c.id == catalog[c.slug].id
    ensures (forall i, j :: 0 <= i < j < |order| ==> order[i] != order[j]) ==>
              forall i, j :: 0 <= i < j < |cs| ==> cs[i].slug != cs[j].slug
    ensures forall i :: 0 <= i < |order| && order[i] !in detailSlugs ==> exists c :: c in cs && c.slug == order[i]
  {
    if order == [] then []
    else
      var prev := Candidates(catalog, order[..|order| - 1], detailSlugs);
      var s := order[|order| - 1];
      var cs := prev + (if s in detailSlugs then [] else [Candidate(catalog[s].id, s)]);
      assert forall i :: 0 <= i < |order| - 1 ==> order[..|order| - 1][i] == order[i];
      assert (forall i, j :: 0 <= i < j < |order| ==> order[i] != order[j]) ==> s !in order[..|order| - 1];
      assert s !in detailSlugs ==> Candidate(catalog[s].id, s) in cs;
      cs
  }

  /** The candidates are exactly the catalog titles that have no detail record. */
  lemma CandidatesAreMissingDetails(catalog: map<string, Movie>, order: seq<string>, detailSlugs: set<string>)
    requires Enumerates(order, catalog.Keys)
    ensures (set c | c in Candidates(catalog, order, detailSlugs) :: c.slug) == catalog.Keys - detailSlugs
  {
    var cs := Candidates(catalog, order, detailSlugs);
    forall k | k in catalog.Keys - detailSlugs ensures k in (set c | c in cs :: c.slug) {
      var i :| 0 <= i < |order| && order[i] == k;
    }
  }

  /** `x` occurs in `order` before `y` does. */
  ghost predicate Precedes(order: seq<string>, x: string, y: string)
  {
    exists a, b :: 0 <= a < b < |order| && order[a] == x && order[b] == y
  }

  /** Any two of the candidates occur in that order in `order`. */
  ghost predicate InStoreOrder(order: seq<string>, cs: seq<Candidate>)
  {
    forall i, j :: 0 <= i < j < |cs| ==> Precedes(order, cs[i].slug, cs[j].slug)
  }

  /** The candidates keep the store order: any two of them occur in that order among the catalog documents. */
  lemma {:induction false} CandidatesFollowStoreOrder(catalog: map<string, Movie>, order: seq<string>, detailSlugs: set<string>)
    requires forall i :: 0 <= i < |order| ==> order[i] in catalog
    ensures InStoreOrder(order, Candidates(catalog, order, detailSlugs))
  {
    if order != [] {
      var n := |order| - 1;
      var front := order[..n];
      assert forall i :: 0 <= i < n ==> front[i] == order[i];
      CandidatesFollowStoreOrder(catalog, front, detailSlugs);
      var prev := Candidates(catalog, front, detailSlugs);
      var cs := Candidates(catalog, order, detailSlugs);
      assert cs == prev + (if order[n] in detailSlugs then [] else [Candidate(catalog[order[n]].id, order[n])]);
      SnocFollowsOrder(order, front, prev, cs);
    }
  }

  /** Appending at most the candidate for the last slug keeps the candidates in store order. */
  lemma SnocFollowsOrder(order: seq<string>, front: seq<string>, prev: seq<Candidate>, cs: seq<Candidate>)
    requires |order| > 0 && front == order[..|order| - 1]
    requires InStoreOrder(front, prev)
    requires forall c :: c in prev ==> c.slug in front
    requires |prev| <= |cs| <= |prev| + 1 && cs[..|prev|] == prev
    requires |cs| > |prev| ==> cs[|prev|].slug == order[|order| - 1]
    ensures InStoreOrder(order, cs)
  {
    forall i, j | 0 <= i < j < |cs|
      ensures Precedes(order, cs[i].slug, cs[j].slug)
    {
      assert cs[i] == prev[i];
      if j < |prev| {
        assert cs[j] == prev[j];
        PrecedesInFront(order, |order| - 1, cs[i].slug, cs[j].slug);
      } else {
        assert prev[i] in prev;
        PrecedesLast(order, cs[i].slug);
      }
    }
  }

  /** Whatever occurs before the last element precedes it. */
  lemma PrecedesLast(order: seq<string>, x: string)
    requires |order| > 0 && x in order[..|order| - 1]
    ensures Precedes(order, x, order[|order| - 1])
  {
    var n := |order| - 1;
    var a :| 0 <= a < n && order[..n][a] == x;
    assert order[a] == x;
  }

  /** An order between two slugs seen in a prefix holds in the whole sequence. */
  lemma PrecedesInFront(order: seq<string>, n: nat, x: string, y: string)
    requires n <= |order| && Precedes(order[..n], x, y)
    ensures Precedes(order, x, y)
  {
    var a, b :| 0 <= a < b < n && order[..n][a] == x && order[..n][b] == y;
    assert order[a] == x && order[b] == y;
  }

  /** How the retry loop for one title ended: the body, or the error of the third failed attempt. */
  datatype Fetched = Fetched(response: Result<JsValue, HttpError>, attempts: nat, delays: seq<int>)

  /**
   * The retry loop of one title entered with `retryCount` failures behind
   * it: the first response wins; the third failure is thrown; after the
   * n-th failure short of that it waits n * 1000 ms.
   */
  function FetchFrom(fetch: (string, nat) -> Fetch, slug: string, retryCount: nat): (f: Fetched)
    requires retryCount < MaxAttempts
    ensures retryCount < f.attempts <= MaxAttempts
    ensures forall a :: retryCount <= a < f.attempts - 1 ==> fetch(slug, a).Threw?
    ensures f.response.Success? ==> fetch(slug, f.attempts - 1) == Responded(f.response.value)
    ensures f.response.Failure? ==> f.attempts == MaxAttempts && fetch(slug, f.attempts - 1) == Threw(f.response.error)
    ensures |f.delays| == f.attempts - retryCount - 1
    ensures forall i :: 0 <= i < |f.delays| ==> f.delays[i] == RetryDelayMs * (retryCount + i + 1)
    decreases MaxAttempts - retryCount
  {
    match fetch(slug, retryCount)
    case Responded(body) => Fetched(Success(body), retryCount + 1, [])
    case Threw(e) =>
      if retryCount + 1 == MaxAttempts then Fetched(Failure(e), MaxAttempts, [])
      else
        var rest := FetchFrom(fetch, slug, retryCount + 1);
        Fetched(rest.response, rest.attempts, [RetryDelayMs * (retryCount + 1)] + rest.delays)
  }

  /** After a failed attempt short of the last, the loop continues with one more failure and one more wait. */
  lemma FetchFromStep(fetch: (string, nat) -> Fetch, slug: string, retryCount: nat)
    requires retryCount + 1 < MaxAttempts && fetch(slug, retryCount).Threw?
    ensures FetchFrom(fetch, slug, retryCount).response == FetchFrom(fetch, slug, retryCount + 1).response
    ensures FetchFrom(fetch, slug, retryCount).delays ==
            [RetryDelayMs * (retryCount + 1)] + FetchFrom(fetch, slug, retryCount + 1).delays
  {
  }

  /** The waits before the first `k` retries of a title: 1000 ms, 2000 ms, ... */
  function Waits(k: nat): seq<int>
  {
    seq(k, i => RetryDelayMs * (i + 1))
  }

  lemma WaitsSnoc(k: nat)
    ensures Waits(k + 1) == Waits(k) + [RetryDelayMs * (k + 1)]
  {
  }

  /** After `retryCount` failed attempts, the rest of the retry loop decides the response and the remaining waits. */
  lemma {:induction false} FetchFromAfter(fetch: (string, nat) -> Fetch, slug: string, retryCount: nat)
    requires retryCount < MaxAttempts
    requires forall a :: 0 <= a < retryCount ==> fetch(slug, a).Threw?
    ensures FetchFrom(fetch, slug, 0).response == FetchFrom(fetch, slug, retryCount).response
    ensures FetchFrom(fetch, slug, 0).delays == Waits(retryCount) + FetchFrom(fetch, slug, retryCount).delays
  {
    if retryCount > 0 {
      var k := retryCount - 1;
      FetchFromAfter(fetch, slug, k);
      FetchFromStep(fetch, slug, k);
      WaitsSnoc(k);
      var rest := FetchFrom(fetch, slug, retryCount).delays;
      assert Waits(k) + ([RetryDelayMs * (k + 1)] + rest) == (Waits(k) + [RetryDelayMs * (k + 1)]) + rest;
    }
  }

  /** The loop stops at an attempt that gets a response, with that body, after the waits so far. */
  lemma FetchFromAnswered(fetch: (string, nat) -> Fetch, slug: string, retryCount: nat)
    requires retryCount < MaxAttempts && fetch(slug, retryCount).Responded?
    requires forall a :: 0 <= a < retryCount ==> fetch(slug, a).Threw?
    ensures FetchFrom(fetch, slug, 0).response == Success(fetch(slug, retryCount).body)
    ensures FetchFrom(fetch, slug, 0).delays == Waits(retryCount)
  {
    FetchFromAfter(fetch, slug, retryCount);
    assert FetchFrom(fetch, slug, retryCount).delays == [];
    assert Waits(retryCount) + [] == Waits(retryCount);
  }

  /** The loop stops at a failure of the last attempt, with that error, after the waits so far. */
  lemma FetchFromExhausted(fetch: (string, nat) -> Fetch, slug: string, retryCount: nat)
    requires retryCount + 1 == MaxAttempts && fetch(slug, retryCount).Threw?
    requires forall a :: 0 <= a < retryCount ==> fetch(slug, a).Threw?
    ensures FetchFrom(fetch, slug, 0).response == Failure(fetch(slug, retryCount).error)
    ensures FetchFrom(fetch, slug, 0).delays == Waits(retryCount)
  {
    FetchFromAfter(fetch, slug, retryCount);
    assert FetchFrom(fetch, slug, retryCount).delays == [];
    assert Waits(retryCount) + [] == Waits(retryCount);
  }

  /**
   * The `while (retryCount < maxRetries)` loop for one title: at most three
   * attempts, the first response is kept, a third failure is rethrown, and
   * the waits between attempts are 1000 ms and then 2000 ms.
   */
  method FetchDetail(fetch: (string, nat) -> Fetch, slug: string)
    returns (response: Result<JsValue, HttpError>, ghost delays: seq<int>)
    ensures response == FetchFrom(fetch, slug, 0).response
    ensures delays == FetchFrom(fetch, slug, 0).delays
  {
    var retryCount: nat := 0;
    delays := [];
    while retryCount < MaxAttempts
      invariant retryCount < MaxAttempts
      invariant forall a :: 0 <= a < retryCount ==> fetch(slug, a).Threw?
      invariant delays == Waits(retryCount)
      decreases MaxAttempts - retryCount
    {
      var outcome := fetch(slug, retryCount);
      if outcome.Responded? {
        FetchFromAnswered(fetch, slug, retryCount);
        return Success(outcome.body), delays;
      }
      if retryCount + 1 == MaxAttempts {
        FetchFromExhausted(fetch, slug, retryCount);
        return Failure(outcome.error), delays;
      }
      WaitsSnoc(retryCount);
      delays := delays + [RetryDelayMs * (retryCount + 1)];
      retryCount := retryCount + 1;
    }
    assert false;
  }

  /** Why one title counted as an error. */
  datatype DetailFailure = FetchFailed(error: HttpError) | InvalidData | InsertFailed(cause: InsertError)

  /** What became of one title: skipped at the re-check, saved, or an error. */
  datatype Verdict = Skipped | Saved | Failed(reason: DetailFailure)

  datatype Handled = Handled(verdict: Verdict, records: map<string, DetailRecord>, delays: seq<int>)

  /**
   * The payload check: a payload passes exactly when it is an object whose
   * `movie` and `episodes` properties are both present and truthy.
   */
  function ValidPayload(body: JsValue): (r: bool)
    ensures r <==> && body.Obj?
                   && "movie" in body.props && Truthy(body.props["movie"])
                   && "episodes" in body.props && Truthy(body.props["episodes"])
    ensures r ==> Truthy(body)
  {
    Truthy(Get(body, "movie")) && Truthy(Get(body, "episodes"))
  }

  /** The record `create` stores: the payload's `movie` and `episodes` (the `movie_id` it is also given is not a schema path). */
  function RecordOf(body: JsValue): DetailRecord
  {
    DetailRecord(Get(body, "movie"), Get(body, "episodes"))
  }

  /**
   * One iteration of the `for` loop. A title whose record now exists is
   * skipped untouched. Otherwise: three failed attempts, a payload lacking
   * `movie` or `episodes`, or an insert the collection rejects are errors
   * that write nothing and wait only the fetch's retry delays; a saved title
   * adds exactly one record, keeps every earlier one, and is followed by the
   * throttle delay.
   */
  function Handle(records: map<string, DetailRecord>, c: Candidate, fetch: (string, nat) -> Fetch): (h: Handled)
    ensures c.slug in records ==> h == Handled(Skipped, records, [])
    ensures h.verdict.Skipped? <==> c.slug in records
    ensures !h.verdict.Saved? ==> h.records == records
    ensures h.verdict.Saved? ==>
              && c.slug !in records
              && (exists k :: k !in records && h.records.Keys == records.Keys + {k})
              && (forall k :: k in records ==> h.records[k] == records[k])
    ensures c.slug !in records && (forall a :: 0 <= a < MaxAttempts ==> fetch(c.slug, a).Threw?) ==>
              h.verdict == Failed(FetchFailed(fetch(c.slug, MaxAttempts - 1).error))
    ensures c.slug !in records && FetchFrom(fetch, c.slug, 0).response.Success? &&
            !ValidPayload(FetchFrom(fetch, c.slug, 0).response.value) ==>
              h.verdict == Failed(InvalidData)
    ensures c.slug !in records && !h.verdict.Saved? ==> h.delays == FetchFrom(fetch, c.slug, 0).delays
    ensures Indexed(records) ==> Indexed(h.records)
  {
    if c.slug in records then Handled(Skipped, records, [])
    else
      var f := FetchFrom(fetch, c.slug, 0);
      match f.response
      case Failure(e) => Handled(Failed(FetchFailed(e)), records, f.delays)
      case Success(body) =>
        if !ValidPayload(body) then Handled(Failed(InvalidData), records, f.delays)
        else
          match InsertInto(records, RecordOf(body))
          case Failure(e) => Handled(Failed(InsertFailed(e)), records, f.delays)
          case Success(updated) => Handled(Saved, updated, f.delays + [ThrottleMs])
  }

  /** The detail collection, the two counters and the awaited delays after a run of candidates. */
  datatype Batch = Batch(records: map<string, DetailRecord>, successCount: nat, errorCount: nat, delays: seq<int>)

  /**
   * A new title whose fetch yields a valid payload is saved exactly when the
   * collection accepts the record built from it: then the collection is the
   * one `create` produced and the throttle follows the fetch waits;
   * otherwise the insert error is the title's error and only the fetch
   * waits were awaited.
   */
  lemma HandleInsert(records: map<string, DetailRecord>, c: Candidate, fetch: (string, nat) -> Fetch)
    ensures c.slug !in records && FetchFrom(fetch, c.slug, 0).response.Success? &&
            ValidPayload(FetchFrom(fetch, c.slug, 0).response.value) ==>
              var f := FetchFrom(fetch, c.slug, 0);
              var ins := InsertInto(records, RecordOf(f.response.value));
              var h := Handle(records, c, fetch);
              && (h.verdict.Saved? <==> ins.Success?)
              && (ins.Success? ==> h.records == ins.value && h.delays == f.delays + [ThrottleMs])
              && (ins.Failure? ==> h.verdict == Failed(InsertFailed(ins.error)) && h.delays == f.delays)
  {
  }

  /** The counters and the log after one more title. */
  function Extend(b: Batch, h: Handled): Batch
  {
    Batch(h.records,
          b.successCount + (if h.verdict.Saved? then 1 else 0),
          b.errorCount + (if h.verdict.Failed? then 1 else 0),
          b.delays + h.delays)
  }

  /**
   * The `for` loop over the candidates, in order: each title adds at most
   * one to one of the counters (a skipped title to neither).
   */
  function Reconcile(records: map<string, DetailRecord>, cs: seq<Candidate>, fetch: (string, nat) -> Fetch): (r: Batch)
    ensures r.successCount + r.errorCount <= |cs|
  {
    if cs == [] then Batch(records, 0, 0, [])
    else
      var b := Reconcile(records, cs[..|cs| - 1], fetch);
      Extend(b, Handle(b.records, cs[|cs| - 1], fetch))
  }

  /** Handling the title at index i extends the batch of the titles before it. */
  lemma ReconcilePrefix(records: map<string, DetailRecord>, cs: seq<Candidate>, i: nat, fetch: (string, nat) -> Fetch,
                        b: Batch, h: Handled)
    requires i < |cs|
    requires Reconcile(records, cs[..i], fetch) == b && Handle(b.records, cs[i], fetch) == h
    ensures Reconcile(records, cs[..i + 1], fetch) == Extend(b, h)
  {
    assert cs[..i + 1][..i] == cs[..i];
  }

  /**
   * A batch never touches an existing record, keeps the collection indexed,
   * adds exactly one record per success and counts every title at most once.
   */
  lemma {:induction false} ReconcileKeepsRecords(records: map<string, DetailRecord>, cs: seq<Candidate>, fetch: (string, nat) -> Fetch)
    requires Indexed(records)
    ensures var b := Reconcile(records, cs, fetch);
            && Indexed(b.records)
            && records.Keys <= b.records.Keys
            && (forall k :: k in records ==> b.records[k] == records[k])
            && |b.records.Keys| == |records.Keys| + b.successCount
            && b.successCount + b.errorCount <= |cs|
  {
    if cs != [] {
      ReconcileKeepsRecords(records, cs[..|cs| - 1], fetch);
    }
  }

  /** The upstream answers the first request for the title with a valid payload carrying the title's own slug. */
  ghost predicate ServesDetail(fetch: (string, nat) -> Fetch, c: Candidate)
  {
    && c.slug != ""
    && fetch(c.slug, 0).Responded?
    && ValidPayload(fetch(c.slug, 0).body)
    && Get(Get(fetch(c.slug, 0).body, "movie"), "slug") == Str(c.slug)
  }

  /**
   * When every candidate is new, distinct and served at once, the batch
   * saves them all, counts no error, adds exactly their slugs and waits
   * the throttle delay once per title.
   */
  lemma {:induction false} ReconcileAllServed(records: map<string, DetailRecord>, cs: seq<Candidate>, fetch: (string, nat) -> Fetch)
    requires Indexed(records)
    requires forall i :: 0 <= i < |cs| ==> cs[i].slug !in records && ServesDetail(fetch, cs[i])
    requires forall i, j :: 0 <= i < j < |cs| ==> cs[i].slug != cs[j].slug
    ensures var b := Reconcile(records, cs, fetch);
            && b.successCount == |cs| && b.errorCount == 0
            && b.records.Keys == records.Keys + (set c | c in cs :: c.slug)
            && b.delays == seq(|cs|, _ => ThrottleMs)
  {
    if cs != [] {
      var n := |cs| - 1;
      var prefix := cs[..n];
      ReconcileAllServed(records, prefix, fetch);
      var b := Reconcile(records, prefix, fetch);
      var c := cs[n];
      SlugsSnoc(cs);
      HandleServed(b.records, c, fetch);
      ThrottlesSnoc(n);
    }
  }

  /** One more saved title adds one more throttle delay. */
  lemma ThrottlesSnoc(n: nat)
    ensures seq(n, _ => ThrottleMs) + [ThrottleMs] == seq(n + 1, _ => ThrottleMs)
  {
  }

  /** The slugs of a run of titles are those before the last one plus the last, which is new when slugs are distinct. */
  lemma SlugsSnoc(cs: seq<Candidate>)
    requires cs != []
    ensures (set d | d in cs :: d.slug) == (set d | d in cs[..|cs| - 1] :: d.slug) + {cs[|cs| - 1].slug}
    ensures (forall i, j :: 0 <= i < j < |cs| ==> cs[i].slug != cs[j].slug) ==>
              cs[|cs| - 1].slug !in (set d | d in cs[..|cs| - 1] :: d.slug)
  {
    var n := |cs| - 1;
    assert cs == cs[..n] + [cs[n]];
    if forall i, j :: 0 <= i < j < |cs| ==> cs[i].slug != cs[j].slug {
      forall d | d in cs[..n] ensures d.slug != cs[n].slug {
        var j :| 0 <= j < n && cs[..n][j] == d;
      }
    }
  }

  /** A new title served at once is saved under its slug, after which the loop waits the throttle delay. */
  lemma HandleServed(records: map<string, DetailRecord>, c: Candidate, fetch: (string, nat) -> Fetch)
    requires c.slug !in records && ServesDetail(fetch, c)
    ensures var h := Handle(records, c, fetch);
            h.verdict == Saved && h.records.Keys == records.Keys + {c.slug} && h.delays == [ThrottleMs]
  {
    var body := fetch(c.slug, 0).body;
    assert FetchFrom(fetch, c.slug, 0) == Fetched(Success(body), 1, []);
    assert KeyOf(RecordOf(body)) == Some(c.slug);
  }

  /** How one call of `processMovieDetails` ended. */
  datatype RunResult = AlreadyProcessing | QueryFailed | Processed(successCount: nat, errorCount: nat)

  /** The module state of movieDetailService.ts: its `isProcessing` flag. */
  class DetailProcessor {
    var isProcessing: bool

    constructor()
      ensures !isProcessing
    {
      isProcessing := false;
    }

    /**
     * The body of the `for` loop for one title: the re-check, the fetch
     * with its retries, the payload check and the insert.
     */
    method HandleOne(details: DetailCollection, movie: Candidate, fetch: (string, nat) -> Fetch)
      returns (verdict: Verdict, ghost delays: seq<int>)
      requires details.Valid()
      modifies details
      ensures details.Valid()
      ensures Handle(old(details.records), movie, fetch) == Handled(verdict, details.records, delays)
    {
      if details.Exists(movie.slug) {
        return Skipped, [];
      }
      var response;
      response, delays := FetchDetail(fetch, movie.slug);
      if response.Failure? {
        return Failed(FetchFailed(response.error)), delays;
      }
      var body := response.value;
      if !Truthy(Get(body, "movie")) || !Truthy(Get(body, "episodes")) {
        return Failed(InvalidData), delays;
      }
      var created := details.Create(RecordOf(body));
      if created.Failure? {
        return Failed(InsertFailed(created.error)), delays;
      }
      verdict := Saved;
      delays := delays + [ThrottleMs];
    }

    /**
     * The `for` loop over the candidates: each is handled in turn, and the
     * counters, the collection and the waits end as Reconcile gives them.
     */
    method HandleAll(details: DetailCollection, movies: seq<Candidate>, fetch: (string, nat) -> Fetch)
      returns (successCount: nat, errorCount: nat, ghost delays: seq<int>)
      requires details.Valid()
      modifies details
      ensures details.Valid()
      ensures Reconcile(old(details.records), movies, fetch) == Batch(details.records, successCount, errorCount, delays)
    {
      ghost var records0 := details.records;
      successCount, errorCount := 0, 0;
      delays := [];
      for i := 0 to |movies|
        invariant details.Valid()
        invariant Reconcile(records0, movies[..i], fetch) == Batch(details.records, successCount, errorCount, delays)
      {
        ghost var before := Batch(details.records, successCount, errorCount, delays);
        var verdict;
        ghost var waited;
        verdict, waited := HandleOne(details, movies[i], fetch);
        ReconcilePrefix(records0, movies, i, fetch, before, Handled(verdict, details.records, waited));
        if verdict.Saved? {
          successCount := successCount + 1;
        } else if verdict.Failed? {
          errorCount := errorCount + 1;
        }
        delays := delays + waited;
      }
      assert movies[..|movies|] == movies;
    }

    /**
     * `processMovieDetails`. While a run is active, a call does nothing.
     * Otherwise the flag is raised, and cleared again on every way out;
     * if the candidate query fails nothing is written and the error is
     * rethrown; else each candidate is handled in order and the counters
     * are reported.
     */
    method ProcessMovieDetails(catalog: MovieCollection, details: DetailCollection, order: seq<string>,
                               fetch: (string, nat) -> Fetch, queryFails: bool)
      returns (r: RunResult, ghost delays: seq<int>)
      requires catalog.Valid() && details.Valid()
      requires Enumerates(order, catalog.docs.Keys)
      modifies this, details
      ensures details.Valid()
      ensures old(isProcessing) ==>
                r == AlreadyProcessing && isProcessing && details.records == old(details.records) && delays == []
      ensures !old(isProcessing) ==> !isProcessing
      ensures !old(isProcessing) && queryFails ==> r == QueryFailed && details.records == old(details.records)
      ensures !old(isProcessing) && !queryFails ==>
                var b := Reconcile(old(details.records), Candidates(old(catalog.docs), order, old(details.records).Keys), fetch);
                r == Processed(b.successCount, b.errorCount) && details.records == b.records && delays == b.delays
    {
      if isProcessing {
        return AlreadyProcessing, [];
      }
      isProcessing := true;
      if queryFails {
        isProcessing := false;
        return QueryFailed, [];
      }
      var movies := Candidates(catalog.docs, order, details.records.Keys);
      var successCount, errorCount;
      successCount, errorCount, delays := HandleAll(details, movies, fetch);
      isProcessing := false;
      r := Processed(successCount, errorCount);
    }
  }
}
