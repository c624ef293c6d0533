/**
 * The generic helpers of CrawData/src/utils/common.ts: `isObject` and the
 * recursive `retry`. The wrapped function's successive calls are an oracle
 * `fn`: its k-th call (counting from 0) settles as `fn(k)`. Waiting is not
 * performed; every `delay(ms)` the helper awaits is recorded instead.
 */
module Common {
  import opened JsValues

  /** `isObject`: non-null, `typeof` "object", not an array; that is, exactly the plain objects. */
  function IsObject(v: JsValue): (r: bool)
    ensures r <==> v.Obj?
  {
    v != Null && TypeOf(v) == "object" && !IsArray(v)
  }

  /** How one call of the wrapped function settled. */
  datatype Attempt<T, E> = Resolved(value: T) | Rejected(error: E)

  /** What a `retry` did: how it settled, how many calls it made in all, and the delays it awaited in order. */
  datatype RetryRun<T, E> = RetryRun(result: Attempt<T, E>, calls: nat, delays: seq<int>)

  const DefaultRetries: nat := 3
  const DefaultDelayMs: int := 1000

  /**
   * `retry(fn, retries, delayMs)` entered after `made` earlier calls. It
   * calls `fn`; a resolution is returned at once; a rejection with
   * `retries == 0` is rethrown; otherwise it waits `delayMs` and recurses
   * with one retry fewer.
   */
  function RetryFrom<T, E>(fn: nat -> Attempt<T, E>, made: nat, retries: nat, delayMs: int): (run: RetryRun<T, E>)
    ensures made < run.calls <= made + retries + 1
    ensures run.result == fn(run.calls - 1)
    ensures forall k :: made <= k < run.calls - 1 ==> fn(k).Rejected?
    ensures run.result.Rejected? ==> run.calls == made + retries + 1
    ensures |run.delays| == run.calls - made - 1
    ensures forall i :: 0 <= i < |run.delays| ==> run.delays[i] == delayMs
    decreases retries
  {
    match fn(made)
    case Resolved(v) => RetryRun(Resolved(v), made + 1, [])
    case Rejected(e) =>
      if retries == 0 then RetryRun(Rejected(e), made + 1, [])
      else
        var rest := RetryFrom(fn, made + 1, retries - 1, delayMs);
        RetryRun(rest.result, rest.calls, [delayMs] + rest.delays)
  }

  /**
   * `retry(fn, retries, delayMs)` from its first call: at most `retries + 1`
   * calls; it settles like its last call, every earlier call rejected (so
   * the first resolution is returned and nothing is called after it); when
   * it rejects, all `retries + 1` calls were made; between consecutive calls
   * it waits exactly `delayMs`, and at no other time.
   */
  function Retry<T, E>(fn: nat -> Attempt<T, E>, retries: nat, delayMs: int): (run: RetryRun<T, E>)
    ensures 1 <= run.calls <= retries + 1
    ensures run.result == fn(run.calls - 1)
    ensures forall k :: 0 <= k < run.calls - 1 ==> fn(k).Rejected?
    ensures run.result.Rejected? ==> run.calls == retries + 1
    ensures run.delays == seq(run.calls - 1, _ => delayMs)
  {
    RetryFrom(fn, 0, retries, delayMs)
  }

  /** A call sequence that rejects every time is called `retries + 1` times, and the last call's error is rethrown. */
  lemma RetryAllRejected<T, E>(fn: nat -> Attempt<T, E>, retries: nat, delayMs: int)
    requires forall k :: 0 <= k <= retries ==> fn(k).Rejected?
    ensures Retry(fn, retries, delayMs).calls == retries + 1
    ensures Retry(fn, retries, delayMs).result == Rejected(fn(retries).error)
  {
  }

  /** The same with the defaults: four calls and three waits of one second. */
  lemma RetryDefaultsAllRejected<T, E>(fn: nat -> Attempt<T, E>)
    requires forall k :: 0 <= k <= DefaultRetries ==> fn(k).Rejected?
    ensures Retry(fn, DefaultRetries, DefaultDelayMs).calls == 4
    ensures Retry(fn, DefaultRetries, DefaultDelayMs).delays == [1000, 1000, 1000]
  {
    RetryAllRejected(fn, DefaultRetries, DefaultDelayMs);
  }
}
