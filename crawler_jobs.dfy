/**
 * The two scheduled jobs, CrawData/src/cron/movieCrawlerJob.ts and
 * CrawData/src/cronJob/movieDetailCrawlerJob.ts. Each wraps one service
 * call in an `isRunning` guard. A run is split at its `await`: `Trigger`
 * is the synchronous part up to the service call, `Settle` is the
 * `catch`/`finally` part once the call has settled. The timer that fires
 * triggers is not modelled; `scheduled` records that one was registered.
 */
module CrawlerJobs {

  datatype Phase = Idle | Running

  /** What can happen to a job: a trigger (cron tick, start-up or manual), or the awaited service call settling. */
  datatype Event = Tick | Settled(failed: bool)

  /** A job's flag together with how many service calls it has started and seen settle. */
  datatype JobLog = JobLog(phase: Phase, calls: nat, settled: nat)

  /**
   * One event: a tick while running changes nothing; a tick while idle
   * starts a run and one service call; a settlement, failed or not, ends
   * the run.
   */
  function Step(log: JobLog, e: Event): (r: JobLog)
    ensures e.Tick? && log.phase == Running ==> r == log
    ensures e.Tick? && log.phase == Idle ==> r.phase == Running && r.calls == log.calls + 1 && r.settled == log.settled
    ensures e.Settled? ==> r.phase == Idle && r.calls == log.calls
    ensures e.Settled? ==> r.settled == log.settled + (if log.phase == Running then 1 else 0)
  {
    match e
    case Tick => if log.phase == Running then log else JobLog(Running, log.calls + 1, log.settled)
    case Settled(_) => JobLog(Idle, log.calls, log.settled + (if log.phase == Running then 1 else 0))
  }

  /** A job's history from a fresh, idle instance. */
  function Replay(events: seq<Event>): JobLog
  {
    if events == [] then JobLog(Idle, 0, 0)
    else Step(Replay(events[..|events| - 1]), events[|events| - 1])
  }

  /** At most one service call is ever in flight: it is in flight exactly while the flag is set. */
  ghost predicate SingleFlight(log: JobLog)
  {
    log.calls == log.settled + (if log.phase == Running then 1 else 0)
  }

  lemma StepKeepsSingleFlight(log: JobLog, e: Event)
    requires SingleFlight(log)
    ensures SingleFlight(Step(log, e))
  {
  }

  /** Whatever the interleaving of ticks and settlements, no second call starts before the first has settled. */
  lemma {:induction false} ReplaySingleFlight(events: seq<Event>)
    ensures SingleFlight(Replay(events))
  {
    if events != [] {
      ReplaySingleFlight(events[..|events| - 1]);
      StepKeepsSingleFlight(Replay(events[..|events| - 1]), events[|events| - 1]);
    }
  }

  /** A failed service call leaves the job exactly as a successful one does: the error never escapes. */
  lemma SettleIgnoresOutcome(log: JobLog)
    ensures Step(log, Settled(true)) == Step(log, Settled(false))
  {
  }

  /** MovieCrawlerJob: guards `MovieService.crawlMovies`; it runs once at start-up. */
  class MovieCrawlerJob {
    var isRunning: bool
    var serviceCalls: nat
    var settledCalls: nat
    var scheduled: bool

    function Log(): JobLog
      reads this
    {
      JobLog(if isRunning then Running else Idle, serviceCalls, settledCalls)
    }

    ghost predicate Valid()
      reads this
    {
      SingleFlight(Log())
    }

    /** The constructor runs `initJob`: it registers the schedule and triggers the start-up run. */
    constructor()
      ensures Valid() && scheduled
      ensures Log() == Replay([Tick])
    {
      isRunning := false;
      serviceCalls := 0;
      settledCalls := 0;
      scheduled := true;
      new;
      var _ := Trigger();
    }

    /** `crawlMovies` up to its `await`: a no-op while running, else raise the flag and call the service. */
    method Trigger() returns (started: bool)
      requires Valid()
      modifies this
      ensures Valid() && scheduled == old(scheduled)
      ensures Log() == Step(old(Log()), Tick)
      ensures started <==> !old(isRunning)
    {
      if isRunning {
        return false;
      }
      isRunning := true;
      serviceCalls := serviceCalls + 1;
      started := true;
    }

    /** The `catch` and `finally` of `crawlMovies`: the error, if any, is logged and dropped; the flag is cleared. */
    method Settle(failed: bool)
      requires Valid() && isRunning
      modifies this
      ensures Valid() && scheduled == old(scheduled)
      ensures Log() == Step(old(Log()), Settled(failed))
    {
      settledCalls := settledCalls + 1;
      isRunning := false;
    }

    /** `runManually`: the same guarded run, awaited to its end. */
    method RunManually(failed: bool)
      requires Valid()
      modifies this
      ensures Valid() && scheduled == old(scheduled)
      ensures old(isRunning) ==> Log() == old(Log())
      ensures !old(isRunning) ==> Log() == Step(Step(old(Log()), Tick), Settled(failed))
    {
      var started := Trigger();
      if started {
        Settle(failed);
      }
    }
  }

  /** MovieDetailCrawlerJob: guards `processMovieDetails`; it only runs when triggered. */
  class MovieDetailCrawlerJob {
    var isRunning: bool
    var serviceCalls: nat
    var settledCalls: nat
    var scheduled: bool

    function Log(): JobLog
      reads this
    {
      JobLog(if isRunning then Running else Idle, serviceCalls, settledCalls)
    }

    ghost predicate Valid()
      reads this
    {
      SingleFlight(Log())
    }

    /** The constructor runs `initJob`, which only registers the schedule. */
    constructor()
      ensures Valid() && scheduled
      ensures Log() == Replay([])
    {
      isRunning := false;
      serviceCalls := 0;
      settledCalls := 0;
      scheduled := true;
    }

    /** `crawlMovieDetails` up to its `await`: a no-op while running, else raise the flag and call the service. */
    method Trigger() returns (started: bool)
      requires Valid()
      modifies this
      ensures Valid() && scheduled == old(scheduled)
      ensures Log() == Step(old(Log()), Tick)
      ensures started <==> !old(isRunning)
    {
      if isRunning {
        return false;
      }
      isRunning := true;
      serviceCalls := serviceCalls + 1;
      started := true;
    }

    /** The `catch` and `finally` of `crawlMovieDetails`: the error, if any, is dropped; the flag is cleared. */
    method Settle(failed: bool)
      requires Valid() && isRunning
      modifies this
      ensures Valid() && scheduled == old(scheduled)
      ensures Log() == Step(old(Log()), Settled(failed))
    {
      settledCalls := settledCalls + 1;
      isRunning := false;
    }

    /** `runManually`: the same guarded run, awaited to its end. */
    method RunManually(failed: bool)
      requires Valid()
      modifies this
      ensures Valid() && scheduled == old(scheduled)
      ensures old(isRunning) ==> Log() == old(Log())
      ensures !old(isRunning) ==> Log() == Step(Step(old(Log()), Tick), Settled(failed))
    {
      var started := Trigger();
      if started {
        Settle(failed);
      }
    }
  }

  /**
   * Two triggers of an idle detail job before the first run settles, e.g.
   * a scheduled run and a manual run: exactly one service call starts and
   * the job stays running.
   */
  method OverlappingTriggers(job: MovieDetailCrawlerJob) returns (first: bool, second: bool)
    requires job.Valid() && !job.isRunning
    modifies job
    ensures first && !second
    ensures job.Valid() && job.isRunning && job.serviceCalls == old(job.serviceCalls) + 1
  {
    first := job.Trigger();
    second := job.Trigger();
  }

  /** The same for an idle listing job. */
  method OverlappingListingTriggers(job: MovieCrawlerJob) returns (first: bool, second: bool)
    requires job.Valid() && !job.isRunning
    modifies job
    ensures first && !second
    ensures job.Valid() && job.isRunning && job.serviceCalls == old(job.serviceCalls) + 1
  {
    first := job.Trigger();
    second := job.Trigger();
  }
}
