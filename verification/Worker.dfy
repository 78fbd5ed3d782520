/**
 The worker engine (apps/worker/src/windagent_worker/runtime.py): probe, run the
 handler under heartbeats, and finalize a claimed job at most once.

 A `Script` is what the outside world does to one attempt: how long every wait
 and every queue call takes, when the handler ends and how, when the worker is
 told to stop.  A script that runs out is a worker that died there.
 */
module Worker {
  import opened Prelude
  import opened Text
  import JobQueue
  import opened JobRuns
  import opened JobStore

  type Ticket = JobQueue.Ticket
  type Token = JobQueue.Token

  // ----- retry policy -----

  datatype RetryPolicy = RetryPolicy(baseDelay: real, maxDelay: real)

  ghost predicate ValidPolicy(p: RetryPolicy) {
    0.0 <= p.baseDelay <= p.maxDelay
  }

  function Pow2(n: nat): (r: real)
    ensures r >= 1.0
  {
    if n == 0 then 1.0 else 2.0 * Pow2(n - 1)
  }

  /** `delay_for`: None where the source raises. */
  function DelayFor(p: RetryPolicy, attempt: nat): Option<real> {
    if attempt < 1 then None else Some(Min(p.maxDelay, p.baseDelay * Pow2(attempt - 1)))
  }

  /** The delay starts at the base and doubles until it reaches the cap, where it stays. */
  lemma DelayDoubles(p: RetryPolicy, attempt: nat)
    requires ValidPolicy(p) && attempt >= 1
    ensures DelayFor(p, 0).None? && DelayFor(p, 1) == Some(p.baseDelay)
    ensures DelayFor(p, attempt).Some? && p.baseDelay <= DelayFor(p, attempt).value <= p.maxDelay
    ensures DelayFor(p, attempt + 1).value == Min(p.maxDelay, 2.0 * DelayFor(p, attempt).value)
  {
    var d := p.baseDelay * Pow2(attempt - 1);
    assert Pow2(attempt) == 2.0 * Pow2(attempt - 1);
    assert p.baseDelay * Pow2(attempt) == 2.0 * d;
    assert d >= p.baseDelay;
  }

  // ----- one attempt -----

  datatype TickStatus = IDLE | SUCCEEDED | RETRY_SCHEDULED | FAILED | CANCELLED | STALE

  datatype Report = Report(status: TickStatus, job: JobQueue.JobId, attempt: nat, error: Option<string>)

  /** What the handler leaves: a value (JSON or not), an exception, or a cancellation of its own. */
  datatype Ending = Returned(value: Value) | HandlerRaised(error: string) | HandlerCancelled
  datatype Value = Json(text: Option<string>) | NotJson(reason: string)

  /** One `asyncio.wait`: how long it took, whether the handler was done, and the state of `stop` after it. */
  datatype Tick = Tick(elapsed: real, done: bool, stop: bool, latency: real)

  /** A finalization: the time until its clock is read, and the wait for the row lock after that. */
  datatype Commit = Commit(before: real, wait: real)

  predicate Instant(c: Commit) {
    c.before == 0.0 && c.wait == 0.0
  }

  /** `locked` are the rows other transactions hold while this worker polls. */
  datatype Script = Script(poll: real, locked: set<JobQueue.JobId>, probe: real, ticks: seq<Tick>,
                           stopping: Option<real>, ending: Ending, confirm: real, commit: Commit)

  ghost predicate ValidScript(s: Script) {
    && (s.stopping.Some? ==> s.stopping.value >= 0.0)
    && s.poll >= 0.0 && s.probe >= 0.0 && s.confirm >= 0.0 && s.commit.before >= 0.0 && s.commit.wait >= 0.0
    && forall i :: 0 <= i < |s.ticks| ==> s.ticks[i].elapsed >= 0.0 && s.ticks[i].latency >= 0.0
  }

  /** Why the handler is no longer running. */
  datatype Exit = HandlerDone | Failing(error: string) | Lost | CancelSeen | Died

  /** What the worker does, in order, with the time it did it. */
  datatype Call =
    | Probe(at: real, state: LeaseState)
    | Started(at: real)
    | Beat(at: real, state: LeaseState)
    | Cancelled(at: real, why: Exit)
    | Stopped(at: real)
    | Ended(at: real)
    | Finalized(at: real, request: JobQueue.Request, f: Finalization)

  /** A handler has been started and has neither ended nor been stopped. */
  predicate Busy(trace: seq<Call>) {
    if trace == [] then false
    else
      var n := |trace| - 1;
      if trace[n].Started? then true
      else if trace[n].Stopped? || trace[n].Ended? then false
      else Busy(trace[..n])
  }

  ghost predicate NoFinal(trace: seq<Call>) {
    forall i :: 0 <= i < |trace| ==> !trace[i].Finalized?
  }

  /** `_final_report`'s mapping. */
  function Mapped(s: JobQueue.JobStatus): TickStatus {
    match s
    case SUCCEEDED => SUCCEEDED
    case RETRY_WAIT => RETRY_SCHEDULED
    case FAILED => FAILED
    case CANCELLED => CANCELLED
    case _ => STALE
  }

  /** The report that follows from a finalization. */
  function FinalReport(t: Ticket, request: JobQueue.Request, f: Finalization): Report {
    match request
    case Complete(_) =>
      if f.accepted then Report(Mapped(f.status), t.id, t.attempt, None)
      else Report(STALE, t.id, t.attempt, Some("stale result rejected"))
    case Fail(error, _, _) =>
      if f.accepted then Report(Mapped(f.status), t.id, t.attempt, Some(error))
      else Report(STALE, t.id, t.attempt, Some("stale failure rejected"))
    case CancelClaim => Report(Mapped(f.status), t.id, t.attempt, None)
  }

  /** The report of a worker that found its authority gone, at the first probe, in the loop, or after the handler. */
  function LostReport(t: Ticket, afterHandler: bool): Report {
    Report(STALE, t.id, t.attempt, Some(if afterHandler then "stale result rejected" else "lease authority lost"))
  }

  // ----- what each moment of an attempt demands -----

  /** What is fixed for an attempt; `stops` says that the worker is told to stop during it. */
  datatype Setting = Setting(t: Ticket, start: real, stops: bool, ending: Ending, stopping: Option<real>,
                             handlers: set<string>,
                             policy: RetryPolicy)

  function Retrying(s: Setting, error: string, retryable: bool): JobQueue.Request {
    JobQueue.Fail(error, retryable,
                  if DelayFor(s.policy, s.t.attempt).Some? then DelayFor(s.policy, s.t.attempt).value else 0.0)
  }

  function NoHandler(jobType: string): (error: string)
    ensures "no handler registered for job type " <= error && error[35..] == Repr(jobType)
  {
    "no handler registered for job type " + Repr(jobType)
  }

  datatype Demand = Finalize(request: JobQueue.Request) | GiveUp | GoOn

  /** What the calls made so far demand next: one particular finalization, no finalization at all, or going on. */
  function DemandAfter(s: Setting, sofar: seq<Call>): Demand
    requires sofar != []
  {
    var n := |sofar|;
    match sofar[n - 1]
    case Probe(at, state) =>
      if !state.authoritative then GiveUp
      else if state.cancellationRequested then Finalize(JobQueue.CancelClaim)
      else if n == 1 then
        if s.t.deadline.Some? && at >= s.t.deadline.value then Finalize(Retrying(s, "job deadline exceeded", true))
        else if s.t.jobType !in s.handlers then
          Finalize(Retrying(s, NoHandler(s.t.jobType), false))
        else GoOn
      else if sofar[n - 2].Ended? && s.ending.Returned? then
        match s.ending.value {
          case Json(text) => Finalize(JobQueue.Complete(text))
          case NotJson(reason) => Finalize(Retrying(s, reason, false))
        }
      else GoOn
    case Stopped(_) =>
      if n == 1 || !sofar[n - 2].Cancelled? then GoOn
      else if sofar[n - 2].why.Failing? then Finalize(Retrying(s, sofar[n - 2].why.error, true))
      else if sofar[n - 2].why.CancelSeen? then Finalize(JobQueue.CancelClaim)
      else GiveUp
    case Ended(_) =>
      match s.ending {
        case HandlerRaised(error) => Finalize(Retrying(s, error, true))
        case HandlerCancelled => Finalize(Retrying(s, "handler cancelled", true))
        case Returned(_) => GoOn
      }
    case _ => GoOn
  }

  /** A limit the handler was stopped for had been reached. */
  predicate Justified(s: Setting, at: real, error: string) {
    || (error == "worker stopped" && s.stops)
    || (error == "job execution timed out" && s.t.timeout.Some? && at >= s.start + s.t.timeout.value)
    || (error == "job deadline exceeded" && s.t.deadline.Some? && at >= s.t.deadline.value)
  }

  predicate Clean(state: LeaseState) {
    state.authoritative && !state.cancellationRequested
  }

  /**
   The handler is cancelled only for a reason, and at once after a heartbeat that gives
   one; after that the worker only waits until it has stopped.
   */
  predicate WatchedAt(s: Setting, calls: seq<Call>, i: nat)
    requires 0 < i < |calls|
  {
    && (calls[i - 1].Beat? && !Clean(calls[i - 1].state) ==> calls[i].Cancelled? && !calls[i].why.Failing?)
    && (calls[i - 1].Cancelled? <==> calls[i].Stopped?)
    && (calls[i].Stopped? ==> s.stopping.Some? && calls[i].at == calls[i - 1].at + s.stopping.value)
    && (calls[i].Cancelled? ==>
         match calls[i].why
         case Failing(error) => Justified(s, calls[i].at, error)
         case Lost => calls[i - 1].Beat? && !calls[i - 1].state.authoritative
         case CancelSeen =>
           calls[i - 1].Beat? && calls[i - 1].state.authoritative && calls[i - 1].state.cancellationRequested
         case _ => false)
  }

  ghost predicate Watched(s: Setting, calls: seq<Call>) {
    forall i :: 0 < i < |calls| ==> WatchedAt(s, calls, i)
  }

  /** The last call neither calls for a stop nor asked for one. */
  predicate Calm(calls: seq<Call>) {
    calls != [] ==>
      && (calls[|calls| - 1].Beat? ==> Clean(calls[|calls| - 1].state))
      && !calls[|calls| - 1].Cancelled?
  }

  /**
   The calls of one attempt when it reports: nothing follows the one finalization, it
   is exactly the one demanded, no handler runs during it, and without a finalization
   authority was lost and the report is STALE.
   */
  ghost predicate Disciplined(s: Setting, trace: seq<Call>, report: Report) {
    var n := |trace|;
    && n > 0 && NoFinal(trace[..n - 1]) && !Busy(trace) && Watched(s, trace)
    && if trace[n - 1].Finalized? then
         && n > 1 && !Busy(trace[..n - 1]) && DemandAfter(s, trace[..n - 1]) == Finalize(trace[n - 1].request)
         && report == FinalReport(s.t, trace[n - 1].request, trace[n - 1].f)
       else
         && DemandAfter(s, trace) == GiveUp
         && report == LostReport(s.t, n > 1 && trace[n - 2].Ended?)
  }

  /** A success is sent only after the handler ended with that JSON value and a probe then found no objection. */
  lemma SuccessIsCleared(s: Setting, trace: seq<Call>, report: Report)
    requires Disciplined(s, trace, report)
    ensures var n := |trace|;
            trace[n - 1].Finalized? && trace[n - 1].request.Complete? ==>
              && n >= 3 && trace[n - 3].Ended? && trace[n - 2].Probe? && Clean(trace[n - 2].state)
              && s.ending == Returned(Json(trace[n - 1].request.result))
  {
    var n := |trace|;
    if trace[n - 1].Finalized? && trace[n - 1].request.Complete? {
      assert trace[..n - 1][n - 2] == trace[n - 2];
      assert n >= 3 ==> trace[..n - 1][n - 3] == trace[n - 3];
    }
  }

  /** The demanded finalization closes an attempt. */
  lemma Closes(s: Setting, sofar: seq<Call>, calls: seq<Call>, report: Report)
    requires sofar != [] && NoFinal(sofar) && !Busy(sofar) && Watched(s, sofar) && !sofar[|sofar| - 1].Beat?
    requires !sofar[|sofar| - 1].Cancelled?
    requires |calls| == |sofar| + 1 && calls[..|sofar|] == sofar && calls[|sofar|].Finalized? && !Busy(calls)
    requires DemandAfter(s, sofar) == Finalize(calls[|sofar|].request)
    requires report == FinalReport(s.t, calls[|sofar|].request, calls[|sofar|].f)
    ensures Disciplined(s, calls, report)
  {
    hide DemandAfter, Busy, FinalReport, LostReport;
    forall i | 0 < i < |calls| ensures WatchedAt(s, calls, i) {
      if i < |sofar| {
        assert calls[i] == sofar[i] && calls[i - 1] == sofar[i - 1] && WatchedAt(s, sofar, i);
      } else {
        assert calls[i - 1] == sofar[i - 1];
      }
    }
  }

  /** What an ended handler that returned nothing demands. */
  lemma EndDemands(s: Setting, sofar: seq<Call>)
    requires sofar != [] && sofar[|sofar| - 1].Ended? && !s.ending.Returned?
    ensures DemandAfter(s, sofar)
         == Finalize(Retrying(s, if s.ending.HandlerRaised? then s.ending.error else "handler cancelled", true))
  {
  }

  /** Authority that is gone after the handler closes an attempt without a finalization. */
  lemma GivesUp(s: Setting, sofar: seq<Call>, probe: Call)
    requires sofar != [] && NoFinal(sofar) && !Busy(sofar) && sofar[|sofar| - 1].Ended?
    requires probe.Probe? && !probe.state.authoritative && Watched(s, sofar + [probe])
    ensures Disciplined(s, sofar + [probe], LostReport(s.t, true))
  {
    hide Watched, Busy, FinalReport, DemandAfter;
    var trace := sofar + [probe];
    BusyAppend(sofar, probe);
    LostDemands(s, trace);
    assert trace[..|sofar|] == sofar && trace[|sofar| - 1] == sofar[|sofar| - 1];
  }

  lemma LostDemands(s: Setting, trace: seq<Call>)
    requires trace != [] && trace[|trace| - 1].Probe? && !trace[|trace| - 1].state.authoritative
    ensures DemandAfter(s, trace) == GiveUp
  {
  }

  /** The accepted finalization left this status, and a success left this result. */
  ghost predicate Recorded(q: JobQueue.Queue, t: Ticket, c: Call)
    requires c.Finalized?
  {
    && t.id in q.jobs && c.f.status == q.jobs[t.id].status
    && (c.f.status.SUCCEEDED? ==> c.request.Complete? && q.jobs[t.id].result == c.request.result)
  }

  /** The report says of the job what the queue holds of it. */
  ghost predicate Tells(q: JobQueue.Queue, t: Ticket, status: TickStatus) {
    && t.id in q.jobs
    && var held := q.jobs[t.id].status;
       && (status.SUCCEEDED? <==> held.SUCCEEDED?) && (status.RETRY_SCHEDULED? <==> held.RETRY_WAIT?)
       && (status.FAILED? <==> held.FAILED?) && (status.CANCELLED? <==> held.CANCELLED?)
       && !status.STALE? && !status.IDLE?
  }

  /** An accepted finalization is reported as what the queue now holds, with the result sent; anything else as STALE. */
  ghost predicate FinalTrue(q: JobQueue.Queue, t: Ticket, trace: seq<Call>, report: Report) {
    trace != [] ==>
      var last := trace[|trace| - 1];
      if last.Finalized? && last.f.accepted then Recorded(q, t, last) && Tells(q, t, report.status)
      else report.status.STALE?
  }

  // ----- time -----

  function WaitFor(interval: real, timeoutAt: Option<real>, now: real): real {
    if timeoutAt.Some? then Min(interval, Max(0.0, timeoutAt.value - now)) else interval
  }

  /** Queue calls take no time, and a wait returns when the handler ends or its timeout is over. */
  ghost predicate PromptTick(tick: Tick, now: real, interval: real, timeoutAt: Option<real>) {
    var w := WaitFor(interval, timeoutAt, now);
    tick.latency == 0.0 && tick.elapsed <= w && (!tick.done ==> tick.elapsed == w)
  }

  ghost predicate PromptTicks(ticks: seq<Tick>, now: real, interval: real, timeoutAt: Option<real>) {
    ticks != [] ==>
      && PromptTick(ticks[0], now, interval, timeoutAt)
      && PromptTicks(ticks[1..], now + ticks[0].elapsed, interval, timeoutAt)
  }

  /** Waits enough to reach a limit that lies this far ahead. */
  predicate Covers(s: Script, interval: real, limit: Option<real>) {
    limit.Some? && |s.ticks| as real * interval >= limit.value
  }

  /** The script lets a prompt worker reach the timeout or the deadline. */
  predicate LongEnough(s: Script, interval: real, t: Ticket, start: real) {
    || Covers(s, interval, t.timeout)
    || Covers(s, interval, if t.deadline.Some? then Some(t.deadline.value - start) else None)
  }

  ghost predicate Prompt(s: Script, now: real, interval: real, timeout: Option<real>) {
    && s.poll == 0.0 && s.probe == 0.0 && s.confirm == 0.0 && Instant(s.commit)
    && PromptTicks(s.ticks, now, interval, if timeout.Some? then Some(now + timeout.value) else None)
  }

  /** Within the execution timeout, and less than one interval past a deadline ahead of the start. */
  ghost predicate Due(at: real, startedAt: real, t: Ticket, interval: real) {
    && (t.timeout.Some? ==> at <= startedAt + t.timeout.value)
    && (t.deadline.Some? && startedAt < t.deadline.value ==> at < t.deadline.value + interval)
  }

  /** The end of a cancelled handler, and the finalization right after it. */
  predicate AfterStop(trace: seq<Call>, i: nat)
    requires i < |trace|
  {
    trace[i].Stopped? || (i > 0 && trace[i].Finalized? && trace[i - 1].Stopped?)
  }

  /** Every call is due, but what waits for a cancelled handler comes as much later as that takes to stop. */
  ghost predicate InTime(trace: seq<Call>, startedAt: real, t: Ticket, interval: real, slack: real) {
    forall i :: 0 <= i < |trace| ==> InTimeAt(trace, i, startedAt, t, interval, slack)
  }

  ghost predicate InTimeAt(trace: seq<Call>, i: nat, startedAt: real, t: Ticket, interval: real, slack: real)
    requires i < |trace|
  {
    Due(trace[i].at - if AfterStop(trace, i) then slack else 0.0, startedAt, t, interval)
  }

  function Slack(stopping: Option<real>): real {
    if stopping.Some? then stopping.value else 0.0
  }

  /** When the worker's authority was last confirmed. */
  function LastAuthority(calls: seq<Call>): real {
    if calls == [] then 0.0
    else
      var c := calls[|calls| - 1];
      if (c.Probe? || c.Beat?) && c.state.authoritative then c.at else LastAuthority(calls[..|calls| - 1])
  }

  lemma LastAuthorityAppend(calls: seq<Call>, c: Call)
    ensures LastAuthority(calls + [c])
         == if (c.Probe? || c.Beat?) && c.state.authoritative then c.at else LastAuthority(calls)
  {
    assert (calls + [c])[..|calls|] == calls;
  }

  /** The finalization had to wait for a handler that stopped only after the lease had run out. */
  ghost predicate OutlivedLease(calls: seq<Call>, lease: real) {
    var n := |calls|;
    n > 1 && calls[n - 2].Stopped? && calls[n - 2].at > LastAuthority(calls[..n - 2]) + lease
  }

  /** Where a prompt worker stands before each wait: no limit has passed. */
  ghost predicate AtHead(t: Ticket, now: real, timeoutAt: Option<real>) {
    (timeoutAt.Some? ==> now < timeoutAt.value) && (t.deadline.Some? ==> now < t.deadline.value)
  }

  /** The calls so far: the probe before the handler, its one start, and no finalization. */
  ghost predicate Tracked(s: Setting, before: seq<Call>, calls: seq<Call>) {
    && before < calls && NoFinal(calls) && calls[|before|] == Started(s.start) && Watched(s, calls)
    && forall i :: |before| < i < |calls| ==> !calls[i].Started?
  }

  /** Heartbeats sent so far. */
  function Beats(calls: seq<Call>): nat {
    if calls == [] then 0 else Beats(calls[..|calls| - 1]) + if calls[|calls| - 1].Beat? then 1 else 0
  }

  lemma BeatsAppend(calls: seq<Call>, c: Call)
    ensures Beats(calls + [c]) == Beats(calls) + if c.Beat? then 1 else 0
  {
    assert (calls + [c])[..|calls|] == calls;
  }

  lemma {:induction false} NoBeats(calls: seq<Call>)
    requires forall i :: 0 <= i < |calls| ==> !calls[i].Beat?
    ensures Beats(calls) == 0
  {
    if calls != [] {
      NoBeats(calls[..|calls| - 1]);
    }
  }

  /**
   A heartbeat ends a round in which the handler was not done and nobody told the worker to
   stop; the first round of which that is not true ends the loop, unless authority or a
   cancellation ended it in the round before.
   */
  ghost predicate Obeyed(script: Script, calls: seq<Call>, exit: Exit) {
    var n := Beats(calls);
    && n <= |script.ticks|
    && (forall i :: 0 <= i < n ==> !script.ticks[i].done && !script.ticks[i].stop)
    && (exit.HandlerDone? ==> n < |script.ticks| && script.ticks[n].done)
    && (exit.Failing? ==>
         n < |script.ticks| && !script.ticks[n].done && (script.ticks[n].stop <==> exit.error == "worker stopped"))
    && (exit.Died? && calls != [] && !calls[|calls| - 1].Cancelled? ==> n == |script.ticks|)
  }

  /** So many rounds, each with its heartbeat, and in none of them the handler was done or a stop set. */
  ghost predicate Obeying(script: Script, calls: seq<Call>, i: nat) {
    && Beats(calls) == i <= |script.ticks|
    && forall j :: 0 <= j < i ==> !script.ticks[j].done && !script.ticks[j].stop
  }

  lemma ObeyingFromStart(script: Script, calls: seq<Call>)
    requires Beats(calls) == 0
    ensures Obeying(script, calls, 0)
  {
  }

  /** The next round goes on or ends the loop. */
  lemma ObeyingNext(script: Script, i: nat, sofar: seq<Call>, calls: seq<Call>, left: Option<Exit>)
    requires i < |script.ticks| && Obeying(script, sofar, i) && LeavesLoop(calls, left)
    requires Round(script.ticks[i], left, Beats(calls) - Beats(sofar))
    ensures left.None? ==> Obeying(script, calls, i + 1)
    ensures left.Some? ==> Obeyed(script, calls, left.value)
  {
    hide Beats;
  }

  lemma ObeyedThrough(script: Script, calls: seq<Call>)
    requires Obeying(script, calls, |script.ticks|)
    ensures Obeyed(script, calls, Died)
  {
    hide Beats;
  }

  /** Waiting for the cancelled handler changes nothing about that. */
  lemma ObeyedStopped(script: Script, sofar: seq<Call>, calls: seq<Call>, left: Exit, exit: Exit)
    requires Obeyed(script, sofar, left) && Beats(calls) == Beats(sofar)
    requires exit == left || (exit.Died? && calls == sofar && sofar != [] && sofar[|sofar| - 1].Cancelled?)
    requires !left.Died?
    ensures Obeyed(script, calls, exit)
  {
    hide Beats;
  }

  /** One round: the handler's end or a stop is seen before any heartbeat, and without them there is one. */
  ghost predicate Round(tick: Tick, exit: Option<Exit>, beats: int) {
    && (tick.done ==> exit == Some(HandlerDone) && beats == 0)
    && (!tick.done && tick.stop ==> exit == Some(Failing("worker stopped")) && beats == 0)
    && (!tick.done && !tick.stop ==> exit != Some(HandlerDone) && exit != Some(Failing("worker stopped")))
    && (exit.None? || exit.value.Lost? || exit.value.CancelSeen? ==> beats == 1)
    && (exit.Some? && exit.value.Failing? ==> beats == 0)
  }

  lemma TrackedAppend(s: Setting, before: seq<Call>, calls: seq<Call>, c: Call)
    requires Tracked(s, before, calls) && !c.Finalized? && !c.Started? && !c.Probe?
    requires WatchedAt(s, calls + [c], |calls|)
    ensures Tracked(s, before, calls + [c])
    ensures Busy(calls + [c]) == (Busy(calls) && !c.Stopped? && !c.Ended?)
    ensures LastAuthority(calls + [c]) == if c.Beat? && c.state.authoritative then c.at else LastAuthority(calls)
    ensures Beats(calls + [c]) == Beats(calls) + if c.Beat? then 1 else 0
  {
    BusyAppend(calls, c);
    BeatsAppend(calls, c);
    LastAuthorityAppend(calls, c);
    WatchedAppend(s, calls, c);
  }

  lemma WatchedAppend(s: Setting, calls: seq<Call>, c: Call)
    requires Watched(s, calls) && (calls != [] ==> WatchedAt(s, calls + [c], |calls|))
    ensures Watched(s, calls + [c])
  {
    forall i | 0 < i < |calls + [c]| ensures WatchedAt(s, calls + [c], i) {
      if i < |calls| {
        assert WatchedAt(s, calls, i);
      }
    }
  }

  /** A prompt wait ends in time, and if nothing was cut the next one starts in time too. */
  lemma WaitInTime(t: Ticket, tick: Tick, now: real, start: real, interval: real, timeoutAt: Option<real>)
    requires PromptTick(tick, now, interval, timeoutAt) && AtHead(t, now, timeoutAt) && interval > 0.0
    requires timeoutAt == if t.timeout.Some? then Some(start + t.timeout.value) else None
    ensures tick.latency == 0.0 && tick.elapsed <= interval && Due(now + tick.elapsed, start, t, interval)
    ensures CutAt(t, tick, now + tick.elapsed, timeoutAt).None? ==> AtHead(t, now + tick.elapsed, timeoutAt)
    ensures CutAt(t, tick, now + tick.elapsed, timeoutAt).None? && !tick.done ==> tick.elapsed == interval
  {
  }

  /** The three checks after a wait, in their order. */
  function CutAt(t: Ticket, tick: Tick, now: real, timeoutAt: Option<real>): Option<string> {
    if tick.stop then Some("worker stopped")
    else if timeoutAt.Some? && now >= timeoutAt.value then Some("job execution timed out")
    else if t.deadline.Some? && now >= t.deadline.value then Some("job deadline exceeded")
    else None
  }

  /** More calls, all made at one moment. */
  ghost predicate AddedAt(sofar: seq<Call>, calls: seq<Call>, at: real) {
    sofar <= calls && forall i :: |sofar| <= i < |calls| ==> calls[i].at == at
  }

  lemma BusyAppend(trace: seq<Call>, c: Call)
    ensures Busy(trace + [c]) == (c.Started? || (Busy(trace) && !c.Stopped? && !c.Ended?))
  {
    assert (trace + [c])[..|trace|] == trace;
  }

  /** A moment of the run. */
  ghost predicate SweptOn(barred: set<Token>, q: JobQueue.Queue, swept: JobQueue.Queue, q': JobQueue.Queue) {
    Reaches(barred, q, swept) && Reaches(barred, swept, q')
  }

  /** No claim that had run out by then is cancelled or exhausted, but for locked rows. */
  ghost predicate NothingAbandoned(q: JobQueue.Queue, at: real, locked: set<JobQueue.JobId>) {
    forall id :: id in q.jobs && id !in locked ==> !JobQueue.Recoverable(q.jobs[id], at)
  }

  /** The loop ends with the handler's end or with its cancellation. */
  predicate LeavesLoop(calls: seq<Call>, exit: Option<Exit>) {
    calls != [] &&
      var last := calls[|calls| - 1];
      if exit.None? then Busy(calls) && Calm(calls)
      else if exit.value.HandlerDone? then last.Ended? && !Busy(calls)
      else last.Cancelled? && last.why == exit.value && !exit.value.Died? && Busy(calls)
  }

  /** The last calls say how the handler was left. */
  predicate LeftBy(calls: seq<Call>, exit: Exit) {
    var n := |calls|;
    && n > 1 && !Busy(calls) && !exit.Died?
    && if exit.HandlerDone? then calls[n - 1].Ended?
       else calls[n - 1].Stopped? && calls[n - 2].Cancelled? && calls[n - 2].why == exit
  }

  lemma TicketFacts(q: JobQueue.Queue, t: Ticket)
    requires JobQueue.Inv(q) && t in q.tickets
    ensures t.attempt >= 1 && (t.timeout.Some? ==> t.timeout.value > 0.0)
  {
    assert JobQueue.TicketOk(q, t) && JobQueue.JobOk(q, t.id);
  }

  /** A prompt worker before its i-th wait: no limit has passed, and every wait so far took a whole interval. */
  ghost predicate OnTime(s: Setting, script: Script, i: nat, calls: seq<Call>, now: real, interval: real,
                         timeoutAt: Option<real>)
    requires i <= |script.ticks|
  {
    && PromptTicks(script.ticks[i..], now, interval, timeoutAt) && AtHead(s.t, now, timeoutAt)
    && InTime(calls, s.start, s.t, interval, Slack(s.stopping)) && now == s.start + i as real * interval
  }

  lemma OnTimeStart(s: Setting, script: Script, calls: seq<Call>, interval: real, timeoutAt: Option<real>)
    requires Prompt(script, s.start, interval, s.t.timeout) && interval > 0.0 && Slack(s.stopping) >= 0.0
    requires timeoutAt == if s.t.timeout.Some? then Some(s.start + s.t.timeout.value) else None
    requires s.t.timeout.Some? ==> s.t.timeout.value > 0.0
    requires s.t.deadline.Some? ==> s.start < s.t.deadline.value
    requires forall i :: 0 <= i < |calls| ==> calls[i].at <= s.start
    ensures OnTime(s, script, 0, calls, s.start, interval, timeoutAt)
  {
    assert script.ticks[0..] == script.ticks;
  }

  lemma OnTimeTick(s: Setting, script: Script, i: nat, calls: seq<Call>, now: real, interval: real,
                   timeoutAt: Option<real>)
    requires i < |script.ticks| && OnTime(s, script, i, calls, now, interval, timeoutAt)
    ensures PromptTick(script.ticks[i], now, interval, timeoutAt) && AtHead(s.t, now, timeoutAt)
  {
  }

  /** Calls that are due themselves are in time, however long a stop takes. */
  lemma InTimeMore(sofar: seq<Call>, calls: seq<Call>, now: real, start: real, t: Ticket, interval: real, slack: real)
    requires InTime(sofar, start, t, interval, slack) && AddedAt(sofar, calls, now) && slack >= 0.0
    requires Due(now, start, t, interval)
    ensures InTime(calls, start, t, interval, slack)
  {
    forall k | 0 <= k < |calls| ensures InTimeAt(calls, k, start, t, interval, slack) {
      if k < |sofar| {
        assert calls[k] == sofar[k] && (k > 0 ==> calls[k - 1] == sofar[k - 1]);
        assert InTimeAt(sofar, k, start, t, interval, slack);
      }
    }
  }

  lemma OnTimeNext(s: Setting, script: Script, i: nat, sofar: seq<Call>, calls: seq<Call>, now: real, now': real,
                   interval: real, timeoutAt: Option<real>)
    requires i < |script.ticks| && interval > 0.0 && OnTime(s, script, i, sofar, now, interval, timeoutAt)
    requires timeoutAt == if s.t.timeout.Some? then Some(s.start + s.t.timeout.value) else None
    requires now' == now + script.ticks[i].elapsed && AddedAt(sofar, calls, now') && Slack(s.stopping) >= 0.0
    ensures InTime(calls, s.start, s.t, interval, Slack(s.stopping)) && Due(now', s.start, s.t, interval)
    ensures AtHead(s.t, now', timeoutAt) && script.ticks[i].elapsed == interval ==>
              OnTime(s, script, i + 1, calls, now', interval, timeoutAt)
  {
    OnTimeTick(s, script, i, sofar, now, interval, timeoutAt);
    WaitInTime(s.t, script.ticks[i], now, s.start, interval, timeoutAt);
    assert script.ticks[i..][1..] == script.ticks[i + 1..];
    assert (i + 1) as real * interval == i as real * interval + interval;
    InTimeMore(sofar, calls, now', s.start, s.t, interval, Slack(s.stopping));
  }

  /** A cancellation that was due, and the stop it waits for. */
  lemma OnTimeStopped(s: Setting, sofar: seq<Call>, calls: seq<Call>, left: real, now: real, interval: real)
    requires InTime(sofar, s.start, s.t, interval, Slack(s.stopping)) && Due(left, s.start, s.t, interval)
    requires sofar <= calls && |calls| <= |sofar| + 1
    requires |calls| == |sofar| + 1 ==> calls[|sofar|] == Stopped(now) && now == left + Slack(s.stopping)
    ensures InTime(calls, s.start, s.t, interval, Slack(s.stopping))
  {
    forall k | 0 <= k < |calls| ensures InTimeAt(calls, k, s.start, s.t, interval, Slack(s.stopping)) {
      if k < |sofar| {
        assert calls[k] == sofar[k] && (k > 0 ==> calls[k - 1] == sofar[k - 1]);
        assert InTimeAt(sofar, k, s.start, s.t, interval, Slack(s.stopping));
      }
    }
  }

  /** The finalization right after a stop, in the same moment. */
  lemma InTimeClosed(sofar: seq<Call>, calls: seq<Call>, start: real, t: Ticket, interval: real, slack: real)
    requires InTime(sofar, start, t, interval, slack) && sofar != [] && sofar[|sofar| - 1].Stopped?
    requires AddedAt(sofar, calls, sofar[|sofar| - 1].at) && |calls| == |sofar| + 1 && calls[|sofar|].Finalized?
    ensures InTime(calls, start, t, interval, slack)
  {
    assert InTimeAt(sofar, |sofar| - 1, start, t, interval, slack);
    forall k | 0 <= k < |calls| ensures InTimeAt(calls, k, start, t, interval, slack) {
      if k < |sofar| {
        assert calls[k] == sofar[k] && (k > 0 ==> calls[k - 1] == sofar[k - 1]);
        assert InTimeAt(sofar, k, start, t, interval, slack);
      }
    }
  }

  lemma OnTimeEnds(s: Setting, script: Script, calls: seq<Call>, now: real, interval: real, timeoutAt: Option<real>)
    requires OnTime(s, script, |script.ticks|, calls, now, interval, timeoutAt)
    requires timeoutAt == if s.t.timeout.Some? then Some(s.start + s.t.timeout.value) else None
    ensures InTime(calls, s.start, s.t, interval, Slack(s.stopping)) && !LongEnough(script, interval, s.t, s.start)
  {
  }

  /** What a prompt worker's calls after the handler add. */
  lemma SettledInTime(script: Script, t: Ticket, start: real, interval: real, lease: real, exit: Exit,
                      sofar: seq<Call>, calls: seq<Call>, now: real, report: Report)
    requires ValidScript(script) && LeftBy(sofar, exit) && sofar <= calls && AddedAt(sofar, calls, now)
    requires InTime(sofar, start, t, interval, Slack(script.stopping))
    requires forall i :: 0 <= i < |sofar| && sofar[i].Started? ==> sofar[i].at == start
    requires forall i :: |sofar| <= i < |calls| ==> !calls[i].Started?
    requires exit.HandlerDone? ==> Due(now, start, t, interval)
    requires !exit.HandlerDone? ==>
               && |calls| == |sofar| + 1 && calls[|sofar|].Finalized? && sofar[|sofar| - 1].at == now
    ensures forall i :: 0 <= i < |calls| && calls[i].Started? ==>
              InTime(calls, calls[i].at, t, interval, Slack(script.stopping))
    ensures !exit.HandlerDone? ==> (OutlivedLease(calls, lease) <==> now > LastAuthority(sofar) + lease)
  {
    if exit.HandlerDone? {
      InTimeMore(sofar, calls, now, start, t, interval, Slack(script.stopping));
    } else {
      InTimeClosed(sofar, calls, start, t, interval, Slack(script.stopping));
      assert calls[..|sofar| - 1] == sofar[..|sofar| - 1];
    }
  }

  /**
   Beyond that bound two handlers can run for one job: while the worker waits for a
   cancelled handler its lease runs out, another worker claims the job, finds itself in
   authority with nothing against a start, and starts a handler of its own.
   */
  lemma TwoHandlers(q: JobQueue.Queue, t: Ticket, worker: string, until: real, d: real, calls: seq<Call>,
                    other: string, lease: real) returns (q': JobQueue.Queue, u: Ticket, others: seq<Call>)
    requires Reachable(q) && t in q.tickets && HeldUntil(q, t, worker, until) && d >= 0.0 && lease > 0.0
    requires Busy(calls) && calls[|calls| - 1].Cancelled? && q.now + d > until
    requires t.attempt < t.maxAttempts && !q.jobs[t.id].cancelRequested
    requires t.deadline.Some? ==> q.now + d < t.deadline.value
    ensures Reaches({t.token}, q, q') && q'.now == q.now + d && !Current(q', t) && Busy(calls)
    ensures u in q'.tickets && u.id == t.id && u != t && JobQueue.Authoritative(q', u, other)
    ensures |others| == 2 && others[0].Probe? && Clean(others[0].state) && others[1] == Started(q'.now) && Busy(others)
    ensures forall s: Setting :: s.t == u && t.jobType in s.handlers ==> DemandAfter(s, [others[0]]) == GoOn
  {
    ReachableInv(q);
    assert JobQueue.TicketOk(q, t) && JobQueue.JobOk(q, t.id);
    q', u := TakeOver(q, t, worker, until, d, other, lease);
    var probe := Probe(q'.now, LeaseState(true, q'.jobs[u.id].cancelRequested, Some(q'.now + lease)));
    others := [probe] + [Started(q'.now)];
    BusyAppend([probe], Started(q'.now));
  }

  class WorkerRuntime {
    const queue: PostgresJobQueue
    const handlers: set<string>
    const workerId: string
    const lease: real
    const interval: real
    const policy: RetryPolicy
    var currentJob: Option<Ticket>

    /** The constructor's checks. */
    ghost predicate Configured() {
      0.0 < interval < lease && ValidPolicy(policy)
    }

    constructor (queue: PostgresJobQueue, handlers: set<string>, workerId: string, lease: real, interval: real,
                 policy: RetryPolicy)
      requires 0.0 < interval < lease && ValidPolicy(policy)
      ensures Configured() && this.queue == queue && currentJob == None
    {
      this.queue, this.handlers, this.workerId := queue, handlers, workerId;
      this.lease, this.interval, this.policy, currentJob := lease, interval, policy, None;
    }

    /** Time passes; whoever else works on the queue cannot touch a live lease. */
    method Pass(t: Ticket, d: real, ghost until: real)
      requires queue.Valid() && t in queue.tickets && d >= 0.0
      modifies queue
      ensures queue.Valid() && t in queue.tickets && queue.now == old(queue.now) + d
      ensures Reaches({t.token}, old(queue.View()), queue.View())
      ensures old(HeldUntil(queue.View(), t, workerId, until)) && queue.now <= until
              ==> HeldUntil(queue.View(), t, workerId, until)
      ensures old(LeaseEnds(queue.View(), t, until)) ==> LeaseEnds(queue.View(), t, until)
    {
      ghost var q := queue.View();
      queue.Elapse(d, {t.token});
      if LeaseEnds(q, t, until) {
        OthersNeverRenew({t.token}, q, queue.View(), t, until);
      }
      RunKeeps({t.token}, q, queue.View());
      assert TicketLater(q, queue.View(), t);
      if HeldUntil(q, t, workerId, until) && queue.now <= until {
        LiveLeaseIsExclusive({t.token}, q, queue.View(), t, workerId, until);
      }
    }

    /** `LeaseGuard.heartbeat`, also the authority probe. */
    method CheckAuthority(t: Ticket, d: real, ghost until: real) returns (state: LeaseState)
      requires Configured() && queue.Valid() && t in queue.tickets && d >= 0.0
      modifies queue
      ensures queue.Valid() && t in queue.tickets && queue.now == old(queue.now) + d
      ensures Reaches({}, old(queue.View()), queue.View())
      ensures state.authoritative ==> HeldUntil(queue.View(), t, workerId, queue.now + lease)
      ensures old(HeldUntil(queue.View(), t, workerId, until)) && queue.now <= until ==> state.authoritative
    {
      hide Reaches, JobQueue.Inv;
      ghost var q := queue.View();
      Pass(t, d, until);
      ghost var r := queue.View();
      ReachesMore({}, {t.token}, q, r);
      ReachesStep({}, r, JobQueue.Heartbeat(t, workerId, lease));
      state := queue.Heartbeat(t, workerId, lease);
      ReachesTrans({}, q, r, queue.View());
    }

    /** One finalization call and the report that follows from it. */
    method Settle(t: Ticket, request: JobQueue.Request, d: Commit, trace: seq<Call>, ghost until: real)
      returns (report: Report, calls: seq<Call>)
      requires Configured() && queue.Valid() && t in queue.tickets && d.before >= 0.0 && d.wait >= 0.0
      requires NoFinal(trace) && !Busy(trace)
      modifies queue
      ensures queue.Valid() && Reaches({}, old(queue.View()), queue.View())
      ensures queue.now == old(queue.now) + d.before + d.wait
      ensures |calls| == |trace| + 1 && calls[..|trace|] == trace && !Busy(calls)
      ensures calls[|trace|].Finalized? && calls[|trace|].request == request && calls[|trace|].at == queue.now
      ensures report == FinalReport(t, calls[|trace|].request, calls[|trace|].f)
      ensures calls[|trace|].f.accepted ==>
                Recorded(queue.View(), t, calls[|trace|]) && Tells(queue.View(), t, report.status)
      ensures !calls[|trace|].f.accepted <==> report.status.STALE?
      ensures old(HeldUntil(queue.View(), t, workerId, until)) && queue.now <= until ==> calls[|trace|].f.accepted
      ensures old(LeaseEnds(queue.View(), t, until)) && calls[|trace|].f.accepted ==> queue.now - d.wait <= until
    {
      hide Reaches, JobQueue.Inv;
      ghost var q := queue.View();
      Pass(t, d.before, until);
      var at := queue.now;
      ghost var q1 := queue.View();
      Pass(t, d.wait, until);
      ghost var r := queue.View();
      ReachesTrans({t.token}, q, q1, r);
      ReachesMore({}, {t.token}, q, r);
      ReachesStep({}, r, JobQueue.Finalize(t, workerId, request, at));
      var f := queue.FinalizeClaim(t, workerId, request, at);
      ReachesTrans({}, q, r, queue.View());
      calls := trace + [Finalized(queue.now, request, f)];
      BusyAppend(trace, Finalized(queue.now, request, f));
      if !f.accepted && !request.CancelClaim? {
        report := Report(STALE, t.id, t.attempt,
                         Some(if request.Fail? then "stale failure rejected" else "stale result rejected"));
      } else {
        report := Report(Mapped(f.status), t.id, t.attempt, if request.Fail? then Some(request.error) else None);
      }
    }

    /** `_fail`, with the policy's delay. */
    method FailJob(t: Ticket, error: string, retryable: bool, d: Commit, trace: seq<Call>, ghost until: real)
      returns (report: Report, calls: seq<Call>)
      requires Configured() && queue.Valid() && t in queue.tickets && d.before >= 0.0 && d.wait >= 0.0
      requires NoFinal(trace) && !Busy(trace)
      modifies queue
      ensures queue.Valid() && Reaches({}, old(queue.View()), queue.View())
      ensures queue.now == old(queue.now) + d.before + d.wait
      ensures |calls| == |trace| + 1 && calls[..|trace|] == trace && !Busy(calls)
      ensures calls[|trace|].Finalized? && calls[|trace|].at == queue.now
      ensures DelayFor(policy, t.attempt).Some?
      ensures calls[|trace|].request == JobQueue.Fail(error, retryable, DelayFor(policy, t.attempt).value)
      ensures report == FinalReport(t, calls[|trace|].request, calls[|trace|].f)
      ensures calls[|trace|].f.accepted ==>
                Recorded(queue.View(), t, calls[|trace|]) && Tells(queue.View(), t, report.status)
      ensures !calls[|trace|].f.accepted <==> report.status.STALE?
      ensures old(HeldUntil(queue.View(), t, workerId, until)) && queue.now <= until ==> calls[|trace|].f.accepted
      ensures old(LeaseEnds(queue.View(), t, until)) && calls[|trace|].f.accepted ==> queue.now - d.wait <= until
    {
      hide Reaches, JobQueue.Inv;
      TicketFacts(queue.View(), t);
      var delay := DelayFor(policy, t.attempt);
      report, calls := Settle(t, JobQueue.Fail(error, retryable, delay.value), d, trace, until);
    }

    /** What is fixed for an attempt of this worker. */
    ghost predicate For(s: Setting, t: Ticket, script: Script)
    {
      && s.t == t && s.handlers == handlers && s.policy == policy && s.ending == script.ending
      && s.stopping == script.stopping
      && forall i :: 0 <= i < |script.ticks| && script.ticks[i].stop ==> s.stops
    }

    /** One wait and the three checks after it. */
    method WaitOnce(ghost s: Setting, t: Ticket, tick: Tick, timeoutAt: Option<real>, before: seq<Call>,
                    sofar: seq<Call>,
                    ghost until: real)
      returns (exit: Option<Exit>, calls: seq<Call>)
      requires queue.Valid() && t in queue.tickets && tick.elapsed >= 0.0 && s.t == t && (tick.stop ==> s.stops)
      requires timeoutAt == if t.timeout.Some? then Some(s.start + t.timeout.value) else None
      requires Tracked(s, before, sofar) && Busy(sofar) && Calm(sofar) && HeldUntil(queue.View(), t, workerId, until)
      modifies queue
      ensures queue.Valid() && t in queue.tickets && queue.now == old(queue.now) + tick.elapsed
      ensures Reaches({}, old(queue.View()), queue.View())
      ensures Tracked(s, before, calls) && LeavesLoop(calls, exit) && AddedAt(sofar, calls, queue.now)
      ensures exit == if tick.done then Some(HandlerDone)
                      else if tick.stop then Some(Failing("worker stopped"))
                      else if t.timeout.Some? && queue.now >= s.start + t.timeout.value
                      then Some(Failing("job execution timed out"))
                      else if t.deadline.Some? && queue.now >= t.deadline.value
                      then Some(Failing("job deadline exceeded")) else None
      ensures LeaseEnds(queue.View(), t, until) && LastAuthority(calls) == LastAuthority(sofar)
      ensures Beats(calls) == Beats(sofar)
      ensures exit.None? ==> calls == sofar
      ensures exit.Some? ==>
                calls[|calls| - 1] == if tick.done then Ended(queue.now) else Cancelled(queue.now, exit.value)
      ensures queue.now <= until ==> HeldUntil(queue.View(), t, workerId, until)
    {
      hide Reaches, JobQueue.Inv, HeldUntil, LeaseEnds;
      ghost var q := queue.View();
      HeldEnds(q, t, workerId, until);
      Pass(t, tick.elapsed, until);
      ReachesMore({}, {t.token}, q, queue.View());
      exit, calls := None, sofar;
      var cut := CutAt(t, tick, queue.now, timeoutAt);
      if tick.done {
        TrackedAppend(s, before, sofar, Ended(queue.now));
        exit, calls := Some(HandlerDone), sofar + [Ended(queue.now)];
      } else if cut.Some? {
        TrackedAppend(s, before, sofar, Cancelled(queue.now, Failing(cut.value)));
        exit, calls := Some(Failing(cut.value)), sofar + [Cancelled(queue.now, Failing(cut.value))];
      }
    }

    /** The heartbeat after a wait. */
    method BeatOnce(ghost s: Setting, t: Ticket, d: real, before: seq<Call>, sofar: seq<Call>, ghost until: real)
      returns (exit: Option<Exit>, calls: seq<Call>)
      requires Configured() && queue.Valid() && t in queue.tickets && d >= 0.0
      requires Tracked(s, before, sofar) && Busy(sofar) && Calm(sofar)
      modifies queue
      ensures queue.Valid() && t in queue.tickets && queue.now == old(queue.now) + d
      ensures Reaches({}, old(queue.View()), queue.View())
      ensures Tracked(s, before, calls) && LeavesLoop(calls, exit) && AddedAt(sofar, calls, queue.now)
      ensures exit.Some? ==> (exit.value.Lost? || exit.value.CancelSeen?) && calls[|calls| - 1].at == queue.now
      ensures Beats(calls) == Beats(sofar) + 1
      ensures exit != Some(Lost) ==>
                HeldUntil(queue.View(), t, workerId, queue.now + lease) && LastAuthority(calls) == queue.now
      ensures old(HeldUntil(queue.View(), t, workerId, until)) && queue.now <= until ==> exit != Some(Lost)
    {
      hide Reaches, JobQueue.Inv, HeldUntil;
      var state := CheckAuthority(t, d, until);
      TrackedAppend(s, before, sofar, Beat(queue.now, state));
      exit, calls := None, sofar + [Beat(queue.now, state)];
      if !state.authoritative || state.cancellationRequested {
        var why := if state.authoritative then CancelSeen else Lost;
        TrackedAppend(s, before, calls, Cancelled(queue.now, why));
        exit, calls := Some(why), calls + [Cancelled(queue.now, why)];
      }
    }

    /** One round of the loop: a wait, its checks, and the heartbeat. */
    method OneRound(ghost s: Setting, t: Ticket, tick: Tick, timeoutAt: Option<real>, before: seq<Call>,
                    sofar: seq<Call>)
      returns (exit: Option<Exit>, calls: seq<Call>, ghost until: real)
      requires Configured() && queue.Valid() && t in queue.tickets && tick.elapsed >= 0.0 && tick.latency >= 0.0
      requires s.t == t && (tick.stop ==> s.stops)
      requires Tracked(s, before, sofar) && Busy(sofar) && Calm(sofar)
      requires HeldUntil(queue.View(), t, workerId, queue.now + lease) && LastAuthority(sofar) == queue.now
      requires timeoutAt == if t.timeout.Some? then Some(s.start + t.timeout.value) else None
      modifies queue
      ensures queue.Valid() && t in queue.tickets && Reaches({}, old(queue.View()), queue.View())
      ensures Tracked(s, before, calls) && LeavesLoop(calls, exit)
      ensures exit.None? ==>
                HeldUntil(queue.View(), t, workerId, queue.now + lease) && LastAuthority(calls) == queue.now
      ensures exit.Some? && !exit.value.Lost? ==>
                && until == LastAuthority(calls) + lease && LeaseEnds(queue.View(), t, until)
                && (queue.now <= until ==> HeldUntil(queue.View(), t, workerId, until))
      ensures PromptTick(tick, old(queue.now), interval, timeoutAt) && AtHead(t, old(queue.now), timeoutAt) ==>
                && queue.now == old(queue.now) + tick.elapsed && AddedAt(sofar, calls, queue.now)
                && (exit.None? ==> AtHead(t, queue.now, timeoutAt) && tick.elapsed == interval)
                && (exit.Some? ==> !exit.value.Lost? && queue.now <= LastAuthority(calls) + interval)
      ensures exit.Some? && !exit.value.HandlerDone? ==> calls[|calls| - 1].at == queue.now
      ensures Round(tick, exit, Beats(calls) - Beats(sofar))
    {
      hide Reaches, HeldUntil, JobQueue.Inv, Tracked, LeaseEnds;
      ghost var q, now0 := queue.View(), queue.now;
      until := queue.now + lease;
      if PromptTick(tick, now0, interval, timeoutAt) && AtHead(t, now0, timeoutAt) {
        WaitInTime(t, tick, now0, s.start, interval, timeoutAt);
      }
      exit, calls := WaitOnce(s, t, tick, timeoutAt, before, sofar, until);
      if exit.None? {
        ghost var r := queue.View();
        exit, calls := BeatOnce(s, t, tick.latency, before, sofar, until);
        ReachesTrans({}, q, r, queue.View());
        until := queue.now + lease;
        HeldEnds(queue.View(), t, workerId, until);
      }
    }

    /** `_cancel_task`: wait until the cancelled handler has stopped; one that never does keeps the worker here. */
    method StopHandler(ghost s: Setting, t: Ticket, script: Script, left: Exit, before: seq<Call>, sofar: seq<Call>,
                       ghost until: real)
      returns (exit: Exit, calls: seq<Call>)
      requires queue.Valid() && t in queue.tickets && ValidScript(script) && s.stopping == script.stopping
      requires Tracked(s, before, sofar) && LeavesLoop(sofar, Some(left))
      requires !left.HandlerDone? ==> sofar[|sofar| - 1].at == queue.now
      modifies queue
      ensures queue.Valid() && t in queue.tickets && Reaches({}, old(queue.View()), queue.View())
      ensures Tracked(s, before, calls) && sofar <= calls && |calls| <= |sofar| + 1
      ensures LastAuthority(calls) == LastAuthority(sofar) && Beats(calls) == Beats(sofar)
      ensures |calls| == |sofar| + 1 ==> calls[|sofar|] == Stopped(queue.now)
      ensures exit == if left.HandlerDone? || script.stopping.Some? then left else Died
      ensures !exit.Died? ==> LeftBy(calls, exit)
      ensures exit.Died? ==> calls == sofar
      ensures queue.now == old(queue.now) + if left.HandlerDone? then 0.0 else Slack(script.stopping)
      ensures old(LeaseEnds(queue.View(), t, until)) ==> LeaseEnds(queue.View(), t, until)
      ensures old(HeldUntil(queue.View(), t, workerId, until)) && queue.now <= until ==>
                HeldUntil(queue.View(), t, workerId, until)
    {
      hide Reaches, JobQueue.Inv, HeldUntil, LeaseEnds;
      ghost var q := queue.View();
      exit, calls := left, sofar;
      if left.HandlerDone? || script.stopping.None? {
        ReachesSelf({}, q);
        exit := if left.HandlerDone? then left else Died;
        return;
      }
      Pass(t, script.stopping.value, until);
      ReachesMore({}, {t.token}, q, queue.View());
      TrackedAppend(s, before, sofar, Stopped(queue.now));
      calls := sofar + [Stopped(queue.now)];
    }

    /**
     The loop over the running handler.  At its head a heartbeat was just accepted.  A
     prompt worker never finds its lease lost and never overruns a limit: the cancellation
     is in time, the handler stops as much later as it takes, and the lease, renewed at most
     one interval before the cancellation, is held then if it has not run out.
     */
    method RunHandler(ghost s: Setting, t: Ticket, script: Script, before: seq<Call>)
      returns (exit: Exit, calls: seq<Call>, ghost until: real)
      requires Configured() && queue.Valid() && t in queue.tickets && ValidScript(script)
      requires For(s, t, script) && s.start == queue.now && LastAuthority(before) == queue.now
      requires NoFinal(before) && Watched(s, before) && HeldUntil(queue.View(), t, workerId, queue.now + lease)
      requires t.timeout.Some? ==> t.timeout.value > 0.0
      requires t.deadline.Some? ==> queue.now < t.deadline.value
      requires before != [] && forall i :: 0 <= i < |before| ==> before[i].at <= queue.now && before[i].Probe?
      modifies queue
      ensures queue.Valid() && t in queue.tickets && Reaches({}, old(queue.View()), queue.View())
      ensures Tracked(s, before, calls)
      ensures !exit.Died? ==> LeftBy(calls, exit) && (!exit.HandlerDone? ==> calls[|calls| - 1].at == queue.now)
      ensures Obeyed(script, calls, exit)
      ensures !exit.Died? && !exit.Lost? ==>
                && until == LastAuthority(calls) + lease && LeaseEnds(queue.View(), t, until)
                && (queue.now <= until ==> HeldUntil(queue.View(), t, workerId, until))
      ensures Prompt(script, old(queue.now), interval, t.timeout) ==>
                && !exit.Lost? && InTime(calls, old(queue.now), t, interval, Slack(script.stopping))
                && (LongEnough(script, interval, t, old(queue.now)) && exit.Died? ==>
                     script.stopping.None? && calls[|calls| - 1].Cancelled?)
                && (exit.HandlerDone? ==> Due(queue.now, old(queue.now), t, interval))
                && (!exit.Died? ==>
                     queue.now <= LastAuthority(calls) + interval
                                  + if exit.HandlerDone? then 0.0 else Slack(script.stopping))
    {
      hide Reaches, HeldUntil, JobQueue.Inv, OnTime, InTime, Due, LongEnough, PromptTicks, LeaseEnds, Round, Beats,
           Obeying, Obeyed;
      ghost var q0 := queue.View();
      ghost var prompt := Prompt(script, s.start, interval, t.timeout);
      var timeoutAt := if t.timeout.Some? then Some(queue.now + t.timeout.value) else None;
      ReachesSelf({}, q0);
      calls := before + [Started(queue.now)];
      BusyAppend(before, Started(queue.now));
      LastAuthorityAppend(before, Started(queue.now));
      WatchedAppend(s, before, Started(queue.now));
      NoBeats(calls);
      ObeyingFromStart(script, calls);
      if prompt {
        OnTimeStart(s, script, calls, interval, timeoutAt);
      }
      until := queue.now + lease;
      for i := 0 to |script.ticks|
        invariant queue.Valid() && t in queue.tickets && Reaches({}, q0, queue.View())
        invariant Tracked(s, before, calls) && Busy(calls) && Calm(calls)
        invariant Obeying(script, calls, i)
        invariant HeldUntil(queue.View(), t, workerId, queue.now + lease) && LastAuthority(calls) == queue.now
        invariant prompt ==> OnTime(s, script, i, calls, queue.now, interval, timeoutAt)
      {
        hide Tracked, Watched, LastAuthority;
        ghost var q, sofar, now0 := queue.View(), calls, queue.now;
        var left;
        if prompt {
          OnTimeTick(s, script, i, calls, now0, interval, timeoutAt);
        }
        left, calls, until := OneRound(s, t, script.ticks[i], timeoutAt, before, calls);
        ghost var q1, sofar1, now1 := queue.View(), calls, queue.now;
        ReachesTrans({}, q0, q, q1);
        ObeyingNext(script, i, sofar, calls, left);
        if prompt {
          OnTimeNext(s, script, i, sofar, calls, now0, queue.now, interval, timeoutAt);
        }
        if left.Some? {
          exit, calls := StopHandler(s, t, script, left.value, before, calls, until);
          ReachesTrans({}, q0, q1, queue.View());
          ObeyedStopped(script, sofar1, calls, left.value, exit);
          if prompt {
            OnTimeStopped(s, sofar1, calls, now1, queue.now, interval);
          }
          return;
        }
      }
      if prompt {
        OnTimeEnds(s, script, calls, queue.now, interval, timeoutAt);
      }
      ObeyedThrough(script, calls);
      exit := Died;
    }

    /** After the handler ended: its outcome, the authority probe, the validation, the finalization. */
    method FinishHandler(ghost s: Setting, t: Ticket, script: Script, sofar: seq<Call>, ghost until: real)
      returns (report: Report, calls: seq<Call>)
      requires Configured() && queue.Valid() && t in queue.tickets && ValidScript(script) && For(s, t, script)
      requires NoFinal(sofar) && !Busy(sofar) && Watched(s, sofar) && |sofar| > 1 && sofar[|sofar| - 1].Ended?
      modifies queue
      ensures queue.Valid() && Reaches({}, old(queue.View()), queue.View())
      ensures Disciplined(s, calls, report) && FinalTrue(queue.View(), t, calls, report)
      ensures sofar <= calls && forall i :: |sofar| <= i < |calls| ==> !calls[i].Started?
      ensures |calls| > |sofar| && !calls[|calls| - 2].Stopped?
      ensures script.confirm == 0.0 && Instant(script.commit) ==> AddedAt(sofar, calls, old(queue.now))
      ensures script.confirm == 0.0 && Instant(script.commit) ==>
                (old(queue.now) <= until && old(HeldUntil(queue.View(), t, workerId, until)) ==> report.status != STALE)
    {
      hide Reaches, HeldUntil, JobQueue.Inv, Watched, FinalReport, Mapped, Tells, Recorded;
      hide Disciplined, DemandAfter;
      if !script.ending.Returned? {
        var error := if script.ending.HandlerRaised? then script.ending.error else "handler cancelled";
        report, calls := FailJob(t, error, true, script.commit, sofar, until);
        EndDemands(s, sofar);
        Closes(s, sofar, calls, report);
        return;
      }
      ghost var q := queue.View();
      var state := CheckAuthority(t, script.confirm, until);
      var probed := sofar + [Probe(queue.now, state)];
      BusyAppend(sofar, Probe(queue.now, state));
      WatchedAppend(s, sofar, Probe(queue.now, state));
      if !state.authoritative {
        GivesUp(s, sofar, Probe(queue.now, state));
        return Report(STALE, t.id, t.attempt, Some("stale result rejected")), probed;
      }
      ghost var r := queue.View();
      report, calls := Conclude(s, t, script, state, probed);
      ReachesTrans({}, q, r, queue.View());
    }

    /** The finalization after an authoritative probe that followed the handler. */
    method Conclude(ghost s: Setting, t: Ticket, script: Script, state: LeaseState, probed: seq<Call>)
      returns (report: Report, calls: seq<Call>)
      requires Configured() && queue.Valid() && t in queue.tickets && ValidScript(script) && For(s, t, script)
      requires script.ending.Returned? && state.authoritative && HeldUntil(queue.View(), t, workerId, queue.now + lease)
      requires NoFinal(probed) && !Busy(probed) && Watched(s, probed) && |probed| > 2
      requires probed[|probed| - 2].Ended? && probed[|probed| - 1] == Probe(queue.now, state)
      modifies queue
      ensures queue.Valid() && Reaches({}, old(queue.View()), queue.View())
      ensures Disciplined(s, calls, report) && FinalTrue(queue.View(), t, calls, report)
      ensures |calls| == |probed| + 1 && probed <= calls && calls[|probed|].Finalized?
      ensures calls[|probed|].at == queue.now
      ensures queue.now == old(queue.now) + script.commit.before + script.commit.wait
      ensures Instant(script.commit) ==> report.status != STALE
    {
      hide Reaches, HeldUntil, JobQueue.Inv, Watched, FinalReport, Mapped, Tells, Recorded;
      ghost var held := queue.now + lease;
      if state.cancellationRequested {
        report, calls := Settle(t, JobQueue.CancelClaim, script.commit, probed, held);
      } else if script.ending.value.NotJson? {
        report, calls := FailJob(t, script.ending.value.reason, false, script.commit, probed, held);
      } else {
        report, calls := Settle(t, JobQueue.Complete(script.ending.value.text), script.commit, probed, held);
      }
      Closes(s, probed, calls, report);
    }

    /** After a stop for a limit or a cancellation: the finalization it demands. */
    method FinishStopped(ghost s: Setting, t: Ticket, script: Script, exit: Exit, sofar: seq<Call>, ghost until: real)
      returns (report: Report, calls: seq<Call>)
      requires Configured() && queue.Valid() && t in queue.tickets && ValidScript(script) && For(s, t, script)
      requires NoFinal(sofar) && Watched(s, sofar) && LeftBy(sofar, exit) && (exit.CancelSeen? || exit.Failing?)
      modifies queue
      ensures queue.Valid() && Reaches({}, old(queue.View()), queue.View())
      ensures Disciplined(s, calls, report) && FinalTrue(queue.View(), t, calls, report)
      ensures sofar <= calls && forall i :: |sofar| <= i < |calls| ==> !calls[i].Started?
      ensures |calls| == |sofar| + 1 && calls[|sofar|].Finalized?
      ensures Instant(script.commit) ==> AddedAt(sofar, calls, old(queue.now))
      ensures Instant(script.commit) && old(LeaseEnds(queue.View(), t, until))
              && (old(queue.now) <= until ==> old(HeldUntil(queue.View(), t, workerId, until))) ==>
                (report.status == STALE <==> old(queue.now) > until)
    {
      hide Reaches, HeldUntil, JobQueue.Inv, Watched, LeaseEnds, FinalReport, Mapped, Tells, Recorded;
      if exit.CancelSeen? {
        report, calls := Settle(t, JobQueue.CancelClaim, script.commit, sofar, until);
      } else {
        report, calls := FailJob(t, exit.error, true, script.commit, sofar, until);
      }
      Closes(s, sofar, calls, report);
    }

    /** The handler's run and everything after it. */
    method RunAndSettle(ghost s: Setting, t: Ticket, script: Script, before: seq<Call>)
      returns (report: Option<Report>, calls: seq<Call>)
      requires Configured() && queue.Valid() && t in queue.tickets && ValidScript(script)
      requires For(s, t, script) && s.start == queue.now && LastAuthority(before) == queue.now
      requires NoFinal(before) && Watched(s, before) && HeldUntil(queue.View(), t, workerId, queue.now + lease)
      requires t.timeout.Some? ==> t.timeout.value > 0.0
      requires t.deadline.Some? ==> queue.now < t.deadline.value
      requires before != [] && forall i :: 0 <= i < |before| ==> before[i].at <= queue.now && before[i].Probe?
      modifies queue
      ensures queue.Valid() && Reaches({}, old(queue.View()), queue.View())
      ensures report.None? ==> NoFinal(calls) && Watched(s, calls)
      ensures report.Some? ==> Disciplined(s, calls, report.value) && FinalTrue(queue.View(), t, calls, report.value)
      ensures Prompt(script, old(queue.now), interval, t.timeout) ==>
                Timely(script, t, old(queue.now), report, calls)
    {
      hide Reaches, HeldUntil, JobQueue.Inv, Watched, LeaseEnds, InTime, Due, LongEnough;
      ghost var q0, now0 := queue.View(), queue.now;
      var exit; ghost var until;
      exit, calls, until := RunHandler(s, t, script, before);
      ghost var q, sofar, now1 := queue.View(), calls, queue.now;
      if exit.Died? {
        return None, calls;
      }
      if exit.Lost? {
        return Some(Report(STALE, t.id, t.attempt, Some("lease authority lost"))), calls;
      }
      var settled: Report;
      if exit.HandlerDone? {
        settled, calls := FinishHandler(s, t, script, calls, until);
      } else {
        settled, calls := FinishStopped(s, t, script, exit, calls, until);
      }
      if Prompt(script, now0, interval, t.timeout) {
        SettledInTime(script, t, now0, interval, lease, exit, sofar, calls, now1, settled);
      }
      ReachesTrans({}, q0, q, queue.View());
      report := Some(settled);
    }

    /**
     What a prompt worker achieves: every limit is met, the attempt is reported if a limit
     is reached and the handler does stop, and it is STALE exactly when a cancelled handler
     outlived the lease, which takes more than the lease less one interval.
     */
    ghost predicate Timely(script: Script, t: Ticket, start: real, report: Option<Report>, calls: seq<Call>) {
      && (report.Some? ==>
           && (report.value.status == STALE <==> OutlivedLease(calls, lease))
           && (Slack(script.stopping) <= lease - interval ==> report.value.status != STALE))
      && (LongEnough(script, interval, t, start) && report.None? ==>
           script.stopping.None? && calls != [] && calls[|calls| - 1].Cancelled?)
      && (forall i :: 0 <= i < |calls| && calls[i].Started? ==>
           InTime(calls, calls[i].at, t, interval, Slack(script.stopping)))
    }

    /**
     `_execute_claimed_job`.  None is a worker that died while its handler ran, or waits
     for one that does not stop.  A prompt worker that holds its lease at the start reports
     STALE only if a cancelled handler outlived the lease.
     */
    method ExecuteClaimedJob(t: Ticket, script: Script, ghost until: real)
      returns (report: Option<Report>, calls: seq<Call>, ghost s: Setting)
      requires Configured() && queue.Valid() && t in queue.tickets && ValidScript(script)
      modifies queue
      ensures queue.Valid() && Reaches({}, old(queue.View()), queue.View()) && SettingOk(s, t, script)
      ensures report.None? ==> NoFinal(calls) && Watched(s, calls)
      ensures report.Some? ==> Disciplined(s, calls, report.value)
      ensures report.Some? ==> FinalTrue(queue.View(), t, calls, report.value)
      ensures Prompt(script, old(queue.now), interval, t.timeout)
              && old(HeldUntil(queue.View(), t, workerId, until)) && old(queue.now) <= until ==>
                Timely(script, t, old(queue.now), report, calls)
    {
      hide Reaches, HeldUntil, JobQueue.Inv, InTime, Due, LongEnough, FinalReport, Mapped, Tells, Recorded, NoHandler;
      ghost var q0 := queue.View();
      TicketFacts(q0, t);
      var state := CheckAuthority(t, script.probe, until);
      s := SettingFor(t, script, queue.now);
      calls := [Probe(queue.now, state)];
      BusyAppend([], Probe(queue.now, state));
      ghost var q := queue.View();
      var settled;
      if !state.authoritative {
        return Some(Report(STALE, t.id, t.attempt, Some("lease authority lost"))), calls, s;
      }
      ghost var held, first := queue.now + lease, calls;
      if state.cancellationRequested {
        settled, calls := Settle(t, JobQueue.CancelClaim, script.commit, calls, held);
      } else if t.deadline.Some? && queue.now >= t.deadline.value {
        settled, calls := FailJob(t, "job deadline exceeded", true, script.commit, calls, held);
      } else if t.jobType !in handlers {
        settled, calls := FailJob(t, NoHandler(t.jobType), false, script.commit, calls, held);
      } else {
        report, calls := RunAndSettle(s, t, script, calls);
        ReachesTrans({}, q0, q, queue.View());
        return;
      }
      Closes(s, first, calls, settled);
      ReachesTrans({}, q0, q, queue.View());
      report := Some(settled);
    }

    ghost function SettingFor(t: Ticket, script: Script, start: real): (s: Setting)
      ensures For(s, t, script) && s.start == start
    {
      Setting(t, start, exists i :: 0 <= i < |script.ticks| && script.ticks[i].stop,
              script.ending, script.stopping, handlers, policy)
    }

    /** The setting is this worker's, and it is told to stop only if the script says so. */
    ghost predicate SettingOk(s: Setting, t: Ticket, script: Script) {
      s == SettingFor(t, script, s.start)
    }

    /** `recover_expired` and then `claim_next`, with anybody acting before and between. */
    method Poll(script: Script, nonce: nat) returns (ticket: Option<Ticket>, recovered: nat,
                                                     ghost swept: JobQueue.Queue)
      requires Configured() && queue.Valid() && ValidScript(script)
      modifies queue
      ensures queue.Valid() && Reaches({}, old(queue.View()), queue.View())
      ensures old(queue.now) <= queue.now && (script.poll == 0.0 ==> queue.now == old(queue.now))
      ensures SweptOn({}, old(queue.View()), swept, queue.View())
      ensures recovered < 100 ==> NothingAbandoned(swept, old(queue.now), script.locked)
      ensures ticket.None? ==>
                forall id :: id in queue.jobs && id !in script.locked ==> !JobQueue.Claimable(queue.jobs[id], queue.now)
      ensures ticket.Some? ==>
                && ticket.value in queue.tickets && ticket.value !in old(queue.tickets)
                && HeldUntil(queue.View(), ticket.value, workerId, queue.now + lease)
    {
      hide Reaches, JobQueue.Inv;
      ghost var q0 := queue.View();
      ghost var ended;
      recovered, ended := queue.RecoverExpired(100, script.poll, _ => script.locked, {});
      swept := queue.View();
      queue.Elapse(script.poll, {});
      ghost var q := queue.View();
      ReachesTrans({}, q0, swept, q);
      RunKeeps({}, q0, q);
      ticket := queue.ClaimNext(workerId, lease, nonce, script.locked);
      if ticket.Some? {
        assert TicketLater(q0, q, ticket.value);
        ReachesStep({}, q, JobQueue.Claim(ticket.value.id, workerId, lease, nonce));
        ReachesTrans({}, q0, q, queue.View());
        ReachesTrans({}, swept, q, queue.View());
      }
    }

    /**
     `run_once`: first at most a hundred abandoned claims are recovered; IDLE exactly
     when nothing that nobody holds locked could be claimed.  A prompt worker never reports STALE: the lease its
     own claim took cannot run out under it.
     */
    method RunOnce(script: Script, nonce: nat)
      returns (report: Option<Report>, ticket: Option<Ticket>, calls: seq<Call>, recovered: nat,
               ghost swept: JobQueue.Queue, ghost s: Option<Setting>)
      requires Configured() && queue.Valid() && ValidScript(script)
      modifies this, queue
      ensures Configured() && queue.Valid() && Reaches({}, old(queue.View()), queue.View())
      ensures currentJob == if report.Some? then None else ticket
      ensures ticket.None? <==> report.Some? && report.value.status.IDLE?
      ensures ticket.None? ==>
                && calls == []
                && forall id :: id in queue.jobs && id !in script.locked ==>
                     !JobQueue.Claimable(queue.jobs[id], queue.now)
      ensures SweptOn({}, old(queue.View()), swept, queue.View())
      ensures recovered < 100 ==> NothingAbandoned(swept, old(queue.now), script.locked)
      ensures ticket.Some? ==>
                ticket.value !in old(queue.tickets) && s.Some? && SettingOk(s.value, ticket.value, script)
      ensures ticket.Some? && report.None? ==> NoFinal(calls) && Watched(s.value, calls)
      ensures ticket.Some? && report.Some? ==>
                Disciplined(s.value, calls, report.value) && FinalTrue(queue.View(), ticket.value, calls, report.value)
      ensures ticket.Some? && Prompt(script, old(queue.now), interval, ticket.value.timeout) ==>
                Timely(script, ticket.value, old(queue.now), report, calls)
    {
      hide Reaches, HeldUntil, JobQueue.Inv;
      ghost var q0 := queue.View();
      calls, s := [], None;
      ticket, recovered, swept := Poll(script, nonce);
      if ticket.None? {
        currentJob := None;
        return Some(Report(IDLE, 0, 0, None)), ticket, calls, recovered, swept, None;
      }
      currentJob := ticket;
      ghost var q := queue.View();
      ghost var setting;
      report, calls, setting := ExecuteClaimedJob(ticket.value, script, queue.now + lease);
      s := Some(setting);
      ReachesTrans({}, q0, q, queue.View());
      ReachesTrans({}, swept, q, queue.View());
      if report.Some? {
        currentJob := None;
      }
    }
  }
}
