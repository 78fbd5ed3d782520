/**
 The durable job queue (platform/jobs/postgres/queue.py): leases, fencing
 tokens, retry, cancellation, and one event per outcome in the same transaction.

 Every statement is a total function of the queue; a guard that matches no row
 leaves it as it was.
 */
module JobQueue {
  import opened Prelude
  import opened Text

  type JobId = nat

  datatype JobStatus = PENDING | RETRY_WAIT | RUNNING | SUCCEEDED | FAILED | CANCELLED

  predicate Terminal(s: JobStatus) {
    s.SUCCEEDED? || s.FAILED? || s.CANCELLED?
  }

  /** job_{id}_generation_{n}_{uuid}: the first two parts alone name the claim. */
  datatype Token = Token(job: JobId, generation: nat, nonce: nat)

  datatype Job = Job(
    jobType: string, priority: int, position: nat, maxAttempts: nat,
    timeout: Option<real>, deadline: Option<real>, availableAt: real,
    status: JobStatus, attempt: nat, generation: nat,
    claimedBy: Option<string>, token: Option<Token>, leaseExpiresAt: Option<real>,
    cancelRequested: bool, result: Option<string>, lastError: Option<string>, completedAt: Option<real>)

  /** The envelope a claim returns: one execution attempt with its fencing authority. */
  datatype Ticket = Ticket(id: JobId, jobType: string, attempt: nat, maxAttempts: nat,
                           timeout: Option<real>, deadline: Option<real>, token: Token)

  datatype AttemptId = AttemptId(job: JobId, attempt: nat)
  datatype AttemptStatus = Running | Abandoned | Ended(outcome: JobStatus)
  datatype Attempt = Attempt(worker: string, token: Token, status: AttemptStatus)

  datatype EventKind = JobSucceeded | JobFailed | RetryScheduled | JobCancelled

  /** The deduplication keys job:{id}:attempt:{n}:{type} and job:{id}:cancelled. */
  datatype EventKey = AttemptKey(job: JobId, attempt: nat, kind: EventKind) | CancelledKey(job: JobId)

  datatype JobEvent = JobEvent(job: JobId, sequence: nat, kind: EventKind, key: EventKey, result: Option<string>)

  datatype Queue = Queue(
    now: real,
    jobs: map<JobId, Job>,
    attempts: map<AttemptId, Attempt>,
    events: seq<JobEvent>,
    tickets: set<Ticket>)

  datatype Request = Complete(result: Option<string>) | Fail(error: string, retryable: bool, delay: real) | CancelClaim

  datatype Action =
    | Submit(id: JobId, job: Job)
    | Claim(id: JobId, worker: string, lease: real, nonce: nat)
    | Heartbeat(ticket: Ticket, worker: string, lease: real)
    | Finalize(ticket: Ticket, worker: string, request: Request, at: real)
    | RequestCancel(id: JobId)
    | Recover(id: JobId, at: real)
    | Tick(until: real)

  const EMPTY := Queue(0.0, map[], map[], [], {})

  // ----- the event stream of a job -----

  function EventsOf(events: seq<JobEvent>, id: JobId): seq<JobEvent> {
    if events == [] then []
    else
      var n := |events| - 1;
      EventsOf(events[..n], id) + if events[n].job == id then [events[n]] else []
  }

  function NextSequence(events: seq<JobEvent>, id: JobId): nat {
    if events == [] then 0
    else
      var last, before := events[|events| - 1], NextSequence(events[..|events| - 1], id);
      if last.job == id && last.sequence >= before then last.sequence + 1 else before
  }

  predicate HasKey(events: seq<JobEvent>, key: EventKey) {
    exists i :: 0 <= i < |events| && events[i].key == key
  }

  /** `record_next` with a deduplication key: a known key silently records nothing. */
  function Recorded(events: seq<JobEvent>, id: JobId, kind: EventKind, key: EventKey,
                    result: Option<string>): seq<JobEvent> {
    if HasKey(events, key) then events
    else events + [JobEvent(id, NextSequence(events, id), kind, key, result)]
  }

  /** A second record under the same key adds nothing. */
  lemma RecordedOnce(events: seq<JobEvent>, id: JobId, kind: EventKind, key: EventKey, result: Option<string>,
                     id': JobId, kind': EventKind, result': Option<string>)
    ensures var once := Recorded(events, id, kind, key, result); Recorded(once, id', kind', key, result') == once
  {
    var once := Recorded(events, id, kind, key, result);
    assert once != events ==> once[|events|].key == key;
  }

  // ----- statements -----

  predicate Waiting(j: Job) {
    j.status.PENDING? || j.status.RETRY_WAIT?
  }

  predicate LeaseOver(j: Job, now: real) {
    j.status.RUNNING? && j.leaseExpiresAt.Some? && j.leaseExpiresAt.value < now
  }

  predicate Claimable(j: Job, now: real) {
    (Waiting(j) && j.availableAt <= now) || (LeaseOver(j, now) && j.attempt < j.maxAttempts)
  }

  /** ORDER BY priority DESC, queue_position ASC. */
  predicate Ahead(a: Job, b: Job) {
    a.priority > b.priority || (a.priority == b.priority && a.position <= b.position)
  }

  /** UPDATE platform_job_attempts ... WHERE job_id, fencing_token, status = running. */
  function CloseAttempt(attempts: map<AttemptId, Attempt>, id: JobId, token: Option<Token>, status: AttemptStatus)
    : map<AttemptId, Attempt>
  {
    map k | k in attempts ::
      if k.job == id && Some(attempts[k].token) == token && attempts[k].status.Running?
      then attempts[k].(status := status) else attempts[k]
  }

  function TicketOf(id: JobId, j: Job): Ticket
    requires j.token.Some?
  {
    Ticket(id, j.jobType, j.attempt, j.maxAttempts, j.timeout, j.deadline, j.token.value)
  }

  function ClaimedJob(id: JobId, j: Job, worker: string, expiresAt: real, nonce: nat): Job {
    j.(status := RUNNING, attempt := j.attempt + 1, generation := j.generation + 1, claimedBy := Some(worker),
       token := Some(Token(id, j.generation + 1, nonce)), leaseExpiresAt := Some(expiresAt), completedAt := None)
  }

  /** `claim_next` on the row its scan selected. */
  function ClaimStep(q: Queue, id: JobId, worker: string, lease: real, nonce: nat): Queue
    requires id in q.jobs
  {
    var j := q.jobs[id];
    var j' := ClaimedJob(id, j, worker, q.now + lease, nonce);
    var closed := if j.status.RUNNING? then CloseAttempt(q.attempts, id, j.token, Abandoned) else q.attempts;
    q.(jobs := q.jobs[id := j'],
       attempts := closed[AttemptId(id, j'.attempt) := Attempt(worker, j'.token.value, Running)],
       tickets := q.tickets + {TicketOf(id, j')})
  }

  predicate OwnsLive(j: Job, worker: string, token: Token, now: real) {
    && j.status.RUNNING? && j.claimedBy == Some(worker) && j.token == Some(token)
    && j.leaseExpiresAt.Some? && j.leaseExpiresAt.value >= now
  }

  /** The guard of a finalization whose clock was read at `at`, before it waited for the row lock. */
  predicate OwnedAt(q: Queue, t: Ticket, worker: string, at: real) {
    t.id in q.jobs && OwnsLive(q.jobs[t.id], worker, t.token, at)
  }

  predicate Authoritative(q: Queue, t: Ticket, worker: string) {
    t.id in q.jobs && OwnsLive(q.jobs[t.id], worker, t.token, q.now)
  }

  function HeartbeatStep(q: Queue, t: Ticket, worker: string, lease: real): Queue {
    if Authoritative(q, t, worker) then
      q.(jobs := q.jobs[t.id := q.jobs[t.id].(leaseExpiresAt := Some(q.now + lease))])
    else q
  }

  function RequestedStatus(t: Ticket, r: Request, now: real): JobStatus {
    match r
    case Complete(_) => SUCCEEDED
    case Fail(_, retryable, _) =>
      if retryable && t.attempt < t.maxAttempts && (t.deadline.None? || now < t.deadline.value) then RETRY_WAIT
      else FAILED
    case CancelClaim => CANCELLED
  }

  function FinalStatus(j: Job, t: Ticket, r: Request, now: real): JobStatus {
    if j.cancelRequested then CANCELLED else RequestedStatus(t, r, now)
  }

  function FinalResult(j: Job, r: Request): Option<string> {
    if !j.cancelRequested && r.Complete? then r.result else None
  }

  function KindOf(s: JobStatus): EventKind {
    match s
    case SUCCEEDED => JobSucceeded
    case RETRY_WAIT => RetryScheduled
    case CANCELLED => JobCancelled
    case _ => JobFailed
  }

  function Released(j: Job, status: JobStatus, now: real): Job {
    j.(status := status, claimedBy := None, token := None, leaseExpiresAt := None,
       completedAt := if Terminal(status) then Some(now) else None)
  }

  /** The error text as it is stored: stripped, and cut after 8000 characters. */
  function Message(error: string): (m: string)
    ensures m <= Strip(error) && |m| <= 8000 && (|m| == 8000 || m == Strip(error))
  {
    var text := Strip(error);
    if |text| > 8000 then text[..8000] else text
  }

  function FinalizedJob(j: Job, t: Ticket, r: Request, now: real): Job {
    var status := FinalStatus(j, t, r, now);
    Released(j, status, now).(
      result := FinalResult(j, r),
      lastError := if j.cancelRequested || r.CancelClaim? then Some("cancellation requested")
                   else if r.Fail? then Some(Message(r.error)) else None,
      availableAt := if status.RETRY_WAIT? then now + (if r.Fail? then r.delay else 0.0) else j.availableAt)
  }

  /** `_finalize_claim`: job, attempt, event and outbox row in one transaction. */
  function FinalizeStep(q: Queue, t: Ticket, worker: string, r: Request, at: real): Queue {
    if OwnedAt(q, t, worker, at) then
      var j := q.jobs[t.id];
      var status := FinalStatus(j, t, r, at);
      q.(jobs := q.jobs[t.id := FinalizedJob(j, t, r, at)],
         attempts := CloseAttempt(q.attempts, t.id, Some(t.token),
                                  Ended(if status.RETRY_WAIT? then FAILED else status)),
         events := Recorded(q.events, t.id, KindOf(status), AttemptKey(t.id, t.attempt, KindOf(status)),
                            FinalResult(j, r)))
    else q
  }

  /** `request_cancel`: flag a running job, cancel a waiting one at once. */
  function CancelStep(q: Queue, id: JobId): Queue {
    if id !in q.jobs || Terminal(q.jobs[id].status) then q
    else if q.jobs[id].status.RUNNING? then q.(jobs := q.jobs[id := q.jobs[id].(cancelRequested := true)])
    else
      q.(jobs := q.jobs[id := q.jobs[id].(status := CANCELLED, cancelRequested := true, completedAt := Some(q.now))],
         events := Recorded(q.events, id, JobCancelled, CancelledKey(id), None))
  }

  function CancelAnswer(q: Queue, id: JobId): bool {
    id in q.jobs && (Terminal(q.jobs[id].status) ==> q.jobs[id].status.CANCELLED?)
  }

  function AbandonedError(j: Job): string {
    if j.cancelRequested then "cancellation requested" else "lease expired after maximum attempts"
  }

  predicate Recoverable(j: Job, now: real) {
    LeaseOver(j, now) && (j.cancelRequested || j.attempt >= j.maxAttempts)
  }

  /** One iteration of `recover_expired`, whose clock was read once before the first. */
  function RecoverStep(q: Queue, id: JobId, at: real): Queue {
    if id in q.jobs && Recoverable(q.jobs[id], at) then
      var j := q.jobs[id];
      var status := if j.cancelRequested then CANCELLED else FAILED;
      q.(jobs := q.jobs[id := Released(j, status, at).(
                   lastError := Some(AbandonedError(j)))],
         attempts := CloseAttempt(q.attempts, id, j.token, Ended(status)),
         events := Recorded(q.events, id, KindOf(status), AttemptKey(id, j.attempt, KindOf(status)), None))
    else q
  }

  /** The row `_insert` writes. */
  predicate NewJob(j: Job) {
    && j.status.PENDING? && j.attempt == 0 && j.generation == 0 && j.maxAttempts >= 1
    && j.claimedBy.None? && j.token.None? && j.leaseExpiresAt.None? && !j.cancelRequested
    && j.result.None? && j.lastError.None? && j.completedAt.None?
    && (j.timeout.Some? ==> j.timeout.value > 0.0)
  }

  ghost predicate Enabled(q: Queue, a: Action) {
    match a
    case Submit(id, j) => id !in q.jobs && NewJob(j)
    case Claim(id, _, lease, _) => id in q.jobs && Claimable(q.jobs[id], q.now) && lease > 0.0
    case Heartbeat(t, _, lease) => t in q.tickets && lease > 0.0
    case Finalize(t, _, _, at) => t in q.tickets && at <= q.now
    case RequestCancel(_) => true
    case Recover(_, at) => at <= q.now
    case Tick(t) => q.now <= t
  }

  ghost function Step(q: Queue, a: Action): Queue
    requires Enabled(q, a)
  {
    match a
    case Submit(id, j) => q.(jobs := q.jobs[id := j])
    case Claim(id, worker, lease, nonce) => ClaimStep(q, id, worker, lease, nonce)
    case Heartbeat(t, worker, lease) => HeartbeatStep(q, t, worker, lease)
    case Finalize(t, worker, r, at) => FinalizeStep(q, t, worker, r, at)
    case RequestCancel(id) => CancelStep(q, id)
    case Recover(id, at) => RecoverStep(q, id, at)
    case Tick(t) => q.(now := t)
  }

  // ----- the invariant -----

  /** What the columns of one job row say about each other. */
  ghost predicate JobShape(id: JobId, j: Job) {
    && (j.status.RUNNING? <==> j.claimedBy.Some?)
    && (j.status.RUNNING? <==> j.token.Some?)
    && (j.status.RUNNING? <==> j.leaseExpiresAt.Some?)
    && j.attempt == j.generation <= j.maxAttempts
    && (j.status.PENDING? ==> j.attempt == 0)
    && (j.status.RETRY_WAIT? ==> 1 <= j.attempt)
    && (Waiting(j) ==> j.attempt < j.maxAttempts)
    && (j.status.RUNNING? ==> 1 <= j.attempt && j.token.value.job == id && j.token.value.generation == j.attempt)
    && (j.cancelRequested ==> j.status.RUNNING? || j.status.CANCELLED?)
    && (j.result.Some? ==> j.status.SUCCEEDED?)
    && (j.completedAt.Some? <==> Terminal(j.status))
    && (j.timeout.Some? ==> j.timeout.value > 0.0)
  }

  /** A running job's claim is a ticket somebody holds and the one running attempt row. */
  ghost predicate ClaimOk(q: Queue, id: JobId)
    requires id in q.jobs && JobShape(id, q.jobs[id])
  {
    var j := q.jobs[id];
    j.status.RUNNING? ==>
      && TicketOf(id, j) in q.tickets
      && AttemptId(id, j.attempt) in q.attempts
      && q.attempts[AttemptId(id, j.attempt)] == Attempt(j.claimedBy.value, j.token.value, Running)
  }

  ghost predicate JobOk(q: Queue, id: JobId) {
    id in q.jobs ==> JobShape(id, q.jobs[id]) && ClaimOk(q, id)
  }

  ghost predicate TicketOk(q: Queue, t: Ticket) {
    t in q.tickets ==>
      && t.id in q.jobs && t.token.job == t.id && 1 <= t.attempt == t.token.generation <= q.jobs[t.id].attempt
      && t.jobType == q.jobs[t.id].jobType && t.maxAttempts == q.jobs[t.id].maxAttempts
      && t.timeout == q.jobs[t.id].timeout && t.deadline == q.jobs[t.id].deadline
      && AttemptId(t.id, t.attempt) in q.attempts && q.attempts[AttemptId(t.id, t.attempt)].token == t.token
  }

  ghost predicate AttemptOk(q: Queue, k: AttemptId) {
    && (k in q.attempts ==>
      && k.job in q.jobs && 1 <= k.attempt <= q.jobs[k.job].attempt
      && q.attempts[k].token.job == k.job && q.attempts[k].token.generation == k.attempt
      && (q.attempts[k].status.Running? <==> q.jobs[k.job].token == Some(q.attempts[k].token)))
    && (k.job in q.jobs && 1 <= k.attempt <= q.jobs[k.job].attempt ==> k in q.attempts)
  }

  /** An event tells of an attempt that is over, and a terminal one of the job's final status. */
  ghost predicate EventOk(q: Queue, e: JobEvent) {
    && e.job in q.jobs && e.key.job == e.job
    && (e.key.AttemptKey? ==>
          && e.key.kind == e.kind && e.key.attempt <= q.jobs[e.job].attempt
          && (e.key.attempt == q.jobs[e.job].attempt ==> !q.jobs[e.job].status.RUNNING?))
    && (e.key.CancelledKey? ==> e.kind.JobCancelled?)
    && (!e.kind.RetryScheduled? ==> Terminal(q.jobs[e.job].status) && KindOf(q.jobs[e.job].status) == e.kind)
  }

  function TerminalEvents(events: seq<JobEvent>, id: JobId): nat {
    if events == [] then 0
    else
      var n := |events| - 1;
      TerminalEvents(events[..n], id) + if events[n].job == id && !events[n].kind.RetryScheduled? then 1 else 0
  }

  /** The job's events are numbered 0, 1, 2, ..., and one of them is terminal exactly when the job is. */
  ghost predicate StreamOk(q: Queue, id: JobId) {
    && (forall i :: 0 <= i < |EventsOf(q.events, id)| ==> EventsOf(q.events, id)[i].sequence == i)
    && TerminalEvents(q.events, id) == if id in q.jobs && Terminal(q.jobs[id].status) then 1 else 0
  }

  ghost predicate EventsOk(q: Queue) {
    && (forall i :: 0 <= i < |q.events| ==> EventOk(q, q.events[i]))
    && (forall i, j :: 0 <= i < j < |q.events| ==> q.events[i].key != q.events[j].key)
  }

  ghost predicate Inv(q: Queue) {
    && (forall id :: JobOk(q, id))
    && (forall t :: TicketOk(q, t))
    && (forall k :: AttemptOk(q, k))
    && (forall id :: StreamOk(q, id))
    && EventsOk(q)
  }

  lemma InvEmpty()
    ensures Inv(EMPTY)
  {
  }

  // Each part of the invariant is kept separately: for one job, ticket, attempt, event.

  lemma ShapeStep(q: Queue, a: Action, id: JobId)
    requires Enabled(q, a) && (id in q.jobs ==> JobShape(id, q.jobs[id]))
    requires a.Finalize? ==> TicketOk(q, a.ticket)
    ensures id in Step(q, a).jobs ==> JobShape(id, Step(q, a).jobs[id])
  {
    hide Recorded, CloseAttempt, TicketOf;
  }

  lemma JobStep(q: Queue, a: Action, id: JobId)
    requires Enabled(q, a) && JobOk(q, id)
    requires a.Finalize? ==> TicketOk(q, a.ticket)
    ensures JobOk(Step(q, a), id)
  {
    ShapeStep(q, a, id);
  }

  lemma TicketStep(q: Queue, a: Action, t: Ticket)
    requires Enabled(q, a) && TicketOk(q, t) && JobOk(q, t.id)
    ensures TicketOk(Step(q, a), t)
  {
  }

  lemma AttemptStep(q: Queue, a: Action, k: AttemptId)
    requires Enabled(q, a) && AttemptOk(q, k) && JobOk(q, k.job)
    ensures AttemptOk(Step(q, a), k)
  {
    hide Recorded, TicketOf;
  }

  lemma OldEventStep(q: Queue, a: Action, e: JobEvent)
    requires Enabled(q, a) && EventOk(q, e) && JobOk(q, e.job)
    ensures EventOk(Step(q, a), e)
  {
  }

  // ----- every outcome records exactly one event -----

  /** The steps that settle an attempt or a waiting job. */
  ghost predicate Settles(q: Queue, a: Action) {
    match a
    case Finalize(t, worker, _, at) => OwnedAt(q, t, worker, at)
    case RequestCancel(id) => id in q.jobs && Waiting(q.jobs[id])
    case Recover(id, at) => id in q.jobs && Recoverable(q.jobs[id], at)
    case _ => false
  }

  ghost function Settled(q: Queue, a: Action): JobId
    requires Settles(q, a)
  {
    match a
    case Finalize(t, _, _, _) => t.id
    case RequestCancel(id) => id
    case Recover(id, _) => id
  }

  ghost function SettlingKey(q: Queue, a: Action): EventKey
    requires Settles(q, a)
  {
    if a.RequestCancel? then CancelledKey(a.id)
    else
      var id := Settled(q, a);
      var kind := KindOf(if a.Finalize? then FinalStatus(q.jobs[id], a.ticket, a.request, a.at)
                         else if q.jobs[id].cancelRequested then CANCELLED else FAILED);
      AttemptKey(id, if a.Finalize? then a.ticket.attempt else q.jobs[id].attempt, kind)
  }

  /** No event of this attempt, or of a queued cancellation, exists yet. */
  lemma KeyIsNew(q: Queue, a: Action)
    requires Settles(q, a) && EventsOk(q) && JobOk(q, Settled(q, a))
    requires a.Finalize? ==> TicketOk(q, a.ticket) && a.ticket in q.tickets
    ensures !HasKey(q.events, SettlingKey(q, a))
  {
    forall i | 0 <= i < |q.events| ensures q.events[i].key != SettlingKey(q, a) {
      assert EventOk(q, q.events[i]);
    }
  }

  lemma {:induction false} NextIsCount(events: seq<JobEvent>, id: JobId)
    requires forall i :: 0 <= i < |EventsOf(events, id)| ==> EventsOf(events, id)[i].sequence == i
    ensures NextSequence(events, id) == |EventsOf(events, id)|
  {
    if events != [] {
      var n := |events| - 1;
      var before := EventsOf(events[..n], id);
      assert forall i :: 0 <= i < |before| ==> before[i] == EventsOf(events, id)[i];
      NextIsCount(events[..n], id);
      assert events[n].job == id ==> EventsOf(events, id)[|before|] == events[n];
    }
  }

  /**
   The result of `record_next` that every caller ignores is always True: each
   settling step appends one event, with the next number of its job's stream.
   */
  lemma OneEventPerOutcome(q: Queue, a: Action)
    requires Inv(q) && Enabled(q, a)
    ensures !Settles(q, a) ==> Step(q, a).events == q.events
    ensures Settles(q, a) ==>
              var id := Settled(q, a);
              var j := Step(q, a).jobs[id];
              var e := JobEvent(id, |EventsOf(q.events, id)|, KindOf(j.status), SettlingKey(q, a), j.result);
              Step(q, a).events == q.events + [e]
  {
    if Settles(q, a) {
      var id := Settled(q, a);
      assert JobOk(q, id) && StreamOk(q, id);
      if a.Finalize? {
        assert TicketOk(q, a.ticket);
      }
      KeyIsNew(q, a);
      NextIsCount(q.events, id);
    }
  }

  lemma EventsStep(q: Queue, a: Action)
    requires Inv(q) && Enabled(q, a)
    ensures EventsOk(Step(q, a))
  {
    var q' := Step(q, a);
    OneEventPerOutcome(q, a);
    forall i | 0 <= i < |q.events| ensures EventOk(q', q.events[i]) {
      assert JobOk(q, q.events[i].job);
      OldEventStep(q, a, q.events[i]);
    }
    if Settles(q, a) {
      assert JobOk(q, Settled(q, a));
      if a.Finalize? {
        assert TicketOk(q, a.ticket);
      }
      KeyIsNew(q, a);
      NewEventOk(q, a);
    }
  }

  lemma NewEventOk(q: Queue, a: Action)
    requires Enabled(q, a) && Settles(q, a) && JobOk(q, Settled(q, a))
    requires a.Finalize? ==> TicketOk(q, a.ticket)
    ensures var j := Step(q, a).jobs[Settled(q, a)];
            EventOk(Step(q, a), JobEvent(Settled(q, a), |EventsOf(q.events, Settled(q, a))|, KindOf(j.status),
                                         SettlingKey(q, a), j.result))
  {
  }

  lemma EventAppend(events: seq<JobEvent>, e: JobEvent, id: JobId)
    ensures EventsOf(events + [e], id) == EventsOf(events, id) + if e.job == id then [e] else []
    ensures TerminalEvents(events + [e], id)
         == TerminalEvents(events, id) + if e.job == id && !e.kind.RetryScheduled? then 1 else 0
  {
    assert (events + [e])[..|events|] == events;
  }

  lemma StreamStep(q: Queue, a: Action, id: JobId)
    requires Inv(q) && Enabled(q, a)
    ensures StreamOk(Step(q, a), id)
  {
    hide Step, JobOk, EventsOk;
    OneEventPerOutcome(q, a);
    assert StreamOk(q, id) && JobOk(q, id);
    if Settles(q, a) {
      SettlesToStatus(q, a);
      EventAppend(q.events, Step(q, a).events[|q.events|], id);
    } else {
      StatusKept(q, a, id);
    }
  }

  /** A settling step ends a job that was not terminal. */
  lemma SettlesToStatus(q: Queue, a: Action)
    requires Settles(q, a) && Enabled(q, a)
    ensures forall id :: id in Step(q, a).jobs <==> id in q.jobs
    ensures forall id :: id in q.jobs && id != Settled(q, a) ==> Step(q, a).jobs[id] == q.jobs[id]
    ensures !Terminal(q.jobs[Settled(q, a)].status)
    ensures var s := Step(q, a).jobs[Settled(q, a)].status; Terminal(s) || s.RETRY_WAIT?
  {
  }

  predicate HasEnded(q: Queue, id: JobId) {
    id in q.jobs && Terminal(q.jobs[id].status)
  }

  lemma StatusKept(q: Queue, a: Action, id: JobId)
    requires !Settles(q, a) && Enabled(q, a)
    ensures HasEnded(Step(q, a), id) <==> HasEnded(q, id)
  {
  }

  lemma InvStep(q: Queue, a: Action)
    requires Inv(q) && Enabled(q, a)
    ensures Inv(Step(q, a))
  {
    if a.Finalize? {
      assert TicketOk(q, a.ticket);
    }
    forall id ensures JobOk(Step(q, a), id) {
      assert JobOk(q, id);
      JobStep(q, a, id);
    }
    forall t ensures TicketOk(Step(q, a), t) {
      assert TicketOk(q, t) && JobOk(q, t.id);
      TicketStep(q, a, t);
    }
    forall k ensures AttemptOk(Step(q, a), k) {
      assert AttemptOk(q, k) && JobOk(q, k.job);
      AttemptStep(q, a, k);
    }
    forall id ensures StreamOk(Step(q, a), id) {
      StreamStep(q, a, id);
    }
    EventsStep(q, a);
  }
}
