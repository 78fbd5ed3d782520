/** Safety of the job queue over whole runs, whoever calls it and whenever. */
module JobRuns {
  import opened Prelude
  import opened JobQueue

  function TokenOf(a: Action): Option<Token> {
    match a
    case Heartbeat(t, _, _) => Some(t.token)
    case Finalize(t, _, _, _) => Some(t.token)
    case _ => None
  }

  predicate Allowed(barred: set<Token>, a: Action) {
    TokenOf(a).Some? ==> TokenOf(a).value !in barred
  }

  /** One step by anybody who does not use a token in `barred`. */
  ghost predicate Next(barred: set<Token>, q: Queue, q': Queue) {
    exists a: Action :: Allowed(barred, a) && Enabled(q, a) && q' == Step(q, a)
  }

  ghost predicate NextAt(barred: set<Token>, b: seq<Queue>, i: int) {
    0 <= i < |b| - 1 && Next(barred, b[i], b[i + 1])
  }

  ghost predicate Behavior(barred: set<Token>, b: seq<Queue>) {
    |b| > 0 && forall i :: 0 <= i < |b| - 1 ==> NextAt(barred, b, i)
  }

  ghost predicate Reaches(barred: set<Token>, q: Queue, q': Queue) {
    exists b :: Behavior(barred, b) && b[0] == q && b[|b| - 1] == q'
  }

  ghost predicate Reachable(q: Queue) {
    Reaches({}, EMPTY, q)
  }

  lemma ReachesSelf(barred: set<Token>, q: Queue)
    ensures Reaches(barred, q, q)
  {
    assert Behavior(barred, [q]);
  }

  lemma ReachesTrans(barred: set<Token>, q: Queue, r: Queue, s: Queue)
    requires Reaches(barred, q, r) && Reaches(barred, r, s)
    ensures Reaches(barred, q, s)
  {
    var b :| Behavior(barred, b) && b[0] == q && b[|b| - 1] == r;
    var d :| Behavior(barred, d) && d[0] == r && d[|d| - 1] == s;
    var e := b + d[1..];
    forall i | 0 <= i < |e| - 1 ensures NextAt(barred, e, i) {
      if i < |b| - 1 {
        assert NextAt(barred, b, i);
      } else {
        assert NextAt(barred, d, i - |b| + 1);
      }
    }
    assert Behavior(barred, e);
  }

  lemma ReachesStep(barred: set<Token>, q: Queue, a: Action)
    requires Enabled(q, a) && Allowed(barred, a)
    ensures Reaches(barred, q, Step(q, a))
  {
    assert NextAt(barred, [q, Step(q, a)], 0);
    assert Behavior(barred, [q, Step(q, a)]);
  }

  lemma ReachesMore(barred: set<Token>, more: set<Token>, q: Queue, q': Queue)
    requires Reaches(more, q, q') && barred <= more
    ensures Reaches(barred, q, q')
  {
    var b :| Behavior(more, b) && b[0] == q && b[|b| - 1] == q';
    forall i | 0 <= i < |b| - 1 ensures NextAt(barred, b, i) {
      assert NextAt(more, b, i);
      var a :| Allowed(more, a) && Enabled(b[i], a) && b[i + 1] == Step(b[i], a);
      assert Allowed(barred, a);
    }
    assert Behavior(barred, b);
  }

  // ----- what every run keeps -----

  ghost predicate Current(q: Queue, t: Ticket) {
    t.id in q.jobs && q.jobs[t.id].token == Some(t.token)
  }

  /** A job keeps its request, only gains attempts and a cancellation, and stays as it ended. */
  ghost predicate JobLater(q: Queue, q': Queue, id: JobId) {
    id in q.jobs ==>
      && id in q'.jobs
      && var (j, j') := (q.jobs[id], q'.jobs[id]);
      && j'.maxAttempts == j.maxAttempts && j'.deadline == j.deadline && j'.timeout == j.timeout
      && j'.jobType == j.jobType && j'.priority == j.priority && j'.position == j.position
      && j.generation <= j'.generation
      && (j.cancelRequested ==> j'.cancelRequested)
      && (Terminal(j.status) ==> j' == j)
  }

  /** A superseded ticket never becomes current again. */
  ghost predicate TicketLater(q: Queue, q': Queue, t: Ticket) {
    t in q.tickets ==> t in q'.tickets && (Current(q', t) ==> Current(q, t))
  }

  ghost predicate Later(q: Queue, q': Queue) {
    && q.now <= q'.now && q.events <= q'.events
    && (forall id :: JobLater(q, q', id))
    && (forall t :: TicketLater(q, q', t))
  }

  lemma StepLater(q: Queue, a: Action)
    requires Inv(q) && Enabled(q, a)
    ensures Later(q, Step(q, a))
  {
    forall id ensures JobLater(q, Step(q, a), id) {
      JobStepLater(q, a, id);
    }
    forall t ensures TicketLater(q, Step(q, a), t) {
      assert TicketOk(q, t) && JobOk(q, t.id);
      TicketStepLater(q, a, t);
    }
    OneEventPerOutcome(q, a);
  }

  lemma JobStepLater(q: Queue, a: Action, id: JobId)
    requires Enabled(q, a)
    ensures JobLater(q, Step(q, a), id)
  {
    hide Recorded, CloseAttempt, TicketOf;
  }

  lemma TicketStepLater(q: Queue, a: Action, t: Ticket)
    requires Enabled(q, a) && TicketOk(q, t) && JobOk(q, t.id)
    ensures TicketLater(q, Step(q, a), t)
  {
  }

  lemma LaterTrans(q: Queue, r: Queue, s: Queue)
    requires Later(q, r) && Later(r, s)
    ensures Later(q, s)
  {
    forall id ensures JobLater(q, s, id) {
      assert JobLater(q, r, id) && JobLater(r, s, id);
    }
    forall t ensures TicketLater(q, s, t) {
      assert TicketLater(q, r, t) && TicketLater(r, s, t);
    }
  }

  lemma {:induction false} BehaviorKeeps(barred: set<Token>, b: seq<Queue>, i: nat)
    requires Behavior(barred, b) && Inv(b[0]) && i < |b|
    ensures Inv(b[i]) && Later(b[0], b[i])
  {
    if i > 0 {
      BehaviorKeeps(barred, b, i - 1);
      assert NextAt(barred, b, i - 1);
      var a :| Allowed(barred, a) && Enabled(b[i - 1], a) && b[i] == Step(b[i - 1], a);
      InvStep(b[i - 1], a);
      StepLater(b[i - 1], a);
      LaterTrans(b[0], b[i - 1], b[i]);
    }
  }

  lemma RunKeeps(barred: set<Token>, q: Queue, q': Queue)
    requires Inv(q) && Reaches(barred, q, q')
    ensures Inv(q') && Later(q, q')
  {
    var b :| Behavior(barred, b) && b[0] == q && b[|b| - 1] == q';
    BehaviorKeeps(barred, b, |b| - 1);
  }

  lemma ReachableInv(q: Queue)
    requires Reachable(q)
    ensures Inv(q)
  {
    InvEmpty();
    RunKeeps({}, EMPTY, q);
  }

  // ----- a live lease is exclusive -----

  /** The ticket's job is running under it, for this worker, until `until`. */
  ghost predicate HeldUntil(q: Queue, t: Ticket, worker: string, until: real) {
    && t.id in q.jobs && q.jobs[t.id].status.RUNNING? && q.jobs[t.id].token == Some(t.token)
    && q.jobs[t.id].claimedBy == Some(worker) && q.jobs[t.id].leaseExpiresAt == Some(until)
  }

  lemma LeaseStep(q: Queue, a: Action, t: Ticket, worker: string, until: real)
    requires Enabled(q, a) && TokenOf(a) != Some(t.token)
    requires HeldUntil(q, t, worker, until) && q.now <= until
    ensures HeldUntil(Step(q, a), t, worker, until)
    ensures Step(q, a).jobs[t.id].attempt == q.jobs[t.id].attempt
  {
  }

  lemma {:induction false} LeaseBehavior(barred: set<Token>, b: seq<Queue>, i: nat, t: Ticket, worker: string,
                                         until: real)
    requires Behavior(barred, b) && i < |b| && t.token in barred && Inv(b[0])
    requires HeldUntil(b[0], t, worker, until) && b[i].now <= until
    ensures HeldUntil(b[i], t, worker, until) && b[i].jobs[t.id].attempt == b[0].jobs[t.id].attempt
  {
    if i > 0 {
      assert NextAt(barred, b, i - 1);
      var a :| Allowed(barred, a) && Enabled(b[i - 1], a) && b[i] == Step(b[i - 1], a);
      BehaviorKeeps(barred, b, i - 1);
      StepLater(b[i - 1], a);
      LeaseBehavior(barred, b, i - 1, t, worker, until);
      LeaseStep(b[i - 1], a, t, worker, until);
    }
  }

  /** Until its lease runs out nobody but the holder of a ticket can take, end or recover its job. */
  lemma LiveLeaseIsExclusive(barred: set<Token>, q: Queue, q': Queue, t: Ticket, worker: string, until: real)
    requires Inv(q) && Reaches(barred, q, q') && t.token in barred
    requires HeldUntil(q, t, worker, until) && q'.now <= until
    ensures HeldUntil(q', t, worker, until) && q'.jobs[t.id].attempt == q.jobs[t.id].attempt
  {
    var b :| Behavior(barred, b) && b[0] == q && b[|b| - 1] == q';
    LeaseBehavior(barred, b, |b| - 1, t, worker, until);
  }

  /** While the ticket is current its lease ends then. */
  ghost predicate LeaseEnds(q: Queue, t: Ticket, until: real) {
    t.id in q.jobs && q.jobs[t.id].token == Some(t.token) ==> q.jobs[t.id].leaseExpiresAt == Some(until)
  }

  lemma HeldEnds(q: Queue, t: Ticket, worker: string, until: real)
    ensures HeldUntil(q, t, worker, until) ==> LeaseEnds(q, t, until)
  {
  }

  lemma LeaseEndsStep(q: Queue, a: Action, t: Ticket, until: real)
    requires Enabled(q, a) && TokenOf(a) != Some(t.token) && TicketOk(q, t) && JobOk(q, t.id) && t in q.tickets
    requires LeaseEnds(q, t, until)
    ensures LeaseEnds(Step(q, a), t, until)
  {
    hide Recorded, CloseAttempt;
  }

  lemma {:induction false} LeaseEndsBehavior(barred: set<Token>, b: seq<Queue>, i: nat, t: Ticket, until: real)
    requires Behavior(barred, b) && i < |b| && t.token in barred && Inv(b[0]) && t in b[0].tickets
    requires LeaseEnds(b[0], t, until)
    ensures LeaseEnds(b[i], t, until)
  {
    if i > 0 {
      assert NextAt(barred, b, i - 1);
      var a :| Allowed(barred, a) && Enabled(b[i - 1], a) && b[i] == Step(b[i - 1], a);
      BehaviorKeeps(barred, b, i - 1);
      LeaseEndsBehavior(barred, b, i - 1, t, until);
      assert TicketOk(b[i - 1], t) && JobOk(b[i - 1], t.id) && TicketLater(b[0], b[i - 1], t);
      LeaseEndsStep(b[i - 1], a, t, until);
    }
  }

  /** Nobody but its holder renews a lease. */
  lemma OthersNeverRenew(barred: set<Token>, q: Queue, q': Queue, t: Ticket, until: real)
    requires Inv(q) && Reaches(barred, q, q') && t.token in barred && t in q.tickets && LeaseEnds(q, t, until)
    ensures LeaseEnds(q', t, until)
  {
    var b :| Behavior(barred, b) && b[0] == q && b[|b| - 1] == q';
    LeaseEndsBehavior(barred, b, |b| - 1, t, until);
  }

  // ----- a waiting job waits -----

  /** The waiting job is as it was, unless it was cancelled without another attempt. */
  ghost predicate StillWaits(q: Queue, id: JobId, j: Job) {
    id in q.jobs && (q.jobs[id] == j || (q.jobs[id].status.CANCELLED? && q.jobs[id].attempt == j.attempt))
  }

  lemma WaitStep(q: Queue, a: Action, id: JobId, j: Job)
    requires Enabled(q, a) && StillWaits(q, id, j) && (j.status.PENDING? || j.status.RETRY_WAIT?)
    requires q.now < j.availableAt
    ensures StillWaits(Step(q, a), id, j)
  {
    hide Recorded, CloseAttempt, TicketOf;
  }

  lemma {:induction false} WaitBehavior(b: seq<Queue>, i: nat, id: JobId)
    requires Behavior({}, b) && i < |b| && Inv(b[0]) && id in b[0].jobs && b[i].now < b[0].jobs[id].availableAt
    requires b[0].jobs[id].status.PENDING? || b[0].jobs[id].status.RETRY_WAIT?
    ensures StillWaits(b[i], id, b[0].jobs[id])
  {
    if i > 0 {
      assert NextAt({}, b, i - 1);
      var a :| Allowed({}, a) && Enabled(b[i - 1], a) && b[i] == Step(b[i - 1], a);
      BehaviorKeeps({}, b, i - 1);
      StepLater(b[i - 1], a);
      WaitBehavior(b, i - 1, id);
      WaitStep(b[i - 1], a, id, b[0].jobs[id]);
    }
  }

  // ----- main results -----

  /**
   The job stays with its holder for a time d, whatever the others do, exactly when its
   lease does not run out before.
   */
  lemma LeaseSafetyExact(q: Queue, t: Ticket, worker: string, until: real, d: real)
    requires Reachable(q) && t in q.tickets && HeldUntil(q, t, worker, until) && d >= 0.0
    ensures (forall q' :: Reaches({t.token}, q, q') && q'.now == q.now + d ==> HeldUntil(q', t, worker, until))
            <==> q.now + d <= until
  {
    ReachableInv(q);
    if q.now + d <= until {
      forall q' | Reaches({t.token}, q, q') && q'.now == q.now + d ensures HeldUntil(q', t, worker, until) {
        LiveLeaseIsExclusive({t.token}, q, q', t, worker, until);
      }
    } else {
      var q' := LoseJob(q, t, worker, until, d);
      assert !HeldUntil(q', t, worker, until);
    }
  }

  /** Once the lease has run out another worker claims the job, or the recovery ends it. */
  lemma LoseJob(q: Queue, t: Ticket, worker: string, until: real, d: real) returns (q': Queue)
    requires Inv(q) && t in q.tickets && HeldUntil(q, t, worker, until) && d >= 0.0 && q.now + d > until
    ensures Reaches({t.token}, q, q') && q'.now == q.now + d && !Current(q', t)
  {
    assert TicketOk(q, t) && JobOk(q, t.id);
    if q.jobs[t.id].attempt < q.jobs[t.id].maxAttempts {
      var u;
      q', u := TakeOver(q, t, worker, until, d, worker, 1.0);
    } else {
      var r := Step(q, Tick(q.now + d));
      ReachesStep({t.token}, q, Tick(q.now + d));
      q' := Step(r, Recover(t.id, r.now));
      ReachesStep({t.token}, r, Recover(t.id, r.now));
      ReachesTrans({t.token}, q, r, q');
    }
  }

  /** With an attempt left, anybody may hold the job under a new ticket as soon as the lease has run out. */
  lemma TakeOver(q: Queue, t: Ticket, worker: string, until: real, d: real, other: string, lease: real)
    returns (q': Queue, u: Ticket)
    requires Inv(q) && t in q.tickets && HeldUntil(q, t, worker, until) && d >= 0.0 && q.now + d > until && lease > 0.0
    requires q.jobs[t.id].attempt < q.jobs[t.id].maxAttempts
    ensures Reaches({t.token}, q, q') && q'.now == q.now + d && !Current(q', t)
    ensures u in q'.tickets && u.id == t.id && u.token != t.token && HeldUntil(q', u, other, q'.now + lease)
    ensures u.jobType == t.jobType && u.deadline == t.deadline
    ensures q'.jobs[t.id].cancelRequested == q.jobs[t.id].cancelRequested
  {
    assert TicketOk(q, t) && JobOk(q, t.id);
    var r := Step(q, Tick(q.now + d));
    ReachesStep({t.token}, q, Tick(q.now + d));
    q' := Step(r, Claim(t.id, other, lease, 0));
    ReachesStep({t.token}, r, Claim(t.id, other, lease, 0));
    ReachesTrans({t.token}, q, r, q');
    u := TicketOf(t.id, q'.jobs[t.id]);
  }

  /** After an accepted retry nobody claims the job before its delay is over. */
  lemma RetryWaitsItsDelay(q: Queue, q': Queue, t: Ticket, worker: string, r: Request, at: real)
    requires Reachable(q) && t in q.tickets && OwnedAt(q, t, worker, at) && at <= q.now && r.Fail?
    requires FinalStatus(q.jobs[t.id], t, r, at).RETRY_WAIT?
    requires Reaches({}, FinalizeStep(q, t, worker, r, at), q') && q'.now < at + r.delay
    ensures t.id in q'.jobs && !Claimable(q'.jobs[t.id], q'.now) && q'.jobs[t.id].attempt == t.attempt
  {
    var s := Step(q, Finalize(t, worker, r, at));
    ReachableInv(q);
    assert TicketOk(q, t) && JobOk(q, t.id);
    InvStep(q, Finalize(t, worker, r, at));
    var b :| Behavior({}, b) && b[0] == s && b[|b| - 1] == q';
    WaitBehavior(b, |b| - 1, t.id);
  }

  /** No job, new or to be retried, is claimed before it is available. */
  lemma WaitsUntilAvailable(q: Queue, q': Queue, id: JobId)
    requires Reachable(q) && id in q.jobs && (q.jobs[id].status.PENDING? || q.jobs[id].status.RETRY_WAIT?)
    requires Reaches({}, q, q') && q'.now < q.jobs[id].availableAt
    ensures id in q'.jobs && q'.jobs[id].attempt == q.jobs[id].attempt
    ensures q'.jobs[id].status.CANCELLED? || q'.jobs[id] == q.jobs[id]
  {
    ReachableInv(q);
    var b :| Behavior({}, b) && b[0] == q && b[|b| - 1] == q';
    WaitBehavior(b, |b| - 1, id);
  }

  /** An accepted failure that may not be retried ends the job: nobody ever claims it again. */
  lemma FinalFailureEnds(q: Queue, q': Queue, t: Ticket, worker: string, r: Request, at: real)
    requires Reachable(q) && t in q.tickets && OwnedAt(q, t, worker, at) && at <= q.now && r.Fail?
    requires !r.retryable || t.attempt >= t.maxAttempts || (t.deadline.Some? && at >= t.deadline.value)
    requires Reaches({}, FinalizeStep(q, t, worker, r, at), q')
    ensures t.id in q'.jobs && q'.jobs[t.id].attempt == t.attempt && !Claimable(q'.jobs[t.id], q'.now)
    ensures q'.jobs[t.id].status == if q.jobs[t.id].cancelRequested then CANCELLED else FAILED
    ensures forall u :: u in q'.tickets && u.id == t.id ==> u.attempt <= t.attempt
  {
    var a := Finalize(t, worker, r, at);
    ReachableInv(q);
    assert TicketOk(q, t) && JobOk(q, t.id);
    ReachesStep({}, q, a);
    ReachesTrans({}, EMPTY, q, Step(q, a));
    EndedJobsAreFrozen(Step(q, a), q', t.id);
    ReachesTrans({}, EMPTY, Step(q, a), q');
    ReachableInv(q');
    forall u | u in q'.tickets && u.id == t.id ensures u.attempt <= t.attempt {
      assert TicketOk(q', u);
    }
  }

  /** One more step of a run that does without a token. */
  lemma Extend(barred: set<Token>, from: Queue, q: Queue, a: Action) returns (q': Queue)
    requires Inv(q) && Reaches(barred, from, q) && Enabled(q, a) && Allowed(barred, a)
    ensures q' == Step(q, a) && Inv(q') && Reaches(barred, from, q')
  {
    q' := Step(q, a);
    InvStep(q, a);
    ReachesStep(barred, q, a);
    ReachesTrans(barred, from, q, q');
  }

  /**
   No job is ever stuck: even if whoever holds it never acts again, a job with an attempt
   left can still succeed, and any other is ended by the recovery; a requested cancellation
   is carried out in both cases.
   */
  lemma EveryJobCanEnd(q: Queue, id: JobId) returns (q': Queue)
    requires Reachable(q) && id in q.jobs && !Terminal(q.jobs[id].status)
    ensures var held := if q.jobs[id].token.Some? then {q.jobs[id].token.value} else {}; Reaches(held, q, q')
    ensures id in q'.jobs
    ensures q'.jobs[id].status == if q.jobs[id].cancelRequested then CANCELLED
                                  else if q.jobs[id].attempt < q.jobs[id].maxAttempts then SUCCEEDED else FAILED
  {
    ReachableInv(q);
    assert JobOk(q, id);
    var j := q.jobs[id];
    var held := if j.token.Some? then {j.token.value} else {};
    var until := if j.status.RUNNING? then j.leaseExpiresAt.value + 1.0 else j.availableAt;
    ReachesSelf(held, q);
    var r := Extend(held, q, q, Tick(Max(q.now, until)));
    if j.status.RUNNING? && j.attempt == j.maxAttempts {
      q' := Extend(held, q, r, Recover(id, r.now));
    } else {
      var s := Extend(held, q, r, Claim(id, "w", 1.0, 0));
      var t := TicketOf(id, s.jobs[id]);
      q' := Extend(held, q, s, Finalize(t, "w", Complete(None), s.now));
    }
  }

  /** At most one terminal outcome per job is ever recorded, and it tells the job's status. */
  lemma OneTerminalOutcome(q: Queue, id: JobId)
    requires Reachable(q) && id in q.jobs
    ensures TerminalEvents(q.events, id) == if Terminal(q.jobs[id].status) then 1 else 0
    ensures forall i :: 0 <= i < |q.events| && q.events[i].job == id && !q.events[i].kind.RetryScheduled? ==>
              q.events[i].kind == KindOf(q.jobs[id].status)
    ensures forall i :: 0 <= i < |EventsOf(q.events, id)| ==> EventsOf(q.events, id)[i].sequence == i
  {
    ReachableInv(q);
    assert StreamOk(q, id);
    forall i | 0 <= i < |q.events| && q.events[i].job == id && !q.events[i].kind.RetryScheduled?
      ensures q.events[i].kind == KindOf(q.jobs[id].status)
    {
      assert EventOk(q, q.events[i]);
    }
  }

  /** A job that ended stays exactly as it ended. */
  lemma EndedJobsAreFrozen(q: Queue, q': Queue, id: JobId)
    requires Reachable(q) && Reaches({}, q, q') && id in q.jobs
    requires q.jobs[id].status.SUCCEEDED? || q.jobs[id].status.FAILED? || q.jobs[id].status.CANCELLED?
    ensures id in q'.jobs && q'.jobs[id] == q.jobs[id]
  {
    ReachableInv(q);
    RunKeeps({}, q, q');
    assert JobLater(q, q', id);
  }

  /** A ticket that is not current at some moment has no effect at any later one. */
  lemma SupersededTicketIsDead(q: Queue, q': Queue, t: Ticket, worker: string, r: Request, at: real, lease: real)
    requires Reachable(q) && Reaches({}, q, q') && t in q.tickets && !Current(q, t)
    ensures FinalizeStep(q', t, worker, r, at) == q' && HeartbeatStep(q', t, worker, lease) == q'
  {
    ReachableInv(q);
    RunKeeps({}, q, q');
    assert TicketLater(q, q', t);
  }

  /** An accepted finalization uses its ticket up: no call under it is ever accepted again. */
  lemma AcceptedOnce(q: Queue, q': Queue, t: Ticket, worker: string, r: Request, at: real,
                    worker': string, r': Request, at': real)
    requires Reachable(q) && t in q.tickets && OwnedAt(q, t, worker, at) && at <= q.now
    requires Reaches({}, FinalizeStep(q, t, worker, r, at), q')
    ensures FinalizeStep(q', t, worker', r', at') == q'
  {
    var a := Finalize(t, worker, r, at);
    ReachableInv(q);
    assert TicketOk(q, t) && JobOk(q, t.id);
    ReachesStep({}, q, a);
    ReachesTrans({}, EMPTY, q, Step(q, a));
    SupersededTicketIsDead(Step(q, a), q', t, worker', r', at', 1.0);
  }

  /**
   An accepted success is the newest claim's: no ticket of the job is newer, and
   its result is the job's result from then on.
   */
  lemma SuccessIsNewest(q: Queue, q': Queue, t: Ticket, worker: string, r: Request, at: real)
    requires Reachable(q) && t in q.tickets && OwnedAt(q, t, worker, at) && at <= q.now
    requires FinalStatus(q.jobs[t.id], t, r, at).SUCCEEDED?
    requires Reaches({}, FinalizeStep(q, t, worker, r, at), q')
    ensures forall u :: u in q.tickets && u.id == t.id ==> u.attempt <= t.attempt
    ensures r.Complete? && t.id in q'.jobs && q'.jobs[t.id].status.SUCCEEDED? && q'.jobs[t.id].result == r.result
    ensures q'.jobs[t.id].generation == t.attempt
  {
    var a := Finalize(t, worker, r, at);
    ReachableInv(q);
    assert TicketOk(q, t) && JobOk(q, t.id);
    forall u | u in q.tickets && u.id == t.id ensures u.attempt <= t.attempt {
      assert TicketOk(q, u);
    }
    ReachesStep({}, q, a);
    ReachesTrans({}, EMPTY, q, Step(q, a));
    EndedJobsAreFrozen(Step(q, a), q', t.id);
  }

  /** Once a cancellation is granted, the job runs on under the flag or is cancelled, never anything else. */
  lemma GrantedCancelHolds(q: Queue, q': Queue, id: JobId)
    requires Reachable(q) && CancelAnswer(q, id) && Reaches({}, CancelStep(q, id), q')
    ensures id in q'.jobs
    ensures (q'.jobs[id].status.CANCELLED? || (q'.jobs[id].status.RUNNING? && q'.jobs[id].cancelRequested))
    ensures q'.jobs[id].result == None
  {
    var a := RequestCancel(id);
    ReachableInv(q);
    InvStep(q, a);
    RunKeeps({}, Step(q, a), q');
    assert JobLater(Step(q, a), q', id);
    assert JobOk(q', id) && JobOk(Step(q, a), id);
  }

  /** Attempt rows are numbered 1 to the job's count; one runs exactly while the job does. */
  lemma AttemptsAreNumbered(q: Queue, id: JobId, n: nat)
    requires Reachable(q) && id in q.jobs
    ensures AttemptId(id, n) in q.attempts <==> 1 <= n <= q.jobs[id].attempt
    ensures q.jobs[id].attempt <= q.jobs[id].maxAttempts
    ensures AttemptId(id, n) in q.attempts && q.attempts[AttemptId(id, n)].status.Running?
            <==> q.jobs[id].status.RUNNING? && n == q.jobs[id].attempt
  {
    ReachableInv(q);
    assert AttemptOk(q, AttemptId(id, n)) && JobOk(q, id);
  }

  /** Fencing tokens differ even if the random part repeats, and every envelope is well formed. */
  lemma TicketsAreDistinct(q: Queue, t: Ticket, u: Ticket)
    requires Reachable(q) && t in q.tickets && u in q.tickets
    ensures 1 <= t.attempt <= t.maxAttempts
    ensures t != u ==> t.token != u.token && (t.id != u.id || t.token.generation != u.token.generation)
  {
    ReachableInv(q);
    assert TicketOk(q, t) && TicketOk(q, u) && JobOk(q, t.id);
  }
}
