/** The queue as an object shared by any number of workers (platform/jobs/postgres/queue.py). */
module JobStore {
  import opened Prelude
  import opened JobQueue
  import opened JobRuns

  datatype LeaseState = LeaseState(authoritative: bool, cancellationRequested: bool, expiresAt: Option<real>)
  datatype Finalization = Finalization(accepted: bool, status: JobStatus)

  class PostgresJobQueue {
    var now: real
    var jobs: map<JobId, Job>
    var attempts: map<AttemptId, JobQueue.Attempt>
    var events: seq<JobEvent>
    /** Every ticket a claim has returned so far. */
    ghost var tickets: set<Ticket>

    ghost function View(): Queue
      reads this
    {
      Queue(now, jobs, attempts, events, tickets)
    }

    ghost predicate Valid()
      reads this
    {
      Inv(View())
    }

    constructor ()
      ensures Valid() && View() == EMPTY
    {
      now, jobs, attempts, events, tickets := 0.0, map[], map[], [], {};
      InvEmpty();
    }

    /** Time passes while anybody who does not use a barred token works on the queue. */
    method Elapse(d: real, ghost barred: set<Token>)
      requires Valid() && d >= 0.0
      modifies this
      ensures Valid() && Reaches(barred, old(View()), View()) && now == old(now) + d
    {
      InvStep(View(), JobQueue.Tick(now + d));
      ReachesStep(barred, View(), JobQueue.Tick(now + d));
      now := now + d;
    }

    /** The scan of `claim_next`: of the rows nobody holds locked the claimable one that comes first. */
    method SelectNext(locked: set<JobId>) returns (best: Option<JobId>)
      requires Valid()
      ensures best.Some? ==> best.value in jobs && best.value !in locked && Claimable(jobs[best.value], now)
      ensures best.Some? ==>
                forall other :: other in jobs && other !in locked && Claimable(jobs[other], now) ==>
                  var (a, b) := (jobs[best.value], jobs[other]);
                  a.priority > b.priority || (a.priority == b.priority && a.position <= b.position)
      ensures best.None? ==> forall id :: id in jobs && id !in locked ==> !Claimable(jobs[id], now)
    {
      best := None;
      var free := jobs.Keys - locked;
      var rest := free;
      while rest != {}
        invariant rest <= free
        invariant best.Some? ==> best.value in free && Claimable(jobs[best.value], now)
        invariant best.Some? ==>
                    forall id :: id in free - rest && Claimable(jobs[id], now) ==> Ahead(jobs[best.value], jobs[id])
        invariant best.None? ==> forall id :: id in free - rest ==> !Claimable(jobs[id], now)
        decreases rest
      {
        var id :| id in rest;
        rest := rest - {id};
        if Claimable(jobs[id], now) && (best.None? || !Ahead(jobs[best.value], jobs[id])) {
          best := Some(id);
        }
      }
    }

    /** `claim_next`, while other transactions hold the rows in `locked`. */
    method ClaimNext(worker: string, lease: real, nonce: nat, locked: set<JobId>) returns (ticket: Option<Ticket>)
      requires Valid() && lease > 0.0
      modifies this
      ensures Valid()
      ensures ticket.None? ==> View() == old(View())
      ensures ticket.None? ==> forall id :: id in jobs && id !in locked ==> !Claimable(jobs[id], now)
      ensures ticket.Some? ==>
                var id := ticket.value.id;
                && id in old(jobs) && id !in locked && old(Enabled(View(), Claim(id, worker, lease, nonce)))
                && View() == old(Step(View(), Claim(id, worker, lease, nonce)))
                && ticket.value !in old(tickets) && ticket.value in tickets
                && HeldUntil(View(), ticket.value, worker, now + lease)
      ensures ticket.Some? ==>
                forall other :: other in old(jobs) && other !in locked && Claimable(old(jobs)[other], now) ==>
                  var (a, b) := (old(jobs)[ticket.value.id], old(jobs)[other]);
                  a.priority > b.priority || (a.priority == b.priority && a.position <= b.position)
      ensures ticket.Some? ==>
                var (t, j) := (ticket.value, old(jobs)[ticket.value.id]);
                && t == Ticket(t.id, j.jobType, j.attempt + 1, j.maxAttempts, j.timeout, j.deadline,
                               Token(t.id, j.generation + 1, nonce))
                && jobs == old(jobs)[t.id := j.(status := JobStatus.RUNNING, attempt := j.attempt + 1,
                                                generation := j.generation + 1, claimedBy := Some(worker),
                                                token := Some(t.token), leaseExpiresAt := Some(now + lease),
                                                completedAt := None)]
                && events == old(events) && AttemptId(t.id, t.attempt) !in old(attempts)
                && attempts.Keys == old(attempts).Keys + {AttemptId(t.id, t.attempt)}
                && attempts[AttemptId(t.id, t.attempt)] == JobQueue.Attempt(worker, t.token, Running)
                && forall k :: k in old(attempts) ==>
                     attempts[k] == if k.job == t.id && old(attempts)[k].status.Running?
                                    then old(attempts)[k].(status := Abandoned) else old(attempts)[k]
    {
      var best := SelectNext(locked);
      if best.None? {
        return None;
      }
      var id := best.value;
      ghost var q := View();
      assert JobOk(q, id);
      InvStep(q, Claim(id, worker, lease, nonce));
      var j := jobs[id];
      var j' := ClaimedJob(id, j, worker, now + lease, nonce);
      var t := JobQueue.TicketOf(id, j');
      assert TicketOk(q, t);
      if j.status.RUNNING? {
        attempts := CloseAttempt(attempts, id, j.token, Abandoned);
      }
      attempts := attempts[AttemptId(id, j'.attempt) := JobQueue.Attempt(worker, t.token, Running)];
      jobs := jobs[id := j'];
      tickets := tickets + {t};
      ticket := Some(t);
      AttemptsOfRunning(q, id);
    }

    /** `heartbeat`. */
    method Heartbeat(t: Ticket, worker: string, lease: real) returns (state: LeaseState)
      requires Valid() && t in tickets && lease > 0.0
      modifies this
      ensures Valid() && now == old(now) && View() == old(Step(View(), JobQueue.Heartbeat(t, worker, lease)))
      ensures state.authoritative <==>
                && t.id in old(jobs)
                && var j := old(jobs)[t.id];
                   && j.status.RUNNING? && j.claimedBy == Some(worker) && j.token == Some(t.token)
                   && j.leaseExpiresAt.Some? && j.leaseExpiresAt.value >= now
      ensures state.authoritative ==>
                && state.expiresAt == Some(now + lease) && HeldUntil(View(), t, worker, now + lease)
                && state.cancellationRequested == jobs[t.id].cancelRequested
                && jobs == old(jobs)[t.id := old(jobs)[t.id].(leaseExpiresAt := Some(now + lease))]
      ensures !state.authoritative ==> !state.cancellationRequested && jobs == old(jobs)
    {
      InvStep(View(), JobQueue.Heartbeat(t, worker, lease));
      if t.id in jobs && OwnsLive(jobs[t.id], worker, t.token, now) {
        jobs := jobs[t.id := jobs[t.id].(leaseExpiresAt := Some(now + lease))];
        state := LeaseState(true, jobs[t.id].cancelRequested, Some(now + lease));
      } else {
        state := LeaseState(false, false, None);
      }
    }

    /**
     `_finalize_claim`, behind `complete`, `fail` and `cancel_claim`; `at` was read before the
     row lock was had.  A requested cancellation wins over every outcome; a failure is retried
     exactly if it may be, an attempt is left and the deadline was ahead.
     */
    method FinalizeClaim(t: Ticket, worker: string, r: Request, at: real) returns (f: Finalization)
      requires Valid() && t in tickets && at <= now
      modifies this
      ensures Valid() && now == old(now) && View() == old(Step(View(), Finalize(t, worker, r, at)))
      ensures f.accepted <==>
                && t.id in old(jobs)
                && var j := old(jobs)[t.id];
                   && j.status.RUNNING? && j.claimedBy == Some(worker) && j.token == Some(t.token)
                   && j.leaseExpiresAt.Some? && j.leaseExpiresAt.value >= at
      ensures !f.accepted ==> f.status == RUNNING && View() == old(View())
      ensures f.accepted ==>
                var j := old(jobs)[t.id];
                f.status == if j.cancelRequested || r.CancelClaim? then CANCELLED
                            else if r.Complete? then SUCCEEDED
                            else if r.retryable && t.attempt < t.maxAttempts
                              && (t.deadline.None? || at < t.deadline.value) then RETRY_WAIT else FAILED
      ensures f.accepted ==>
                var j := old(jobs)[t.id];
                var cancelled := j.cancelRequested || r.CancelClaim?;
                jobs == old(jobs)[t.id := j.(
                  status := f.status, claimedBy := None, token := None, leaseExpiresAt := None,
                  result := if !cancelled && r.Complete? then r.result else None,
                  lastError := if cancelled then Some("cancellation requested")
                               else if r.Fail? then Some(Message(r.error)) else None,
                  availableAt := if f.status.RETRY_WAIT? && r.Fail? then at + r.delay else j.availableAt,
                  completedAt := if f.status.RETRY_WAIT? then None else Some(at))]
      ensures f.accepted ==>
                var kind := if f.status.SUCCEEDED? then JobSucceeded
                            else if f.status.RETRY_WAIT? then RetryScheduled
                            else if f.status.CANCELLED? then JobCancelled else JobFailed;
                events == old(events) + [JobEvent(t.id, |EventsOf(old(events), t.id)|, kind,
                                                  AttemptKey(t.id, t.attempt, kind), jobs[t.id].result)]
      ensures f.accepted ==>
                && attempts.Keys == old(attempts).Keys
                && forall k :: k in attempts ==>
                     attempts[k] == if k == AttemptId(t.id, t.attempt)
                                    then old(attempts)[k].(status := Ended(if f.status.RETRY_WAIT? then FAILED
                                                                           else f.status))
                                    else old(attempts)[k]
    {
      ghost var q := View();
      InvStep(q, Finalize(t, worker, r, at));
      OneEventPerOutcome(q, Finalize(t, worker, r, at));
      if t.id in jobs {
        OnlyAttempt(q, t);
      }
      if t.id !in jobs || !OwnsLive(jobs[t.id], worker, t.token, at) {
        return Finalization(false, RUNNING);
      }
      var j := jobs[t.id];
      var status := FinalStatus(j, t, r, at);
      jobs := jobs[t.id := FinalizedJob(j, t, r, at)];
      attempts := CloseAttempt(attempts, t.id, Some(t.token),
                               Ended(if status.RETRY_WAIT? then JobStatus.FAILED else status));
      events := Recorded(events, t.id, KindOf(status), AttemptKey(t.id, t.attempt, KindOf(status)), FinalResult(j, r));
      f := Finalization(true, status);
    }

    /** `request_cancel`. */
    method RequestCancel(id: JobId) returns (granted: bool)
      requires Valid()
      modifies this
      ensures Valid() && View() == old(Step(View(), JobQueue.RequestCancel(id)))
      ensures granted == old(CancelAnswer(View(), id))
      ensures granted <==> id in old(jobs) && !old(jobs)[id].status.SUCCEEDED? && !old(jobs)[id].status.FAILED?
      ensures !granted || old(jobs)[id].status.CANCELLED? ==> View() == old(View())
      ensures granted && old(jobs)[id].status.RUNNING? ==>
                && jobs == old(jobs)[id := old(jobs)[id].(cancelRequested := true)]
                && events == old(events) && attempts == old(attempts)
      ensures granted && (old(jobs)[id].status.PENDING? || old(jobs)[id].status.RETRY_WAIT?) ==>
                && jobs == old(jobs)[id := old(jobs)[id].(status := JobStatus.CANCELLED, cancelRequested := true,
                                                          completedAt := Some(now))]
                && events == old(events)
                             + [JobEvent(id, |EventsOf(old(events), id)|, JobCancelled, CancelledKey(id), None)]
                && attempts == old(attempts)
    {
      ghost var q := View();
      InvStep(q, JobQueue.RequestCancel(id));
      OneEventPerOutcome(q, JobQueue.RequestCancel(id));
      assert JobOk(q, id);
      if id !in jobs {
        return false;
      }
      if jobs[id].status.CANCELLED? {
        return true;
      }
      if Terminal(jobs[id].status) {
        return false;
      }
      granted := true;
      if jobs[id].status.RUNNING? {
        jobs := jobs[id := jobs[id].(cancelRequested := true)];
      } else {
        jobs := jobs[id := jobs[id].(status := JobStatus.CANCELLED, cancelRequested := true, completedAt := Some(now))];
        events := Recorded(events, id, JobCancelled, CancelledKey(id), None);
      }
    }

    /** The scan of `recover_expired`: of the rows nobody holds locked the recoverable one whose lease ended first. */
    method SelectExpired(at: real, locked: set<JobId>) returns (oldest: Option<JobId>)
      requires Valid()
      ensures oldest.Some? ==> oldest.value in jobs && oldest.value !in locked && Recoverable(jobs[oldest.value], at)
      ensures oldest.Some? ==> forall id :: id in jobs && id !in locked && Recoverable(jobs[id], at) ==>
                jobs[oldest.value].leaseExpiresAt.value <= jobs[id].leaseExpiresAt.value
      ensures oldest.None? ==> forall id :: id in jobs && id !in locked ==> !Recoverable(jobs[id], at)
    {
      oldest := None;
      var free := jobs.Keys - locked;
      var rest := free;
      while rest != {}
        invariant rest <= free
        invariant oldest.Some? ==> oldest.value in free && Recoverable(jobs[oldest.value], at)
        invariant oldest.Some? ==> forall id :: id in free - rest && Recoverable(jobs[id], at) ==>
                    jobs[oldest.value].leaseExpiresAt.value <= jobs[id].leaseExpiresAt.value
        invariant oldest.None? ==> forall id :: id in free - rest ==> !Recoverable(jobs[id], at)
        decreases rest
      {
        var id :| id in rest;
        rest := rest - {id};
        if Recoverable(jobs[id], at)
          && (oldest.None? || jobs[id].leaseExpiresAt.value < jobs[oldest.value].leaseExpiresAt.value)
        {
          oldest := Some(id);
        }
      }
    }

    /**
     `recover_expired`: each transaction ends one claim that had run out when the clock was
     read, and anybody may act between two of them.  Below its limit it leaves no such claim
     that is cancelled or exhausted, but for rows that were locked.
     */
    method RecoverExpired(limit: nat, pause: real, locks: nat -> set<JobId>, ghost barred: set<Token>)
      returns (recovered: nat, ghost ended: seq<JobId>)
      requires Valid() && limit >= 1 && pause >= 0.0
      modifies this
      ensures Valid() && old(now) <= now && (pause == 0.0 ==> now == old(now))
      ensures Reaches(barred, old(View()), View()) && recovered <= limit
      ensures recovered < limit ==>
                forall id :: id in jobs && id !in locks(recovered) ==>
                  var j := jobs[id];
                  !(j.status.RUNNING? && j.leaseExpiresAt.Some? && j.leaseExpiresAt.value < old(now)
                    && (j.cancelRequested || j.attempt >= j.maxAttempts))
      ensures |ended| == recovered && EndedJobs(View(), ended) && |events| >= |old(events)| + recovered
    {
      hide Reaches, Inv;
      ghost var q := View();
      var at := now;
      ReachesSelf(barred, q);
      recovered, ended := 0, [];
      while recovered < limit
        invariant recovered <= limit && at <= now && (pause == 0.0 ==> now == at)
        invariant Valid() && Reaches(barred, q, View())
        invariant |ended| == recovered && EndedJobs(View(), ended) && |events| >= |q.events| + recovered
      {
        ghost var r := View();
        Elapse(pause, barred);
        ReachesTrans(barred, q, r, View());
        EndedStay(barred, r, View(), ended);
        var oldest := SelectExpired(at, locks(recovered));
        if oldest.None? {
          break;
        }
        ghost var before := View();
        RecoverOne(oldest.value, at, barred);
        ReachesTrans(barred, q, before, View());
        EndedMore(barred, before, View(), ended, oldest.value);
        recovered, ended := recovered + 1, ended + [oldest.value];
      }
    }

    /** One transaction of `recover_expired`. */
    method RecoverOne(id: JobId, at: real, ghost barred: set<Token>)
      requires Valid() && id in jobs && Recoverable(jobs[id], at) && at <= now
      modifies this
      ensures Valid() && now == old(now) && View() == old(Step(View(), Recover(id, at)))
      ensures Reaches(barred, old(View()), View()) && |events| == |old(events)| + 1
      ensures id in jobs && Terminal(jobs[id].status)
      ensures var j := old(jobs)[id];
              && j.status.RUNNING? && j.leaseExpiresAt.Some? && j.leaseExpiresAt.value < at
              && (j.cancelRequested || j.attempt >= j.maxAttempts)
              && jobs == old(jobs)[id := j.(
                   status := if j.cancelRequested then JobStatus.CANCELLED else JobStatus.FAILED,
                   claimedBy := None, token := None, leaseExpiresAt := None, completedAt := Some(at),
                   lastError := Some(if j.cancelRequested then "cancellation requested"
                                     else "lease expired after maximum attempts"))]
      ensures var j := old(jobs)[id];
              var kind := if j.cancelRequested then JobCancelled else JobFailed;
              events == old(events) + [JobEvent(id, |EventsOf(old(events), id)|, kind, AttemptKey(id, j.attempt, kind),
                                                jobs[id].result)]
      ensures forall k :: k in attempts <==> k in old(attempts)
      ensures forall k :: k in attempts ==>
                attempts[k] == if k.job == id && old(attempts)[k].status.Running?
                               then old(attempts)[k].(status := Ended(jobs[id].status)) else old(attempts)[k]
    {
      hide Reaches;
      ghost var q := View();
      AttemptsOfRunning(q, id);
      InvStep(q, Recover(id, at));
      OneEventPerOutcome(q, Recover(id, at));
      ReachesStep(barred, q, Recover(id, at));
      var j := jobs[id];
      var status := if j.cancelRequested then JobStatus.CANCELLED else JobStatus.FAILED;
      jobs := jobs[id := Released(j, status, at).(
        lastError := Some(AbandonedError(j)))];
      attempts := CloseAttempt(attempts, id, j.token, Ended(status));
      events := Recorded(events, id, KindOf(status), AttemptKey(id, j.attempt, KindOf(status)), None);
    }
  }

  /** The running attempt rows of a job are those with its present token. */
  lemma AttemptsOfRunning(q: Queue, id: JobId)
    requires Inv(q) && id in q.jobs
    ensures forall k :: k in q.attempts && k.job == id ==>
              && k.attempt <= q.jobs[id].attempt
              && (q.attempts[k].status.Running? <==> q.jobs[id].token == Some(q.attempts[k].token))
  {
    forall k | k in q.attempts && k.job == id
      ensures k.attempt <= q.jobs[id].attempt
      ensures q.attempts[k].status.Running? <==> q.jobs[id].token == Some(q.attempts[k].token)
    {
      assert AttemptOk(q, k);
    }
  }

  /** The running attempt row of a ticket's job is the ticket's own, while the ticket is current. */
  lemma OnlyAttempt(q: Queue, t: Ticket)
    requires Inv(q) && t in q.tickets && t.id in q.jobs
    ensures q.jobs[t.id].status.RUNNING? && q.jobs[t.id].token == Some(t.token) ==>
              forall k :: k in q.attempts ==>
                (k.job == t.id && q.attempts[k].token == t.token && q.attempts[k].status.Running?
                 <==> k == AttemptId(t.id, t.attempt))
  {
    assert TicketOk(q, t) && JobOk(q, t.id);
    if q.jobs[t.id].status.RUNNING? && q.jobs[t.id].token == Some(t.token) {
      forall k | k in q.attempts
        ensures k.job == t.id && q.attempts[k].token == t.token && q.attempts[k].status.Running?
                <==> k == AttemptId(t.id, t.attempt)
      {
        assert AttemptOk(q, k);
      }
    }
  }

  /** Different jobs that have ended. */
  ghost predicate EndedJobs(q: Queue, ids: seq<JobId>) {
    && (forall i :: 0 <= i < |ids| ==> ids[i] in q.jobs && Terminal(q.jobs[ids[i]].status))
    && forall i, j :: 0 <= i < j < |ids| ==> ids[i] != ids[j]
  }

  lemma EndedStay(barred: set<Token>, q: Queue, q': Queue, ids: seq<JobId>)
    requires Inv(q) && Reaches(barred, q, q') && EndedJobs(q, ids)
    ensures EndedJobs(q', ids) && |q'.events| >= |q.events|
  {
    RunKeeps(barred, q, q');
    forall i | 0 <= i < |ids| ensures ids[i] in q'.jobs && Terminal(q'.jobs[ids[i]].status) {
      assert JobLater(q, q', ids[i]);
    }
  }

  lemma EndedMore(barred: set<Token>, q: Queue, q': Queue, ids: seq<JobId>, id: JobId)
    requires Inv(q) && Reaches(barred, q, q') && EndedJobs(q, ids)
    requires id in q.jobs && !Terminal(q.jobs[id].status) && id in q'.jobs && Terminal(q'.jobs[id].status)
    ensures EndedJobs(q', ids + [id])
  {
    EndedStay(barred, q, q', ids);
  }
}
