/** What the two clocks of an outbox row promise: the lease of a claim and the backoff of a retry. */
module OutboxLeases {
  import opened Prelude
  import opened OutboxTable
  import opened OutboxProtocol
  import opened OutboxRuns
  import opened OutboxInference

  // ----- a live lease is exclusive -----

  /** The row is publishing under this claim until the given time. */
  ghost predicate HeldUntil(s: State, c: ClaimId, until: real) {
    && c.id in s.rows && s.rows[c.id].status.Publishing?
    && s.rows[c.id].claimToken == Some(c.token) && s.rows[c.id].claimExpiresAt == Some(until)
  }

  lemma LeaseStep(cfg: Config, s: State, a: Action, c: ClaimId, until: real)
    requires Enabled(cfg, s, a) && TokenOf(a) != Some(c.token) && HeldUntil(s, c, until) && s.now <= until
    ensures HeldUntil(Step(cfg, s, a), c, until) && Step(cfg, s, a).rows[c.id] == s.rows[c.id]
  {
  }

  lemma {:induction false} LeaseBehavior(cfg: Config, barred: set<ClaimToken>, b: seq<State>, i: nat, c: ClaimId,
                                         until: real)
    requires Behavior(cfg, barred, b) && i < |b| && c.token in barred && Inv(cfg, b[0])
    requires HeldUntil(b[0], c, until) && b[i].now <= until
    ensures HeldUntil(b[i], c, until) && b[i].rows[c.id] == b[0].rows[c.id]
  {
    if i > 0 {
      assert NextAt(cfg, barred, b, i - 1);
      var a :| Allowed(barred, a) && Enabled(cfg, b[i - 1], a) && b[i] == Step(cfg, b[i - 1], a);
      StepLater(cfg, b[i - 1], a);
      LeaseBehavior(cfg, barred, b, i - 1, c, until);
      LeaseStep(cfg, b[i - 1], a, c, until);
    }
  }

  /** Until its lease runs out a claimed row stays as it is, whatever the other publishers do. */
  lemma LiveLeaseIsExclusive(cfg: Config, s: State, s': State, c: ClaimId, until: real)
    requires Inv(cfg, s) && Reaches(cfg, {c.token}, s, s') && HeldUntil(s, c, until) && s'.now <= until
    ensures HeldUntil(s', c, until) && s'.rows[c.id] == s.rows[c.id]
  {
    var b :| Behavior(cfg, {c.token}, b) && b[0] == s && b[|b| - 1] == s';
    LeaseBehavior(cfg, {c.token}, b, |b| - 1, c, until);
  }

  /**
   A claim keeps its row for a time d, whatever the others do, exactly when its lease does
   not run out before; after that a sweep may give the row to the next publisher.
   */
  lemma LeaseSafetyExact(cfg: Config, s: State, c: ClaimId, until: real, d: real)
    requires Reachable(cfg, s) && HeldUntil(s, c, until) && d >= 0.0
    ensures (forall s' :: Reaches(cfg, {c.token}, s, s') && s'.now == s.now + d ==> HeldUntil(s', c, until))
            <==> s.now + d <= until
  {
    ReachableInv(cfg, s);
    if s.now + d <= until {
      forall s' | Reaches(cfg, {c.token}, s, s') && s'.now == s.now + d ensures HeldUntil(s', c, until) {
        LiveLeaseIsExclusive(cfg, s, s', c, until);
      }
    } else {
      var s' := LoseRow(cfg, s, c, until, d);
      assert !HeldUntil(s', c, until);
    }
  }

  lemma LoseRow(cfg: Config, s: State, c: ClaimId, until: real, d: real) returns (s': State)
    requires HeldUntil(s, c, until) && d >= 0.0 && s.now + d > until
    ensures Reaches(cfg, {c.token}, s, s') && s'.now == s.now + d
    ensures c.id in s'.rows && s'.rows[c.id].status.Pending? && s'.rows[c.id].claimToken.None?
  {
    var r := Step(cfg, s, Tick(s.now + d));
    s' := Step(cfg, r, ReclaimExpired);
    ReachesStep(cfg, {c.token}, s, Tick(s.now + d));
    ReachesStep(cfg, {c.token}, r, ReclaimExpired);
    ReachesTrans(cfg, {c.token}, s, r, s');
  }

  // ----- a failed row waits out its backoff -----

  /** The row is pending and not available before the given time. */
  ghost predicate Resting(s: State, id: RowId, until: real) {
    id in s.rows && s.rows[id].status.Pending? && s.rows[id].availableAt == until
  }

  /** Every scan of the row that was not taken yet saw it before its last failure. */
  ghost predicate ScansAreOld(s: State, id: RowId) {
    id in s.rows ==>
      forall c: ClaimId :: c.id == id && c in s.scans && c !in s.claims ==> s.scans[c].attempts < s.rows[id].attempts
  }

  lemma RestStep(cfg: Config, s: State, a: Action, id: RowId, until: real)
    requires cfg.rowLocks && Enabled(cfg, s, a) && Resting(s, id, until) && ScansAreOld(s, id) && s.now < until
    ensures Resting(Step(cfg, s, a), id, until) && ScansAreOld(Step(cfg, s, a), id)
    ensures Step(cfg, s, a).rows[id] == s.rows[id]
  {
  }

  lemma {:induction false} RestBehavior(cfg: Config, b: seq<State>, i: nat, id: RowId, until: real)
    requires cfg.rowLocks && Behavior(cfg, {}, b) && i < |b| && Inv(cfg, b[0])
    requires Resting(b[0], id, until) && ScansAreOld(b[0], id) && b[i].now < until
    ensures Resting(b[i], id, until) && ScansAreOld(b[i], id) && b[i].rows[id] == b[0].rows[id]
  {
    if i > 0 {
      assert NextAt(cfg, {}, b, i - 1);
      var a :| Allowed({}, a) && Enabled(cfg, b[i - 1], a) && b[i] == Step(cfg, b[i - 1], a);
      StepLater(cfg, b[i - 1], a);
      RestBehavior(cfg, b, i - 1, id, until);
      RestStep(cfg, b[i - 1], a, id, until);
    }
  }

  /** An accepted failure under `c` that leaves the row to be retried. */
  ghost predicate Retries(cfg: Config, s: State, c: ClaimId, error: string) {
    && Enabled(cfg, s, Fail(c, error)) && Owns(s.rows, c.id, c.token)
    && Step(cfg, s, Fail(c, error)).rows[c.id].status.Pending?
  }

  /** With row locks nobody takes a failed row before its backoff is over. */
  lemma RetryRests(cfg: Config, s: State, c: ClaimId, error: string, s': State)
    requires cfg.rowLocks && Reachable(cfg, s) && Retries(cfg, s, c, error)
    requires Reaches(cfg, {}, Step(cfg, s, Fail(c, error)), s') && s'.now < s.now + cfg.backoff
    ensures Resting(s', c.id, s.now + cfg.backoff)
    ensures s'.rows[c.id].attempts == s.rows[c.id].attempts + 1 && s'.rows[c.id].lastError == Some(error)
  {
    var r := Step(cfg, s, Fail(c, error));
    ReachableInv(cfg, s);
    InvStep(cfg, s, Fail(c, error));
    forall d: ClaimId | d.id == c.id && d in r.scans && d !in r.claims
      ensures r.scans[d].attempts < r.rows[c.id].attempts
    {
      assert ScanOk(s, d);
    }
    var b :| Behavior(cfg, {}, b) && b[0] == r && b[|b| - 1] == s';
    RestBehavior(cfg, b, |b| - 1, c.id, s.now + cfg.backoff);
  }

  /** The run has come from such a failure to a moment within its backoff. */
  ghost predicate WithinBackoff(cfg: Config, s: State, c: ClaimId, error: string, s': State) {
    && Reachable(cfg, s) && Retries(cfg, s, c, error)
    && Reaches(cfg, {}, Step(cfg, s, Fail(c, error)), s') && s'.now < s.now + cfg.backoff
  }

  /** In every run, a failed row that is to be retried is left alone until its backoff is over. */
  ghost predicate BackoffHolds(cfg: Config) {
    forall s, c, error, s' :: WithinBackoff(cfg, s, c, error, s') ==> Resting(s', c.id, s.now + cfg.backoff)
  }

  /**
   The backoff is kept exactly where the scan holds row locks or nothing is ever retried:
   without locks a publisher that scanned the row earlier flips it at once, for the flip
   asks for the status alone.
   */
  lemma BackoffExact(cfg: Config)
    requires cfg.backoff > 0.0
    ensures BackoffHolds(cfg) <==> cfg.rowLocks || cfg.maxAttempts == 1
  {
    if cfg.rowLocks {
      forall s, c, error, s' | WithinBackoff(cfg, s, c, error, s')
        ensures Resting(s', c.id, s.now + cfg.backoff)
      {
        RetryRests(cfg, s, c, error, s');
      }
    } else if cfg.maxAttempts > 1 {
      var s, c, s' := EarlyRetry(cfg);
      assert WithinBackoff(cfg, s, c, "e", s') && !Resting(s', c.id, s.now + cfg.backoff);
    }
  }

  /** Two publishers scan the row; the first one's delivery fails, and the other flips it within the backoff. */
  lemma EarlyRetry(cfg: Config) returns (s: State, c: ClaimId, s': State)
    requires !cfg.rowLocks && cfg.maxAttempts > 1 && cfg.backoff > 0.0
    ensures Reachable(cfg, s) && Retries(cfg, s, c, "e")
    ensures Reaches(cfg, {}, Step(cfg, s, Fail(c, "e")), s') && s'.now < s.now + cfg.backoff
    ensures c.id in s'.rows && s'.rows[c.id].status.Publishing? && s'.rows[c.id].availableAt > s'.now
  {
    c := ClaimId(0, 1);
    ReachesSelf(cfg, {}, Init);
    s := FailRounds(cfg, 0);
    s := ReachableStep(cfg, s, Tick(Max(s.now, s.rows[0].availableAt)));
    s := ReachableStep(cfg, s, Scan(c));
    s := ReachableStep(cfg, s, Take(c, "w", s.now + 30.0));
    s := ReachableStep(cfg, s, Deliver(c, false));
    var r := Step(cfg, s, Fail(c, "e"));
    s' := Step(cfg, r, Take(STALE, "w", r.now + 30.0));
    ReachesStep(cfg, {}, r, Take(STALE, "w", r.now + 30.0));
  }
}
