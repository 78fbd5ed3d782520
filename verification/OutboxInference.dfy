/**
 What a publisher may conclude from the record it captured at claim time, and
 what it can always still do.
 */
module OutboxInference {
  import opened Prelude
  import opened Events
  import opened OutboxTable
  import opened OutboxProtocol
  import opened OutboxRuns

  /** `_attempted_to_death`: the counter captured at claim time plus this failure. */
  predicate AttemptedToDeath(record: Row, maxAttempts: nat) {
    record.attempts + 1 >= maxAttempts
  }

  /** The inference is right about an accepted failure under `c`. */
  ghost predicate AgreesOn(cfg: Config, s: State, c: ClaimId) {
    Enabled(cfg, s, Fail(c, "")) && Owns(s.rows, c.id, c.token) ==>
      (AttemptedToDeath(s.claims[c].record, cfg.maxAttempts)
       <==> Step(cfg, s, Fail(c, "")).rows[c.id].status.DeadLetter?)
  }

  ghost predicate InferenceAgrees(cfg: Config, s: State) {
    forall c: ClaimId :: AgreesOn(cfg, s, c)
  }

  /** With or without row locks, a row inferred dead is dead. */
  lemma InferredDeadIsDead(cfg: Config, s: State, c: ClaimId)
    requires Reachable(cfg, s)
    requires Enabled(cfg, s, Fail(c, "")) && Owns(s.rows, c.id, c.token)
    requires AttemptedToDeath(s.claims[c].record, cfg.maxAttempts)
    ensures Step(cfg, s, Fail(c, "")).rows[c.id].status.DeadLetter?
  {
    ReachableInv(cfg, s);
    assert RowOk(cfg, s, c.id);
  }

  /**
   The inference agrees with the durable row in every reachable state exactly
   when the scan holds row locks or a single attempt is allowed.
   */
  lemma InferenceExact(cfg: Config)
    ensures (cfg.rowLocks || cfg.maxAttempts == 1) <==> (forall s :: Reachable(cfg, s) ==> InferenceAgrees(cfg, s))
  {
    if cfg.rowLocks || cfg.maxAttempts == 1 {
      forall s | Reachable(cfg, s) ensures InferenceAgrees(cfg, s) {
        ReachableInv(cfg, s);
        forall c ensures AgreesOn(cfg, s, c) {
          assert RowOk(cfg, s, c.id);
        }
      }
    } else {
      var s, c := MistakenRun(cfg);
      assert !AgreesOn(cfg, s, c);
    }
  }

  // ----- the run in which the inference is mistaken -----

  lemma ReachableStep(cfg: Config, s: State, a: Action) returns (s': State)
    requires Reachable(cfg, s) && Enabled(cfg, s, a)
    ensures s' == Step(cfg, s, a) && Reachable(cfg, s')
  {
    s' := Step(cfg, s, a);
    ReachesStep(cfg, {}, s, a);
    ReachesTrans(cfg, {}, Init, s, s');
  }

  const STALE := ClaimId(0, 0)
  const SOME_ENVELOPE := Envelope(0, "t", 1, Stream("a", "x"), 0, "", 0.0, None, None, None)

  /** Row 0 has failed k times since the stale scan saw it fresh. */
  ghost predicate FailedSinceScan(cfg: Config, s: State, k: nat) {
    && 0 in s.rows && s.rows[0].status.Pending? && s.rows[0].attempts == k
    && STALE in s.scans && s.scans[STALE].attempts == 0 && STALE !in s.claims
    && s.claims.Keys <= s.scans.Keys
    && forall c :: c in s.scans ==> c.token <= k
  }

  /** One publisher fails the row k times while another still holds its first scan. */
  lemma {:induction false} FailRounds(cfg: Config, k: nat) returns (s: State)
    requires k < cfg.maxAttempts
    ensures Reachable(cfg, s) && FailedSinceScan(cfg, s, k)
  {
    if k == 0 {
      ReachesSelf(cfg, {}, Init);
      s := ReachableStep(cfg, Init, Record(0, SOME_ENVELOPE, None, 0.0));
      s := ReachableStep(cfg, s, Scan(STALE));
    } else {
      s := FailRounds(cfg, k - 1);
      s := FailOnce(cfg, s, k);
    }
  }

  lemma FailOnce(cfg: Config, s: State, k: nat) returns (s': State)
    requires 0 < k < cfg.maxAttempts && Reachable(cfg, s) && FailedSinceScan(cfg, s, k - 1)
    ensures Reachable(cfg, s') && FailedSinceScan(cfg, s', k)
  {
    var c := ClaimId(0, k);
    var s1 := ReachableStep(cfg, s, Tick(Max(s.now, s.rows[0].availableAt)));
    var s2 := ReachableStep(cfg, s1, Scan(c));
    var s3 := ReachableStep(cfg, s2, Take(c, "w", s.now + 30.0));
    var s4 := ReachableStep(cfg, s3, Deliver(c, false));
    s' := ReachableStep(cfg, s4, Fail(c, "e"));
  }

  /** The stale scan is flipped at last and its delivery fails: dead in the table, not in the inference. */
  lemma MistakenRun(cfg: Config) returns (s: State, c: ClaimId)
    requires !cfg.rowLocks && cfg.maxAttempts > 1
    ensures Reachable(cfg, s) && c in s.claims && Enabled(cfg, s, Fail(c, "")) && Owns(s.rows, c.id, c.token)
    ensures Step(cfg, s, Fail(c, "")).rows[c.id].status.DeadLetter?
    ensures !AttemptedToDeath(s.claims[c].record, cfg.maxAttempts)
  {
    c := STALE;
    s := FailRounds(cfg, cfg.maxAttempts - 1);
    s := ReachableStep(cfg, s, Take(c, "w", s.now + 30.0));
    s := ReachableStep(cfg, s, Deliver(c, false));
  }

  // ----- no row is ever stuck -----

  lemma FreshToken(scans: map<ClaimId, Row>) returns (t: ClaimToken)
    ensures forall c :: c in scans ==> c.token < t
  {
    t := TokensBelow(scans.Keys);
  }

  lemma {:induction false} TokensBelow(s: set<ClaimId>) returns (t: ClaimToken)
    ensures forall c :: c in s ==> c.token < t
  {
    if s == {} {
      t := 0;
    } else {
      var c :| c in s;
      t := TokensBelow(s - {c});
      t := if t <= c.token then c.token + 1 else t;
    }
  }

  lemma ExtendRun(cfg: Config, from: State, s: State, a: Action) returns (s': State)
    requires Reaches(cfg, {}, from, s) && Enabled(cfg, s, a)
    ensures s' == Step(cfg, s, a) && Reaches(cfg, {}, from, s')
  {
    s' := Step(cfg, s, a);
    ReachesStep(cfg, {}, s, a);
    ReachesTrans(cfg, {}, from, s, s');
  }

  /**
   Whatever crashed, a row that is not dead-lettered can still be published:
   its lease runs out, it is reclaimed, and the next claim delivers it.
   */
  lemma EveryRowCanBePublished(cfg: Config, s: State, id: RowId) returns (s': State)
    requires Reachable(cfg, s) && id in s.rows && !s.rows[id].status.DeadLetter?
    ensures Reaches(cfg, {}, s, s') && id in s'.rows && s'.rows[id].status.Published?
  {
    ReachableInv(cfg, s);
    assert RowOk(cfg, s, id);
    ReachesSelf(cfg, {}, s);
    s' := s;
    if s.rows[id].status.Publishing? {
      s' := ExtendRun(cfg, s, s', Tick(Max(s.now, s.rows[id].claimExpiresAt.value + 1.0)));
      s' := ExtendRun(cfg, s, s', ReclaimExpired);
    }
    if !s.rows[id].status.Published? {
      s' := PublishPendingRow(cfg, s, s', id);
    }
  }

  lemma PublishPendingRow(cfg: Config, from: State, s: State, id: RowId) returns (s': State)
    requires Inv(cfg, from) && Reaches(cfg, {}, from, s) && id in s.rows && s.rows[id].status.Pending?
    ensures Reaches(cfg, {}, from, s') && id in s'.rows && s'.rows[id].status.Published?
  {
    RunKeeps(cfg, {}, from, s);
    var t := FreshToken(s.scans);
    var c := ClaimId(id, t);
    assert ScanOk(s, c);
    var s1 := ExtendRun(cfg, from, s, Tick(Max(s.now, s.rows[id].availableAt)));
    var s2 := ExtendRun(cfg, from, s1, Scan(c));
    var s3 := ExtendRun(cfg, from, s2, Take(c, "w", s.now + 30.0));
    var s4 := ExtendRun(cfg, from, s3, Deliver(c, true));
    s' := ExtendRun(cfg, from, s4, Publish(c));
  }
}
