/** Safety of the outbox protocol over whole runs. */
module OutboxRuns {
  import opened Prelude
  import opened OutboxTable
  import opened OutboxProtocol

  // ----- runs compose -----

  lemma ReachesSelf(cfg: Config, barred: set<ClaimToken>, s: State)
    ensures Reaches(cfg, barred, s, s)
  {
    assert Behavior(cfg, barred, [s]);
  }

  lemma ReachesTrans(cfg: Config, barred: set<ClaimToken>, s: State, t: State, u: State)
    requires Reaches(cfg, barred, s, t) && Reaches(cfg, barred, t, u)
    ensures Reaches(cfg, barred, s, u)
  {
    var b :| Behavior(cfg, barred, b) && b[0] == s && b[|b| - 1] == t;
    var d :| Behavior(cfg, barred, d) && d[0] == t && d[|d| - 1] == u;
    var e := b + d[1..];
    forall i | 0 <= i < |e| - 1 ensures NextAt(cfg, barred, e, i) {
      if i < |b| - 1 {
        assert NextAt(cfg, barred, b, i);
      } else {
        assert NextAt(cfg, barred, d, i - |b| + 1);
      }
    }
    assert Behavior(cfg, barred, e);
  }

  lemma ReachesStep(cfg: Config, barred: set<ClaimToken>, s: State, a: Action)
    requires Enabled(cfg, s, a) && Allowed(barred, a)
    ensures Reaches(cfg, barred, s, Step(cfg, s, a))
  {
    assert NextAt(cfg, barred, [s, Step(cfg, s, a)], 0);
    assert Behavior(cfg, barred, [s, Step(cfg, s, a)]);
  }

  /** Barring fewer tokens allows more runs. */
  lemma ReachesMore(cfg: Config, barred: set<ClaimToken>, more: set<ClaimToken>, s: State, s': State)
    requires Reaches(cfg, more, s, s') && barred <= more
    ensures Reaches(cfg, barred, s, s')
  {
    var b :| Behavior(cfg, more, b) && b[0] == s && b[|b| - 1] == s';
    forall i | 0 <= i < |b| - 1 ensures NextAt(cfg, barred, b, i) {
      assert NextAt(cfg, more, b, i);
      var a :| Allowed(more, a) && Enabled(cfg, b[i], a) && b[i + 1] == Step(cfg, b[i], a);
      assert Allowed(barred, a);
    }
    assert Behavior(cfg, barred, b);
  }

  // ----- what every run keeps -----

  /** What one step, and so any run, preserves of an earlier state. */
  ghost predicate Later(s: State, s': State) {
    && s.now <= s'.now
    && (forall id :: RowLater(s, s', id))
    && (forall c :: ClaimLater(s, s', c))
    && s.finals <= s'.finals
  }

  /** A recorded row stays with its contents; a terminal row stays as it is. */
  ghost predicate RowLater(s: State, s': State, id: RowId) {
    id in s.rows ==>
      && id in s'.rows
      && s'.rows[id].envelope == s.rows[id].envelope
      && s'.rows[id].dedupKey == s.rows[id].dedupKey
      && s.rows[id].attempts <= s'.rows[id].attempts
      && (Terminal(s.rows[id]) ==> s'.rows[id] == s.rows[id])
  }

  /** A granted claim keeps its captured record, and once lost is lost for good. */
  ghost predicate ClaimLater(s: State, s': State, c: ClaimId) {
    && (c in s.scans ==> c in s'.scans && s'.scans[c] == s.scans[c])
    && (c in s.claims ==>
      && c in s'.claims
      && s'.claims[c].record == s.claims[c].record
      && (s.claims[c].phase != Holding ==> s'.claims[c].phase == s.claims[c].phase)
      && (Owns(s'.rows, c.id, c.token) ==> Owns(s.rows, c.id, c.token)))
  }

  lemma StepLater(cfg: Config, s: State, a: Action)
    requires Enabled(cfg, s, a)
    ensures Later(s, Step(cfg, s, a))
  {
    var s' := Step(cfg, s, a);
    forall id ensures RowLater(s, s', id) {
    }
    forall c ensures ClaimLater(s, s', c) {
    }
  }

  lemma LaterTrans(s: State, t: State, u: State)
    requires Later(s, t) && Later(t, u)
    ensures Later(s, u)
  {
    forall id ensures RowLater(s, u, id) {
      assert RowLater(s, t, id) && RowLater(t, u, id);
    }
    forall c ensures ClaimLater(s, u, c) {
      assert ClaimLater(s, t, c) && ClaimLater(t, u, c);
    }
  }

  lemma BehaviorKeeps(cfg: Config, barred: set<ClaimToken>, b: seq<State>, i: nat)
    requires Behavior(cfg, barred, b) && Inv(cfg, b[0]) && i < |b|
    ensures Inv(cfg, b[i]) && Later(b[0], b[i])
  {
    if i > 0 {
      BehaviorKeeps(cfg, barred, b, i - 1);
      assert NextAt(cfg, barred, b, i - 1);
      var a :| Allowed(barred, a) && Enabled(cfg, b[i - 1], a) && b[i] == Step(cfg, b[i - 1], a);
      InvStep(cfg, b[i - 1], a);
      StepLater(cfg, b[i - 1], a);
      LaterTrans(b[0], b[i - 1], b[i]);
    }
  }

  lemma RunKeeps(cfg: Config, barred: set<ClaimToken>, s: State, s': State)
    requires Inv(cfg, s) && Reaches(cfg, barred, s, s')
    ensures Inv(cfg, s') && Later(s, s')
  {
    var b :| Behavior(cfg, barred, b) && b[0] == s && b[|b| - 1] == s';
    BehaviorKeeps(cfg, barred, b, |b| - 1);
  }

  lemma ReachableInv(cfg: Config, s: State)
    requires Reachable(cfg, s)
    ensures Inv(cfg, s)
  {
    InvInit(cfg);
    RunKeeps(cfg, {}, Init, s);
  }

  // ----- what others cannot do -----

  /** Accepted finalizations under one token. */
  function TallyToken(finals: seq<Final>, token: ClaimToken, outcome: Outcome): nat {
    if finals == [] then 0
    else
      var last := finals[|finals| - 1];
      TallyToken(finals[..|finals| - 1], token, outcome)
      + if last.claim.token == token && last.outcome == outcome then 1 else 0
  }

  lemma TallyTokenAppend(finals: seq<Final>, f: Final, token: ClaimToken, outcome: Outcome)
    ensures TallyToken(finals + [f], token, outcome)
         == TallyToken(finals, token, outcome) + if f.claim.token == token && f.outcome == outcome then 1 else 0
  {
    assert (finals + [f])[..|finals|] == finals;
  }

  /** The claims and finals under one token are as they were. */
  ghost predicate Untouched(token: ClaimToken, s: State, s': State) {
    && (forall c: ClaimId :: c.token == token ==> ClaimUntouched(s, s', c))
    && forall o :: TallyToken(s'.finals, token, o) == TallyToken(s.finals, token, o)
  }

  ghost predicate ClaimUntouched(s: State, s': State, c: ClaimId) {
    && (c in s'.scans <==> c in s.scans)
    && (c in s'.claims <==> c in s.claims)
    && (c in s.claims ==> s'.claims[c] == s.claims[c])
  }

  lemma StepUntouched(cfg: Config, s: State, a: Action, token: ClaimToken)
    requires Enabled(cfg, s, a) && TokenOf(a) != Some(token)
    ensures Untouched(token, s, Step(cfg, s, a))
  {
    var s' := Step(cfg, s, a);
    if s'.finals != s.finals {
      NewFinal(cfg, s, a);
      forall o ensures TallyToken(s'.finals, token, o) == TallyToken(s.finals, token, o) {
        TallyTokenAppend(s.finals, s'.finals[|s.finals|], token, o);
      }
    }
  }

  lemma {:induction false} BehaviorUntouched(cfg: Config, barred: set<ClaimToken>, b: seq<State>, i: nat,
                                             token: ClaimToken)
    requires Behavior(cfg, barred, b) && i < |b| && token in barred
    ensures Untouched(token, b[0], b[i])
  {
    if i > 0 {
      BehaviorUntouched(cfg, barred, b, i - 1, token);
      assert NextAt(cfg, barred, b, i - 1);
      var a :| Allowed(barred, a) && Enabled(cfg, b[i - 1], a) && b[i] == Step(cfg, b[i - 1], a);
      StepUntouched(cfg, b[i - 1], a, token);
      forall c: ClaimId | c.token == token ensures ClaimUntouched(b[0], b[i], c) {
        assert ClaimUntouched(b[0], b[i - 1], c) && ClaimUntouched(b[i - 1], b[i], c);
      }
    }
  }

  /** A run of publishers that do not hold a token leaves its claims and its finals alone. */
  lemma RunUntouched(cfg: Config, barred: set<ClaimToken>, s: State, s': State, token: ClaimToken)
    requires Reaches(cfg, barred, s, s') && token in barred
    ensures Untouched(token, s, s')
  {
    var b :| Behavior(cfg, barred, b) && b[0] == s && b[|b| - 1] == s';
    BehaviorUntouched(cfg, barred, b, |b| - 1, token);
  }

  // ----- main results -----

  /** Each claim is accepted for at most one finalization, whatever the interleaving. */
  lemma ClaimFinalizedOnce(cfg: Config, s: State)
    requires Reachable(cfg, s)
    ensures forall i, j :: 0 <= i < j < |s.finals| ==> s.finals[i].claim != s.finals[j].claim
  {
    ReachableInv(cfg, s);
  }

  /** A claim superseded at any moment changes no row at any later moment. */
  lemma SupersededClaimIsDead(cfg: Config, s: State, s': State, c: ClaimId, error: string, at: real, retryAt: real)
    requires Reachable(cfg, s) && Reaches(cfg, {}, s, s')
    requires c in s.claims && !Owns(s.rows, c.id, c.token)
    ensures MarkPublished(s'.rows, c.id, c.token, at) == s'.rows
    ensures MarkFailed(s'.rows, c.id, c.token, error, cfg.maxAttempts, retryAt) == s'.rows
  {
    ReachableInv(cfg, s);
    RunKeeps(cfg, {}, s, s');
    assert ClaimLater(s, s', c);
  }

  /** Published and dead-lettered rows never change again, and no row is ever lost. */
  lemma TerminalRowsAreFrozen(cfg: Config, s: State, s': State, id: RowId)
    requires Reachable(cfg, s) && Reaches(cfg, {}, s, s') && id in s.rows
    ensures id in s'.rows && s'.rows[id].envelope == s.rows[id].envelope
    ensures s'.rows[id].dedupKey == s.rows[id].dedupKey && s.rows[id].attempts <= s'.rows[id].attempts
    ensures s.rows[id].status.Published? || s.rows[id].status.DeadLetter? ==> s'.rows[id] == s.rows[id]
  {
    ReachableInv(cfg, s);
    RunKeeps(cfg, {}, s, s');
    assert RowLater(s, s', id);
  }

  /** The three claim columns are set exactly while the row is publishing. */
  lemma ClaimColumnsTogether(cfg: Config, s: State, id: RowId)
    requires Reachable(cfg, s) && id in s.rows
    ensures s.rows[id].status.Publishing? <==> s.rows[id].claimedBy.Some?
    ensures s.rows[id].status.Publishing? <==> s.rows[id].claimToken.Some?
    ensures s.rows[id].status.Publishing? <==> s.rows[id].claimExpiresAt.Some?
  {
    ReachableInv(cfg, s);
    assert RowOk(cfg, s, id);
  }

  /** A row's whole retry history: failures are counted, bounded, and kill exactly at the bound. */
  lemma RetryBudget(cfg: Config, s: State, id: RowId)
    requires Reachable(cfg, s) && id in s.rows
    ensures s.rows[id].attempts == Tally(s.finals, id, Retried) + Tally(s.finals, id, Died)
    ensures Tally(s.finals, id, Succeeded) + Tally(s.finals, id, Retried) + Tally(s.finals, id, Died) <= cfg.maxAttempts
    ensures s.rows[id].status.DeadLetter? <==>
              Tally(s.finals, id, Retried) + Tally(s.finals, id, Died) == cfg.maxAttempts
    ensures s.rows[id].status.Published? <==> Tally(s.finals, id, Succeeded) == 1
  {
    ReachableInv(cfg, s);
    assert RowOk(cfg, s, id) && TalliesOk(s, id);
  }

  lemma {:induction false} TallyWitness(finals: seq<Final>, id: RowId, outcome: Outcome) returns (i: nat)
    requires Tally(finals, id, outcome) > 0
    ensures i < |finals| && finals[i].claim.id == id && finals[i].outcome == outcome
  {
    var n := |finals| - 1;
    if finals[n].claim.id == id && finals[n].outcome == outcome {
      i := n;
    } else {
      i := TallyWitness(finals[..n], id, outcome);
    }
  }

  /** A row is published only after the transport took it under the claim that published it. */
  lemma PublishedWasDelivered(cfg: Config, s: State, id: RowId) returns (c: ClaimId)
    requires Reachable(cfg, s) && id in s.rows && s.rows[id].status.Published?
    ensures c.id == id && c in s.claims && s.claims[c].phase == Delivered
    ensures s.claims[c].record.envelope == s.rows[id].envelope
  {
    ReachableInv(cfg, s);
    assert TalliesOk(s, id);
    var i := TallyWitness(s.finals, id, Succeeded);
    c := s.finals[i].claim;
    assert FinalOk(s, s.finals[i]);
    assert ScanOk(s, c);
  }
}
