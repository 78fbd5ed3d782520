/**
 The outbox as a protocol: any number of publishers scan, flip, deliver and
 finalize rows of one shared table, in any interleaving.

 A publisher may stop after any step (a crash is a publisher that never acts
 again), the transport may accept or refuse any delivery, and a finalizing
 statement may be issued again and again under a claim that was ever granted.
 */
module OutboxProtocol {
  import opened Prelude
  import opened Events
  import opened OutboxTable

  datatype Settings = Settings(maxAttempts: nat, backoff: real, rowLocks: bool)

  /** `rowLocks` holds where the scan takes FOR UPDATE SKIP LOCKED. */
  type Config = c: Settings | c.maxAttempts >= 1 witness Settings(1, 2.0, true)

  /** One uuid serves a whole batch, so a claim is named by row and token together. */
  datatype ClaimId = ClaimId(id: RowId, token: ClaimToken)

  datatype Phase = Holding | Delivered | Refused

  /** What the publisher holds: the record captured at claim time and its progress. */
  datatype Claim = Claim(record: Row, phase: Phase)

  datatype Outcome = Succeeded | Retried | Died

  /** One accepted finalization. */
  datatype Final = Final(claim: ClaimId, outcome: Outcome)

  datatype State = State(
    now: real,
    rows: Table,
    scans: map<ClaimId, Row>,
    claims: map<ClaimId, Claim>,
    finals: seq<Final>)

  datatype Action =
    | Record(id: RowId, envelope: Envelope, dedupKey: Option<string>, at: real)
    | Scan(claim: ClaimId)
    | Take(claim: ClaimId, worker: string, expiresAt: real)
    | Deliver(claim: ClaimId, ok: bool)
    | Publish(claim: ClaimId)
    | Fail(claim: ClaimId, error: string)
    | ReclaimExpired
    | Tick(until: real)

  const Init := State(0.0, map[], map[], map[], [])

  predicate Enabled(cfg: Config, s: State, a: Action) {
    match a
    case Record(id, _, _, at) => id !in s.rows && at <= s.now
    case Scan(c) => c.id in s.rows && Deliverable(s.rows[c.id], s.now) && c !in s.scans
    case Take(c, _, _) =>
      // A row lock keeps the scanned row as it was until the flip.
      c in s.scans && c !in s.claims && c.id in s.rows && (cfg.rowLocks ==> s.rows[c.id] == s.scans[c])
    case Deliver(c, _) => c in s.claims && s.claims[c].phase == Holding
    case Publish(c) => c in s.claims && s.claims[c].phase == Delivered
    case Fail(c, _) => c in s.claims && s.claims[c].phase == Refused
    case ReclaimExpired => true
    case Tick(t) => s.now <= t
  }

  function Step(cfg: Config, s: State, a: Action): State
    requires Enabled(cfg, s, a)
  {
    match a
    case Record(id, e, k, at) => s.(rows := s.rows[id := NewRow(e, k, at)])
    case Scan(c) => s.(scans := s.scans[c := s.rows[c.id]])
    case Take(c, w, expiresAt) => Taken(s, c, w, expiresAt)
    case Deliver(c, ok) =>
      s.(claims := s.claims[c := s.claims[c].(phase := if ok then Delivered else Refused)])
    case Publish(c) => Finalized(s, c, MarkPublished(s.rows, c.id, c.token, s.now), Succeeded)
    case Fail(c, error) => FailStep(cfg, s, c, error)
    case ReclaimExpired => s.(rows := Reclaim(s.rows, s.now))
    case Tick(t) => s.(now := t)
  }

  /** The flip; a row count of zero leaves the record out of the batch. */
  function Taken(s: State, c: ClaimId, worker: string, expiresAt: real): State
    requires c in s.scans && c.id in s.rows
  {
    if s.rows[c.id].status.Pending? then
      s.(rows := Flip(s.rows, c.id, worker, c.token, expiresAt),
         claims := s.claims[c := Claim(s.scans[c], Holding)])
    else s
  }

  function Finalized(s: State, c: ClaimId, rows: Table, outcome: Outcome): State {
    if Owns(s.rows, c.id, c.token) then s.(rows := rows, finals := s.finals + [Final(c, outcome)]) else s
  }

  function FailStep(cfg: Config, s: State, c: ClaimId, error: string): State {
    var after := MarkFailed(s.rows, c.id, c.token, error, cfg.maxAttempts, s.now + cfg.backoff);
    Finalized(s, c, after, if c.id in after && after[c.id].status.DeadLetter? then Died else Retried)
  }

  function TokenOf(a: Action): Option<ClaimToken> {
    match a
    case Record(_, _, _, _) => None
    case Scan(c) => Some(c.token)
    case Take(c, _, _) => Some(c.token)
    case Deliver(c, _) => Some(c.token)
    case Publish(c) => Some(c.token)
    case Fail(c, _) => Some(c.token)
    case ReclaimExpired => None
    case Tick(_) => None
  }

  /** One step by anybody who does not hold a token in `barred`. */
  ghost predicate Next(cfg: Config, barred: set<ClaimToken>, s: State, s': State) {
    exists a: Action :: Allowed(barred, a) && Enabled(cfg, s, a) && s' == Step(cfg, s, a)
  }

  predicate Allowed(barred: set<ClaimToken>, a: Action) {
    TokenOf(a).Some? ==> TokenOf(a).value !in barred
  }

  ghost predicate NextAt(cfg: Config, barred: set<ClaimToken>, b: seq<State>, i: int) {
    0 <= i < |b| - 1 && Next(cfg, barred, b[i], b[i + 1])
  }

  ghost predicate Behavior(cfg: Config, barred: set<ClaimToken>, b: seq<State>) {
    |b| > 0 && forall i :: 0 <= i < |b| - 1 ==> NextAt(cfg, barred, b, i)
  }

  ghost predicate Reaches(cfg: Config, barred: set<ClaimToken>, s: State, s': State) {
    exists b :: Behavior(cfg, barred, b) && b[0] == s && b[|b| - 1] == s'
  }

  ghost predicate Reachable(cfg: Config, s: State) {
    Reaches(cfg, {}, Init, s)
  }

  // ----- counting accepted finalizations -----

  function Tally(finals: seq<Final>, id: RowId, outcome: Outcome): nat {
    if finals == [] then 0
    else
      var last := finals[|finals| - 1];
      Tally(finals[..|finals| - 1], id, outcome) + if last.claim.id == id && last.outcome == outcome then 1 else 0
  }

  lemma TallyAppend(finals: seq<Final>, f: Final, id: RowId, outcome: Outcome)
    ensures Tally(finals + [f], id, outcome)
         == Tally(finals, id, outcome) + if f.claim.id == id && f.outcome == outcome then 1 else 0
  {
    assert (finals + [f])[..|finals|] == finals;
  }

  // ----- the invariant -----

  /** A publishing row is held under a granted claim whose captured counter is not ahead. */
  ghost predicate HolderOk(cfg: Config, s: State, id: RowId)
    requires id in s.rows
  {
    var r := s.rows[id];
    r.claimToken.Some? ==>
      var c := ClaimId(id, r.claimToken.value);
      && c in s.claims
      && s.claims[c].record.attempts <= r.attempts
      && (cfg.rowLocks ==> s.claims[c].record.attempts == r.attempts)
  }

  /** The row's counter and final status are determined by its accepted finalizations. */
  ghost predicate TalliesOk(s: State, id: RowId) {
    && Tally(s.finals, id, Retried) + Tally(s.finals, id, Died) == (if id in s.rows then s.rows[id].attempts else 0)
    && Tally(s.finals, id, Succeeded) == (if id in s.rows && s.rows[id].status.Published? then 1 else 0)
    && Tally(s.finals, id, Died) == (if id in s.rows && s.rows[id].status.DeadLetter? then 1 else 0)
  }

  ghost predicate RowOk(cfg: Config, s: State, id: RowId) {
    id in s.rows ==> WellFormed(s.rows[id], cfg.maxAttempts) && HolderOk(cfg, s, id)
  }

  ghost predicate ScanOk(s: State, c: ClaimId) {
    && (c in s.claims ==> c in s.scans && s.claims[c].record == s.scans[c])
    && (c in s.scans ==>
      && c.id in s.rows
      && s.scans[c].attempts <= s.rows[c.id].attempts
      && s.scans[c].envelope == s.rows[c.id].envelope)
  }

  /** An accepted claim was delivered or refused first, and no longer owns its row. */
  ghost predicate FinalOk(s: State, f: Final) {
    && f.claim in s.claims
    && !Owns(s.rows, f.claim.id, f.claim.token)
    && s.claims[f.claim].phase == (if f.outcome == Succeeded then Delivered else Refused)
  }

  ghost predicate FinalsOk(s: State) {
    && (forall i :: 0 <= i < |s.finals| ==> FinalOk(s, s.finals[i]))
    && (forall i, j :: 0 <= i < j < |s.finals| ==> s.finals[i].claim != s.finals[j].claim)
  }

  ghost predicate Inv(cfg: Config, s: State) {
    && (forall id :: RowOk(cfg, s, id))
    && (forall id :: TalliesOk(s, id))
    && (forall c :: ScanOk(s, c))
    && FinalsOk(s)
  }

  lemma InvInit(cfg: Config)
    ensures Inv(cfg, Init)
  {
  }

  // Each part of the invariant is kept separately: for one row, one scan, one final.

  lemma RowStep(cfg: Config, s: State, a: Action, id: RowId)
    requires Enabled(cfg, s, a) && RowOk(cfg, s, id)
    requires a.Take? ==> ScanOk(s, a.claim)
    ensures RowOk(cfg, Step(cfg, s, a), id)
  {
  }

  /** An accepted final moves exactly the tallies its row's columns say. */
  lemma FinalTallies(cfg: Config, s: State, a: Action, id: RowId)
    requires Enabled(cfg, s, a) && (a.Publish? || a.Fail?) && Owns(s.rows, a.claim.id, a.claim.token)
    requires RowOk(cfg, s, id) && TalliesOk(s, id)
    ensures TalliesOk(Step(cfg, s, a), id)
  {
    var f := Step(cfg, s, a).finals[|s.finals|];
    TallyAppend(s.finals, f, id, Succeeded);
    TallyAppend(s.finals, f, id, Retried);
    TallyAppend(s.finals, f, id, Died);
  }

  lemma TalliesStep(cfg: Config, s: State, a: Action, id: RowId)
    requires Enabled(cfg, s, a) && RowOk(cfg, s, id) && TalliesOk(s, id)
    ensures TalliesOk(Step(cfg, s, a), id)
  {
    if (a.Publish? || a.Fail?) && Owns(s.rows, a.claim.id, a.claim.token) {
      FinalTallies(cfg, s, a, id);
    }
  }

  lemma ScanStep(cfg: Config, s: State, a: Action, c: ClaimId)
    requires Enabled(cfg, s, a) && ScanOk(s, c)
    ensures ScanOk(Step(cfg, s, a), c)
  {
  }

  lemma FinalStep(cfg: Config, s: State, a: Action, f: Final)
    requires Enabled(cfg, s, a) && FinalOk(s, f)
    ensures FinalOk(Step(cfg, s, a), f)
  {
  }

  /** The claim of a new final owned its row, so it is none of the earlier ones. */
  lemma NewFinal(cfg: Config, s: State, a: Action)
    requires Enabled(cfg, s, a) && Step(cfg, s, a).finals != s.finals
    ensures (a.Publish? || a.Fail?) && Owns(s.rows, a.claim.id, a.claim.token)
    ensures exists f :: Step(cfg, s, a).finals == s.finals + [f] && f.claim == a.claim && FinalOk(Step(cfg, s, a), f)
  {
    var f := Step(cfg, s, a).finals[|s.finals|];
    assert Step(cfg, s, a).finals == s.finals + [f];
  }

  lemma FinalsStep(cfg: Config, s: State, a: Action)
    requires Enabled(cfg, s, a) && FinalsOk(s)
    ensures FinalsOk(Step(cfg, s, a))
  {
    var finals := Step(cfg, s, a).finals;
    forall i | 0 <= i < |s.finals| ensures FinalOk(Step(cfg, s, a), s.finals[i]) {
      FinalStep(cfg, s, a, s.finals[i]);
    }
    if finals != s.finals {
      NewFinal(cfg, s, a);
      forall i | 0 <= i < |s.finals| ensures s.finals[i].claim != a.claim {
        assert FinalOk(s, s.finals[i]);
      }
    }
  }

  lemma InvStep(cfg: Config, s: State, a: Action)
    requires Inv(cfg, s) && Enabled(cfg, s, a)
    ensures Inv(cfg, Step(cfg, s, a))
  {
    forall id ensures RowOk(cfg, Step(cfg, s, a), id) {
      RowStep(cfg, s, a, id);
    }
    forall id ensures TalliesOk(Step(cfg, s, a), id) {
      TalliesStep(cfg, s, a, id);
    }
    forall c ensures ScanOk(Step(cfg, s, a), c) {
      ScanStep(cfg, s, a, c);
    }
    FinalsStep(cfg, s, a);
  }
}
