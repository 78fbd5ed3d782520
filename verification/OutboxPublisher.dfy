/** The drain loop (publisher.py): claim a batch, deliver each record, finalize each outcome. */
module OutboxPublishing {
  import opened Prelude
  import opened Events
  import T = OutboxTable
  import opened OutboxProtocol
  import opened OutboxRuns
  import opened OutboxInference
  import opened OutboxScan
  import opened OutboxService

  datatype PublishReport = PublishReport(claimed: nat, published: nat, retried: nat, deadLettered: nat)

  /** What the publisher counts for one record; a stale claim is counted nowhere. */
  datatype Verdict = CountPublished | CountRetried | CountDead | CountStale

  /** The transport's answer to one delivery: None, or the text of the exception it raised. */
  type Transport = (nat, Envelope) -> Option<string>

  /** How a verdict relates to what the finalizing statement really did. */
  ghost predicate VerdictOk(cfg: Config, v: Verdict, accepted: Option<Outcome>) {
    && (v.CountPublished? <==> accepted == Some(Succeeded))
    && (v.CountStale? <==> accepted == None)
    && (v.CountDead? ==> accepted == Some(Died))
    && (cfg.rowLocks ==> (v.CountDead? <==> accepted == Some(Died)))
  }

  ghost predicate TallyAdds(token: ClaimToken, w: State, w': State, accepted: Option<Outcome>) {
    forall o :: TallyToken(w'.finals, token, o) == TallyToken(w.finals, token, o) + if accepted == Some(o) then 1 else 0
  }

  /** The report against the accepted finalizations under the batch's token. */
  ghost predicate ReportOk(cfg: Config, w: State, token: ClaimToken, r: PublishReport, stale: nat) {
    && r.claimed == r.published + r.retried + r.deadLettered + stale
    && r.published == TallyToken(w.finals, token, Succeeded)
    && r.retried + r.deadLettered == TallyToken(w.finals, token, Retried) + TallyToken(w.finals, token, Died)
    && r.deadLettered <= TallyToken(w.finals, token, Died)
    && (cfg.rowLocks ==> r.deadLettered == TallyToken(w.finals, token, Died))
  }

  ghost predicate AllDead(w: State, ids: seq<RowId>) {
    forall i :: 0 <= i < |ids| ==> ids[i] in w.rows && w.rows[ids[i]].status.DeadLetter?
  }

  lemma DeadStay(w: State, w': State, ids: seq<RowId>)
    requires Later(w, w') && AllDead(w, ids)
    ensures AllDead(w', ids)
  {
    forall i | 0 <= i < |ids| ensures ids[i] in w'.rows && w'.rows[ids[i]].status.DeadLetter? {
      assert RowLater(w, w', ids[i]);
    }
  }

  /** The hook's list stays a list of dead rows while the run goes on. */
  lemma NotifiedStayDead(cfg: Config, barred: set<ClaimToken>, w: State, w': State,
                         before: seq<RowId>, told: seq<RowId>, notified: seq<RowId>)
    requires Inv(cfg, w) && Reaches(cfg, barred, w, w') && before <= told <= notified
    requires AllDead(w, told[|before|..]) && AllDead(w', notified[|told|..])
    ensures AllDead(w', notified[|before|..])
  {
    RunKeeps(cfg, barred, w, w');
    DeadStay(w, w', told[|before|..]);
    assert notified[|before|..] == told[|before|..] + notified[|told|..];
  }

  /** The hook was told of different records of the batch, all among the first k. */
  ghost predicate ToldOf(claimed: seq<OutboxRecord>, k: nat, told: seq<RowId>) {
    && k <= |claimed|
    && (forall i :: 0 <= i < |told| ==> told[i] in Ids(claimed)[..k])
    && forall i, j :: 0 <= i < j < |told| ==> told[i] != told[j]
  }

  lemma ToldNobody(claimed: seq<OutboxRecord>)
    ensures ToldOf(claimed, 0, [])
  {
  }

  lemma ToldMore(claimed: seq<OutboxRecord>, k: nat, told: seq<RowId>, more: seq<RowId>)
    requires k < |claimed| && ToldOf(claimed, k, told) && (more == told || more == told + [claimed[k].id])
    requires forall i, j :: 0 <= i < j < |claimed| ==> claimed[i].id != claimed[j].id
    ensures ToldOf(claimed, k + 1, more)
  {
    assert Ids(claimed)[..k + 1] == Ids(claimed)[..k] + [claimed[k].id];
  }

  /** What an accepted or rejected finalization under `c` does to the token's claims and tallies. */
  lemma FinalEffect(cfg: Config, w: State, a: Action, c: ClaimId, claimed: seq<OutboxRecord>, k: nat)
    requires Inv(cfg, w) && Enabled(cfg, w, a) && (a == Publish(c) || (a.Fail? && a.claim == c))
    requires HeldFrom(w, c.token, claimed, k)
    ensures HeldFrom(Step(cfg, w, a), c.token, claimed, k)
    ensures !Owns(w, c) ==> TallyAdds(c.token, w, Step(cfg, w, a), None)
    ensures Owns(w, c) ==> TallyAdds(c.token, w, Step(cfg, w, a), Some(OutcomeOf(cfg, w, a, c)))
  {
    var w' := Step(cfg, w, a);
    forall i | k <= i < |claimed| ensures Held(w', c.token, claimed[i]) {
      assert Held(w, c.token, claimed[i]);
    }
    if Owns(w, c) {
      forall o ensures TallyToken(w'.finals, c.token, o) == TallyToken(w.finals, c.token, o)
                         + if OutcomeOf(cfg, w, a, c) == o then 1 else 0
      {
        TallyTokenAppend(w.finals, Final(c, OutcomeOf(cfg, w, a, c)), c.token, o);
      }
    }
  }

  /** The claim of `r` stands at the given phase. */
  ghost predicate HeldAs(w: State, token: ClaimToken, r: OutboxRecord, phase: Phase) {
    var c := ClaimId(r.id, token);
    && c in w.claims && w.claims[c].phase == phase
    && w.claims[c].record.attempts == r.row.attempts && w.claims[c].record.envelope == r.row.envelope
  }

  /** The events of a batch, in batch order. */
  function EnvelopesOf(batch: seq<OutboxRecord>): seq<Envelope> {
    if batch == [] then [] else EnvelopesOf(batch[..|batch| - 1]) + [batch[|batch| - 1].row.envelope]
  }

  /** Each of the first k records was offered with its own event, answered so, and is no longer owned. */
  ghost predicate Answered(w: State, token: ClaimToken, claimed: seq<OutboxRecord>, k: nat, transport: Transport) {
    k <= |claimed| && forall i :: 0 <= i < k ==> AnsweredAt(w, token, claimed, i, transport)
  }

  ghost predicate AnsweredAt(w: State, token: ClaimToken, claimed: seq<OutboxRecord>, i: nat, transport: Transport)
    requires i < |claimed|
  {
    && HeldAs(w, token, claimed[i], PhaseFor(transport(i, claimed[i].row.envelope)))
    && !Owns(w, ClaimId(claimed[i].id, token))
  }

  function PhaseFor(answer: Option<string>): Phase {
    if answer.None? then Delivered else Refused
  }

  lemma AnsweredKept(cfg: Config, barred: set<ClaimToken>, w: State, w': State, token: ClaimToken,
                     claimed: seq<OutboxRecord>, k: nat, transport: Transport)
    requires Inv(cfg, w) && Reaches(cfg, barred, w, w') && token in barred
    requires Answered(w, token, claimed, k, transport)
    ensures Answered(w', token, claimed, k, transport)
  {
    RunKeeps(cfg, barred, w, w');
    RunUntouched(cfg, barred, w, w', token);
    forall i | 0 <= i < k ensures AnsweredAt(w', token, claimed, i, transport) {
      var c := ClaimId(claimed[i].id, token);
      assert AnsweredAt(w, token, claimed, i, transport) && ClaimUntouched(w, w', c) && ClaimLater(w, w', c);
    }
  }

  /** A step under the claim of record k touches no other record's claim or row. */
  lemma AnsweredStep(cfg: Config, w: State, a: Action, token: ClaimToken, claimed: seq<OutboxRecord>, k: nat,
                     transport: Transport)
    requires k < |claimed| && Enabled(cfg, w, a) && (a.Deliver? || a.Publish? || a.Fail?)
    requires a.claim == ClaimId(claimed[k].id, token)
    requires forall i, j :: 0 <= i < j < |claimed| ==> claimed[i].id != claimed[j].id
    requires Answered(w, token, claimed, k, transport)
    ensures Answered(Step(cfg, w, a), token, claimed, k, transport)
  {
    forall i | 0 <= i < k ensures AnsweredAt(Step(cfg, w, a), token, claimed, i, transport) {
      assert AnsweredAt(w, token, claimed, i, transport) && claimed[i].id != claimed[k].id;
    }
  }

  /** After its finalizing statement a record is answered for good. */
  lemma AnsweredFinal(cfg: Config, w: State, a: Action, token: ClaimToken, claimed: seq<OutboxRecord>, k: nat,
                      transport: Transport)
    requires k < |claimed| && Enabled(cfg, w, a) && (a.Publish? || a.Fail?)
    requires a.claim == ClaimId(claimed[k].id, token)
    requires HeldAs(w, token, claimed[k], PhaseFor(transport(k, claimed[k].row.envelope)))
    requires forall i, j :: 0 <= i < j < |claimed| ==> claimed[i].id != claimed[j].id
    requires Answered(w, token, claimed, k, transport)
    ensures Answered(Step(cfg, w, a), token, claimed, k + 1, transport)
  {
    AnsweredStep(cfg, w, a, token, claimed, k, transport);
    assert AnsweredAt(Step(cfg, w, a), token, claimed, k, transport);
  }

  ghost predicate Owns(w: State, c: ClaimId) {
    T.Owns(w.rows, c.id, c.token)
  }

  ghost function OutcomeOf(cfg: Config, w: State, a: Action, c: ClaimId): Outcome
    requires Inv(cfg, w) && Owns(w, c)
  {
    if a.Publish? then Succeeded else if w.rows[c.id].attempts + 1 >= cfg.maxAttempts then Died else Retried
  }

  class OutboxPublisher {
    const store: OutboxStore
    const workerId: string
    const batchSize: nat
    const lease: real
    /** The rows given to the dead-letter hook, in order. */
    var notified: seq<RowId>
    /** The events given to the transport, in order. */
    var offered: seq<Envelope>

    constructor (store: OutboxStore, workerId: string, batchSize: nat, lease: real)
      ensures this.store == store && this.workerId == workerId && this.batchSize == batchSize && this.lease == lease
      ensures notified == [] && offered == []
    {
      this.store, this.workerId, this.batchSize, this.lease := store, workerId, batchSize, lease;
      notified, offered := [], [];
    }

    /** Offer one claimed record to the transport; others run until its outcome is finalized. */
    method Offer(claimed: seq<OutboxRecord>, k: nat, token: ClaimToken, transport: Transport,
                 ghost reserved: set<ClaimToken>)
      returns (answer: Option<string>)
      requires store.Valid() && token in reserved && k < |claimed| && HeldFrom(store.world, token, claimed, k)
      requires Answered(store.world, token, claimed, k, transport)
      modifies this, store
      ensures notified == old(notified) && offered == old(offered) + [claimed[k].row.envelope]
      ensures store.Valid() && Reaches(store.cfg, reserved - {token}, old(store.world), store.world)
      ensures HeldFrom(store.world, token, claimed, k + 1) && Answered(store.world, token, claimed, k, transport)
      ensures answer == transport(k, claimed[k].row.envelope)
      ensures HeldAs(store.world, token, claimed[k], PhaseFor(answer))
      ensures TallyAdds(token, old(store.world), store.world, None)
    {
      ghost var c, own := ClaimId(claimed[k].id, token), reserved - {token};
      ghost var w0 := store.world;
      assert Held(w0, token, claimed[k]);
      answer := transport(k, claimed[k].row.envelope);
      offered := offered + [claimed[k].row.envelope];
      AnsweredStep(store.cfg, w0, Deliver(c, answer.None?), token, claimed, k, transport);
      store.NoteDelivery(c, answer.None?);
      ghost var w1 := store.world;
      ReachesStep(store.cfg, own, w0, Deliver(c, answer.None?));
      store.Others(reserved);
      AnsweredKept(store.cfg, reserved, w1, store.world, token, claimed, k, transport);
      ReachesMore(store.cfg, own, reserved, w1, store.world);
      ReachesTrans(store.cfg, own, w0, w1, store.world);
      RunUntouched(store.cfg, reserved, w1, store.world, token);
      HeldKept(w1, store.world, token, claimed, k + 1);
      assert ClaimUntouched(w1, store.world, c);
    }

    /** Finalize the outcome of a delivered or refused record. */
    method Finalize(claimed: seq<OutboxRecord>, k: nat, token: ClaimToken, answer: Option<string>,
                    ghost transport: Transport,
                    ghost reserved: set<ClaimToken>)
      returns (v: Verdict, ghost accepted: Option<Outcome>)
      requires store.Valid() && token in reserved && k < |claimed| && HeldFrom(store.world, token, claimed, k + 1)
      requires Answered(store.world, token, claimed, k, transport) && answer == transport(k, claimed[k].row.envelope)
      requires HeldAs(store.world, token, claimed[k], PhaseFor(answer))
      modifies store
      ensures store.Valid() && Reaches(store.cfg, reserved - {token}, old(store.world), store.world)
      ensures HeldFrom(store.world, token, claimed, k + 1) && Answered(store.world, token, claimed, k + 1, transport)
      ensures TallyAdds(token, old(store.world), store.world, accepted) && VerdictOk(store.cfg, v, accepted)
      ensures v.CountDead? ==> AllDead(store.world, [claimed[k].id])
      ensures accepted.Some? <==> old(Owns(store.world, ClaimId(claimed[k].id, token)))
      ensures accepted.Some? ==>
                var id := claimed[k].id;
                && id in old(store.rows) && id in store.rows
                && var (was, row) := (old(store.rows)[id], store.rows[id]);
                   && (answer.None? ==> row.status.Published? && row.publishedAt == Some(store.now))
                   && (answer.Some? ==>
                        && row.lastError == answer && row.availableAt == store.now + store.cfg.backoff
                        && row.attempts == was.attempts + 1
                        && row.status == if row.attempts >= store.cfg.maxAttempts then T.DeadLetter else T.Pending)
    {
      hide Reaches, Answered;
      ghost var c, w := ClaimId(claimed[k].id, token), store.world;
      ghost var a := if answer.None? then Publish(c) else Fail(c, answer.value);
      FinalEffect(store.cfg, w, a, c, claimed, k + 1);
      AnsweredFinal(store.cfg, w, a, token, claimed, k, transport);
      assert RowOk(store.cfg, w, c.id);
      ReachesStep(store.cfg, reserved - {token}, w, a);
      accepted := if Owns(w, c) then Some(OutcomeOf(store.cfg, w, a, c)) else None;
      if answer.Some? {
        var finalized := store.MarkFailed(claimed[k].id, token, answer.value);
        if !finalized {
          v := CountStale;
        } else if AttemptedToDeath(claimed[k].row, store.cfg.maxAttempts) {
          v := CountDead;
        } else {
          v := CountRetried;
        }
      } else {
        var finalized := store.MarkPublished(claimed[k].id, token);
        v := if finalized then CountPublished else CountStale;
      }
    }

    /** One iteration of the drain loop, with the dead-letter hook. */
    method PublishOne(claimed: seq<OutboxRecord>, k: nat, token: ClaimToken, transport: Transport,
                      sofar: PublishReport, ghost stale0: nat, ghost reserved: set<ClaimToken>)
      returns (report: PublishReport, ghost stale: nat)
      requires store.Valid() && token in reserved && k < |claimed| && HeldFrom(store.world, token, claimed, k)
      requires ReportOk(store.cfg, store.world, token, sofar, stale0)
      requires Answered(store.world, token, claimed, k, transport)
      modifies this, store
      ensures store.Valid() && Reaches(store.cfg, reserved - {token}, old(store.world), store.world)
      ensures HeldFrom(store.world, token, claimed, k + 1) && Answered(store.world, token, claimed, k + 1, transport)
      ensures offered == old(offered) + [claimed[k].row.envelope]
      ensures report.claimed == sofar.claimed + 1 && ReportOk(store.cfg, store.world, token, report, stale)
      ensures sofar.deadLettered <= report.deadLettered <= sofar.deadLettered + 1
      ensures notified == old(notified) + if report.deadLettered > sofar.deadLettered then [claimed[k].id] else []
      ensures AllDead(store.world, notified[|old(notified)|..])
    {
      hide Reaches, Answered, HeldFrom, HeldAs, Inv;
      ghost var w1 := store.world;
      var answer := Offer(claimed, k, token, transport, reserved);
      ghost var w2 := store.world;
      var v; ghost var accepted;
      v, accepted := Finalize(claimed, k, token, answer, transport, reserved);
      ReachesTrans(store.cfg, reserved - {token}, w1, w2, store.world);
      CountOne(store.cfg, w1, w2, store.world, token, sofar, stale0, v, accepted);
      report, stale := Counted(sofar, v), if v.CountStale? then stale0 + 1 else stale0;
      if v.CountDead? {
        notified := notified + [claimed[k].id];
      }
    }

    /**
     `publish_pending`: every record of the batch is offered once with its own event and
     finalized by the answer, none is left owned under the token, and the report agrees
     with the finalizations that were accepted.
     */
    method PublishPending(token: ClaimToken, transport: Transport, locked: set<RowId>, ghost reserved: set<ClaimToken>)
      returns (report: PublishReport, ghost stale: nat, ghost batch: seq<OutboxRecord>)
      requires store.Valid() && Fresh(store.world, token) && token in reserved
      modifies this, store
      ensures store.Valid() && Reaches(store.cfg, reserved - {token}, old(store.world), store.world)
      ensures ReportOk(store.cfg, store.world, token, report, stale)
      ensures old(notified) <= notified && |notified| == |old(notified)| + report.deadLettered
      ensures AllDead(store.world, notified[|old(notified)|..]) && ToldOf(batch, |batch|, notified[|old(notified)|..])
      ensures offered == old(offered) + EnvelopesOf(batch) && |batch| <= batchSize
      ensures |batch| == report.claimed && Answered(store.world, token, batch, |batch|, transport)
      ensures forall i :: 0 <= i < |batch| ==>
                RecordOk(old(store.rows), workerId, token, old(store.now) + lease, batch[i])
      ensures store.cfg.rowLocks ==> IsScan(old(store.rows) - locked, old(store.now), batchSize, Ids(batch))
    {
      hide Reaches, Inv, Held, HeldAs, AnsweredAt, RecordOk, IsScan, ToldOf, ScanLe;
      ghost var own, w0, before := reserved - {token}, store.world, notified;
      var claimed; ghost var base;
      claimed, base := store.ClaimBatch(workerId, token, batchSize, lease, locked, reserved);
      batch := claimed;
      report := PublishReport(0, 0, 0, 0);
      ToldNobody(claimed);
      stale := 0;
      var k := 0;
      while k < |claimed|
        invariant 0 <= k <= |claimed| && report.claimed == k
        invariant store.Valid() && Reaches(store.cfg, own, w0, store.world)
        invariant HeldFrom(store.world, token, claimed, k)
        invariant ReportOk(store.cfg, store.world, token, report, stale)
        invariant Answered(store.world, token, claimed, k, transport)
        invariant offered == old(offered) + EnvelopesOf(claimed[..k])
        invariant before <= notified && |notified| == |before| + report.deadLettered
        invariant AllDead(store.world, notified[|before|..]) && ToldOf(claimed, k, notified[|before|..])
      {
        ghost var w1, told := store.world, notified;
        report, stale := PublishOne(claimed, k, token, transport, report, stale, reserved);
        ReachesTrans(store.cfg, own, w0, w1, store.world);
        NotifiedStayDead(store.cfg, own, w1, store.world, before, told, notified);
        ToldMore(claimed, k, told[|before|..], notified[|before|..]);
        assert claimed[..k + 1][..k] == claimed[..k];
        k := k + 1;
      }
      assert claimed[..k] == claimed;
    }

    /**
     `run`: reclaim and drain once per cycle, one fresh token each, until stop is set after
     the last.  Each cycle passes through a table in which no claim has run out before it
     claims its batch; the total is what its own batches got published.
     */
    method Run(tokens: seq<ClaimToken>, transport: Transport, locks: nat -> set<RowId>, interval: real)
      returns (total: Option<nat>, ghost cycles: seq<Sweep>)
      requires store.Valid()
      requires forall i, j :: 0 <= i < j < |tokens| ==> tokens[i] != tokens[j]
      requires forall i :: 0 <= i < |tokens| ==> Fresh(store.world, tokens[i])
      modifies this, store
      ensures store.Valid() && Reaches(store.cfg, {}, old(store.world), store.world)
      ensures interval <= 0.0 ==> total == None && store.world == old(store.world)
      ensures interval > 0.0 ==> total == Some(TotalFor(store.world.finals, tokens, Succeeded))
      ensures interval > 0.0 ==> |cycles| == |tokens|
      ensures forall k :: 0 <= k < |cycles| && k < |tokens| ==>
                && Claimed(store.cfg, cycles[k], locks(k), workerId, tokens[k], batchSize, lease)
                && SweptOn(store.cfg, old(store.world), cycles[k], store.world)
    {
      hide Reaches, Inv, Claimed, SweptOn;
      cycles := [];
      ghost var w0 := store.world;
      ReachesSelf(store.cfg, {}, w0);
      if interval <= 0.0 {
        return None, cycles;
      }
      ghost var reserved := set i | 0 <= i < |tokens| :: tokens[i];
      var sum: nat := 0;
      var k := 0;
      while k < |tokens|
        invariant store.Valid() && Reaches(store.cfg, {}, w0, store.world)
        invariant CyclesOk(store.world, tokens, k, sum) && |cycles| == k
        invariant forall j :: 0 <= j < k ==>
                    && Claimed(store.cfg, cycles[j], locks(j), workerId, tokens[j], batchSize, lease)
                    && SweptOn(store.cfg, w0, cycles[j], store.world)
      {
        ghost var w1 := store.world;
        Reclaim(reserved);
        ghost var w2 := store.world;
        store.Others(reserved);
        ghost var w3 := store.world;
        ReachesTrans(store.cfg, reserved, w1, w2, w3);
        CyclesKept(store.cfg, reserved, w1, w3, tokens, k, sum);
        var report; ghost var stale, batch;
        report, stale, batch := PublishPending(tokens[k], transport, locks(k), reserved);
        CycleDone(store.cfg, reserved - {tokens[k]}, w3, store.world, tokens, k, sum);
        Cycle(store.cfg, reserved, tokens[k], w0, w1, w3, store.world);
        ghost var cycle := Sweep(w2, w3, batch);
        ClaimedAfterSweep(store.cfg, cycle, locks(k), workerId, tokens[k], batchSize, lease);
        SweptInCycle(store.cfg, reserved, tokens[k], w0, w1, cycle, store.world);
        forall j | 0 <= j < k ensures SweptOn(store.cfg, w0, cycles[j], store.world) {
          SweptBefore(store.cfg, reserved, tokens[k], w0, cycles[j], w1, w3, store.world);
        }
        cycles := cycles + [cycle];
        sum := sum + report.published;
        k := k + 1;
      }
      assert tokens[..k] == tokens;
      total := Some(sum);
    }

    method Reclaim(ghost reserved: set<ClaimToken>)
      requires store.Valid()
      modifies store
      ensures store.Valid() && Reaches(store.cfg, reserved, old(store.world), store.world)
      ensures NothingExpired(store.world)
    {
      ghost var w0 := store.world;
      store.Others(reserved);
      ghost var w1 := store.world;
      ReachesStep(store.cfg, reserved, w1, ReclaimExpired);
      var n := store.ReclaimExpiredClaims();
      ReachesTrans(store.cfg, reserved, w0, w1, store.world);
    }
  }

  /** No claim has run out. */
  ghost predicate NothingExpired(w: State) {
    forall id :: id in w.rows ==> !T.Expired(w.rows[id], w.now)
  }

  /** One cycle: right after its sweep, right before its claim, and the batch it claimed then. */
  datatype Sweep = Sweep(swept: State, before: State, batch: seq<OutboxRecord>)

  ghost predicate Claimed(cfg: Config, c: Sweep, locked: set<RowId>, worker: string, token: ClaimToken, size: nat,
                          lease: real) {
    && NothingExpired(c.swept)
    && (forall i :: 0 <= i < |c.batch| ==> RecordOk(c.before.rows, worker, token, c.before.now + lease, c.batch[i]))
    && (cfg.rowLocks ==> IsScan(c.before.rows - locked, c.before.now, size, Ids(c.batch)))
  }

  /** The two moments lie on the run, in this order. */
  ghost predicate SweptOn(cfg: Config, from: State, c: Sweep, to: State) {
    Reaches(cfg, {}, from, c.swept) && Reaches(cfg, {}, c.swept, c.before) && Reaches(cfg, {}, c.before, to)
  }

  lemma ClaimedAfterSweep(cfg: Config, c: Sweep, locked: set<RowId>, worker: string, token: ClaimToken, size: nat,
                          lease: real)
    requires NothingExpired(c.swept)
    requires forall i :: 0 <= i < |c.batch| ==>
               RecordOk(c.before.rows, worker, token, c.before.now + lease, c.batch[i])
    requires cfg.rowLocks ==> IsScan(c.before.rows - locked, c.before.now, size, Ids(c.batch))
    ensures Claimed(cfg, c, locked, worker, token, size, lease)
  {
  }

  lemma SweptInCycle(cfg: Config, reserved: set<ClaimToken>, t: ClaimToken, w0: State, w1: State, c: Sweep, w: State)
    requires Reaches(cfg, {}, w0, w1) && Reaches(cfg, reserved, w1, c.swept)
    requires Reaches(cfg, reserved, c.swept, c.before)
    requires Reaches(cfg, reserved - {t}, c.before, w)
    ensures SweptOn(cfg, w0, c, w)
  {
    ReachesMore(cfg, {}, reserved, w1, c.swept);
    ReachesTrans(cfg, {}, w0, w1, c.swept);
    ReachesMore(cfg, {}, reserved, c.swept, c.before);
    ReachesMore(cfg, {}, reserved - {t}, c.before, w);
  }

  lemma SweptBefore(cfg: Config, reserved: set<ClaimToken>, t: ClaimToken, w0: State, c: Sweep, w1: State, w3: State,
                    w: State)
    requires SweptOn(cfg, w0, c, w1) && Reaches(cfg, reserved, w1, w3) && Reaches(cfg, reserved - {t}, w3, w)
    ensures SweptOn(cfg, w0, c, w)
  {
    Cycle(cfg, reserved, t, c.before, w1, w3, w);
  }

  lemma Cycle(cfg: Config, reserved: set<ClaimToken>, t: ClaimToken, w0: State, w1: State, w2: State, w3: State)
    requires Reaches(cfg, {}, w0, w1) && Reaches(cfg, reserved, w1, w2) && Reaches(cfg, reserved - {t}, w2, w3)
    ensures Reaches(cfg, {}, w0, w3)
  {
    ReachesMore(cfg, {}, reserved, w1, w2);
    ReachesMore(cfg, {}, reserved - {t}, w2, w3);
    ReachesTrans(cfg, {}, w0, w1, w2);
    ReachesTrans(cfg, {}, w0, w2, w3);
  }

  /** Accepted finalizations of several batches. */
  function TotalFor(finals: seq<Final>, tokens: seq<ClaimToken>, o: Outcome): nat {
    if tokens == [] then 0
    else TotalFor(finals, tokens[..|tokens| - 1], o) + TallyToken(finals, tokens[|tokens| - 1], o)
  }

  lemma {:induction false} TotalKept(cfg: Config, barred: set<ClaimToken>, w: State, w': State,
                                     tokens: seq<ClaimToken>, o: Outcome)
    requires Reaches(cfg, barred, w, w') && forall i :: 0 <= i < |tokens| ==> tokens[i] in barred
    ensures TotalFor(w'.finals, tokens, o) == TotalFor(w.finals, tokens, o)
  {
    if tokens != [] {
      TotalKept(cfg, barred, w, w', tokens[..|tokens| - 1], o);
      RunUntouched(cfg, barred, w, w', tokens[|tokens| - 1]);
    }
  }

  /** Tokens that are still unused stay unused while nobody holding them acts. */
  lemma FreshKept(cfg: Config, barred: set<ClaimToken>, w: State, w': State, t: ClaimToken)
    requires Reaches(cfg, barred, w, w') && t in barred && Fresh(w, t)
    ensures Fresh(w', t)
  {
    RunUntouched(cfg, barred, w, w', t);
    forall c | c in w'.scans ensures c.token != t {
      assert c.token == t ==> ClaimUntouched(w, w', c);
    }
  }

  /** The batches before k are counted, the tokens from k on unused. */
  ghost predicate CyclesOk(w: State, tokens: seq<ClaimToken>, k: nat, total: nat) {
    && k <= |tokens|
    && total == TotalFor(w.finals, tokens[..k], Succeeded)
    && forall j :: k <= j < |tokens| ==> Fresh(w, tokens[j])
  }

  lemma CyclesKept(cfg: Config, barred: set<ClaimToken>, w: State, w': State, tokens: seq<ClaimToken>, k: nat,
                   total: nat)
    requires Reaches(cfg, barred, w, w') && CyclesOk(w, tokens, k, total)
    requires forall i :: 0 <= i < |tokens| ==> tokens[i] in barred
    ensures CyclesOk(w', tokens, k, total)
  {
    TotalKept(cfg, barred, w, w', tokens[..k], Succeeded);
    forall j | k <= j < |tokens| ensures Fresh(w', tokens[j]) {
      FreshKept(cfg, barred, w, w', tokens[j]);
    }
  }

  lemma CycleDone(cfg: Config, barred: set<ClaimToken>, w: State, w': State, tokens: seq<ClaimToken>, k: nat,
                  total: nat)
    requires Reaches(cfg, barred, w, w') && k < |tokens| && CyclesOk(w, tokens, k, total)
    requires forall i :: 0 <= i < |tokens| && i != k ==> tokens[i] in barred
    ensures CyclesOk(w', tokens, k + 1, total + TallyToken(w'.finals, tokens[k], Succeeded))
  {
    TotalKept(cfg, barred, w, w', tokens[..k], Succeeded);
    assert tokens[..k + 1][..k] == tokens[..k];
    forall j | k + 1 <= j < |tokens| ensures Fresh(w', tokens[j]) {
      FreshKept(cfg, barred, w, w', tokens[j]);
    }
  }

  /** One more record in the report. */
  function Counted(r: PublishReport, v: Verdict): PublishReport {
    var next := r.(claimed := r.claimed + 1);
    match v
    case CountPublished => next.(published := r.published + 1)
    case CountRetried => next.(retried := r.retried + 1)
    case CountDead => next.(deadLettered := r.deadLettered + 1)
    case CountStale => next
  }

  lemma CountOne(cfg: Config, w1: State, w2: State, w3: State, token: ClaimToken, r: PublishReport, stale: nat,
                 v: Verdict, accepted: Option<Outcome>)
    requires ReportOk(cfg, w1, token, r, stale)
    requires TallyAdds(token, w1, w2, None) && TallyAdds(token, w2, w3, accepted) && VerdictOk(cfg, v, accepted)
    ensures ReportOk(cfg, w3, token, Counted(r, v), if v.CountStale? then stale + 1 else stale)
  {
    assert TallyToken(w2.finals, token, Succeeded) == TallyToken(w1.finals, token, Succeeded);
    assert TallyToken(w2.finals, token, Retried) == TallyToken(w1.finals, token, Retried);
    assert TallyToken(w2.finals, token, Died) == TallyToken(w1.finals, token, Died);
    match accepted
    case None =>
    case Some(o) => assert o == Succeeded || o == Retried || o == Died;
  }
}
