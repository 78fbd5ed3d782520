/**
 Delivery order for one publisher at work: batch after batch, with commits and time
 passing at every point, refusals, backoff and dead letters.  A stream is delivered in
 order exactly as long as no record is taken while an earlier one is not published.
 */
module StreamOrder {
  import opened Prelude
  import opened Events
  import opened OutboxTable
  import opened OutboxScan
  import P = OutboxProtocol
  import R = OutboxRuns

  /**
   `batch` holds the claimed records that are not finalized yet, `answer` the transport's
   answer to the first of them once it was offered, `token` the token of the last batch.
   */
  datatype Log = Log(now: real, rows: Table, delivered: seq<Envelope>, batch: seq<RowId>,
                     answer: Option<Option<string>>, token: ClaimToken)

  datatype Event =
    | Append(id: RowId, envelope: Envelope, key: Option<string>, recordedAt: real)
    | Claim(limit: nat, ids: seq<RowId>, worker: string, expiresAt: real)
    | Offer(reply: Option<string>)
    | Settle
    | Sweep
    | Wait(until: real)

  const Empty := Log(0.0, map[], [], [], None, 0)

  predicate InStream(rows: Table, id: RowId, st: Stream) {
    id in rows && rows[id].envelope.stream == st
  }

  ghost predicate HasSequence(rows: Table, st: Stream, n: nat) {
    exists id :: InStream(rows, id, st) && rows[id].envelope.sequence == n
  }

  /**
   `Append` is the commit of a `record_next`: its sequence is the stream's next one, and
   its clock was read after that of every event it saw committed.
   */
  ghost predicate CanHappen(l: Log, e: Event) {
    match e
    case Append(id, env, _, at) =>
      && id !in l.rows && at <= l.now
      && (forall n: nat :: n < env.sequence <==> HasSequence(l.rows, env.stream, n))
      && (forall i :: InStream(l.rows, i, env.stream) ==> l.rows[i].createdAt <= at)
    case Claim(limit, ids, _, _) => l.batch == [] && IsScan(l.rows, l.now, limit, ids)
    case Offer(_) => l.batch != [] && l.answer.None?
    case Settle => l.batch != [] && l.answer.Some?
    case Sweep => l.batch == []
    case Wait(t) => l.now <= t
  }

  /** The finalizing statement for the first record of the batch. */
  function Finalized(cfg: P.Config, l: Log): Table
    requires l.batch != [] && l.answer.Some?
  {
    if l.answer.value.None? then MarkPublished(l.rows, l.batch[0], l.token, l.now)
    else MarkFailed(l.rows, l.batch[0], l.token, l.answer.value.value, cfg.maxAttempts, l.now + cfg.backoff)
  }

  ghost function Happen(cfg: P.Config, l: Log, e: Event): Log
    requires CanHappen(l, e)
  {
    match e
    case Append(id, env, key, at) => l.(rows := l.rows[id := NewRow(env, key, at)])
    case Claim(_, ids, worker, expiresAt) =>
      l.(rows := FlipAll(l.rows, ids, worker, l.token + 1, expiresAt), batch := ids, token := l.token + 1)
    case Offer(reply) =>
      l.(answer := Some(reply),
         delivered := l.delivered
           + if reply.None? && l.batch[0] in l.rows then [l.rows[l.batch[0]].envelope] else [])
    case Settle => l.(rows := Finalized(cfg, l), batch := l.batch[1..], answer := None)
    case Sweep => l.(rows := Reclaim(l.rows, l.now))
    case Wait(t) => l.(now := t)
  }

  // ----- what every history keeps -----

  /** A row never refused is available since it was recorded; a publishing row is in the batch. */
  ghost predicate RowOk(l: Log, id: RowId) {
    id in l.rows ==>
      var r := l.rows[id];
      && r.createdAt <= l.now && (r.attempts == 0 ==> r.availableAt == r.createdAt)
      && (r.status.Publishing? <==> id in l.batch)
      && (id in l.batch ==> r.claimToken == Some(l.token))
      && (r.status.DeadLetter? ==> r.attempts > 0)
  }

  /** Positions of a stream are different, and earlier ones were recorded no later. */
  ghost predicate PairOk(rows: Table, i: RowId, j: RowId) {
    i in rows && j in rows && i != j && rows[i].envelope.stream == rows[j].envelope.stream ==>
      && rows[i].envelope.sequence != rows[j].envelope.sequence
      && (rows[i].envelope.sequence < rows[j].envelope.sequence ==> rows[i].createdAt <= rows[j].createdAt)
  }

  ghost predicate Dense(rows: Table, i: RowId, n: nat) {
    i in rows && n < rows[i].envelope.sequence ==> HasSequence(rows, rows[i].envelope.stream, n)
  }

  /** Row i comes before row j in their stream. */
  predicate Before(rows: Table, i: RowId, j: RowId) {
    && i in rows && j in rows && rows[i].envelope.stream == rows[j].envelope.stream
    && rows[i].envelope.sequence < rows[j].envelope.sequence
  }

  predicate Passed(r: Row) {
    r.status.Published? || r.attempts > 0
  }

  ghost predicate BatchOk(l: Log) {
    && (l.answer.Some? ==> l.batch != [])
    && (forall p :: 0 <= p < |l.batch| ==> l.batch[p] in l.rows)
    && (forall p, q :: 0 <= p < q < |l.batch| ==> l.batch[p] != l.batch[q])
    && forall p, q :: 0 <= p < q < |l.batch| ==> !Before(l.rows, l.batch[q], l.batch[p])
  }

  /** What comes before a batch row in its stream was passed or is offered before it. */
  ghost predicate AheadOk(l: Log, q: nat, i: RowId) {
    q < |l.batch| && Before(l.rows, i, l.batch[q]) ==> Passed(l.rows[i]) || i in l.batch[..q]
  }

  ghost predicate Inv(l: Log) {
    && (forall id :: RowOk(l, id))
    && (forall i, j :: PairOk(l.rows, i, j))
    && (forall i, n :: Dense(l.rows, i, n))
    && BatchOk(l)
    && forall q, i :: AheadOk(l, q, i)
  }

  lemma InvEmpty()
    ensures Inv(Empty)
  {
  }

  // ----- the flips of a batch -----

  /** Everything about a row but its claim is as before the flips. */
  ghost predicate FlippedFrom(l: Log, l': Log, ids: seq<RowId>) {
    && l'.now == l.now && l'.batch == ids && l'.answer == l.answer && l'.rows.Keys == l.rows.Keys
    && forall id :: id in l.rows ==>
         && l'.rows[id].envelope == l.rows[id].envelope && l'.rows[id].attempts == l.rows[id].attempts
         && l'.rows[id].createdAt == l.rows[id].createdAt && l'.rows[id].availableAt == l.rows[id].availableAt
         && (if id in ids then l'.rows[id].status.Publishing? && l'.rows[id].claimToken == Some(l'.token)
             else l'.rows[id].status == l.rows[id].status)
  }

  lemma ClaimFlips(cfg: P.Config, l: Log, e: Event)
    requires e.Claim? && CanHappen(l, e)
    ensures FlippedFrom(l, Happen(cfg, l, e), e.ids)
    ensures forall p :: 0 <= p < |e.ids| ==> e.ids[p] in l.rows && Deliverable(l.rows[e.ids[p]], l.now)
  {
    forall id | id in l.rows || id in Happen(cfg, l, e).rows
      ensures id in l.rows && id in Happen(cfg, l, e).rows
      ensures id !in e.ids ==> Happen(cfg, l, e).rows[id] == l.rows[id]
      ensures id in e.ids ==>
                Happen(cfg, l, e).rows[id]
                  == l.rows[id].(status := Publishing, claimedBy := Some(e.worker), claimToken := Some(l.token + 1),
                                 claimExpiresAt := Some(e.expiresAt))
    {
      FlipAllRow(l.rows, e.ids, e.worker, l.token + 1, e.expiresAt, id);
    }
  }

  /** A scan meets the deliverable rows of a stream in sequence order and skips none. */
  lemma ScanSkipsNone(l: Log, limit: nat, ids: seq<RowId>, q: nat, i: RowId)
    requires (forall a, b :: PairOk(l.rows, a, b)) && IsScan(l.rows, l.now, limit, ids) && q < |ids|
    requires Before(l.rows, i, ids[q]) && Deliverable(l.rows[i], l.now)
    ensures i in ids[..q]
  {
    assert !ScanLe(l.rows[ids[q]], l.rows[i]);
    assert i in ids;
    var p :| 0 <= p < |ids| && ids[p] == i;
    assert ids[..q][p] == i;
  }

  lemma ClaimKeeps(cfg: P.Config, l: Log, e: Event)
    requires Inv(l) && e.Claim? && CanHappen(l, e)
    ensures Inv(Happen(cfg, l, e))
  {
    var l' := Happen(cfg, l, e);
    ClaimFlips(cfg, l, e);
    forall id ensures RowOk(l', id) {
      assert RowOk(l, id);
    }
    forall i, j ensures PairOk(l'.rows, i, j) {
      assert PairOk(l.rows, i, j);
    }
    forall i, n ensures Dense(l'.rows, i, n) {
      FlippedDense(l, l', e.ids, i, n);
    }
    forall q, i ensures AheadOk(l', q, i) {
      ClaimAhead(l, l', e.limit, e.ids, q, i);
    }
  }

  lemma FlippedDense(l: Log, l': Log, ids: seq<RowId>, i: RowId, n: nat)
    requires FlippedFrom(l, l', ids) && Dense(l.rows, i, n)
    ensures Dense(l'.rows, i, n)
  {
    if i in l.rows && n < l.rows[i].envelope.sequence {
      var st := l.rows[i].envelope.stream;
      var k :| InStream(l.rows, k, st) && l.rows[k].envelope.sequence == n;
      assert InStream(l'.rows, k, st) && l'.rows[k].envelope.sequence == n;
    }
  }

  lemma ClaimAhead(l: Log, l': Log, limit: nat, ids: seq<RowId>, q: nat, i: RowId)
    requires Inv(l) && l.batch == [] && IsScan(l.rows, l.now, limit, ids) && FlippedFrom(l, l', ids)
    ensures AheadOk(l', q, i)
  {
    if q < |ids| && Before(l.rows, i, ids[q]) && !Passed(l.rows[i]) {
      assert RowOk(l, i) && RowOk(l, ids[q]) && PairOk(l.rows, i, ids[q]);
      ScanSkipsNone(l, limit, ids, q, i);
    }
  }

  // ----- the other events -----

  lemma AppendKeeps(cfg: P.Config, l: Log, e: Event)
    requires Inv(l) && e.Append? && CanHappen(l, e)
    ensures Inv(Happen(cfg, l, e))
  {
    var l' := Happen(cfg, l, e);
    forall id ensures RowOk(l', id) {
      assert RowOk(l, id);
    }
    forall i, j ensures PairOk(l'.rows, i, j) {
      AppendedPair(l, e, l'.rows, i, j);
    }
    forall i, n ensures Dense(l'.rows, i, n) {
      AppendedDense(l, e, l'.rows, i, n);
    }
    forall q: nat, i ensures AheadOk(l', q, i) {
      assert AheadOk(l, q, i);
      if i == e.id && q < |l.batch| && InStream(l.rows, l.batch[q], e.envelope.stream) {
        AppendedLast(l, e, l.batch[q]);
      }
    }
  }

  /** An appended event has the highest sequence of its stream. */
  lemma AppendedLast(l: Log, e: Event, i: RowId)
    requires e.Append? && CanHappen(l, e) && InStream(l.rows, i, e.envelope.stream)
    ensures l.rows[i].envelope.sequence < e.envelope.sequence
  {
    assert HasSequence(l.rows, e.envelope.stream, l.rows[i].envelope.sequence);
  }

  lemma AppendedPair(l: Log, e: Event, rows: Table, i: RowId, j: RowId)
    requires e.Append? && CanHappen(l, e) && rows == l.rows[e.id := NewRow(e.envelope, e.key, e.recordedAt)]
    requires PairOk(l.rows, i, j)
    ensures PairOk(rows, i, j)
  {
    if i in l.rows && j == e.id && InStream(l.rows, i, e.envelope.stream) {
      AppendedLast(l, e, i);
    }
    if j in l.rows && i == e.id && InStream(l.rows, j, e.envelope.stream) {
      AppendedLast(l, e, j);
    }
  }

  lemma AppendedDense(l: Log, e: Event, rows: Table, i: RowId, n: nat)
    requires e.Append? && CanHappen(l, e) && rows == l.rows[e.id := NewRow(e.envelope, e.key, e.recordedAt)]
    requires Dense(l.rows, i, n)
    ensures Dense(rows, i, n)
  {
    if i in rows && n < rows[i].envelope.sequence {
      var st := rows[i].envelope.stream;
      assert HasSequence(l.rows, st, n);
      var k :| InStream(l.rows, k, st) && l.rows[k].envelope.sequence == n;
      assert InStream(rows, k, st);
    }
  }

  /** The finalized row keeps its event and is passed from then on; no other row changes. */
  lemma FinalizedRow(cfg: P.Config, l: Log)
    requires Inv(l) && l.batch != [] && l.answer.Some?
    ensures var (id, rows) := (l.batch[0], Finalized(cfg, l));
            && id in l.rows && rows == l.rows[id := rows[id]]
            && rows[id].envelope == l.rows[id].envelope && rows[id].createdAt == l.rows[id].createdAt
            && !rows[id].status.Publishing? && Passed(rows[id])
            && (rows[id].status.Published? <==> l.answer.value.None?)
            && (rows[id].status.DeadLetter? ==> rows[id].attempts > 0)
            && (rows[id].attempts == 0 ==> rows[id].availableAt == rows[id].createdAt)
            && (l.answer.value.None? ==> rows[id].attempts == l.rows[id].attempts)
  {
    assert RowOk(l, l.batch[0]);
  }

  lemma SettleKeeps(cfg: P.Config, l: Log)
    requires Inv(l) && CanHappen(l, Settle)
    ensures Inv(Happen(cfg, l, Settle))
  {
    var l' := Happen(cfg, l, Settle);
    var id := l.batch[0];
    FinalizedRow(cfg, l);
    hide Finalized;
    forall i ensures RowOk(l', i) {
      assert RowOk(l, i);
      assert i in l.batch <==> i == id || i in l'.batch;
    }
    forall i, j ensures PairOk(l'.rows, i, j) {
      assert PairOk(l.rows, i, j);
    }
    forall i, n ensures Dense(l'.rows, i, n) {
      SettledDense(l, l', i, n);
    }
    forall q, i ensures AheadOk(l', q, i) {
      SettledAhead(l, l', q, i);
    }
  }

  /** The event of every row, and its place, are as they were. */
  ghost predicate SamePlaces(rows: Table, rows': Table) {
    rows'.Keys == rows.Keys && forall i :: i in rows ==> rows'[i].envelope == rows[i].envelope
  }

  lemma SettledDense(l: Log, l': Log, i: RowId, n: nat)
    requires SamePlaces(l.rows, l'.rows) && Dense(l.rows, i, n)
    ensures Dense(l'.rows, i, n)
  {
    if i in l.rows && n < l.rows[i].envelope.sequence {
      var st := l.rows[i].envelope.stream;
      var k :| InStream(l.rows, k, st) && l.rows[k].envelope.sequence == n;
      assert InStream(l'.rows, k, st) && l'.rows[k].envelope.sequence == n;
    }
  }

  lemma SettledAhead(l: Log, l': Log, q: nat, i: RowId)
    requires l.batch != [] && l'.batch == l.batch[1..] && AheadOk(l, q + 1, i) && SamePlaces(l.rows, l'.rows)
    requires forall k :: k in l.rows && k != l.batch[0] ==> l'.rows[k] == l.rows[k]
    requires l.batch[0] in l'.rows && Passed(l'.rows[l.batch[0]])
    ensures AheadOk(l', q, i)
  {
    if q < |l'.batch| && Before(l'.rows, i, l'.batch[q]) && i != l.batch[0] {
      assert l'.batch[q] == l.batch[q + 1];
      if !Passed(l.rows[i]) {
        var p :| 0 <= p < q + 1 && l.batch[..q + 1][p] == i;
        assert l'.batch[..q][p - 1] == i;
      }
    }
  }

  lemma SweepIsIdle(l: Log)
    requires Inv(l) && l.batch == []
    ensures Reclaim(l.rows, l.now) == l.rows
  {
    forall id | id in l.rows ensures !Expired(l.rows[id], l.now) {
      assert RowOk(l, id);
    }
  }

  lemma OthersKeep(cfg: P.Config, l: Log, e: Event)
    requires Inv(l) && CanHappen(l, e) && (e.Offer? || e.Wait?)
    ensures Inv(Happen(cfg, l, e))
  {
    var l' := Happen(cfg, l, e);
    forall id ensures RowOk(l', id) {
      assert RowOk(l, id);
    }
    forall q, i ensures AheadOk(l', q, i) {
      assert AheadOk(l, q, i);
    }
  }

  lemma InvStep(cfg: P.Config, l: Log, e: Event)
    requires Inv(l) && CanHappen(l, e)
    ensures Inv(Happen(cfg, l, e))
  {
    match e
    case Append(_, _, _, _) => AppendKeeps(cfg, l, e);
    case Claim(_, _, _, _) => ClaimKeeps(cfg, l, e);
    case Settle => SettleKeeps(cfg, l);
    case Sweep => SweepIsIdle(l);
    case _ => OthersKeep(cfg, l, e);
  }

  // ----- runs -----

  ghost predicate Leads(cfg: P.Config, l: Log, run: seq<Event>, l': Log)
    decreases |run|
  {
    if run == [] then l' == l
    else CanHappen(l, run[0]) && Leads(cfg, Happen(cfg, l, run[0]), run[1..], l')
  }

  lemma {:induction false} LeadsInv(cfg: P.Config, l: Log, run: seq<Event>, l': Log)
    requires Inv(l) && Leads(cfg, l, run, l')
    ensures Inv(l')
    decreases |run|
  {
    if run != [] {
      InvStep(cfg, l, run[0]);
      LeadsInv(cfg, Happen(cfg, l, run[0]), run[1..], l');
    }
  }

  // ----- one delivery -----

  /** Taken by the transport: published, or about to be. */
  predicate Taken(l: Log, id: RowId) {
    && id in l.rows
    && (l.rows[id].status.Published? || (l.answer == Some(None) && l.batch != [] && l.batch[0] == id))
  }

  /** Every earlier row of its stream is published. */
  ghost predicate AllBeforePublished(rows: Table, id: RowId) {
    forall i :: Before(rows, i, id) ==> rows[i].status.Published?
  }

  /** The transport takes a record of the stream only when all earlier ones are published. */
  ghost predicate Fair(l: Log, e: Event, st: Stream) {
    e.Offer? && e.reply.None? && l.batch != [] && InStream(l.rows, l.batch[0], st) ==>
      AllBeforePublished(l.rows, l.batch[0])
  }

  ghost predicate TakenOk(l: Log, id: RowId, st: Stream, k: nat) {
    InStream(l.rows, id, st) ==> (Taken(l, id) <==> l.rows[id].envelope.sequence < k)
  }

  /** The stream was delivered as 0, 1, 2, ..., and these are the rows that were taken. */
  ghost predicate Ordered(l: Log, st: Stream) {
    var k := |Of(l.delivered, st)|;
    && InOrder(Of(l.delivered, st))
    && (forall id :: TakenOk(l, id, st, k))
    && forall n :: 0 <= n < k ==> HasSequence(l.rows, st, n)
  }

  /** A record is the stream's next undelivered one exactly when all earlier ones are published. */
  lemma NextToDeliver(l: Log, st: Stream)
    requires Inv(l) && Ordered(l, st) && l.batch != [] && l.answer.None? && InStream(l.rows, l.batch[0], st)
    ensures l.rows[l.batch[0]].envelope.sequence == |Of(l.delivered, st)| <==> AllBeforePublished(l.rows, l.batch[0])
  {
    var (id, k) := (l.batch[0], |Of(l.delivered, st)|);
    assert RowOk(l, id) && TakenOk(l, id, st, k);
    if l.rows[id].envelope.sequence == k {
      forall i | Before(l.rows, i, id) ensures l.rows[i].status.Published? {
        assert TakenOk(l, i, st, k);
      }
    } else {
      assert Dense(l.rows, id, k);
      var i :| InStream(l.rows, i, st) && l.rows[i].envelope.sequence == k;
      assert TakenOk(l, i, st, k) && Before(l.rows, i, id);
    }
  }

  lemma OfOne(e: Envelope, st: Stream)
    ensures Of([e], st) == if e.stream == st then [e] else []
  {
    assert [e][..0] == [];
  }

  /** What an event adds to a stream's deliveries. */
  lemma DeliveredBy(cfg: P.Config, l: Log, e: Event, st: Stream)
    requires CanHappen(l, e)
    ensures var takes := e.Offer? && e.reply.None? && InStream(l.rows, l.batch[0], st);
            Of(Happen(cfg, l, e).delivered, st)
              == Of(l.delivered, st) + if takes then [l.rows[l.batch[0]].envelope] else []
  {
    assert Of(l.delivered, st) + [] == Of(l.delivered, st) && l.delivered + [] == l.delivered;
    if e.Offer? && e.reply.None? && l.batch[0] in l.rows {
      OfConcat(l.delivered, [l.rows[l.batch[0]].envelope], st);
      OfOne(l.rows[l.batch[0]].envelope, st);
    }
  }

  lemma InOrderAppend(before: seq<Envelope>, e: Envelope)
    requires InOrder(before)
    ensures InOrder(before + [e]) <==> e.sequence == |before|
  {
    InOrderConcat(before, [e]);
    assert StartsAt([e], |before|) <==> [e][0].sequence == |before|;
  }

  /** Where nothing is taken the taken rows stay what they were. */
  lemma TakenStays(cfg: P.Config, l: Log, e: Event, id: RowId, st: Stream, k: nat)
    requires Inv(l) && CanHappen(l, e) && TakenOk(l, id, st, k)
    requires e.Append? && e.envelope.stream == st ==> k <= e.envelope.sequence
    requires !(e.Offer? && e.reply.None? && l.batch[0] == id)
    ensures TakenOk(Happen(cfg, l, e), id, st, k)
  {
    match e
    case Claim(_, _, _, _) =>
      ClaimFlips(cfg, l, e);
      assert RowOk(l, id);
    case Settle =>
      FinalizedRow(cfg, l);
      assert RowOk(l, id);
    case Sweep =>
      SweepIsIdle(l);
    case _ =>
  }

  /** A new event is beyond what was delivered. */
  lemma AppendedIsUndelivered(l: Log, e: Event, st: Stream)
    requires Ordered(l, st) && e.Append? && CanHappen(l, e) && e.envelope.stream == st
    ensures |Of(l.delivered, st)| <= e.envelope.sequence
  {
    var k := |Of(l.delivered, st)|;
    assert k > 0 ==> HasSequence(l.rows, st, k - 1);
  }

  lemma SequenceStays(cfg: P.Config, l: Log, e: Event, st: Stream, n: nat)
    requires Inv(l) && CanHappen(l, e) && HasSequence(l.rows, st, n)
    ensures HasSequence(Happen(cfg, l, e).rows, st, n)
  {
    var i :| InStream(l.rows, i, st) && l.rows[i].envelope.sequence == n;
    match e {
      case Claim(_, _, _, _) => ClaimFlips(cfg, l, e);
      case Settle => FinalizedRow(cfg, l);
      case Sweep => SweepIsIdle(l);
      case _ =>
    }
    assert InStream(Happen(cfg, l, e).rows, i, st) && Happen(cfg, l, e).rows[i].envelope.sequence == n;
  }

  // ----- main results -----

  /**
   One event keeps a stream's delivery order exactly when it does not take a record while
   an earlier one of the stream is not published: refused in this batch, waiting out its
   backoff, or dead.
   */
  lemma TakeOrderExact(cfg: P.Config, l: Log, e: Event, st: Stream)
    requires Inv(l) && Ordered(l, st) && CanHappen(l, e)
    ensures InOrder(Of(Happen(cfg, l, e).delivered, st)) <==> Fair(l, e, st)
    ensures Fair(l, e, st) ==> Ordered(Happen(cfg, l, e), st)
  {
    DeliveredBy(cfg, l, e, st);
    if e.Offer? && e.reply.None? && InStream(l.rows, l.batch[0], st) {
      NextToDeliver(l, st);
      InOrderAppend(Of(l.delivered, st), l.rows[l.batch[0]].envelope);
      if Fair(l, e, st) {
        TakingKeeps(cfg, l, e, st);
      }
    } else {
      assert Of(l.delivered, st) + [] == Of(l.delivered, st);
      NotTakingKeeps(cfg, l, e, st);
    }
  }

  lemma TakingKeeps(cfg: P.Config, l: Log, e: Event, st: Stream)
    requires Inv(l) && Ordered(l, st) && CanHappen(l, e) && e.Offer? && e.reply.None?
    requires InStream(l.rows, l.batch[0], st) && l.rows[l.batch[0]].envelope.sequence == |Of(l.delivered, st)|
    ensures Ordered(Happen(cfg, l, e), st)
  {
    var (l', id, k) := (Happen(cfg, l, e), l.batch[0], |Of(l.delivered, st)|);
    var k' := k + 1;
    DeliveredBy(cfg, l, e, st);
    InOrderAppend(Of(l.delivered, st), l.rows[id].envelope);
    forall i ensures TakenOk(l', i, st, k') {
      assert TakenOk(l, i, st, k) && PairOk(l.rows, i, id) && RowOk(l, id);
    }
    forall n | 0 <= n < k' ensures HasSequence(l'.rows, st, n) {
      assert n < k ==> HasSequence(l.rows, st, n);
      assert InStream(l.rows, id, st);
    }
  }

  lemma NotTakingKeeps(cfg: P.Config, l: Log, e: Event, st: Stream)
    requires Inv(l) && Ordered(l, st) && CanHappen(l, e)
    requires !(e.Offer? && e.reply.None? && InStream(l.rows, l.batch[0], st))
    ensures Ordered(Happen(cfg, l, e), st)
  {
    var (l', k) := (Happen(cfg, l, e), |Of(l.delivered, st)|);
    DeliveredBy(cfg, l, e, st);
    assert Of(l.delivered, st) + [] == Of(l.delivered, st);
    if e.Append? && e.envelope.stream == st {
      AppendedIsUndelivered(l, e, st);
    }
    forall i ensures TakenOk(l', i, st, k) {
      assert TakenOk(l, i, st, k);
      if !(e.Offer? && e.reply.None? && l.batch[0] == i) {
        TakenStays(cfg, l, e, i, st, k);
      }
    }
    forall n | 0 <= n < k ensures HasSequence(l'.rows, st, n) {
      SequenceStays(cfg, l, e, st, n);
    }
  }

  /** Every taking along a run is fair to the stream. */
  ghost predicate FairRun(cfg: P.Config, l: Log, run: seq<Event>, st: Stream)
    decreases |run|
  {
    run != [] && CanHappen(l, run[0]) ==> Fair(l, run[0], st) && FairRun(cfg, Happen(cfg, l, run[0]), run[1..], st)
  }

  /** What was delivered stays delivered. */
  lemma {:induction false} DeliveriesGrow(cfg: P.Config, l: Log, run: seq<Event>, l': Log, st: Stream)
    requires Leads(cfg, l, run, l')
    ensures Of(l.delivered, st) <= Of(l'.delivered, st)
    decreases |run|
  {
    if run != [] {
      DeliveredBy(cfg, l, run[0], st);
      DeliveriesGrow(cfg, Happen(cfg, l, run[0]), run[1..], l', st);
    }
  }

  lemma {:induction false} RunOrderExact(cfg: P.Config, l: Log, run: seq<Event>, l': Log, st: Stream)
    requires Inv(l) && Ordered(l, st) && Leads(cfg, l, run, l')
    ensures InOrder(Of(l'.delivered, st)) <==> FairRun(cfg, l, run, st)
    ensures FairRun(cfg, l, run, st) ==> Ordered(l', st)
    decreases |run|
  {
    if run != [] {
      var next := Happen(cfg, l, run[0]);
      TakeOrderExact(cfg, l, run[0], st);
      if Fair(l, run[0], st) {
        InvStep(cfg, l, run[0]);
        RunOrderExact(cfg, next, run[1..], l', st);
      } else {
        DeliveriesGrow(cfg, next, run[1..], l', st);
        assert InOrder(Of(l'.delivered, st)) ==> InOrder(Of(next.delivered, st));
      }
    }
  }

  /**
   Over whole histories, with refusals, backoff, dead letters, commits and time passing
   anywhere: a stream is delivered in order exactly when the transport never took a record
   of it while an earlier one was not published.
   */
  lemma HistoryOrderExact(cfg: P.Config, run: seq<Event>, l: Log, st: Stream)
    requires Leads(cfg, Empty, run, l)
    ensures InOrder(Of(l.delivered, st)) <==> FairRun(cfg, Empty, run, st)
  {
    InvEmpty();
    RunOrderExact(cfg, Empty, run, l, st);
  }

  /**
   What is overtaken was refused: whenever a record is about to be offered, each earlier one
   of its stream is published, or was refused at least once and is now waiting or dead.
   */
  lemma OvertakenWasRefused(cfg: P.Config, run: seq<Event>, l: Log, i: RowId)
    requires Leads(cfg, Empty, run, l) && l.batch != [] && Before(l.rows, i, l.batch[0])
    ensures l.rows[i].status.Published?
            || (l.rows[i].attempts > 0 && (l.rows[i].status.Pending? || l.rows[i].status.DeadLetter?))
  {
    InvEmpty();
    LeadsInv(cfg, Empty, run, l);
    assert AheadOk(l, 0, i) && RowOk(l, i) && RowOk(l, l.batch[0]);
    if i in l.batch {
      var p :| 0 <= p < |l.batch| && l.batch[p] == i;
    }
  }

  /** The transport takes every record of the stream it is offered. */
  ghost predicate TakesAll(cfg: P.Config, l: Log, run: seq<Event>, st: Stream)
    decreases |run|
  {
    run != [] && CanHappen(l, run[0]) ==>
      && (run[0].Offer? && InStream(l.rows, l.batch[0], st) ==> run[0].reply.None?)
      && TakesAll(cfg, Happen(cfg, l, run[0]), run[1..], st)
  }

  /** No record of the stream was ever refused. */
  ghost predicate NeverRefused(l: Log, st: Stream) {
    && (forall i :: InStream(l.rows, i, st) ==> l.rows[i].attempts == 0)
    && (l.batch != [] && InStream(l.rows, l.batch[0], st) && l.answer.Some? ==> l.answer.value.None?)
  }

  lemma NeverRefusedStep(cfg: P.Config, l: Log, e: Event, st: Stream)
    requires Inv(l) && NeverRefused(l, st) && CanHappen(l, e)
    requires e.Offer? && InStream(l.rows, l.batch[0], st) ==> e.reply.None?
    ensures NeverRefused(Happen(cfg, l, e), st)
  {
    match e
    case Claim(_, _, _, _) => ClaimFlips(cfg, l, e);
    case Settle => FinalizedRow(cfg, l);
    case Sweep => SweepIsIdle(l);
    case _ =>
  }

  lemma NeverRefusedIsFair(l: Log, e: Event, st: Stream)
    requires Inv(l) && NeverRefused(l, st) && CanHappen(l, e)
    ensures Fair(l, e, st)
  {
    if e.Offer? && InStream(l.rows, l.batch[0], st) {
      forall i | Before(l.rows, i, l.batch[0]) ensures l.rows[i].status.Published? {
        assert AheadOk(l, 0, i) && InStream(l.rows, i, st);
      }
    }
  }

  lemma {:induction false} TakesAllIsFair(cfg: P.Config, l: Log, run: seq<Event>, st: Stream)
    requires Inv(l) && NeverRefused(l, st) && TakesAll(cfg, l, run, st)
    ensures FairRun(cfg, l, run, st)
    decreases |run|
  {
    if run != [] && CanHappen(l, run[0]) {
      NeverRefusedIsFair(l, run[0], st);
      NeverRefusedStep(cfg, l, run[0], st);
      InvStep(cfg, l, run[0]);
      TakesAllIsFair(cfg, Happen(cfg, l, run[0]), run[1..], st);
    }
  }

  /**
   In every history whose transport takes the records of a stream, the stream is delivered
   as 0, 1, 2, ... without gap or repetition, and those rows are published, the last one as
   soon as it is finalized; other streams may be refused and die, and keep growing.
   */
  lemma DeliveredInOrder(cfg: P.Config, run: seq<Event>, l: Log, st: Stream)
    requires Leads(cfg, Empty, run, l) && TakesAll(cfg, Empty, run, st)
    ensures InOrder(Of(l.delivered, st))
    ensures forall id :: InStream(l.rows, id, st) ==>
              (Taken(l, id) <==> l.rows[id].envelope.sequence < |Of(l.delivered, st)|)
  {
    InvEmpty();
    TakesAllIsFair(cfg, Empty, run, st);
    RunOrderExact(cfg, Empty, run, l, st);
    forall id | InStream(l.rows, id, st)
      ensures Taken(l, id) <==> l.rows[id].envelope.sequence < |Of(l.delivered, st)|
    {
      assert TakenOk(l, id, st, |Of(l.delivered, st)|);
    }
  }

  // ----- a history that reorders -----

  lemma Then(cfg: P.Config, from: Log, run: seq<Event>, l: Log, e: Event) returns (run': seq<Event>, l': Log)
    requires Leads(cfg, from, run, l) && CanHappen(l, e)
    ensures run' == run + [e] && l' == Happen(cfg, l, e) && Leads(cfg, from, run', l')
  {
    run', l' := run + [e], Happen(cfg, l, e);
    LeadsThen(cfg, from, run, l, e);
  }

  lemma {:induction false} LeadsThen(cfg: P.Config, from: Log, run: seq<Event>, l: Log, e: Event)
    requires Leads(cfg, from, run, l) && CanHappen(l, e)
    ensures Leads(cfg, from, run + [e], Happen(cfg, l, e))
    decreases |run|
  {
    if run == [] {
      assert [e][1..] == [] && run + [e] == [e];
    } else {
      LeadsThen(cfg, Happen(cfg, from, run[0]), run[1..], l, e);
      assert (run + [e])[1..] == run[1..] + [e];
    }
  }

  const ST := Stream("t", "x")

  function EventAt(n: nat): Envelope {
    Envelope(n, "t", 1, ST, n, "", 0.0, None, None, None)
  }

  /** Events 0 and 1 of one stream are committed. */
  lemma TwoRecorded(cfg: P.Config) returns (run: seq<Event>, l: Log)
    ensures Leads(cfg, Empty, run, l)
    ensures l == Empty.(rows := TwoRows())
  {
    hide Leads;
    run, l := [], Empty;
    NoRun(cfg);
    run, l := Then(cfg, Empty, run, l, Append(0, EventAt(0), None, 0.0));
    assert l.rows == map[0 := NewRow(EventAt(0), None, 0.0)];
    assert InStream(l.rows, 0, ST);
    run, l := Then(cfg, Empty, run, l, Append(1, EventAt(1), None, 0.0));
    assert l.rows == TwoRows();
  }

  lemma NoRun(cfg: P.Config)
    ensures Leads(cfg, Empty, [], Empty)
  {
  }

  /** The first drain of one record: event 0 is refused. */
  lemma FirstRefused(cfg: P.Config) returns (run: seq<Event>, l: Log)
    requires cfg.backoff > 0.0
    ensures Leads(cfg, Empty, run, l) && l.now == 0.0 && l.batch == [] && l.answer.None? && l.delivered == []
    ensures l.rows.Keys == {0, 1} && !Deliverable(l.rows[0], 0.0) && !l.rows[0].status.Published?
    ensures l.rows[0].envelope == EventAt(0) && l.rows[1] == NewRow(EventAt(1), None, 0.0)
  {
    hide Leads;
    run, l := TwoRecorded(cfg);
    assert ScanLe(l.rows[0], l.rows[1]) && ScanLe(l.rows[0], l.rows[0]);
    run, l := Then(cfg, Empty, run, l, Claim(1, [0], "w", 30.0));
    FlipOne(TwoRows(), 0, 1);
    run, l := Then(cfg, Empty, run, l, Offer(Some("")));
    run, l := Then(cfg, Empty, run, l, Settle);
  }

  function TwoRows(): Table {
    map[0 := NewRow(EventAt(0), None, 0.0), 1 := NewRow(EventAt(1), None, 0.0)]
  }

  lemma FlipOne(rows: Table, id: RowId, token: ClaimToken)
    ensures FlipAll(rows, [id], "w", token, 30.0) == Flip(rows, id, "w", token, 30.0)
  {
    assert [id][..0] == [];
  }

  /**
   Two batches of one record each: event 0 is refused and waits out its backoff, event 1 is
   taken.  No batch refuses a record and takes a later one, and yet the stream is out of order.
   */
  lemma TwoDrainsReorder(cfg: P.Config) returns (run: seq<Event>, l: Log)
    requires cfg.backoff > 0.0
    ensures Leads(cfg, Empty, run, l) && Of(l.delivered, ST) == [EventAt(1)]
    ensures !InOrder(Of(l.delivered, ST)) && !FairRun(cfg, Empty, run, ST)
  {
    hide Leads, FairRun, IsScan;
    run, l := FirstRefused(cfg);
    ghost var rows, token := l.rows, l.token + 1;
    OnlySecond(rows);
    FlipOne(rows, 1, token);
    run, l := Then(cfg, Empty, run, l, Claim(1, [1], "w", 30.0));
    assert l.rows == Flip(rows, 1, "w", token, 30.0) && l.rows[1].envelope == EventAt(1);
    run, l := Then(cfg, Empty, run, l, Offer(None));
    assert l.delivered == [EventAt(1)];
    OfOne(EventAt(1), ST);
    HistoryOrderExact(cfg, run, l, ST);
  }

  lemma OnlySecond(rows: Table)
    requires rows.Keys == {0, 1} && !Deliverable(rows[0], 0.0) && rows[1] == NewRow(EventAt(1), None, 0.0)
    ensures IsScan(rows, 0.0, 1, [1])
  {
    assert ScanLe(rows[1], rows[1]);
  }

  // ----- every history is a run of the protocol -----

  /** The protocol state behind a log: the same table and clock, and the batch's claims held. */
  ghost predicate Matches(l: Log, s: P.State) {
    && s.rows == l.rows && s.now == l.now
    && (forall c :: c in s.scans || c in s.claims ==> c.token <= l.token)
    && forall p :: 0 <= p < |l.batch| ==>
         && P.ClaimId(l.batch[p], l.token) in s.claims
         && s.claims[P.ClaimId(l.batch[p], l.token)].phase
            == if p > 0 || l.answer.None? then P.Holding else if l.answer.value.None? then P.Delivered else P.Refused
  }

  lemma Go(cfg: P.Config, s: P.State, a: P.Action) returns (s': P.State)
    requires P.Reachable(cfg, s) && P.Enabled(cfg, s, a)
    ensures s' == P.Step(cfg, s, a) && P.Reachable(cfg, s')
  {
    s' := P.Step(cfg, s, a);
    R.ReachesStep(cfg, {}, s, a);
    R.ReachesTrans(cfg, {}, P.Init, s, s');
  }

  /** A batch is claimed row by row: scan it, flip it. */
  lemma {:induction false} ClaimRun(cfg: P.Config, s: P.State, ids: seq<RowId>, worker: string, token: ClaimToken,
                                    expiresAt: real) returns (s': P.State)
    requires P.Reachable(cfg, s) && forall c :: c in s.scans || c in s.claims ==> c.token < token
    requires forall p :: 0 <= p < |ids| ==> ids[p] in s.rows && Deliverable(s.rows[ids[p]], s.now)
    requires forall p, q :: 0 <= p < q < |ids| ==> ids[p] != ids[q]
    ensures P.Reachable(cfg, s') && s'.now == s.now && s'.rows == FlipAll(s.rows, ids, worker, token, expiresAt)
    ensures forall c :: c in s'.scans || c in s'.claims ==> c.token < token || (c.token == token && c.id in ids)
    ensures forall p :: 0 <= p < |ids| ==>
              P.ClaimId(ids[p], token) in s'.claims && s'.claims[P.ClaimId(ids[p], token)].phase == P.Holding
  {
    hide P.Reaches;
    s' := s;
    if ids != [] {
      var n := |ids| - 1;
      var r := ClaimRun(cfg, s, ids[..n], worker, token, expiresAt);
      FlipAllRow(s.rows, ids[..n], worker, token, expiresAt, ids[n]);
      assert ids[n] !in ids[..n] && ids == ids[..n] + [ids[n]];
      s' := ClaimOne(cfg, r, P.ClaimId(ids[n], token), worker, expiresAt);
    }
  }

  lemma ClaimOne(cfg: P.Config, s: P.State, c: P.ClaimId, worker: string, expiresAt: real) returns (s': P.State)
    requires P.Reachable(cfg, s) && c !in s.scans && c !in s.claims && c.id in s.rows
    requires Deliverable(s.rows[c.id], s.now)
    ensures P.Reachable(cfg, s') && s'.now == s.now && s'.rows == Flip(s.rows, c.id, worker, c.token, expiresAt)
    ensures s'.scans.Keys == s.scans.Keys + {c} && c in s'.claims && s'.claims[c].phase == P.Holding
    ensures s'.claims == s.claims[c := s'.claims[c]]
  {
    hide P.Reaches;
    var r := Go(cfg, s, P.Scan(c));
    s' := Go(cfg, r, P.Take(c, worker, expiresAt));
  }

  lemma MatchStep(cfg: P.Config, l: Log, e: Event, s: P.State) returns (s': P.State)
    requires Inv(l) && CanHappen(l, e) && P.Reachable(cfg, s) && Matches(l, s)
    ensures P.Reachable(cfg, s') && Matches(Happen(cfg, l, e), s')
  {
    hide P.Reaches;
    match e
    case Append(id, env, key, at) => s' := Go(cfg, s, P.Record(id, env, key, at));
    case Claim(_, ids, worker, expiresAt) => s' := ClaimRun(cfg, s, ids, worker, l.token + 1, expiresAt);
    case Offer(reply) => s' := Go(cfg, s, P.Deliver(P.ClaimId(l.batch[0], l.token), reply.None?));
    case Settle => s' := MatchSettle(cfg, l, s);
    case Sweep => s' := Go(cfg, s, P.ReclaimExpired);
    case Wait(t) => s' := Go(cfg, s, P.Tick(t));
  }

  lemma MatchSettle(cfg: P.Config, l: Log, s: P.State) returns (s': P.State)
    requires Inv(l) && CanHappen(l, Settle) && P.Reachable(cfg, s) && Matches(l, s)
    ensures P.Reachable(cfg, s') && Matches(Happen(cfg, l, Settle), s')
  {
    hide P.Reaches;
    var c := P.ClaimId(l.batch[0], l.token);
    assert RowOk(l, l.batch[0]);
    s' := Go(cfg, s, if l.answer.value.None? then P.Publish(c) else P.Fail(c, l.answer.value.value));
  }

  lemma {:induction false} RunMatches(cfg: P.Config, l: Log, run: seq<Event>, l': Log, s: P.State) returns (s': P.State)
    requires Inv(l) && Leads(cfg, l, run, l') && P.Reachable(cfg, s) && Matches(l, s)
    ensures P.Reachable(cfg, s') && Matches(l', s')
    decreases |run|
  {
    s' := s;
    if run != [] {
      var r := MatchStep(cfg, l, run[0], s);
      InvStep(cfg, l, run[0]);
      s' := RunMatches(cfg, Happen(cfg, l, run[0]), run[1..], l', r);
    }
  }

  /** Every history is a run of the outbox protocol that ends in the same table. */
  lemma HistoryIsARun(cfg: P.Config, run: seq<Event>, l: Log) returns (s: P.State)
    requires Leads(cfg, Empty, run, l)
    ensures P.Reachable(cfg, s) && s.rows == l.rows && s.now == l.now
  {
    InvEmpty();
    R.ReachesSelf(cfg, {}, P.Init);
    s := RunMatches(cfg, Empty, run, l, P.Init);
  }
}
