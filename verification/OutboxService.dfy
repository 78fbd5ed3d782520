/**
 The store and the publisher as objects (outbox.py:289-465, publisher.py).

 The ghost field `world` is the protocol state whose table is `rows`.  Between
 two statements of one publisher, `Others` lets any number of other publishers
 and writers run; nobody else holds the tokens reserved for this publisher,
 since every batch draws a fresh uuid.
 */
module OutboxService {
  import opened Prelude
  import T = OutboxTable
  import opened OutboxScan
  import opened OutboxProtocol
  import opened OutboxRuns

  type RowId = T.RowId
  type ClaimToken = T.ClaimToken

  /** The read-side model a claim returns: the scanned row with the claim's own columns. */
  datatype OutboxRecord = OutboxRecord(id: RowId, row: T.Row)

  function Ids(claimed: seq<OutboxRecord>): (ids: seq<RowId>)
    ensures |ids| == |claimed| && forall i :: 0 <= i < |ids| ==> ids[i] == claimed[i].id
  {
    seq(|claimed|, i requires 0 <= i < |claimed| => claimed[i].id)
  }

  /** `r` is a record claimed under `token` that its publisher has not delivered yet. */
  ghost predicate Held(w: State, token: ClaimToken, r: OutboxRecord) {
    var c := ClaimId(r.id, token);
    && c in w.claims
    && w.claims[c].phase == Holding
    && w.claims[c].record.attempts == r.row.attempts
    && w.claims[c].record.envelope == r.row.envelope
  }

  /** All claims under the token from position k on are held, and they are different rows. */
  ghost predicate HeldFrom(w: State, token: ClaimToken, claimed: seq<OutboxRecord>, k: nat) {
    && (forall i :: k <= i < |claimed| ==> Held(w, token, claimed[i]))
    && (forall i, j :: 0 <= i < j < |claimed| ==> claimed[i].id != claimed[j].id)
  }

  ghost predicate Fresh(w: State, token: ClaimToken) {
    forall c :: c in w.scans ==> c.token != token
  }

  lemma {:induction false} FreshTally(finals: seq<Final>, token: ClaimToken, o: Outcome)
    requires forall i :: 0 <= i < |finals| ==> finals[i].claim.token != token
    ensures TallyToken(finals, token, o) == 0
  {
    if finals != [] {
      FreshTally(finals[..|finals| - 1], token, o);
    }
  }

  lemma FreshHasNoFinals(cfg: Config, w: State, token: ClaimToken)
    requires Inv(cfg, w) && Fresh(w, token)
    ensures forall o :: TallyToken(w.finals, token, o) == 0
    ensures forall c: ClaimId :: c.token == token ==> c !in w.claims
  {
    forall c: ClaimId | c.token == token ensures c !in w.claims {
      assert ScanOk(w, c);
    }
    forall i | 0 <= i < |w.finals| ensures w.finals[i].claim.token != token {
      assert FinalOk(w, w.finals[i]);
    }
    forall o ensures TallyToken(w.finals, token, o) == 0 {
      FreshTally(w.finals, token, o);
    }
  }

  class OutboxStore {
    const cfg: Config
    var rows: T.Table
    var now: real
    ghost var world: State

    ghost predicate Valid()
      reads this
    {
      world.rows == rows && world.now == now && Inv(cfg, world)
    }

    constructor (cfg: Config)
      ensures Valid() && world == Init && this.cfg == cfg
    {
      this.cfg := cfg;
      rows, now, world := map[], 0.0, Init;
      InvInit(cfg);
    }

    /** Interference: any run of publishers and writers that do not hold a reserved token. */
    method Others(ghost reserved: set<ClaimToken>)
      requires Valid()
      modifies this
      ensures Valid() && Reaches(cfg, reserved, old(world), world)
    {
      ReachesSelf(cfg, reserved, world);
    }

    /** The protocol steps of a scan: every selected row is captured under the token. */
    ghost method NoteScan(ids: seq<RowId>, token: ClaimToken, others: set<ClaimToken>)
      requires Valid() && Fresh(world, token) && token !in others
      requires forall i :: 0 <= i < |ids| ==> ids[i] in rows && T.Deliverable(rows[ids[i]], now)
      requires forall i, j :: 0 <= i < j < |ids| ==> ids[i] != ids[j]
      modifies this`world
      ensures Valid() && Reaches(cfg, others, old(world), world)
      ensures world.claims == old(world).claims && world.finals == old(world).finals
      ensures forall i :: 0 <= i < |ids| ==>
                ClaimId(ids[i], token) in world.scans && world.scans[ClaimId(ids[i], token)] == rows[ids[i]]
    {
      ReachesSelf(cfg, others, world);
      var k := 0;
      while k < |ids|
        invariant 0 <= k <= |ids|
        invariant Valid() && Reaches(cfg, others, old(world), world)
        invariant world.claims == old(world).claims && world.finals == old(world).finals
        invariant forall i :: 0 <= i < k ==>
                    ClaimId(ids[i], token) in world.scans && world.scans[ClaimId(ids[i], token)] == rows[ids[i]]
        invariant forall i :: k <= i < |ids| ==> ClaimId(ids[i], token) !in world.scans
      {
        var a := Scan(ClaimId(ids[k], token));
        InvStep(cfg, world, a);
        ReachesStep(cfg, others, world, a);
        ReachesTrans(cfg, others, old(world), world, Step(cfg, world, a));
        world := Step(cfg, world, a);
        k := k + 1;
      }
    }

    /** One guarded flip; true when its row count is one. */
    method FlipOne(id: RowId, worker: string, token: ClaimToken, expiresAt: real, ghost others: set<ClaimToken>)
      returns (hit: bool)
      requires Valid() && token !in others
      requires Enabled(cfg, world, Take(ClaimId(id, token), worker, expiresAt))
      modifies this
      ensures Valid() && now == old(now) && Reaches(cfg, others, old(world), world)
      ensures hit == (id in old(rows) && old(rows)[id].status.Pending?)
      ensures !hit ==> rows == old(rows)
      ensures hit ==>
                rows == old(rows)[id := old(rows)[id].(status := T.Publishing, claimedBy := Some(worker),
                                                       claimToken := Some(token), claimExpiresAt := Some(expiresAt))]
      ensures world == Step(cfg, old(world), Take(ClaimId(id, token), worker, expiresAt))
    {
      ghost var a := Take(ClaimId(id, token), worker, expiresAt);
      InvStep(cfg, world, a);
      ReachesStep(cfg, others, world, a);
      hit := id in rows && rows[id].status.Pending?;
      rows := T.Flip(rows, id, worker, token, expiresAt);
      world := Step(cfg, world, a);
    }

    /** What others do while this transaction holds its scanned rows locked: they leave those as they are. */
    method OthersBut(ids: seq<RowId>, ghost reserved: set<ClaimToken>)
      requires Valid()
      modifies this
      ensures Valid() && Reaches(cfg, reserved, old(world), world)
      ensures forall i :: 0 <= i < |ids| && ids[i] in old(rows) ==> ids[i] in rows && rows[ids[i]] == old(rows)[ids[i]]
    {
      ReachesSelf(cfg, reserved, world);
    }

    /** One iteration of the flip loop; without row locks others run before the flip. */
    method FlipNext(snapshot: T.Table, ids: seq<RowId>, i: nat, worker: string, token: ClaimToken, expiresAt: real,
                    sofar: seq<OutboxRecord>, ghost base: State, ghost reserved: set<ClaimToken>)
      returns (claimed: seq<OutboxRecord>)
      requires Valid() && token in reserved && i < |ids|
      requires BatchOk(cfg, world, base, snapshot, ids, i, worker, token, expiresAt, sofar)
      modifies this
      ensures Valid() && Reaches(cfg, reserved - {token}, old(world), world)
      ensures BatchOk(cfg, world, base, snapshot, ids, i + 1, worker, token, expiresAt, claimed)
      ensures claimed == sofar
              || (|claimed| == |sofar| + 1 && claimed[..|sofar|] == sofar && claimed[|sofar|].id == ids[i])
    {
      hide Reaches, T.FlipAll, RecordOk;
      ghost var others := reserved - {token};
      if cfg.rowLocks {
        ReachesSelf(cfg, others, world);
      } else {
        Others(reserved);
        BatchKept(cfg, old(world), world, reserved, base, snapshot, ids, i, worker, token, expiresAt, sofar);
        ReachesMore(cfg, others, reserved, old(world), world);
      }
      ghost var prior := world;
      var id := ids[i];
      assert Waiting(world, snapshot, id, token);
      assert ScanOk(world, ClaimId(id, token));
      var hit := FlipOne(id, worker, token, expiresAt, others);
      ReachesTrans(cfg, others, old(world), prior, world);
      claimed := if hit then sofar + [ClaimedRecord(id, snapshot[id], worker, token, expiresAt)] else sofar;
      FlipKeepsBatch(cfg, prior, world, base, snapshot, ids, i, worker, token, expiresAt, sofar, claimed);
    }

    /**
     `claim_batch`: scan in stream order, then flip row by row.  Where the scan holds row
     locks it passes over the rows others hold locked, and the batch is exactly the scan of
     the other rows as they were; others may then do anything that leaves the scanned rows
     alone until the flips take effect together.
     */
    method ClaimBatch(worker: string, token: ClaimToken, limit: nat, lease: real, locked: set<RowId>,
                      ghost reserved: set<ClaimToken>)
      returns (claimed: seq<OutboxRecord>, ghost base: State)
      requires Valid() && Fresh(world, token) && token in reserved
      modifies this
      ensures Valid() && Reaches(cfg, reserved - {token}, old(world), world)
      ensures HeldFrom(world, token, claimed, 0)
      ensures forall o :: TallyToken(world.finals, token, o) == 0
      ensures |claimed| <= limit
      ensures forall i :: 0 <= i < |claimed| ==> RecordOk(old(rows), worker, token, old(now) + lease, claimed[i])
      ensures forall i :: 0 <= i < |claimed| ==>
                var id := claimed[i].id;
                && id in old(rows) && old(rows)[id].status.Pending? && old(rows)[id].availableAt <= old(now)
                && claimed[i].row
                   == old(rows)[id].(status := T.Publishing, claimedBy := Some(worker), claimToken := Some(token),
                                     claimExpiresAt := Some(old(now) + lease))
      ensures forall i, j :: 0 <= i < j < |claimed| ==> ScanLe(old(rows)[claimed[i].id], old(rows)[claimed[j].id])
      ensures cfg.rowLocks ==> IsScan(old(rows) - locked, old(now), limit, Ids(claimed))
      ensures cfg.rowLocks ==>
                forall i :: 0 <= i < |claimed| ==> claimed[i].id in rows && rows[claimed[i].id] == claimed[i].row
      ensures cfg.rowLocks ==>
                && Reaches(cfg, reserved - {token}, old(world), base) && base.now == now
                && rows == T.FlipAll(base.rows, Ids(claimed), worker, token, old(now) + lease)
                && AsScanned(base, old(rows), Ids(claimed))
    {
      hide Reaches, T.FlipAll, RecordOk, Held, Waiting, Locked, Inv, IsScan, InTurn, ScanLe;
      ghost var others := reserved - {token};
      FreshHasNoFinals(cfg, world, token);
      var expiresAt := now + lease;
      var snapshot := rows;
      var ids := OutboxScan.Scan(if cfg.rowLocks then rows - locked else rows, now, limit);
      ScannedIn(rows, if cfg.rowLocks then rows - locked else rows, now, limit, ids);
      NoteScan(ids, token, others);
      BatchStarts(cfg, world, snapshot, ids, worker, token, expiresAt);
      ghost var at := now;
      InTurnStarts(snapshot, if cfg.rowLocks then rows - locked else rows, at, limit, ids);
      ghost var scanned := world;
      if cfg.rowLocks {
        OthersBut(ids, reserved);
        BatchUnlocked(cfg, scanned, world, reserved, snapshot, ids, worker, token, expiresAt);
        ReachesMore(cfg, others, reserved, scanned, world);
        ReachesTrans(cfg, others, old(world), scanned, world);
      }
      base := world;
      claimed := [];
      var i := 0;
      while i < |ids|
        invariant 0 <= i <= |ids|
        invariant Valid() && Reaches(cfg, others, old(world), world)
        invariant BatchOk(cfg, world, base, snapshot, ids, i, worker, token, expiresAt, claimed)
        invariant InTurn(snapshot, at, ids, i, claimed)
      {
        ghost var prior, sofar := world, claimed;
        claimed := FlipNext(snapshot, ids, i, worker, token, expiresAt, claimed, base, reserved);
        ReachesTrans(cfg, others, old(world), prior, world);
        InTurnNext(snapshot, at, ids, i, sofar, claimed);
        i := i + 1;
      }
      assert ids[..i] == ids;
      ClaimedColumns(snapshot, at, ids, worker, token, expiresAt, claimed);
      if cfg.rowLocks {
        ClaimedRows(base, snapshot, rows, ids, worker, token, expiresAt, claimed);
      }
    }

    /** The protocol step of a delivery; the transport's answer becomes the claim's phase. */
    ghost method NoteDelivery(c: ClaimId, ok: bool)
      requires Valid() && Enabled(cfg, world, Deliver(c, ok))
      modifies this`world
      ensures Valid() && world == Step(cfg, old(world), Deliver(c, ok))
    {
      InvStep(cfg, world, Deliver(c, ok));
      world := Step(cfg, world, Deliver(c, ok));
    }

    /** `mark_published`, called once the transport has taken the record. */
    method MarkPublished(id: RowId, token: ClaimToken) returns (finalized: bool)
      requires Valid() && Enabled(cfg, world, Publish(ClaimId(id, token)))
      modifies this
      ensures Valid() && now == old(now)
      ensures finalized == (id in old(rows) && old(rows)[id].status.Publishing?
                            && old(rows)[id].claimToken == Some(token))
      ensures !finalized ==> rows == old(rows)
      ensures finalized ==>
                rows == old(rows)[id := old(rows)[id].(status := T.Published, publishedAt := Some(now),
                                                       claimedBy := None, claimToken := None, claimExpiresAt := None)]
      ensures world == Step(cfg, old(world), Publish(ClaimId(id, token)))
    {
      ghost var a := Publish(ClaimId(id, token));
      InvStep(cfg, world, a);
      finalized := T.Owns(rows, id, token);
      rows := T.MarkPublished(rows, id, token, now);
      world := Step(cfg, world, a);
    }

    /** `mark_failed`, called once the transport has refused the record. */
    method MarkFailed(id: RowId, token: ClaimToken, error: string) returns (finalized: bool)
      requires Valid() && Enabled(cfg, world, Fail(ClaimId(id, token), error))
      modifies this
      ensures Valid() && now == old(now)
      ensures finalized == (id in old(rows) && old(rows)[id].status.Publishing?
                            && old(rows)[id].claimToken == Some(token))
      ensures !finalized ==> rows == old(rows)
      ensures finalized ==>
                var (r, n) := (old(rows)[id], old(rows)[id].attempts + 1);
                rows == old(rows)[id := r.(status := if n >= cfg.maxAttempts then T.DeadLetter else T.Pending,
                                           attempts := n, lastError := Some(error), availableAt := now + cfg.backoff,
                                           claimedBy := None, claimToken := None, claimExpiresAt := None)]
      ensures world == Step(cfg, old(world), Fail(ClaimId(id, token), error))
    {
      ghost var a := Fail(ClaimId(id, token), error);
      InvStep(cfg, world, a);
      finalized := T.Owns(rows, id, token);
      rows := T.MarkFailed(rows, id, token, error, cfg.maxAttempts, now + cfg.backoff);
      world := Step(cfg, world, a);
    }

    /**
     `reclaim_expired_claims`: a row changes exactly when it is publishing under a claim that
     ran out before now; then it is pending and unclaimed, and everything else about it stays.
     */
    method ReclaimExpiredClaims() returns (count: nat)
      requires Valid()
      modifies this
      ensures Valid() && now == old(now)
      ensures world == Step(cfg, old(world), ReclaimExpired) && rows.Keys == old(rows).Keys
      ensures forall id :: id in rows ==>
                var r := old(rows)[id];
                rows[id] == if r.status.Publishing? && r.claimExpiresAt.Some? && r.claimExpiresAt.value < now
                            then r.(status := T.Pending, claimedBy := None, claimToken := None, claimExpiresAt := None)
                            else r
      ensures count == |set id | id in rows && rows[id] != old(rows)[id]|
    {
      InvStep(cfg, world, ReclaimExpired);
      count := |set id | id in rows && T.Expired(rows[id], now)|;
      rows := T.Reclaim(rows, now);
      world := Step(cfg, world, ReclaimExpired);
      assert (set id | id in old(rows) && T.Expired(old(rows)[id], now))
          == set id | id in rows && rows[id] != old(rows)[id];
    }
  }

  /** The row was scanned under the token and its flip is still to come. */
  ghost predicate Waiting(w: State, snapshot: T.Table, id: RowId, token: ClaimToken) {
    var c := ClaimId(id, token);
    id in snapshot && c in w.scans && w.scans[c] == snapshot[id] && c !in w.claims
  }

  function ClaimedRecord(id: RowId, row: T.Row, worker: string, token: ClaimToken, expiresAt: real): OutboxRecord {
    OutboxRecord(id, row.(status := T.Publishing, claimedBy := Some(worker), claimToken := Some(token),
                          claimExpiresAt := Some(expiresAt)))
  }

  /** A claimed record is the scanned row with the claim's own columns. */
  ghost predicate RecordOk(snapshot: T.Table, worker: string, token: ClaimToken, expiresAt: real, r: OutboxRecord) {
    r.id in snapshot && r == ClaimedRecord(r.id, snapshot[r.id], worker, token, expiresAt)
  }

  /** A batch after i flips. */
  ghost predicate BatchOk(cfg: Config, w: State, base: State, snapshot: T.Table, ids: seq<RowId>, i: nat,
                          worker: string, token: ClaimToken, expiresAt: real, claimed: seq<OutboxRecord>) {
    && i <= |ids|
    && (forall j, k :: 0 <= j < k < |ids| ==> ids[j] != ids[k])
    && (forall j :: i <= j < |ids| ==> Waiting(w, snapshot, ids[j], token))
    && (forall m, j :: 0 <= m < |claimed| && i <= j < |ids| ==> claimed[m].id != ids[j])
    && HeldFrom(w, token, claimed, 0)
    && (forall o :: TallyToken(w.finals, token, o) == 0)
    && (forall m :: 0 <= m < |claimed| ==> RecordOk(snapshot, worker, token, expiresAt, claimed[m]))
    && (cfg.rowLocks ==>
          && w.now == base.now && Ids(claimed) == ids[..i] && Locked(w, snapshot, ids, i)
          && AsScanned(base, snapshot, ids) && w.rows == T.FlipAll(base.rows, ids[..i], worker, token, expiresAt))
  }

  /** The scanned rows are as the scan saw them. */
  ghost predicate AsScanned(w: State, snapshot: T.Table, ids: seq<RowId>) {
    forall i :: 0 <= i < |ids| ==> ids[i] in snapshot && ids[i] in w.rows && w.rows[ids[i]] == snapshot[ids[i]]
  }

  /** The claimed records so far: rows of the scan, in its order, before those still to come. */
  ghost predicate InTurn(snapshot: T.Table, now: real, ids: seq<RowId>, i: nat, claimed: seq<OutboxRecord>) {
    && |claimed| <= i <= |ids| && ScannedFrom(snapshot, now, ids)
    && (forall p, q :: 0 <= p < q < |ids| ==> ScanLe(snapshot[ids[p]], snapshot[ids[q]]))
    && (forall m :: 0 <= m < |claimed| ==> claimed[m].id in snapshot && T.Deliverable(snapshot[claimed[m].id], now))
    && (forall m, q :: 0 <= m < |claimed| && i <= q < |ids| ==> ScanLe(snapshot[claimed[m].id], snapshot[ids[q]]))
    && forall m, n :: 0 <= m < n < |claimed| ==> ScanLe(snapshot[claimed[m].id], snapshot[claimed[n].id])
  }

  lemma InTurnStarts(snapshot: T.Table, free: T.Table, now: real, limit: nat, ids: seq<RowId>)
    requires IsScan(free, now, limit, ids) && forall id :: id in free ==> id in snapshot && snapshot[id] == free[id]
    ensures InTurn(snapshot, now, ids, 0, [])
  {
  }

  lemma InTurnNext(snapshot: T.Table, now: real, ids: seq<RowId>, i: nat, sofar: seq<OutboxRecord>,
                   claimed: seq<OutboxRecord>)
    requires InTurn(snapshot, now, ids, i, sofar) && i < |ids|
    requires claimed == sofar
             || (|claimed| == |sofar| + 1 && claimed[..|sofar|] == sofar && claimed[|sofar|].id == ids[i])
    ensures InTurn(snapshot, now, ids, i + 1, claimed)
  {
    hide ScanLe;
    assert forall m :: 0 <= m < |sofar| ==> claimed[m] == sofar[m];
  }

  lemma ClaimedColumns(snapshot: T.Table, now: real, ids: seq<RowId>, worker: string, token: ClaimToken,
                       expiresAt: real, claimed: seq<OutboxRecord>)
    requires InTurn(snapshot, now, ids, |ids|, claimed)
    requires forall i :: 0 <= i < |claimed| ==> RecordOk(snapshot, worker, token, expiresAt, claimed[i])
    ensures |claimed| <= |ids|
    ensures forall i, j :: 0 <= i < j < |claimed| ==>
              && claimed[i].id in snapshot && claimed[j].id in snapshot
              && ScanLe(snapshot[claimed[i].id], snapshot[claimed[j].id])
    ensures forall i :: 0 <= i < |claimed| ==>
              var id := claimed[i].id;
              && id in snapshot && snapshot[id].status.Pending? && snapshot[id].availableAt <= now
              && claimed[i].row
                 == snapshot[id].(status := T.Publishing, claimedBy := Some(worker), claimToken := Some(token),
                                  claimExpiresAt := Some(expiresAt))
  {
  }

  /** Under row locks a returned record is the row as it now stands in the table. */
  lemma ClaimedRows(base: State, snapshot: T.Table, rows: T.Table, ids: seq<RowId>, worker: string, token: ClaimToken,
                    expiresAt: real, claimed: seq<OutboxRecord>)
    requires Ids(claimed) == ids && AsScanned(base, snapshot, ids)
    requires rows == T.FlipAll(base.rows, ids, worker, token, expiresAt)
    requires forall i, j :: 0 <= i < j < |ids| ==> ids[i] != ids[j]
    requires forall i :: 0 <= i < |ids| ==> snapshot[ids[i]].status.Pending?
    requires forall i :: 0 <= i < |claimed| ==> RecordOk(snapshot, worker, token, expiresAt, claimed[i])
    ensures forall i :: 0 <= i < |claimed| ==> claimed[i].id in rows && rows[claimed[i].id] == claimed[i].row
  {
    forall i | 0 <= i < |claimed| ensures claimed[i].id in rows && rows[claimed[i].id] == claimed[i].row {
      T.FlipAllRow(base.rows, ids, worker, token, expiresAt, claimed[i].id);
      assert RecordOk(snapshot, worker, token, expiresAt, claimed[i]) && ids[i] == claimed[i].id;
    }
  }

  ghost predicate Locked(w: State, snapshot: T.Table, ids: seq<RowId>, i: nat) {
    forall j :: i <= j < |ids| ==>
      && ids[j] in w.rows && ids[j] in snapshot
      && w.rows[ids[j]] == snapshot[ids[j]] && snapshot[ids[j]].status.Pending?
  }

  /** Different deliverable rows. */
  ghost predicate ScannedFrom(rows: T.Table, now: real, ids: seq<RowId>) {
    && (forall i :: 0 <= i < |ids| ==> ids[i] in rows && T.Deliverable(rows[ids[i]], now))
    && forall i, j :: 0 <= i < j < |ids| ==> ids[i] != ids[j]
  }

  lemma ScannedIn(rows: T.Table, free: T.Table, now: real, limit: nat, ids: seq<RowId>)
    requires IsScan(free, now, limit, ids) && forall id :: id in free ==> id in rows && rows[id] == free[id]
    ensures ScannedFrom(rows, now, ids)
  {
  }

  /** Right after the scan, before any flip. */
  lemma BatchStarts(cfg: Config, w: State, snapshot: T.Table, ids: seq<RowId>, worker: string, token: ClaimToken,
                    expiresAt: real)
    requires w.rows == snapshot && ScannedFrom(snapshot, w.now, ids)
    requires forall o :: TallyToken(w.finals, token, o) == 0
    requires forall c: ClaimId :: c.token == token ==> c !in w.claims
    requires forall i :: 0 <= i < |ids| ==>
               ClaimId(ids[i], token) in w.scans && w.scans[ClaimId(ids[i], token)] == snapshot[ids[i]]
    ensures BatchOk(cfg, w, w, snapshot, ids, 0, worker, token, expiresAt, [])
  {
  }

  lemma FlipKeepsBatch(cfg: Config, w: State, w': State, base: State, snapshot: T.Table, ids: seq<RowId>, i: nat,
                       worker: string, token: ClaimToken, expiresAt: real, sofar: seq<OutboxRecord>,
                       claimed: seq<OutboxRecord>)
    requires i < |ids| && BatchOk(cfg, w, base, snapshot, ids, i, worker, token, expiresAt, sofar)
    requires ids[i] in snapshot && Enabled(cfg, w, Take(ClaimId(ids[i], token), worker, expiresAt))
    requires w' == Step(cfg, w, Take(ClaimId(ids[i], token), worker, expiresAt))
    requires claimed == if w.rows[ids[i]].status.Pending?
                        then sofar + [ClaimedRecord(ids[i], snapshot[ids[i]], worker, token, expiresAt)] else sofar
    ensures BatchOk(cfg, w', base, snapshot, ids, i + 1, worker, token, expiresAt, claimed)
  {
    hide T.FlipAll;
    T.FlipAllNext(base.rows, ids, i, worker, token, expiresAt);
    assert Waiting(w, snapshot, ids[i], token);
    forall j | i + 1 <= j < |ids| ensures Waiting(w', snapshot, ids[j], token) {
      assert Waiting(w, snapshot, ids[j], token);
    }
    forall m | 0 <= m < |claimed| ensures Held(w', token, claimed[m]) {
      if m < |sofar| {
        assert Held(w, token, sofar[m]) && sofar[m].id != ids[i];
      }
    }
  }

  /** Interference keeps what a half-finished batch without row locks relies on. */
  lemma BatchKept(cfg: Config, w: State, w': State, reserved: set<ClaimToken>, base: State, snapshot: T.Table,
                  ids: seq<RowId>, i: nat, worker: string, token: ClaimToken, expiresAt: real,
                  claimed: seq<OutboxRecord>)
    requires Inv(cfg, w) && Reaches(cfg, reserved, w, w') && token in reserved && !cfg.rowLocks
    requires BatchOk(cfg, w, base, snapshot, ids, i, worker, token, expiresAt, claimed)
    ensures BatchOk(cfg, w', base, snapshot, ids, i, worker, token, expiresAt, claimed)
  {
    RunKeeps(cfg, reserved, w, w');
    RunUntouched(cfg, reserved, w, w', token);
    forall j | i <= j < |ids| ensures Waiting(w', snapshot, ids[j], token) {
      assert Waiting(w, snapshot, ids[j], token);
      assert ClaimLater(w, w', ClaimId(ids[j], token)) && ClaimUntouched(w, w', ClaimId(ids[j], token));
    }
    HeldKept(w, w', token, claimed, 0);
    forall o ensures TallyToken(w'.finals, token, o) == 0 {
      assert TallyToken(w'.finals, token, o) == TallyToken(w.finals, token, o);
    }
  }

  /** Interference that leaves the locked rows alone, before the first flip. */
  lemma BatchUnlocked(cfg: Config, w: State, w': State, reserved: set<ClaimToken>, snapshot: T.Table, ids: seq<RowId>,
                      worker: string, token: ClaimToken, expiresAt: real)
    requires Inv(cfg, w) && Reaches(cfg, reserved, w, w') && token in reserved && cfg.rowLocks
    requires BatchOk(cfg, w, w, snapshot, ids, 0, worker, token, expiresAt, [])
    requires forall i :: 0 <= i < |ids| && ids[i] in w.rows ==> ids[i] in w'.rows && w'.rows[ids[i]] == w.rows[ids[i]]
    ensures BatchOk(cfg, w', w', snapshot, ids, 0, worker, token, expiresAt, [])
  {
    RunKeeps(cfg, reserved, w, w');
    RunUntouched(cfg, reserved, w, w', token);
    forall j | 0 <= j < |ids| ensures Waiting(w', snapshot, ids[j], token) {
      assert Waiting(w, snapshot, ids[j], token);
      assert ClaimLater(w, w', ClaimId(ids[j], token)) && ClaimUntouched(w, w', ClaimId(ids[j], token));
    }
    forall o ensures TallyToken(w'.finals, token, o) == 0 {
      assert TallyToken(w'.finals, token, o) == TallyToken(w.finals, token, o);
    }
  }

  lemma HeldKept(w: State, w': State, token: ClaimToken, claimed: seq<OutboxRecord>, k: nat)
    requires Untouched(token, w, w') && HeldFrom(w, token, claimed, k)
    ensures HeldFrom(w', token, claimed, k)
  {
    forall m | k <= m < |claimed| ensures Held(w', token, claimed[m]) {
      assert ClaimUntouched(w, w', ClaimId(claimed[m].id, token));
    }
  }
}
