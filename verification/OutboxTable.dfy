/**
 The platform_outbox table and the four guarded UPDATE statements that move its
 rows (backend/src/windagent/platform/events/outbox.py).  Each statement is a
 total function: where its WHERE clause matches nothing the table is unchanged.
 */
module OutboxTable {
  import opened Prelude
  import opened Events

  type RowId = nat
  type ClaimToken = nat
  type Table = map<RowId, Row>

  datatype Status = Pending | Publishing | Published | DeadLetter

  datatype Row = Row(
    envelope: Envelope,
    dedupKey: Option<string>,
    createdAt: real,
    availableAt: real,
    attempts: nat,
    status: Status,
    publishedAt: Option<real>,
    lastError: Option<string>,
    claimedBy: Option<string>,
    claimToken: Option<ClaimToken>,
    claimExpiresAt: Option<real>)

  /** The row that `record` inserts. */
  function NewRow(e: Envelope, dedupKey: Option<string>, now: real): Row {
    Row(e, dedupKey, now, now, 0, Pending, None, None, None, None, None)
  }

  /** The scan's WHERE clause in `claim_batch`. */
  predicate Deliverable(r: Row, now: real) {
    r.status.Pending? && r.availableAt <= now
  }

  /** The claim-token compare-and-set guard of both finalizers. */
  predicate Owns(rows: Table, id: RowId, token: ClaimToken) {
    id in rows && rows[id].status.Publishing? && rows[id].claimToken == Some(token)
  }

  /** The reclaim guard; a row without an expiry never matches, as SQL NULL. */
  predicate Expired(r: Row, now: real) {
    r.status.Publishing? && r.claimExpiresAt.Some? && r.claimExpiresAt.value < now
  }

  function Unclaimed(r: Row): Row {
    r.(claimedBy := None, claimToken := None, claimExpiresAt := None)
  }

  /** The guarded status flip of `claim_batch`: ownership is guarded, availability is not. */
  function Flip(rows: Table, id: RowId, worker: string, token: ClaimToken, expiresAt: real): Table {
    if id in rows && rows[id].status.Pending? then
      rows[id := rows[id].(status := Publishing, claimedBy := Some(worker), claimToken := Some(token),
                           claimExpiresAt := Some(expiresAt))]
    else rows
  }

  /** `mark_published`. */
  function MarkPublished(rows: Table, id: RowId, token: ClaimToken, now: real): Table {
    if Owns(rows, id, token) then
      rows[id := Unclaimed(rows[id]).(status := Published, publishedAt := Some(now))]
    else rows
  }

  /** `mark_failed`: the counter and the resulting status change in one statement. */
  function MarkFailed(rows: Table, id: RowId, token: ClaimToken, error: string,
                      maxAttempts: nat, retryAt: real): Table {
    if Owns(rows, id, token) then
      var after := rows[id].attempts + 1;
      rows[id := Unclaimed(rows[id]).(attempts := after, lastError := Some(error),
                                      status := if after >= maxAttempts then DeadLetter else Pending,
                                      availableAt := retryAt)]
    else rows
  }

  /** `reclaim_expired_claims`. */
  function Reclaim(rows: Table, now: real): Table {
    map id | id in rows :: if Expired(rows[id], now) then Unclaimed(rows[id]).(status := Pending) else rows[id]
  }

  /** The flips of a whole batch, in order. */
  function FlipAll(rows: Table, ids: seq<RowId>, worker: string, token: ClaimToken, expiresAt: real): Table {
    if ids == [] then rows
    else Flip(FlipAll(rows, ids[..|ids| - 1], worker, token, expiresAt), ids[|ids| - 1], worker, token, expiresAt)
  }

  lemma FlipAllNext(rows: Table, ids: seq<RowId>, i: nat, worker: string, token: ClaimToken, expiresAt: real)
    requires i < |ids|
    ensures FlipAll(rows, ids[..i + 1], worker, token, expiresAt)
         == Flip(FlipAll(rows, ids[..i], worker, token, expiresAt), ids[i], worker, token, expiresAt)
  {
    assert ids[..i + 1][..i] == ids[..i];
  }

  /** A batch of flips takes exactly the rows of the batch, if they are different and pending. */
  lemma {:induction false} FlipAllRow(rows: Table, ids: seq<RowId>, worker: string, token: ClaimToken, expiresAt: real,
                                      id: RowId)
    requires forall p :: 0 <= p < |ids| ==> ids[p] in rows && rows[ids[p]].status.Pending?
    requires forall p, q :: 0 <= p < q < |ids| ==> ids[p] != ids[q]
    ensures var after := FlipAll(rows, ids, worker, token, expiresAt);
            && (id in after <==> id in rows)
            && (id in rows && id !in ids ==> after[id] == rows[id])
            && (id in rows && id in ids ==>
                 after[id] == rows[id].(status := Publishing, claimedBy := Some(worker), claimToken := Some(token),
                                        claimExpiresAt := Some(expiresAt)))
  {
    if ids != [] {
      var n := |ids| - 1;
      FlipAllRow(rows, ids[..n], worker, token, expiresAt, id);
      FlipAllRow(rows, ids[..n], worker, token, expiresAt, ids[n]);
      assert ids[n] !in ids[..n];
      assert ids == ids[..n] + [ids[n]];
    }
  }

  function WithStatus(rows: Table, st: Status): set<RowId> {
    set id | id in rows && rows[id].status == st
  }

  /** One entry of `count_by_status`. */
  function CountByStatus(rows: Table, st: Status): nat {
    |WithStatus(rows, st)|
  }

  /** What the columns of one row say about each other at every moment. */
  ghost predicate WellFormed(r: Row, maxAttempts: nat) {
    && (r.status.Publishing? <==> r.claimedBy.Some?)
    && (r.status.Publishing? <==> r.claimToken.Some?)
    && (r.status.Publishing? <==> r.claimExpiresAt.Some?)
    && (r.status.Published? <==> r.publishedAt.Some?)
    && r.attempts <= maxAttempts
    && (r.status.DeadLetter? <==> r.attempts == maxAttempts)
    && (r.attempts == 0 <==> r.lastError.None?)
  }

  predicate Terminal(r: Row) {
    r.status.Published? || r.status.DeadLetter?
  }

  /** Every row is counted under exactly one status. */
  lemma StatusCountsSum(rows: Table)
    ensures CountByStatus(rows, Pending) + CountByStatus(rows, Publishing)
         + CountByStatus(rows, Published) + CountByStatus(rows, DeadLetter) == |rows|
  {
    var p, q := WithStatus(rows, Pending), WithStatus(rows, Publishing);
    var u, d := WithStatus(rows, Published), WithStatus(rows, DeadLetter);
    SplitCardinality(p + q, p, q);
    SplitCardinality(u + d, u, d);
    forall id | id in rows ensures id in (p + q) + (u + d) {
      assert id in WithStatus(rows, rows[id].status);
    }
    SplitCardinality(rows.Keys, p + q, u + d);
  }

  /** An accepted publication moves one row from the publishing to the published, and no other count changes. */
  lemma PublishMovesOne(rows: Table, id: RowId, token: ClaimToken, now: real)
    requires Owns(rows, id, token)
    ensures var after := MarkPublished(rows, id, token, now);
            && CountByStatus(after, Published) == CountByStatus(rows, Published) + 1
            && CountByStatus(after, Publishing) == CountByStatus(rows, Publishing) - 1
            && CountByStatus(after, Pending) == CountByStatus(rows, Pending)
            && CountByStatus(after, DeadLetter) == CountByStatus(rows, DeadLetter)
  {
    var after := MarkPublished(rows, id, token, now);
    assert WithStatus(after, Published) == WithStatus(rows, Published) + {id};
    assert WithStatus(after, Publishing) == WithStatus(rows, Publishing) - {id};
    assert WithStatus(after, Pending) == WithStatus(rows, Pending);
    assert WithStatus(after, DeadLetter) == WithStatus(rows, DeadLetter);
  }
}
