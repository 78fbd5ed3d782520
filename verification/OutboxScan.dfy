/** The ordered, limited scan of `claim_batch` (outbox.py:325-338). */
module OutboxScan {
  import opened Prelude
  import opened OutboxTable

  /** ORDER BY aggregate_id, sequence_number. */
  predicate ScanLe(a: Row, b: Row) {
    var x, y := a.envelope.stream.aggregateId, b.envelope.stream.aggregateId;
    TextLe(x, y) && (x == y ==> a.envelope.sequence <= b.envelope.sequence)
  }

  lemma ScanLeTotal(a: Row, b: Row)
    ensures ScanLe(a, b) || ScanLe(b, a)
  {
    var x, y := a.envelope.stream.aggregateId, b.envelope.stream.aggregateId;
    TextLeTotal(x, y);
    if x != y && TextLe(x, y) && TextLe(y, x) {
      TextLeAntisym(x, y);
    }
  }

  lemma ScanLeTrans(a: Row, b: Row, c: Row)
    requires ScanLe(a, b) && ScanLe(b, c)
    ensures ScanLe(a, c)
  {
    var x, y := a.envelope.stream.aggregateId, b.envelope.stream.aggregateId;
    var z := c.envelope.stream.aggregateId;
    TextLeTrans(x, y, z);
    if x == z {
      TextLeAntisym(x, y);
    }
  }

  /**
   `batch` is what the scan may return: distinct deliverable rows in order, at
   most `limit` of them, and a deliverable row is left out only when the batch
   is full of rows that do not come after it.
   */
  ghost predicate IsScan(rows: Table, now: real, limit: nat, batch: seq<RowId>) {
    && |batch| <= limit
    && (forall i :: 0 <= i < |batch| ==> batch[i] in rows && Deliverable(rows[batch[i]], now))
    && (forall i, j :: 0 <= i < j < |batch| ==> batch[i] != batch[j] && ScanLe(rows[batch[i]], rows[batch[j]]))
    && (forall id :: id in rows && Deliverable(rows[id], now) && id !in batch ==>
          |batch| == limit && forall i :: 0 <= i < |batch| ==> ScanLe(rows[batch[i]], rows[id]))
  }

  /** A least row of a non-empty set of rows. */
  method Least(rows: Table, ids: set<RowId>) returns (best: RowId)
    requires ids != {} && ids <= rows.Keys
    ensures best in ids
    ensures forall id :: id in ids ==> ScanLe(rows[best], rows[id])
  {
    best :| best in ids;
    ScanLeTotal(rows[best], rows[best]);
    var rest := ids - {best};
    while rest != {}
      invariant rest <= ids && best in ids
      invariant forall id :: id in ids - rest ==> ScanLe(rows[best], rows[id])
      decreases rest
    {
      var id :| id in rest;
      ScanLeTotal(rows[id], rows[id]);
      ScanLeTotal(rows[best], rows[id]);
      if !ScanLe(rows[best], rows[id]) {
        forall other | other in ids - rest ensures ScanLe(rows[id], rows[other]) {
          ScanLeTrans(rows[id], rows[best], rows[other]);
        }
        best := id;
      }
      rest := rest - {id};
    }
  }

  /**
   The scan, column by column: pending rows whose time has come, by aggregate and then by
   sequence, at most `limit`; what is left out does not come before a row of a full batch.
   */
  method Scan(rows: Table, now: real, limit: nat) returns (batch: seq<RowId>)
    ensures IsScan(rows, now, limit, batch)
    ensures |batch| <= limit
    ensures forall i :: 0 <= i < |batch| ==>
              batch[i] in rows && rows[batch[i]].status.Pending? && rows[batch[i]].availableAt <= now
    ensures forall i, j :: 0 <= i < j < |batch| ==>
              var (a, b) := (rows[batch[i]].envelope, rows[batch[j]].envelope);
              && batch[i] != batch[j] && TextLe(a.stream.aggregateId, b.stream.aggregateId)
              && (a.stream.aggregateId == b.stream.aggregateId ==> a.sequence <= b.sequence)
    ensures forall id :: id in rows && rows[id].status.Pending? && rows[id].availableAt <= now && id !in batch ==>
              |batch| == limit && forall i :: 0 <= i < |batch| ==> ScanLe(rows[batch[i]], rows[id])
  {
    var rest := set id | id in rows && Deliverable(rows[id], now);
    ghost var all := rest;
    batch := [];
    while |batch| < limit && rest != {}
      invariant |batch| <= limit && rest <= all
      invariant forall id :: id in all <==> id in rest || id in batch
      invariant forall i :: 0 <= i < |batch| ==> batch[i] in all && batch[i] !in rest
      invariant forall i, j :: 0 <= i < j < |batch| ==> batch[i] != batch[j] && ScanLe(rows[batch[i]], rows[batch[j]])
      invariant forall i, id :: 0 <= i < |batch| && id in rest ==> ScanLe(rows[batch[i]], rows[id])
      decreases rest
    {
      var next := Least(rows, rest);
      rest := rest - {next};
      batch := batch + [next];
    }
  }
}
