/** The transport-neutral event envelope (kernel/events/envelope.py). */
module Events {
  import opened Prelude

  type EventId = nat
  type EntityId = string

  /** One aggregate stream is named by both its type and its identifier. */
  datatype Stream = Stream(aggregateType: string, aggregateId: EntityId)

  datatype Envelope = Envelope(
    eventId: EventId,
    eventType: string,
    eventVersion: nat,
    stream: Stream,
    sequence: nat,
    payload: string,
    occurredAt: real,
    actorId: Option<string>,
    correlationId: Option<string>,
    causationId: Option<string>)

  /** The stream's share of a list of events. */
  function Of(events: seq<Envelope>, st: Stream): seq<Envelope> {
    if events == [] then []
    else
      var n := |events| - 1;
      Of(events[..n], st) + if events[n].stream == st then [events[n]] else []
  }

  lemma {:induction false} OfConcat(a: seq<Envelope>, b: seq<Envelope>, st: Stream)
    ensures Of(a + b, st) == Of(a, st) + Of(b, st)
  {
    if b == [] {
      assert a + b == a;
    } else {
      OfConcat(a, b[..|b| - 1], st);
      assert (a + b)[..|a + b| - 1] == a + b[..|b| - 1];
    }
  }

  /** Sequence 0, 1, 2, ... with nothing missing and nothing repeated. */
  ghost predicate InOrder(events: seq<Envelope>) {
    forall i :: 0 <= i < |events| ==> events[i].sequence == i
  }

  ghost predicate StartsAt(tail: seq<Envelope>, k: nat) {
    forall i :: 0 <= i < |tail| ==> tail[i].sequence == k + i
  }

  lemma InOrderConcat(before: seq<Envelope>, tail: seq<Envelope>)
    requires InOrder(before)
    ensures InOrder(before + tail) <==> StartsAt(tail, |before|)
  {
    if InOrder(before + tail) {
      forall i | 0 <= i < |tail| ensures tail[i].sequence == |before| + i {
        assert (before + tail)[|before| + i] == tail[i];
      }
    }
  }
}
