/**
 Realtime fan-out with bounded replay (platform/realtime/hub.py) as steps between
 awaits: any number of publishers may be in the middle of their fan-out.
 */
module Realtime {
  import opened Events

  type SubId = nat

  datatype Message = Message(position: nat, event: Envelope)

  /** A subscriber is sent the positions above `start`; it joined when `joined` was the last one. */
  datatype Subscriber = Subscriber(
    queue: seq<Message>, taken: seq<Message>, live: bool, closed: bool,
    start: nat, joined: nat, left: nat, waiting: nat)

  /** `pending` holds, for each position, who its publisher still has to serve. */
  datatype Hub = Hub(
    position: nat,
    replay: seq<Message>,
    log: seq<Envelope>,
    subs: map<SubId, Subscriber>,
    pending: map<nat, seq<SubId>>)

  datatype Config = Config(replayCapacity: nat, subscriberCapacity: nat)

  ghost predicate ValidConfig(c: Config) {
    c.replayCapacity >= 1 && c.subscriberCapacity >= 1
  }

  datatype Action =
    | Assign(event: Envelope, order: seq<SubId>)
    | Put(position: nat)
    | Subscribe(id: SubId, after: nat)
    | Take(id: SubId, woken: bool)
    | Await(id: SubId)
    | GiveUp(id: SubId)
    | Close(id: SubId)
    | Leave(id: SubId)

  const EMPTY := Hub(0, [], [], map[], map[])

  // ----- statements -----

  /** A deque with a maximal length drops its oldest element. */
  function Remember(c: Config, replay: seq<Message>, m: Message): seq<Message> {
    if |replay| >= c.replayCapacity && replay != [] then replay[1..] + [m] else replay + [m]
  }

  function NewerThan(replay: seq<Message>, after: nat): seq<Message> {
    if replay == [] then []
    else
      var n := |replay| - 1;
      NewerThan(replay[..n], after) + if replay[n].position > after then [replay[n]] else []
  }

  /** What a new subscriber's queue starts with. */
  function ReplayFor(c: Config, replay: seq<Message>, after: nat): seq<Message> {
    var newer := NewerThan(replay, after);
    if |newer| > c.subscriberCapacity then newer[|newer| - c.subscriberCapacity..] else newer
  }

  ghost predicate Live(h: Hub, id: SubId) {
    id in h.subs && h.subs[id].live
  }

  ghost predicate Distinct(ids: seq<SubId>) {
    forall i, j :: 0 <= i < j < |ids| ==> ids[i] != ids[j]
  }

  /** tuple(self._subscribers): every live subscriber once, in any order. */
  ghost predicate Snapshot(h: Hub, order: seq<SubId>) {
    Distinct(order) && forall id :: id in order <==> Live(h, id)
  }

  ghost predicate Enabled(c: Config, h: Hub, a: Action) {
    match a
    case Assign(_, order) => Snapshot(h, order)
    case Put(p) =>
      && p in h.pending && h.pending[p] != [] && h.pending[p][0] in h.subs && 1 <= p <= |h.log|
      && |h.subs[h.pending[p][0]].queue| < c.subscriberCapacity
    case Subscribe(id, _) => id !in h.subs
    case Take(id, woken) =>
      id in h.subs && h.subs[id].queue != [] && if woken then h.subs[id].waiting > 0 else !h.subs[id].closed
    case Await(id) => id in h.subs && h.subs[id].queue == [] && !h.subs[id].closed
    case GiveUp(id) => id in h.subs && h.subs[id].waiting > 0
    case Close(id) => id in h.subs
    case Leave(id) => id in h.subs && h.subs[id].closed
  }

  function MessageAt(log: seq<Envelope>, p: nat): Message
    requires 1 <= p <= |log|
  {
    Message(p, log[p - 1])
  }

  function Smallest(a: nat, b: nat): nat {
    if a <= b then a else b
  }

  function Largest(a: nat, b: nat): nat {
    if a >= b then a else b
  }

  /** Calls of `next` still waiting after a message was taken. */
  function Waiting(s: Subscriber, woken: bool): nat
    requires woken ==> s.waiting > 0
  {
    if woken then s.waiting - 1 else s.waiting
  }

  function Step(c: Config, h: Hub, a: Action): Hub
    requires Enabled(c, h, a)
  {
    match a
    case Assign(event, order) =>
      h.(position := h.position + 1, replay := Remember(c, h.replay, Message(h.position + 1, event)),
         log := h.log + [event], pending := h.pending[h.position + 1 := order])
    case Put(p) =>
      var id := h.pending[p][0];
      h.(subs := h.subs[id := h.subs[id].(queue := h.subs[id].queue + [MessageAt(h.log, p)])],
         pending := h.pending[p := h.pending[p][1..]])
    case Subscribe(id, after) =>
      var replay := ReplayFor(c, h.replay, after);
      h.(subs := h.subs[id := Subscriber(replay, [], true, false,
           h.position - Smallest(|replay|, h.position), h.position, 0, 0)])
    case Take(id, woken) =>
      var s := h.subs[id];
      h.(subs := h.subs[id := s.(queue := s.queue[1..], taken := s.taken + [s.queue[0]],
                                 waiting := Waiting(s, woken))])
    case Await(id) =>
      h.(subs := h.subs[id := h.subs[id].(waiting := h.subs[id].waiting + 1)])
    case GiveUp(id) =>
      h.(subs := h.subs[id := h.subs[id].(waiting := h.subs[id].waiting - 1)])
    case Close(id) =>
      h.(subs := h.subs[id := h.subs[id].(closed := true)])
    case Leave(id) =>
      h.(subs := h.subs[id := if h.subs[id].live then h.subs[id].(live := false, left := h.position) else h.subs[id]])
  }

  // ----- the invariant -----

  /** Everything ever put into the subscriber's queue. */
  function Sent(s: Subscriber): seq<Message> {
    s.taken + s.queue
  }

  function Positions(ms: seq<Message>): set<nat> {
    set m | m in ms :: m.position
  }

  /** The last position the subscriber is owed. */
  function Last(h: Hub, s: Subscriber): nat {
    if s.live then h.position else s.left
  }

  ghost predicate Pending(h: Hub, p: nat, id: SubId) {
    p in h.pending && id in h.pending[p]
  }

  /** The replay buffer holds the newest positions, as many as fit. */
  ghost predicate ReplayOk(c: Config, h: Hub) {
    && |h.log| == h.position && |h.replay| == Smallest(h.position, c.replayCapacity)
    && forall i :: 0 <= i < |h.replay| ==> h.replay[i] == MessageAt(h.log, h.position - |h.replay| + 1 + i)
  }

  ghost predicate FlightOk(h: Hub, p: nat) {
    p in h.pending ==>
      && 1 <= p <= h.position && Distinct(h.pending[p])
      && forall id :: id in h.pending[p] ==> id in h.subs
  }

  /** Different positions, each with its own event. */
  ghost predicate Genuine(log: seq<Envelope>, sent: seq<Message>) {
    && (forall i, j :: 0 <= i < j < |sent| ==> sent[i].position != sent[j].position)
    && forall i :: 0 <= i < |sent| ==> 1 <= sent[i].position <= |log| && sent[i] == MessageAt(log, sent[i].position)
  }

  ghost predicate QueueOk(c: Config, h: Hub, id: SubId) {
    id in h.subs ==>
      var s := h.subs[id];
      && s.start <= s.joined <= Last(h, s) <= h.position && |s.queue| <= c.subscriberCapacity
      && Genuine(h.log, Sent(s))
  }

  /** A position the subscriber is owed was sent to it or is still to be put, and not both; no other ever is. */
  ghost predicate OwedOk(h: Hub, id: SubId, p: nat) {
    id in h.subs ==>
      var s := h.subs[id];
      && (s.start < p <= Last(h, s) <==> p in Positions(Sent(s)) || Pending(h, p, id))
      && !(p in Positions(Sent(s)) && Pending(h, p, id))
      && (p <= s.joined ==> !Pending(h, p, id))
  }

  ghost predicate Inv(c: Config, h: Hub) {
    && ReplayOk(c, h)
    && (forall p :: FlightOk(h, p))
    && (forall id :: QueueOk(c, h, id))
    && forall id, p :: OwedOk(h, id, p)
  }

  lemma ReplayStep(c: Config, h: Hub, a: Action)
    requires ValidConfig(c) && Enabled(c, h, a) && ReplayOk(c, h)
    ensures ReplayOk(c, Step(c, h, a))
  {
  }

  lemma FlightStep(c: Config, h: Hub, a: Action, p: nat)
    requires Enabled(c, h, a) && FlightOk(h, p)
    ensures FlightOk(Step(c, h, a), p)
  {
  }

  lemma {:induction false} NewerIsSuffix(ms: seq<Message>, after: nat, cut: nat)
    requires cut <= |ms| && forall i :: 0 <= i < |ms| ==> (ms[i].position > after <==> cut <= i)
    ensures NewerThan(ms, after) == ms[cut..]
  {
    if ms != [] {
      var n := |ms| - 1;
      NewerIsSuffix(ms[..n], after, if cut <= n then cut else n);
      assert cut <= n ==> ms[cut..] == ms[..n][cut..] + [ms[n]];
    }
  }

  lemma NewerExact(c: Config, h: Hub, after: nat)
    requires ReplayOk(c, h)
    ensures var newer := NewerThan(h.replay, after);
            && |newer| == h.position - Largest(Smallest(after, h.position), h.position - |h.replay|) <= |h.replay|
            && newer == h.replay[|h.replay| - |newer|..]
  {
    var oldest := h.position - |h.replay|;
    NewerIsSuffix(h.replay, after, Largest(Smallest(after, h.position), oldest) - oldest);
  }

  /** Where a replay starts: at `after`, at the oldest retained position, or as far back as the queue holds. */
  function ReplayStart(c: Config, position: nat, after: nat): nat {
    Largest(Smallest(after, position), Largest(position - Smallest(position, c.replayCapacity),
                                               position - Smallest(position, c.subscriberCapacity)))
  }

  /** The replay is every retained position from there to the newest, and it fits the queue. */
  lemma ReplayIsExact(c: Config, h: Hub, after: nat)
    requires ReplayOk(c, h)
    ensures var (replay, start) := (ReplayFor(c, h.replay, after), ReplayStart(c, h.position, after));
            && |replay| == h.position - start <= c.subscriberCapacity && start <= h.position == |h.log|
            && forall i :: 0 <= i < |replay| ==> replay[i] == MessageAt(h.log, start + 1 + i)
  {
    hide NewerThan, MessageAt, ReplayOk, ReplayStart;
    var (newer, replay) := (NewerThan(h.replay, after), ReplayFor(c, h.replay, after));
    ReplayLength(c, h, after);
    NewerExact(c, h, after);
    SuffixOf(c, h, newer, replay);
  }

  lemma ReplayLength(c: Config, h: Hub, after: nat)
    requires ReplayOk(c, h)
    ensures |ReplayFor(c, h.replay, after)| == h.position - ReplayStart(c, h.position, after) <= c.subscriberCapacity
    ensures ReplayStart(c, h.position, after) <= h.position == |h.log|
  {
    hide NewerThan, MessageAt;
    NewerExact(c, h, after);
  }

  /** A suffix of a suffix of the replay buffer is known by its length. */
  lemma SuffixOf(c: Config, h: Hub, newer: seq<Message>, replay: seq<Message>)
    requires ReplayOk(c, h) && |replay| <= |newer| <= |h.replay|
    requires newer == h.replay[|h.replay| - |newer|..] && replay == newer[|newer| - |replay|..]
    ensures forall i :: 0 <= i < |replay| ==> replay[i] == MessageAt(h.log, h.position - |replay| + 1 + i)
  {
    forall i | 0 <= i < |replay| ensures replay[i] == MessageAt(h.log, h.position - |replay| + 1 + i) {
      assert replay[i] == h.replay[|h.replay| - |replay| + i];
    }
  }

  lemma QueueStep(c: Config, h: Hub, a: Action, id: SubId)
    requires Enabled(c, h, a) && ReplayOk(c, h) && QueueOk(c, h, id)
    requires a.Put? ==> OwedOk(h, h.pending[a.position][0], a.position)
    ensures QueueOk(c, Step(c, h, a), id)
  {
    match a
    case Subscribe(i, after) => if i == id { JoinQueue(c, h, id, after); }
    case Take(i, woken) => if i == id { TakenIsSent(h.subs[id], Waiting(h.subs[id], woken)); }
    case Put(p) => PutQueue(c, h, p, id);
    case _ =>
  }

  lemma JoinQueue(c: Config, h: Hub, id: SubId, after: nat)
    requires Enabled(c, h, Subscribe(id, after)) && ReplayOk(c, h)
    ensures QueueOk(c, Step(c, h, Subscribe(id, after)), id)
  {
    hide ReplayOk, ReplayFor, ReplayStart, NewerThan, MessageAt, Genuine;
    ReplayIsExact(c, h, after);
    var s := Step(c, h, Subscribe(id, after)).subs[id];
    assert Sent(s) == s.queue;
    SliceIsGenuine(h.log, s.queue, ReplayStart(c, h.position, after));
  }

  lemma SliceIsGenuine(log: seq<Envelope>, ms: seq<Message>, start: nat)
    requires start + |ms| <= |log| && forall i :: 0 <= i < |ms| ==> ms[i] == MessageAt(log, start + 1 + i)
    ensures Genuine(log, ms)
  {
    assert forall i :: 0 <= i < |ms| ==> ms[i].position == start + 1 + i;
  }

  lemma PutQueue(c: Config, h: Hub, p: nat, id: SubId)
    requires Enabled(c, h, Put(p)) && QueueOk(c, h, id) && OwedOk(h, h.pending[p][0], p)
    ensures QueueOk(c, Step(c, h, Put(p)), id)
  {
    if h.pending[p][0] == id {
      AppendedIsNew(h.subs[id], MessageAt(h.log, p));
      assert Pending(h, p, id) && p !in Positions(Sent(h.subs[id]));
    }
  }

  lemma TakenIsSent(s: Subscriber, waiting: nat)
    requires s.queue != []
    ensures Sent(s.(queue := s.queue[1..], taken := s.taken + [s.queue[0]], waiting := waiting)) == Sent(s)
  {
  }

  lemma AppendedIsNew(s: Subscriber, m: Message)
    ensures Sent(s.(queue := s.queue + [m])) == Sent(s) + [m]
    ensures Positions(Sent(s) + [m]) == Positions(Sent(s)) + {m.position}
    ensures forall i :: 0 <= i < |Sent(s)| ==> Sent(s)[i].position in Positions(Sent(s))
  {
    assert forall i :: 0 <= i < |Sent(s)| ==> Sent(s)[i] in Sent(s);
    assert m in Sent(s) + [m];
    forall p | p in Positions(Sent(s)) + {m.position} ensures p in Positions(Sent(s) + [m]) {
      if p != m.position {
        var x :| x in Sent(s) && x.position == p;
        assert x in Sent(s) + [m];
      }
    }
  }

  lemma OwedStep(c: Config, h: Hub, a: Action, id: SubId, p: nat)
    requires Enabled(c, h, a) && ReplayOk(c, h) && FlightOk(h, p) && QueueOk(c, h, id) && OwedOk(h, id, p)
    ensures OwedOk(Step(c, h, a), id, p)
  {
    match a
    case Assign(_, _) =>
    case Put(q) => PutOwed(c, h, q, id, p);
    case Subscribe(i, after) => if i == id { JoinOwed(c, h, id, after, p); }
    case Take(i, woken) => if i == id { TakenIsSent(h.subs[id], Waiting(h.subs[id], woken)); }
    case _ =>
  }

  lemma PutOwed(c: Config, h: Hub, q: nat, id: SubId, p: nat)
    requires Enabled(c, h, Put(q)) && FlightOk(h, p) && OwedOk(h, id, p)
    ensures OwedOk(Step(c, h, Put(q)), id, p)
  {
    var first := h.pending[q][0];
    AppendedIsNew(h.subs[first], MessageAt(h.log, q));
    assert h.pending[q] == [first] + h.pending[q][1..];
  }

  lemma JoinOwed(c: Config, h: Hub, id: SubId, after: nat, p: nat)
    requires Enabled(c, h, Subscribe(id, after)) && ReplayOk(c, h) && FlightOk(h, p)
    ensures OwedOk(Step(c, h, Subscribe(id, after)), id, p)
  {
    hide ReplayOk, ReplayFor, ReplayStart, Positions;
    ReplayIsExact(c, h, after);
    var s := Step(c, h, Subscribe(id, after)).subs[id];
    assert Sent(s) == s.queue;
    SlicePositions(s.queue, ReplayStart(c, h.position, after), p);
  }

  lemma SlicePositions(ms: seq<Message>, start: nat, p: nat)
    requires forall i :: 0 <= i < |ms| ==> ms[i].position == start + 1 + i
    ensures p in Positions(ms) <==> start < p <= start + |ms|
  {
    if start < p <= start + |ms| {
      assert ms[p - start - 1] in ms;
    }
  }

  lemma InvStep(c: Config, h: Hub, a: Action)
    requires ValidConfig(c) && Inv(c, h) && Enabled(c, h, a)
    ensures Inv(c, Step(c, h, a))
  {
    hide Enabled, Step, ReplayOk, FlightOk, QueueOk, OwedOk;
    ReplayStep(c, h, a);
    forall p ensures FlightOk(Step(c, h, a), p) {
      FlightStep(c, h, a, p);
    }
    forall id ensures QueueOk(c, Step(c, h, a), id) {
      PutTarget(c, h, a);
      QueueStep(c, h, a, id);
    }
    forall id, p ensures OwedOk(Step(c, h, a), id, p) {
      OwedStep(c, h, a, id, p);
    }
  }

  lemma PutTarget(c: Config, h: Hub, a: Action)
    requires Enabled(c, h, a) && Inv(c, h)
    ensures a.Put? ==> OwedOk(h, h.pending[a.position][0], a.position)
  {
  }

  // ----- runs -----

  /** No fan-out is in flight. */
  ghost predicate Quiet(h: Hub) {
    forall p :: p in h.pending ==> h.pending[p] == []
  }

  /** Which steps a run may take: publishes one after the other, and no put of somebody else's message. */
  datatype Rule = Rule(serial: bool, mine: set<nat>)

  const FREE := Rule(false, {})
  const SERIAL := Rule(true, {})

  ghost predicate Permitted(rule: Rule, h: Hub, a: Action) {
    (rule.serial && a.Assign? ==> Quiet(h)) && (a.Put? ==> a.position !in rule.mine)
  }

  ghost predicate Leads(c: Config, rule: Rule, h: Hub, run: seq<Action>, h': Hub)
    decreases |run|
  {
    if run == [] then h' == h
    else Enabled(c, h, run[0]) && Permitted(rule, h, run[0]) && Leads(c, rule, Step(c, h, run[0]), run[1..], h')
  }

  lemma {:induction false} LeadsInv(c: Config, rule: Rule, h: Hub, run: seq<Action>, h': Hub)
    requires ValidConfig(c) && Inv(c, h) && Leads(c, rule, h, run, h')
    ensures Inv(c, h')
    decreases |run|
  {
    if run != [] {
      InvStep(c, h, run[0]);
      LeadsInv(c, rule, Step(c, h, run[0]), run[1..], h');
    }
  }

  lemma {:induction false} LeadsConcat(c: Config, rule: Rule, h: Hub, run: seq<Action>, r: Hub, more: seq<Action>,
                                       s: Hub)
    requires Leads(c, rule, h, run, r) && Leads(c, rule, r, more, s)
    ensures Leads(c, rule, h, run + more, s)
    decreases |run|
  {
    if run == [] {
      assert run + more == more;
    } else {
      LeadsConcat(c, rule, Step(c, h, run[0]), run[1..], r, more, s);
      assert (run + more)[1..] == run[1..] + more;
    }
  }

  lemma EmptyInv(c: Config)
    ensures Inv(c, EMPTY)
  {
  }

  // ----- main results -----

  /**
   In every run each subscriber is sent exactly the positions above its start, up to
   the last one before it left, each at most once and with its own event; what is
   missing is still on its way.
   */
  lemma ExactlyOnce(c: Config, run: seq<Action>, h: Hub, id: SubId, p: nat)
    requires ValidConfig(c) && Leads(c, FREE, EMPTY, run, h) && id in h.subs
    ensures var (s, sent) := (h.subs[id], Sent(h.subs[id]));
            && (p in Positions(sent) || Pending(h, p, id) <==> s.start < p <= Last(h, s))
            && !(p in Positions(sent) && Pending(h, p, id))
            && (forall i, j :: 0 <= i < j < |sent| ==> sent[i].position != sent[j].position)
            && (forall i :: 0 <= i < |sent| ==>
                 1 <= sent[i].position <= |h.log| && sent[i].event == h.log[sent[i].position - 1])
            && |s.queue| <= c.subscriberCapacity
  {
    EmptyInv(c);
    LeadsInv(c, FREE, EMPTY, run, h);
    assert QueueOk(c, h, id) && OwedOk(h, id, p);
  }

  /** The subscriber's stream so far is one run of consecutive positions. */
  ghost predicate Consecutive(s: Subscriber) {
    forall i :: 0 <= i < |Sent(s)| ==> Sent(s)[i].position == s.start + 1 + i
  }

  /** A put keeps a subscriber's stream consecutive exactly when no earlier position is on its way to it. */
  lemma PutOrderExact(c: Config, h: Hub, p: nat)
    requires Inv(c, h) && Enabled(c, h, Put(p)) && Consecutive(h.subs[h.pending[p][0]])
    ensures var id := h.pending[p][0];
            Consecutive(Step(c, h, Put(p)).subs[id]) <==> forall q: nat :: q < p ==> !Pending(h, q, id)
  {
    var id := h.pending[p][0];
    var s := h.subs[id];
    var s' := Step(c, h, Put(p)).subs[id];
    var next := s.start + 1 + |Sent(s)|;
    AppendedIsNew(s, MessageAt(h.log, p));
    assert OwedOk(h, id, p) && OwedOk(h, id, next) && QueueOk(c, h, id);
    SlicePositions(Sent(s), s.start, p);
    SlicePositions(Sent(s), s.start, next);
    assert Consecutive(s') <==> p == next by {
      assert Sent(s')[|Sent(s)|].position == p;
    }
    if p == next {
      forall q: nat | q < p ensures !Pending(h, q, id) {
        assert OwedOk(h, id, q);
        SlicePositions(Sent(s), s.start, q);
      }
    } else {
      assert next < p && Pending(h, next, id);
    }
  }

  /** Only the newest position may be on its way, and every stream is consecutive. */
  ghost predicate SerialInv(h: Hub) {
    && (forall p :: p in h.pending && p != h.position ==> h.pending[p] == [])
    && forall id :: id in h.subs ==> Consecutive(h.subs[id])
  }

  lemma SerialStep(c: Config, h: Hub, a: Action)
    requires Inv(c, h) && SerialInv(h) && Enabled(c, h, a) && Permitted(SERIAL, h, a)
    ensures SerialInv(Step(c, h, a))
  {
    forall id | id in Step(c, h, a).subs ensures Consecutive(Step(c, h, a).subs[id]) {
      SerialSub(c, h, a, id);
    }
  }

  lemma SerialSub(c: Config, h: Hub, a: Action, id: SubId)
    requires Inv(c, h) && SerialInv(h) && Enabled(c, h, a) && id in Step(c, h, a).subs
    ensures Consecutive(Step(c, h, a).subs[id])
  {
    hide ReplayOk, ReplayFor;
    assert id in h.subs ==> Consecutive(h.subs[id]);
    match a
    case Put(p) =>
      assert p == h.position && forall q: nat :: q < p ==> !Pending(h, q, id);
      if h.pending[p][0] == id { PutOrderExact(c, h, p); }
    case Subscribe(i, after) => if i == id { JoinConsecutive(c, h, id, after); }
    case Take(i, woken) => if i == id { TakenIsSent(h.subs[id], Waiting(h.subs[id], woken)); }
    case _ => assert Sent(Step(c, h, a).subs[id]) == Sent(h.subs[id]);
  }

  lemma JoinConsecutive(c: Config, h: Hub, id: SubId, after: nat)
    requires Enabled(c, h, Subscribe(id, after)) && ReplayOk(c, h)
    ensures Consecutive(Step(c, h, Subscribe(id, after)).subs[id])
  {
    hide ReplayOk, ReplayFor, ReplayStart;
    ReplayIsExact(c, h, after);
    var s := Step(c, h, Subscribe(id, after)).subs[id];
    assert Sent(s) == s.queue;
  }

  /** When publishes do not overlap, every subscriber's stream is one run of consecutive positions. */
  lemma {:induction false} SerialRunsKeepOrder(c: Config, h: Hub, run: seq<Action>, h': Hub)
    requires ValidConfig(c) && Inv(c, h) && SerialInv(h) && Leads(c, SERIAL, h, run, h')
    ensures SerialInv(h')
    decreases |run|
  {
    if run != [] {
      InvStep(c, h, run[0]);
      SerialStep(c, h, run[0]);
      SerialRunsKeepOrder(c, Step(c, h, run[0]), run[1..], h');
    }
  }

  /** A full queue of one holds position 2 back after position 1. */
  lemma HeldBack(e: Envelope) returns (run: seq<Action>, h: Hub)
    ensures Leads(Config(1, 1), FREE, EMPTY, run, h) && h.log == [e, e] && h.position == 2
    ensures h.pending == map[1 := [], 2 := [0]]
    ensures h.subs == map[0 := Subscriber([Message(1, e)], [], true, false, 0, 0, 0, 0)]
  {
    hide Leads, Snapshot;
    var c := Config(1, 1);
    EmptyLeads(c);
    run, h := Then(c, [], EMPTY, Subscribe(0, 0));
    assert h.subs == map[0 := Subscriber([], [], true, false, 0, 0, 0, 0)];
    run, h := ThenAssign(c, run, h, e);
    assert h.log == [e] && [0][1..] == [] && [] + [Message(1, e)] == [Message(1, e)];
    run, h := Then(c, run, h, Put(1));
    assert h.subs == map[0 := Subscriber([Message(1, e)], [], true, false, 0, 0, 0, 0)] && h.pending == map[1 := []];
    run, h := ThenAssign(c, run, h, e);
    assert h.position == 2;
  }

  /** Overlapping publishes can reorder a stream: when a place gets free, position 3 may take it before 2. */
  lemma OverlapReorders(e: Envelope) returns (run: seq<Action>, h: Hub)
    ensures Leads(Config(1, 1), FREE, EMPTY, run, h) && 0 in h.subs && !Consecutive(h.subs[0])
  {
    hide Leads, Snapshot, Inv;
    var c := Config(1, 1);
    run, h := HeldBack(e);
    assert [Message(1, e)][1..] == [] && [] + [Message(1, e)] == [Message(1, e)];
    run, h := Then(c, run, h, Take(0, false));
    run, h := ThenAssign(c, run, h, e);
    EmptyInv(c);
    LeadsInv(c, FREE, EMPTY, run, h);
    assert h.subs == map[0 := Subscriber([], [Message(1, e)], true, false, 0, 0, 0, 0)];
    assert Pending(h, 2, 0);
    PutOrderExact(c, h, 3);
    run, h := Then(c, run, h, Put(3));
  }

  lemma ThenAssign(c: Config, run: seq<Action>, h: Hub, e: Envelope) returns (run': seq<Action>, h': Hub)
    requires Leads(c, FREE, EMPTY, run, h) && h.subs.Keys == {0} && h.subs[0].live
    ensures Enabled(c, h, Assign(e, [0])) && h' == Step(c, h, Assign(e, [0])) && Leads(c, FREE, EMPTY, run', h')
  {
    assert Snapshot(h, [0]);
    run', h' := Then(c, run, h, Assign(e, [0]));
  }

  lemma EmptyLeads(c: Config)
    ensures Leads(c, FREE, EMPTY, [], EMPTY)
  {
  }

  lemma Then(c: Config, run: seq<Action>, h: Hub, a: Action) returns (run': seq<Action>, h': Hub)
    requires Leads(c, FREE, EMPTY, run, h) && Enabled(c, h, a)
    ensures h' == Step(c, h, a) && Leads(c, FREE, EMPTY, run', h')
  {
    run', h' := run + [a], Step(c, h, a);
    assert Leads(c, FREE, h', [], h') && [a][1..] == [];
    LeadsConcat(c, FREE, EMPTY, run, h, [a], h');
  }

  // ----- when a publish can finish -----

  /** Its queue has room, or somebody can still take from it. */
  ghost predicate Serviceable(c: Config, h: Hub, id: SubId) {
    id in h.subs && (|h.subs[id].queue| < c.subscriberCapacity || !h.subs[id].closed || h.subs[id].waiting > 0)
  }

  /** Closed with a full queue and nobody left in `next`: nothing ever moves there again. */
  ghost predicate Dead(c: Config, h: Hub, id: SubId) {
    id in h.subs && |h.subs[id].queue| >= c.subscriberCapacity && h.subs[id].closed && h.subs[id].waiting == 0
  }

  lemma DeadStep(c: Config, h: Hub, a: Action, p: nat, id: SubId)
    requires Inv(c, h) && ValidConfig(c) && Enabled(c, h, a) && Dead(c, h, id) && Pending(h, p, id)
    ensures Dead(c, Step(c, h, a), id) && Pending(Step(c, h, a), p, id)
  {
    assert FlightOk(h, h.position + 1);
    if a.Put? && a.position == p {
      assert h.pending[p] == [h.pending[p][0]] + h.pending[p][1..];
    }
  }

  lemma {:induction false} DeadForever(c: Config, h: Hub, run: seq<Action>, h': Hub, p: nat, id: SubId)
    requires ValidConfig(c) && Inv(c, h) && Leads(c, FREE, h, run, h') && Dead(c, h, id) && Pending(h, p, id)
    ensures Dead(c, h', id) && Pending(h', p, id)
    decreases |run|
  {
    if run != [] {
      DeadStep(c, h, run[0], p, id);
      InvStep(c, h, run[0]);
      DeadForever(c, Step(c, h, run[0]), run[1..], h', p, id);
    }
  }

  /** What a subscriber has given out and what calls of `next` still wait for. */
  function Claims(s: Subscriber): nat {
    |s.taken| + s.waiting
  }

  lemma ClosedStep(c: Config, h: Hub, a: Action, id: SubId)
    requires Enabled(c, h, a) && id in h.subs && h.subs[id].closed
    ensures var h' := Step(c, h, a); id in h'.subs && h'.subs[id].closed && Claims(h'.subs[id]) <= Claims(h.subs[id])
    ensures h.subs[id].taken <= Step(c, h, a).subs[id].taken
  {
  }

  /** A closed subscription gives out at most one message for each `next` that was waiting, and stays closed. */
  lemma {:induction false} ClosedGivesAtMost(c: Config, h: Hub, run: seq<Action>, h': Hub, id: SubId)
    requires Leads(c, FREE, h, run, h') && id in h.subs && h.subs[id].closed
    ensures id in h'.subs && h'.subs[id].closed && h.subs[id].taken <= h'.subs[id].taken
    ensures |h'.subs[id].taken| - |h.subs[id].taken| + h'.subs[id].waiting <= h.subs[id].waiting
    decreases |run|
  {
    if run != [] {
      ClosedStep(c, h, run[0], id);
      ClosedGivesAtMost(c, Step(c, h, run[0]), run[1..], h', id);
    }
  }

  /** And each of them can be answered with the oldest message still queued. */
  lemma {:induction false} ClosedCanGive(c: Config, h: Hub, id: SubId, n: nat) returns (run: seq<Action>, h': Hub)
    requires id in h.subs && h.subs[id].closed && n <= h.subs[id].waiting && n <= |h.subs[id].queue|
    ensures Leads(c, FREE, h, run, h') && id in h'.subs
    ensures h'.subs[id] == h.subs[id].(queue := h.subs[id].queue[n..], waiting := h.subs[id].waiting - n,
                                       taken := h.subs[id].taken + h.subs[id].queue[..n])
    decreases n
  {
    var s := h.subs[id];
    run, h' := [], h;
    if n == 0 {
      assert s.taken + s.queue[..0] == s.taken && s.queue[0..] == s.queue;
    } else {
      var take := Take(id, true);
      var r := Step(c, h, take);
      OneStep(c, h, take);
      var rest;
      rest, h' := ClosedCanGive(c, r, id, n - 1);
      run := [take] + rest;
      LeadsConcat(c, FREE, h, [take], r, rest, h');
      assert s.queue[1..][n - 1..] == s.queue[n..];
      assert s.taken + [s.queue[0]] + s.queue[1..][..n - 1] == s.taken + s.queue[..n];
    }
  }

  /** What is queued behind a dead subscriber of a fan-out. */
  lemma BehindStep(c: Config, h: Hub, a: Action, p: nat)
    requires Inv(c, h) && ValidConfig(c) && Enabled(c, h, a)
    requires p in h.pending && h.pending[p] != [] && Dead(c, h, h.pending[p][0])
    ensures var h' := Step(c, h, a); p in h'.pending && h'.pending[p] == h.pending[p] && Dead(c, h', h.pending[p][0])
  {
    DeadStep(c, h, a, p, h.pending[p][0]);
    assert FlightOk(h, h.position + 1);
  }

  /** Nobody behind a dead subscriber in a fan-out is ever sent its position. */
  lemma {:induction false} NeverSentBehind(c: Config, h: Hub, run: seq<Action>, h': Hub, p: nat, id: SubId)
    requires ValidConfig(c) && Inv(c, h) && Leads(c, FREE, h, run, h')
    requires p in h.pending && h.pending[p] != [] && Dead(c, h, h.pending[p][0]) && id in h.pending[p]
    ensures id in h'.subs && p !in Positions(Sent(h'.subs[id])) && Pending(h', p, id)
    decreases |run|
  {
    if run == [] {
      assert OwedOk(h, id, p) && FlightOk(h, p);
    } else {
      BehindStep(c, h, run[0], p);
      InvStep(c, h, run[0]);
      NeverSentBehind(c, Step(c, h, run[0]), run[1..], h', p, id);
    }
  }

  /** Serve the next subscriber of a fan-out, making room first if its queue is full. */
  lemma ServeNext(c: Config, h: Hub, p: nat) returns (run: seq<Action>, h': Hub)
    requires ValidConfig(c) && Inv(c, h) && p in h.pending && h.pending[p] != [] && Serviceable(c, h, h.pending[p][0])
    ensures Leads(c, FREE, h, run, h') && p in h'.pending && h'.pending[p] == h.pending[p][1..]
    ensures forall id :: id in h.subs && id != h.pending[p][0] ==> id in h'.subs && h'.subs[id] == h.subs[id]
  {
    var id := h.pending[p][0];
    var s := h.subs[id];
    assert FlightOk(h, p) && ReplayOk(c, h) && QueueOk(c, h, id);
    if |s.queue| < c.subscriberCapacity {
      run, h' := [Put(p)], Step(c, h, Put(p));
      OneStep(c, h, Put(p));
    } else {
      var take := Take(id, s.closed);
      var r := Step(c, h, take);
      h' := Step(c, r, Put(p));
      OneStep(c, h, take);
      OneStep(c, r, Put(p));
      run := [take] + [Put(p)];
      LeadsConcat(c, FREE, h, [take], r, [Put(p)], h');
    }
  }

  lemma OneStep(c: Config, h: Hub, a: Action)
    requires Enabled(c, h, a)
    ensures Leads(c, FREE, h, [a], Step(c, h, a))
  {
    assert [a][1..] == [] && Leads(c, FREE, Step(c, h, a), [], Step(c, h, a));
  }

  lemma {:induction false} ServeAll(c: Config, h: Hub, p: nat) returns (run: seq<Action>, h': Hub)
    requires ValidConfig(c) && Inv(c, h) && p in h.pending && forall id :: id in h.pending[p] ==> Serviceable(c, h, id)
    ensures Leads(c, FREE, h, run, h') && p in h'.pending && h'.pending[p] == []
    decreases |h.pending[p]|
  {
    run, h' := [], h;
    if h.pending[p] != [] {
      var first, r := ServeNext(c, h, p);
      LeadsInv(c, FREE, h, first, r);
      assert FlightOk(h, p);
      forall id | id in r.pending[p] ensures Serviceable(c, r, id) {
        var k :| 0 <= k < |r.pending[p]| && r.pending[p][k] == id;
        assert h.pending[p][k + 1] == id && Serviceable(c, h, id);
      }
      var rest;
      rest, h' := ServeAll(c, r, p);
      run := first + rest;
      LeadsConcat(c, FREE, h, first, r, rest, h');
    }
  }

  /** Some run serves everybody the publish still has to serve. */
  ghost predicate CanFinish(c: Config, h: Hub, p: nat) {
    exists run, h' :: Leads(c, FREE, h, run, h') && Finished(h', p)
  }

  predicate Finished(h: Hub, p: nat) {
    p in h.pending && h.pending[p] == []
  }

  ghost predicate AllServiceable(c: Config, h: Hub, p: nat) {
    forall id :: Pending(h, p, id) ==> Serviceable(c, h, id)
  }

  /**
   A publish can still finish exactly when each subscriber it has to serve has room, or
   somebody who can make some: is not closed, or was waiting in `next` when it was closed.
   */
  lemma CanFinishExact(c: Config, h: Hub, p: nat)
    requires ValidConfig(c) && Inv(c, h) && p in h.pending
    ensures CanFinish(c, h, p) <==> AllServiceable(c, h, p)
  {
    hide Leads, Inv, Serviceable;
    if AllServiceable(c, h, p) {
      forall id | id in h.pending[p] ensures Serviceable(c, h, id) {
        assert Pending(h, p, id);
      }
      var run, h' := ServeAll(c, h, p);
      assert Finished(h', p);
    }
    if CanFinish(c, h, p) {
      var run, h' :| Leads(c, FREE, h, run, h') && Finished(h', p);
      forall id | Pending(h, p, id) ensures Serviceable(c, h, id) {
        FinishedWasServiceable(c, h, run, h', p, id);
      }
    }
  }

  lemma FinishedWasServiceable(c: Config, h: Hub, run: seq<Action>, h': Hub, p: nat, id: SubId)
    requires ValidConfig(c) && Inv(c, h) && Leads(c, FREE, h, run, h') && Pending(h, p, id)
    requires p in h'.pending && h'.pending[p] == []
    ensures Serviceable(c, h, id)
  {
    assert FlightOk(h, p);
    if Dead(c, h, id) {
      DeadForever(c, h, run, h', p, id);
    }
  }

  /** A publish waits at subscriber 0's full queue of one when that is closed; subscriber 1 waits behind. */
  lemma StuckRun(e: Envelope) returns (run: seq<Action>, h: Hub)
    ensures Leads(Config(1, 1), FREE, EMPTY, run, h) && 2 in h.pending && h.pending[2] == [0, 1]
    ensures Dead(Config(1, 1), h, 0) && Serviceable(Config(1, 1), h, 1)
  {
    hide Leads, Snapshot;
    var c := Config(1, 1);
    run, h := BothServed(e);
    assert Snapshot(h, [0, 1]) by { SnapshotOfTwo(h); }
    run, h := Then(c, run, h, Assign(e, [0, 1]));
    run, h := Then(c, run, h, Close(0));
  }

  lemma SnapshotOfTwo(h: Hub)
    requires h.subs.Keys == {0, 1} && h.subs[0].live && h.subs[1].live
    ensures Snapshot(h, [0, 1])
  {
  }

  /** Two subscribers have a first message queued. */
  lemma BothServed(e: Envelope) returns (run: seq<Action>, h: Hub)
    ensures Leads(Config(1, 1), FREE, EMPTY, run, h) && h.position == 1 && h.subs.Keys == {0, 1}
    ensures forall i :: 0 <= i < 2 ==> h.subs[i] == Subscriber([Message(1, e)], [], true, false, 0, 0, 0, 0)
  {
    hide Leads, Snapshot;
    var c := Config(1, 1);
    EmptyLeads(c);
    run, h := Then(c, [], EMPTY, Subscribe(0, 0));
    run, h := Then(c, run, h, Subscribe(1, 0));
    assert h.subs.Keys == {0, 1} && h.subs[0] == h.subs[1] == Subscriber([], [], true, false, 0, 0, 0, 0);
    SnapshotOfTwo(h);
    run, h := Then(c, run, h, Assign(e, [0, 1]));
    assert h.log == [e] && [] + [Message(1, e)] == [Message(1, e)] && [0, 1][1..] == [1];
    run, h := Then(c, run, h, Put(1));
    assert h.pending == map[1 := [1]] && h.subs[0] == Subscriber([Message(1, e)], [], true, false, 0, 0, 0, 0);
    run, h := Then(c, run, h, Put(1));
  }

  // ----- the hub -----

  ghost predicate Reaches(c: Config, rule: Rule, h: Hub, h': Hub) {
    exists run :: Leads(c, rule, h, run, h')
  }

  lemma ReachesStep(c: Config, rule: Rule, h: Hub, a: Action)
    requires Enabled(c, h, a) && Permitted(rule, h, a)
    ensures Reaches(c, rule, h, Step(c, h, a))
  {
    assert Leads(c, rule, Step(c, h, a), [], Step(c, h, a)) && [a][1..] == [];
    assert Leads(c, rule, h, [a], Step(c, h, a));
  }

  lemma ReachesSelf(c: Config, rule: Rule, h: Hub)
    ensures Reaches(c, rule, h, h)
  {
    assert Leads(c, rule, h, [], h);
  }

  lemma ReachesTrans(c: Config, rule: Rule, h: Hub, r: Hub, s: Hub)
    requires Reaches(c, rule, h, r) && Reaches(c, rule, r, s)
    ensures Reaches(c, rule, h, s)
  {
    var run :| Leads(c, rule, h, run, r);
    var more :| Leads(c, rule, r, more, s);
    LeadsConcat(c, rule, h, run, r, more, s);
  }

  lemma {:induction false} LeadsFree(c: Config, rule: Rule, h: Hub, run: seq<Action>, h': Hub)
    requires Leads(c, rule, h, run, h')
    ensures Leads(c, FREE, h, run, h')
    decreases |run|
  {
    if run != [] {
      LeadsFree(c, rule, Step(c, h, run[0]), run[1..], h');
    }
  }

  lemma ReachesFree(c: Config, rule: Rule, h: Hub, h': Hub)
    requires Reaches(c, rule, h, h')
    ensures Reaches(c, FREE, h, h')
  {
    var run :| Leads(c, rule, h, run, h');
    LeadsFree(c, rule, h, run, h');
  }

  /** A subscriber keeps what it was owed, and a publisher keeps its own fan-out. */
  ghost predicate Later(rule: Rule, h: Hub, h': Hub) {
    && (forall id :: id in h.subs ==>
          && id in h'.subs && h'.subs[id].start == h.subs[id].start && h'.subs[id].joined == h.subs[id].joined
          && Last(h, h.subs[id]) <= Last(h', h'.subs[id]) && (h.subs[id].closed ==> h'.subs[id].closed))
    && h.position <= h'.position && h.log <= h'.log
    && forall p :: p in h.pending && p in rule.mine ==> p in h'.pending && h'.pending[p] == h.pending[p]
  }

  lemma StepLater(c: Config, rule: Rule, h: Hub, a: Action)
    requires Inv(c, h) && Enabled(c, h, a) && Permitted(rule, h, a)
    ensures Later(rule, h, Step(c, h, a))
  {
    assert FlightOk(h, h.position + 1);
    forall id | id in h.subs ensures QueueOk(c, h, id) {
    }
  }

  lemma {:induction false} RunLater(c: Config, rule: Rule, h: Hub, run: seq<Action>, h': Hub)
    requires ValidConfig(c) && Inv(c, h) && Leads(c, rule, h, run, h')
    ensures Later(rule, h, h')
    decreases |run|
  {
    if run != [] {
      StepLater(c, rule, h, run[0]);
      InvStep(c, h, run[0]);
      RunLater(c, rule, Step(c, h, run[0]), run[1..], h');
    }
  }

  lemma ReachesLater(c: Config, rule: Rule, h: Hub, h': Hub)
    requires ValidConfig(c) && Inv(c, h) && Reaches(c, rule, h, h')
    ensures Inv(c, h') && Later(rule, h, h')
  {
    var run :| Leads(c, rule, h, run, h');
    LeadsInv(c, rule, h, run, h');
    RunLater(c, rule, h, run, h');
  }

  /** Whoever was live when a finished position was assigned has been sent it. */
  lemma FinishedServedAll(c: Config, h: Hub, p: nat, h': Hub, id: SubId)
    requires Inv(c, h) && Inv(c, h') && Later(FREE, h, h') && p == h.position
    requires id in h.subs && h.subs[id].live && h.subs[id].joined < p
    requires p in h'.pending && h'.pending[p] == []
    ensures id in h'.subs && p in Positions(Sent(h'.subs[id]))
  {
    assert QueueOk(c, h, id) && OwedOk(h', id, p);
  }

  datatype Received = Got(message: Message) | WouldWait | SubscriptionClosed

  class RealtimeHub {
    const config: Config
    var position: nat
    var replay: seq<Message>
    var subs: map<SubId, Subscriber>
    ghost var log: seq<Envelope>
    ghost var pending: map<nat, seq<SubId>>

    ghost function View(): Hub
      reads this
    {
      Hub(position, replay, log, subs, pending)
    }

    ghost predicate Valid()
      reads this
    {
      ValidConfig(config) && Inv(config, View())
    }

    constructor (config: Config)
      requires ValidConfig(config)
      ensures Valid() && View() == EMPTY && this.config == config
    {
      this.config, position, replay, subs, log, pending := config, 0, [], map[], [], map[];
      EmptyInv(config);
    }

    /** What other tasks do while this one waits; nobody else puts a message of `rule.mine`. */
    method Others(ghost rule: Rule)
      requires Valid()
      modifies this
      ensures Valid() && Reaches(config, rule, old(View()), View()) && Later(rule, old(View()), View())
    {
      ReachesSelf(config, rule, View());
      ReachesLater(config, rule, View(), View());
    }

    /** The subscribers at this moment. */
    method Subscribers() returns (order: seq<SubId>)
      ensures Snapshot(View(), order)
    {
      order := [];
      var rest := subs.Keys;
      while rest != {}
        invariant rest <= subs.Keys && Distinct(order)
        invariant forall id :: id in order <==> id in subs.Keys - rest && subs[id].live
        decreases rest
      {
        var id :| id in rest;
        rest := rest - {id};
        if subs[id].live {
          order := order + [id];
        }
      }
    }

    /** The part of `publish` under the lock. */
    method AssignPosition(event: Envelope) returns (message: Message, order: seq<SubId>)
      requires Valid()
      modifies this
      ensures Valid() && old(Snapshot(View(), order)) && View() == old(Step(config, View(), Assign(event, order)))
      ensures message == Message(position, event) && position == old(position) + 1
      ensures position in pending && pending[position] == order
      ensures 1 <= position <= |log| && message == MessageAt(log, position)
      ensures forall id :: old(Live(View(), id)) ==> id in subs && subs[id].live && subs[id].joined < position
    {
      order := Subscribers();
      ghost var h := View();
      forall id | Live(h, id) ensures h.subs[id].joined <= position {
        assert QueueOk(config, h, id);
      }
      assert ReplayOk(config, h);
      InvStep(config, h, Assign(event, order));
      position := position + 1;
      message := Message(position, event);
      replay := if |replay| >= config.replayCapacity then replay[1..] + [message] else replay + [message];
      log := log + [event];
      pending := pending[position := order];
    }

    /** `await queue.put(message)`, once there is room. */
    method PutMessage(id: SubId, message: Message)
      requires Valid() && Enabled(config, View(), Put(message.position)) && message == MessageAt(log, message.position)
      requires id == pending[message.position][0]
      modifies this
      ensures Valid() && View() == old(Step(config, View(), Put(message.position)))
    {
      InvStep(config, View(), Put(message.position));
      subs := subs[id := subs[id].(queue := subs[id].queue + [message])];
      pending := pending[message.position := pending[message.position][1..]];
    }

    /**
     `publish`.  A publish that is still waiting for room in a full queue is not done;
     one that is done has served every subscriber there was when it began.
     */
    method Publish(event: Envelope) returns (message: Message, done: bool)
      requires Valid()
      modifies this
      ensures Valid() && Reaches(config, FREE, old(View()), View())
      ensures message == Message(old(position) + 1, event)
      ensures done ==> forall id :: old(Live(View(), id)) ==>
                id in subs && message.position in Positions(Sent(subs[id]))
      ensures !done ==> StuckAt(View(), message.position)
    {
      hide Inv, Reaches, Later, Step, Positions;
      ghost var h0 := View();
      var order;
      message, order := AssignPosition(event);
      ghost var h := View();
      ReachesStep(config, FREE, h0, Assign(event, order));
      ReachesSelf(config, FREE, h);
      done := false;
      for i := 0 to |order|
        invariant Valid() && Reaches(config, FREE, h0, View()) && Reaches(config, FREE, h, View())
        invariant message.position in pending && pending[message.position] == order[i..]
        invariant 1 <= message.position <= |log| && message == MessageAt(log, message.position)
      {
        var room := AwaitRoom(order[i], message, h0, h);
        if !room {
          return;
        }
      }
      done := true;
      ReachesLater(config, FREE, h, View());
      forall id | Live(h0, id) ensures id in subs && message.position in Positions(Sent(subs[id])) {
        FinishedServedAll(config, h, message.position, View(), id);
      }
    }

    /** Wait for room in one subscriber's queue, then put. */
    method AwaitRoom(id: SubId, message: Message, ghost h0: Hub, ghost h: Hub) returns (room: bool)
      requires Valid() && Reaches(config, FREE, h0, View()) && Reaches(config, FREE, h, View())
      requires message.position in pending && pending[message.position] != [] && pending[message.position][0] == id
      requires 1 <= message.position <= |log| && message == MessageAt(log, message.position)
      modifies this
      ensures Valid() && Reaches(config, FREE, h0, View()) && Reaches(config, FREE, h, View())
      ensures message.position in pending && 1 <= message.position <= |log|
      ensures message == MessageAt(log, message.position)
      ensures var rest := old(pending)[message.position];
              pending[message.position] == if room then rest[1..] else rest
      ensures !room ==> StuckAt(View(), message.position)
    {
      hide Inv, Reaches, QueueOk, OwedOk, ReplayOk;
      ghost var was := View();
      Others(Rule(false, {message.position}));
      ghost var now := View();
      ReachesFree(config, Rule(false, {message.position}), was, now);
      ReachesTrans(config, FREE, h0, was, now);
      ReachesTrans(config, FREE, h, was, now);
      PendingKnown(config, now, message.position);
      room := |subs[id].queue| < config.subscriberCapacity;
      if room {
        ReachesStep(config, FREE, now, Put(message.position));
        PutMessage(id, message);
        ReachesTrans(config, FREE, h0, now, View());
        ReachesTrans(config, FREE, h, now, View());
      }
    }

    /** The next subscriber of a fan-out has a full queue. */
    ghost predicate StuckAt(h: Hub, p: nat) {
      && p in h.pending && h.pending[p] != [] && h.pending[p][0] in h.subs
      && |h.subs[h.pending[p][0]].queue| >= config.subscriberCapacity
    }

    /** The replay loop of `subscribe`. */
    method CollectReplay(after: nat) returns (queue: seq<Message>)
      requires Valid()
      ensures queue == ReplayFor(config, replay, after)
    {
      queue := [];
      for i := 0 to |replay|
        invariant queue == NewerThan(replay[..i], after)
      {
        assert replay[..i + 1][..i] == replay[..i];
        if replay[i].position > after {
          queue := queue + [replay[i]];
        }
      }
      assert replay[..|replay|] == replay;
      if |queue| > config.subscriberCapacity {
        queue := queue[|queue| - config.subscriberCapacity..];
      }
    }

    /** `subscribe`: the queue starts with every retained position above `after`, the newest ones if they do not fit. */
    method Subscribe(id: SubId, after: int) returns (ok: bool)
      requires Valid() && id !in subs
      modifies this
      ensures Valid() && ok == (after >= 0)
      ensures !ok ==> View() == old(View())
      ensures ok ==>
                && View() == old(Step(config, View(), Action.Subscribe(id, after)))
                && subs[id].live && subs[id].start == ReplayStart(config, position, after)
                && |subs[id].queue| == position - ReplayStart(config, position, after)
                && forall i :: 0 <= i < |subs[id].queue| ==>
                     subs[id].queue[i] == MessageAt(log, ReplayStart(config, position, after) + 1 + i)
    {
      if after < 0 {
        return false;
      }
      assert ReplayOk(config, View());
      InvStep(config, View(), Action.Subscribe(id, after));
      ReplayIsExact(config, View(), after);
      var queue := CollectReplay(after);
      subs := subs[id := Subscriber(queue, [], true, false, position - Smallest(|queue|, position), position, 0, 0)];
      ok := true;
    }

    /** `next` of a subscription; WouldWait is a call that would block. */
    method Next(id: SubId) returns (r: Received)
      requires Valid() && id in subs
      modifies this
      ensures Valid()
      ensures r.SubscriptionClosed? <==> old(subs)[id].closed
      ensures r.Got? ==> old(Enabled(config, View(), Take(id, false)))
      ensures r.Got? ==> View() == old(Step(config, View(), Take(id, false)))
      ensures r.Got? ==> Sent(subs[id]) == old(Sent(subs[id])) && subs[id].taken == old(subs[id].taken) + [r.message]
      ensures !r.Got? ==> View() == old(View())
    {
      var s := subs[id];
      if s.closed {
        return SubscriptionClosed;
      }
      if s.queue == [] {
        return WouldWait;
      }
      InvStep(config, View(), Take(id, false));
      subs := subs[id := s.(queue := s.queue[1..], taken := s.taken + [s.queue[0]])];
      r := Got(s.queue[0]);
    }

    /** `unsubscribe`: whoever closed it first removes the queue, once it has the lock. */
    method Unsubscribe(id: SubId)
      requires Valid() && id in subs
      modifies this
      ensures Valid() && Reaches(config, FREE, old(View()), View()) && id in subs && subs[id].closed
      ensures old(subs)[id].closed ==> View() == old(View())
      ensures !old(subs)[id].closed ==> !subs[id].live
    {
      ghost var h0 := View();
      if subs[id].closed {
        ReachesSelf(config, FREE, h0);
        return;
      }
      InvStep(config, h0, Close(id));
      ReachesStep(config, FREE, h0, Close(id));
      subs := subs[id := subs[id].(closed := true)];
      WaitAndLeave(id, h0);
    }

    method WaitAndLeave(id: SubId, ghost h0: Hub)
      requires Valid() && id in subs && subs[id].closed && Reaches(config, FREE, h0, View())
      modifies this
      ensures Valid() && Reaches(config, FREE, h0, View()) && id in subs && subs[id].closed && !subs[id].live
    {
      ghost var was := View();
      Others(FREE);
      ghost var now := View();
      ReachesTrans(config, FREE, h0, was, now);
      InvStep(config, now, Leave(id));
      ReachesStep(config, FREE, now, Leave(id));
      if subs[id].live {
        subs := subs[id := subs[id].(live := false, left := position)];
      }
      assert View() == Step(config, now, Leave(id));
      ReachesTrans(config, FREE, h0, now, View());
    }
  }

  lemma PendingKnown(c: Config, h: Hub, p: nat)
    requires Inv(c, h) && p in h.pending
    ensures forall id :: id in h.pending[p] ==> id in h.subs
  {
    assert FlightOk(h, p);
  }
}
