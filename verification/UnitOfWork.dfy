/**
 Units of work that write the event store and the outbox together
 (persistence/unit_of_work.py, TransactionalOutbox in events/outbox.py).

 `db` holds the committed rows; every open scope has its own uncommitted rows.
 A statement sees the committed rows and the scope's own; unique constraints
 are checked against those at the insert and against the committed rows again
 at commit.
 */
module UnitOfWork {
  import opened Prelude
  import opened Events
  import T = OutboxTable

  datatype Tables = Tables(events: seq<Envelope>, outbox: seq<T.Row>)

  const NO_ROWS := Tables([], [])

  function Merge(a: Tables, b: Tables): Tables {
    Tables(a.events + b.events, a.outbox + b.outbox)
  }

  /** The primary key and uq_platform_events_stream. */
  predicate EventClash(a: Envelope, b: Envelope) {
    a.eventId == b.eventId || (a.stream == b.stream && a.sequence == b.sequence)
  }

  predicate EventTaken(t: Tables, e: Envelope) {
    exists i :: 0 <= i < |t.events| && EventClash(t.events[i], e)
  }

  /** uq_platform_outbox_dedup; a missing key never clashes. */
  predicate KeyTaken(t: Tables, key: Option<string>) {
    key.Some? && exists i :: 0 <= i < |t.outbox| && t.outbox[i].dedupKey == key
  }

  /** Some own row violates a constraint against the committed rows. */
  predicate Conflicts(db: Tables, own: Tables) {
    || (exists j :: 0 <= j < |own.events| && EventTaken(db, own.events[j]))
    || (exists j :: 0 <= j < |own.outbox| && KeyTaken(db, own.outbox[j].dedupKey))
  }

  /** `next_sequence`: max(sequence) + 1 of the stream, or 0. */
  function NextSequence(events: seq<Envelope>, st: Stream): nat {
    if events == [] then 0
    else
      var last, before := events[|events| - 1], NextSequence(events[..|events| - 1], st);
      if last.stream == st && last.sequence >= before then last.sequence + 1 else before
  }

  datatype Result = Recorded | Duplicate | Raised

  /**
   `record`: dedup check, event insert, crash gate, outbox insert.  An exception
   leaves what was written before it in the session.
   */
  function RecordEffect(db: Tables, own: Tables, e: Envelope, key: Option<string>, now: real, crash: bool)
    : (Tables, Result)
  {
    var seen := Merge(db, own);
    if KeyTaken(seen, key) then (own, Duplicate)
    else if EventTaken(seen, e) then (own, Raised)
    else
      var written := own.(events := own.events + [e]);
      if crash then (written, Raised)
      else (written.(outbox := own.outbox + [T.NewRow(e, key, now)]), Recorded)
  }

  function Sequenced(db: Tables, own: Tables, e: Envelope): Envelope {
    e.(sequence := NextSequence(Merge(db, own).events, e.stream))
  }

  /** `commit`: all own rows or none. */
  function CommitEffect(db: Tables, own: Tables, crash: bool): (Tables, bool) {
    if crash || Conflicts(db, own) then (db, false) else (Merge(db, own), true)
  }

  // ----- concurrent scopes -----

  /** `next` is a sequence that `record_next` has read and not used yet. */
  datatype Scope = Scope(own: Tables, raised: bool, next: Option<Allocation>)

  datatype Allocation = Allocation(stream: Stream, sequence: nat)

  datatype World = World(db: Tables, scopes: map<nat, Scope>)

  datatype Action =
    | Enter(u: nat)
    | Record(u: nat, e: Envelope, key: Option<string>, now: real, crash: bool)
    | ReadNext(u: nat, stream: Stream)
    | RecordNext(u: nat, e: Envelope, key: Option<string>, now: real, crash: bool)
    | Fault(u: nat)
    | Commit(u: nat, crash: bool)
    | Rollback(u: nat)
    | Exit(u: nat)

  const Start := World(NO_ROWS, map[])

  /**
   `Fault` is a statement refused for what another scope committed since the one before it
   (or any other failure without effect); a refused outbox insert is a `Record` that dies
   at the gate.  An exception leaves the scope: after it, only a rollback or the exit follows.  The two
   statements of a `record_next` are steps of their own; other scopes run between them.
   */
  predicate Enabled(w: World, a: Action) {
    match a
    case Enter(u) => u !in w.scopes
    case Rollback(u) => u in w.scopes
    case Exit(u) => u in w.scopes
    case Fault(u) => u in w.scopes
    case RecordNext(u, e, _, _, _) =>
      u in w.scopes && !w.scopes[u].raised && w.scopes[u].next.Some? && w.scopes[u].next.value.stream == e.stream
    case _ => a.u in w.scopes && !w.scopes[a.u].raised && w.scopes[a.u].next.None?
  }

  function Recording(w: World, u: nat, e: Envelope, key: Option<string>, now: real, crash: bool): World
    requires u in w.scopes
  {
    var (own, r) := RecordEffect(w.db, w.scopes[u].own, e, key, now, crash);
    w.(scopes := w.scopes[u := Scope(own, r.Raised?, None)])
  }

  function Step(w: World, a: Action): World
    requires Enabled(w, a)
  {
    match a
    case Enter(u) => w.(scopes := w.scopes[u := Scope(NO_ROWS, false, None)])
    case Record(u, e, key, now, crash) => Recording(w, u, e, key, now, crash)
    case ReadNext(u, st) =>
      var n := NextSequence(Merge(w.db, w.scopes[u].own).events, st);
      w.(scopes := w.scopes[u := w.scopes[u].(next := Some(Allocation(st, n)))])
    case RecordNext(u, e, key, now, crash) =>
      Recording(w, u, e.(sequence := w.scopes[u].next.value.sequence), key, now, crash)
    case Fault(u) => w.(scopes := w.scopes[u := w.scopes[u].(raised := true)])
    case Commit(u, crash) =>
      var (db, ok) := CommitEffect(w.db, w.scopes[u].own, crash);
      World(db, w.scopes[u := if ok then Scope(NO_ROWS, false, None) else w.scopes[u].(raised := true)])
    case Rollback(u) => w.(scopes := w.scopes[u := Scope(NO_ROWS, false, None)])
    case Exit(u) => w.(scopes := w.scopes - {u})
  }

  ghost predicate Next(only: iset<Stream>, w: World, w': World) {
    exists a: Action :: Enabled(w, a) && Sequencing(only, a) && w' == Step(w, a)
  }

  /** The streams in `only` are written through `record_next` alone. */
  ghost predicate Sequencing(only: iset<Stream>, a: Action) {
    a.Record? ==> a.e.stream !in only
  }

  ghost predicate NextAt(only: iset<Stream>, run: seq<World>, i: int) {
    0 <= i < |run| - 1 && Next(only, run[i], run[i + 1])
  }

  ghost predicate Run(only: iset<Stream>, run: seq<World>) {
    |run| > 0 && run[0] == Start && forall i :: 0 <= i < |run| - 1 ==> NextAt(only, run, i)
  }

  // ----- pairing and uniqueness -----

  /** Event rows and outbox rows correspond one to one, with equal contents. */
  ghost predicate Paired(t: Tables) {
    |t.events| == |t.outbox| && forall i :: 0 <= i < |t.events| ==> t.outbox[i].envelope == t.events[i]
  }

  ghost predicate Unique(t: Tables) {
    && (forall i, j :: 0 <= i < j < |t.events| ==> !EventClash(t.events[i], t.events[j]))
    && (forall i, j :: 0 <= i < j < |t.outbox| && t.outbox[j].dedupKey.Some? ==>
          t.outbox[i].dedupKey != t.outbox[j].dedupKey)
  }

  ghost predicate Sound(t: Tables) {
    Paired(t) && Unique(t)
  }

  ghost predicate ScopeOk(s: Scope) {
    !s.raised ==> Sound(s.own)
  }

  ghost predicate Inv(w: World) {
    Sound(w.db) && forall u :: u in w.scopes ==> ScopeOk(w.scopes[u])
  }

  lemma RecordKeeps(db: Tables, own: Tables, e: Envelope, key: Option<string>, now: real, crash: bool)
    requires Sound(own)
    ensures !RecordEffect(db, own, e, key, now, crash).1.Raised? ==> Sound(RecordEffect(db, own, e, key, now, crash).0)
  {
    if RecordEffect(db, own, e, key, now, crash).1.Recorded? {
      var seen := Merge(db, own);
      forall i | 0 <= i < |own.events| ensures !EventClash(own.events[i], e) {
        assert seen.events[|db.events| + i] == own.events[i];
      }
      forall i | 0 <= i < |own.outbox| && key.Some? ensures own.outbox[i].dedupKey != key {
        assert seen.outbox[|db.outbox| + i] == own.outbox[i];
      }
    }
  }

  lemma CommitKeeps(db: Tables, own: Tables)
    requires Sound(db) && Sound(own) && !Conflicts(db, own)
    ensures Sound(Merge(db, own))
  {
    forall i, j | 0 <= i < |db.events| && 0 <= j < |own.events| ensures !EventClash(db.events[i], own.events[j]) {
      assert !EventTaken(db, own.events[j]);
    }
    forall i, j | 0 <= i < |db.outbox| && 0 <= j < |own.outbox| && own.outbox[j].dedupKey.Some?
      ensures db.outbox[i].dedupKey != own.outbox[j].dedupKey
    {
      assert !KeyTaken(db, own.outbox[j].dedupKey);
    }
  }

  lemma InvStep(w: World, a: Action)
    requires Inv(w) && Enabled(w, a)
    ensures Inv(Step(w, a))
  {
    match a
    case Record(u, e, key, now, crash) =>
      assert ScopeOk(w.scopes[u]);
      RecordKeeps(w.db, w.scopes[u].own, e, key, now, crash);
    case RecordNext(u, e, key, now, crash) =>
      assert ScopeOk(w.scopes[u]);
      RecordKeeps(w.db, w.scopes[u].own, e.(sequence := w.scopes[u].next.value.sequence), key, now, crash);
    case ReadNext(u, _) =>
      assert ScopeOk(w.scopes[u]);
    case Commit(u, crash) =>
      assert ScopeOk(w.scopes[u]);
      if !crash && !Conflicts(w.db, w.scopes[u].own) {
        CommitKeeps(w.db, w.scopes[u].own);
      }
    case _ =>
  }

  lemma {:induction false} RunInv(only: iset<Stream>, run: seq<World>, n: nat)
    requires Run(only, run) && n < |run|
    ensures Inv(run[n])
  {
    if n > 0 {
      RunInv(only, run, n - 1);
      assert NextAt(only, run, n - 1);
      var a :| Enabled(run[n - 1], a) && Sequencing(only, a) && run[n] == Step(run[n - 1], a);
      InvStep(run[n - 1], a);
    }
  }

  // ----- main results -----

  /**
   In every committed state of every run, with crashes at the gate and at every
   other point, event rows and outbox rows correspond one to one, no event and
   no stream position is stored twice, and no deduplication key is used twice.
   */
  lemma CommittedIsAtomic(run: seq<World>, n: nat)
    requires Run(iset{}, run) && n < |run|
    ensures |run[n].db.events| == |run[n].db.outbox|
    ensures forall i :: 0 <= i < |run[n].db.events| ==> run[n].db.outbox[i].envelope == run[n].db.events[i]
    ensures forall i, j :: 0 <= i < j < |run[n].db.events| ==>
              var (a, b) := (run[n].db.events[i], run[n].db.events[j]);
              a.eventId != b.eventId && (a.stream == b.stream ==> a.sequence != b.sequence)
    ensures forall i, j :: 0 <= i < j < |run[n].db.outbox| && run[n].db.outbox[j].dedupKey.Some? ==>
              run[n].db.outbox[i].dedupKey != run[n].db.outbox[j].dedupKey
  {
    RunInv(iset{}, run, n);
  }

  /** What a scope sees is what is committed and what is its own. */
  lemma SeenInBoth(db: Tables, own: Tables, e: Envelope, key: Option<string>)
    ensures KeyTaken(Merge(db, own), key) <==> KeyTaken(db, key) || KeyTaken(own, key)
    ensures EventTaken(Merge(db, own), e) <==> EventTaken(db, e) || EventTaken(own, e)
  {
    var seen := Merge(db, own);
    forall i | 0 <= i < |own.outbox| ensures seen.outbox[|db.outbox| + i] == own.outbox[i] {
    }
    forall i | 0 <= i < |own.events| ensures seen.events[|db.events| + i] == own.events[i] {
    }
    if EventTaken(db, e) {
      var i :| 0 <= i < |db.events| && EventClash(db.events[i], e);
      assert seen.events[i] == db.events[i];
    }
    if KeyTaken(db, key) {
      var i :| 0 <= i < |db.outbox| && db.outbox[i].dedupKey == key;
      assert seen.outbox[i] == db.outbox[i];
    }
    if EventTaken(own, e) {
      var i :| 0 <= i < |own.events| && EventClash(own.events[i], e);
      assert EventClash(seen.events[|db.events| + i], e);
    }
    if KeyTaken(own, key) {
      var i :| 0 <= i < |own.outbox| && own.outbox[i].dedupKey == key;
      assert seen.outbox[|db.outbox| + i].dedupKey == key;
    }
  }

  /** Among these events is one with the id of `e`, or with its place in its stream. */
  ghost predicate Clashes(events: seq<Envelope>, e: Envelope) {
    exists x :: x in events && (x.eventId == e.eventId || (x.stream == e.stream && x.sequence == e.sequence))
  }

  lemma TakenClashes(t: Tables, e: Envelope)
    ensures EventTaken(t, e) <==> Clashes(t.events, e)
  {
    if Clashes(t.events, e) {
      var x :| x in t.events && EventClash(x, e);
      var i :| 0 <= i < |t.events| && t.events[i] == x;
    }
  }

  /**
   A record answers Duplicate exactly when a visible row has its key, is refused exactly when
   the event then clashes with a visible one or the process dies at the gate, and otherwise
   stores the event and an outbox row that carries the key, pending and unclaimed, due at once.
   */
  lemma RecordExact(db: Tables, own: Tables, e: Envelope, key: Option<string>, now: real, crash: bool)
    ensures var (own', r) := RecordEffect(db, own, e, key, now, crash);
            var known := key.Some? && exists row :: row in db.outbox + own.outbox && row.dedupKey == key;
            var clash := Clashes(db.events + own.events, e);
            && (r == Duplicate <==> known) && (r == Raised <==> !known && (clash || crash))
            && own'.events == (if known || clash then own.events else own.events + [e])
            && own'.outbox == if r != Recorded then own.outbox
                              else own.outbox + [T.Row(e, key, now, now, 0, T.Pending, None, None, None, None, None)]
  {
    TakenClashes(Merge(db, own), e);
  }

  /** The commit is refused exactly for a crash, an own event that clashes with a committed one, or a used key. */
  lemma CommitExact(db: Tables, own: Tables, crash: bool)
    ensures var (db', ok) := CommitEffect(db, own, crash);
            && (ok <==> !crash
                        && (forall e :: e in own.events ==> !Clashes(db.events, e))
                        && forall a, b :: a in db.outbox && b in own.outbox && b.dedupKey.Some? ==>
                             a.dedupKey != b.dedupKey)
            && db'.events == (if ok then db.events + own.events else db.events)
            && db'.outbox == (if ok then db.outbox + own.outbox else db.outbox)
  {
    forall e | e in own.events ensures Clashes(db.events, e) == EventTaken(db, e) {
      TakenClashes(db, e);
    }
    if Conflicts(db, own) && forall e :: e in own.events ==> !Clashes(db.events, e) {
      var j :| 0 <= j < |own.outbox| && KeyTaken(db, own.outbox[j].dedupKey);
      var i :| 0 <= i < |db.outbox| && db.outbox[i].dedupKey == own.outbox[j].dedupKey;
      assert db.outbox[i] in db.outbox && own.outbox[j] in own.outbox;
    }
  }

  /** Committed rows stay, in their order. */
  lemma {:induction false} CommittedRowsStay(run: seq<World>, n: nat, m: nat)
    requires Run(iset{}, run) && n <= m < |run|
    ensures run[n].db.events <= run[m].db.events && run[n].db.outbox <= run[m].db.outbox
  {
    if n < m {
      CommittedRowsStay(run, n, m - 1);
      assert NextAt(iset{}, run, m - 1);
    }
  }

  /**
   A key is spent by the commit of its row, after which the scope starts anew: from then on,
   whatever scopes do, exactly that committed row carries it, and every record under it is a
   duplicate without effect.
   */
  lemma KeyIsSpent(run: seq<World>, n: nat, m: nat, u: nat, row: T.Row)
    requires Run(iset{}, run) && n < m < |run| && Enabled(run[n], Commit(u, false))
    requires run[n + 1] == Step(run[n], Commit(u, false)) && CommitEffect(run[n].db, run[n].scopes[u].own, false).1
    requires row in run[n].scopes[u].own.outbox && row.dedupKey.Some?
    ensures run[n + 1].scopes[u] == Scope(NO_ROWS, false, None)
    ensures row in run[m].db.outbox && row.envelope in run[m].db.events
    ensures forall other :: other in run[m].db.outbox && other.dedupKey == row.dedupKey ==> other == row
    ensures forall own, e, now, crash ::
              RecordEffect(run[m].db, own, e, row.dedupKey, now, crash) == (own, Duplicate)
  {
    CommitExact(run[n].db, run[n].scopes[u].own, false);
    assert row in run[n + 1].db.outbox;
    CommittedRowsStay(run, n + 1, m);
    CommittedIsAtomic(run, m);
    var i :| 0 <= i < |run[n + 1].db.outbox| && run[n + 1].db.outbox[i] == row;
    assert run[m].db.outbox[i] == row && run[m].db.events[i] == row.envelope;
    forall own, e, now, crash ensures RecordEffect(run[m].db, own, e, row.dedupKey, now, crash) == (own, Duplicate) {
      SeenInBoth(run[m].db, own, e, row.dedupKey);
    }
  }

  lemma RecordingConflictsNot(db: Tables, own: Tables, e: Envelope, key: Option<string>, now: real, crash: bool)
    requires !Conflicts(db, own)
    ensures !Conflicts(db, RecordEffect(db, own, e, key, now, crash).0)
  {
    var own' := RecordEffect(db, own, e, key, now, crash).0;
    SeenInBoth(db, own, e, key);
    SeenInBoth(db, NO_ROWS, e, key);
    assert Merge(db, NO_ROWS) == db;
    forall j | 0 <= j < |own'.events| ensures !EventTaken(db, own'.events[j]) {
      assert j < |own.events| ==> own'.events[j] == own.events[j];
    }
    forall j | 0 <= j < |own'.outbox| ensures !KeyTaken(db, own'.outbox[j].dedupKey) {
      assert j < |own.outbox| ==> own'.outbox[j] == own.outbox[j];
    }
  }

  /** The scope is open throughout and nobody commits. */
  ghost predicate Undisturbed(run: seq<World>, n: nat, m: nat, u: nat)
    requires n <= m < |run|
  {
    forall j :: n <= j <= m ==> u in run[j].scopes && run[j].db == run[n].db
  }

  /** A commit is refused only for what others committed since the scope was empty. */
  lemma {:induction false} UndisturbedCommits(run: seq<World>, n: nat, m: nat, u: nat)
    requires Run(iset{}, run) && n <= m < |run| && Undisturbed(run, n, m, u) && run[n].scopes[u].own == NO_ROWS
    ensures CommitEffect(run[m].db, run[m].scopes[u].own, false).1
  {
    if n < m {
      UndisturbedCommits(run, n, m - 1, u);
      assert NextAt(iset{}, run, m - 1);
      var a :| Enabled(run[m - 1], a) && Sequencing(iset{}, a) && run[m] == Step(run[m - 1], a);
      var (db, own) := (run[m - 1].db, run[m - 1].scopes[u].own);
      match a {
        case Record(v, e, key, now, crash) => if v == u { RecordingConflictsNot(db, own, e, key, now, crash); }
        case RecordNext(v, e, key, now, crash) =>
          if v == u {
            var next := e.(sequence := run[m - 1].scopes[u].next.value.sequence);
            RecordingConflictsNot(db, own, next, key, now, crash);
          }
        case _ =>
      }
    }
  }

  // ----- why an exception must leave the scope -----

  /** One `record` call; each of its three statements sees what others have committed by then. */
  datatype Call = Call(e: Envelope, key: Option<string>, now: real, crash: bool,
                       atCheck: Tables, atEvent: Tables, atOutbox: Tables)

  datatype Outcome = Known | EventRefused | DiedAtGate | OutboxRefused | Stored

  function OutcomeOf(own: Tables, c: Call): Outcome {
    if KeyTaken(Merge(c.atCheck, own), c.key) then Known
    else if EventTaken(Merge(c.atEvent, own), c.e) then EventRefused
    else if c.crash then DiedAtGate
    else if KeyTaken(Merge(c.atOutbox, own), c.key) then OutboxRefused
    else Stored
  }

  /** What the call leaves in the session. */
  function After(own: Tables, c: Call): Tables {
    var o := OutcomeOf(own, c);
    if o.Known? || o.EventRefused? then own
    else
      var written := own.(events := own.events + [c.e]);
      if o.Stored? then written.(outbox := own.outbox + [T.NewRow(c.e, c.key, c.now)]) else written
  }

  /** Where nobody else commits meanwhile the call is the `record` of one step. */
  lemma AloneIsRecord(own: Tables, c: Call)
    requires c.atCheck == c.atEvent == c.atOutbox
    ensures var (own', r) := RecordEffect(c.atCheck, own, c.e, c.key, c.now, c.crash);
            && After(own, c) == own' && !OutcomeOf(own, c).OutboxRefused?
            && (r.Duplicate? <==> OutcomeOf(own, c).Known?) && (r.Recorded? <==> OutcomeOf(own, c).Stored?)
  {
    if OutcomeOf(own, c).OutboxRefused? || OutcomeOf(own, c).Stored? {
      assert !KeyTaken(Merge(c.atCheck, own), c.key);
    }
  }

  /**
   With others committing in between: the outbox row is refused exactly when the key appeared
   after the check, and then, as after a death at the gate, the event row is in the session alone.
   */
  lemma OutcomeExact(own: Tables, c: Call)
    ensures var early := c.key.Some? && exists row :: row in c.atCheck.outbox + own.outbox && row.dedupKey == c.key;
            var late := c.key.Some? && exists row :: row in c.atOutbox.outbox + own.outbox && row.dedupKey == c.key;
            var clash := Clashes(c.atEvent.events + own.events, c.e);
            var o := OutcomeOf(own, c);
            && (o.Known? <==> early) && (o.EventRefused? <==> !early && clash)
            && (o.DiedAtGate? <==> !early && !clash && c.crash)
            && (o.OutboxRefused? <==> !early && !clash && !c.crash && late)
            && (After(own, c).events != own.events <==> o.DiedAtGate? || o.OutboxRefused? || o.Stored?)
            && (After(own, c).outbox != own.outbox <==> o.Stored?)
  {
    TakenClashes(Merge(c.atEvent, own), c.e);
  }

  /**
   What a session holds after `record` calls of a caller that swallows every exception.
   Where a refused statement aborts the transaction (PostgreSQL), nothing works in it
   afterwards.
   */
  datatype Session = Session(own: Tables, aborted: bool)

  function Swallowed(calls: seq<Call>, aborts: bool): Session {
    if calls == [] then Session(NO_ROWS, false)
    else
      var (c, s) := (calls[|calls| - 1], Swallowed(calls[..|calls| - 1], aborts));
      if s.aborted then s else Session(After(s.own, c), aborts && Refused(OutcomeOf(s.own, c)))
  }

  predicate Refused(o: Outcome) {
    o.EventRefused? || o.OutboxRefused?
  }

  /** What a commit then makes of the committed rows: an aborted transaction is rolled back. */
  function StoredBy(db: Tables, calls: seq<Call>, aborts: bool): Tables {
    var s := Swallowed(calls, aborts);
    if s.aborted then db else CommitEffect(db, s.own, false).0
  }

  /** The commit stores something: no call aborted the transaction, and no constraint refuses the commit. */
  predicate Commits(db: Tables, calls: seq<Call>, aborts: bool) {
    !Swallowed(calls, aborts).aborted && !Conflicts(db, Swallowed(calls, aborts).own)
  }

  /** The i-th call was refused by a constraint, and that aborted the transaction. */
  predicate Aborts(calls: seq<Call>, aborts: bool, i: nat)
    requires i < |calls|
  {
    var s := Swallowed(calls[..i], aborts);
    aborts && !s.aborted && (OutcomeOf(s.own, calls[i]).EventRefused? || OutcomeOf(s.own, calls[i]).OutboxRefused?)
  }

  /** The i-th call wrote its event row and not its outbox row: it died at the gate, or its outbox row was refused. */
  predicate Torn(calls: seq<Call>, aborts: bool, i: nat)
    requires i < |calls|
  {
    var s := Swallowed(calls[..i], aborts);
    !s.aborted && (OutcomeOf(s.own, calls[i]).DiedAtGate? || OutcomeOf(s.own, calls[i]).OutboxRefused?)
  }

  function TornCalls(calls: seq<Call>, aborts: bool): nat {
    if calls == [] then 0
    else
      var n := |calls| - 1;
      TornCalls(calls[..n], aborts) + if Torn(calls, aborts, n) then 1 else 0
  }

  /** What happened to a call does not depend on the calls after it. */
  lemma SamePast(calls: seq<Call>, aborts: bool, i: nat)
    requires i < |calls| - 1
    ensures Torn(calls[..|calls| - 1], aborts, i) == Torn(calls, aborts, i)
    ensures Aborts(calls[..|calls| - 1], aborts, i) == Aborts(calls, aborts, i)
  {
    assert calls[..|calls| - 1][..i] == calls[..i];
  }

  lemma {:induction false} TornCounted(calls: seq<Call>, aborts: bool)
    ensures TornCalls(calls, aborts) == 0 <==> forall i :: 0 <= i < |calls| ==> !Torn(calls, aborts, i)
  {
    hide Torn;
    if calls != [] {
      var n := |calls| - 1;
      TornCounted(calls[..n], aborts);
      forall i | 0 <= i < n ensures Torn(calls[..n], aborts, i) == Torn(calls, aborts, i) {
        SamePast(calls, aborts, i);
      }
    }
  }

  lemma AbortedLast(calls: seq<Call>, aborts: bool)
    requires calls != []
    ensures var n := |calls| - 1;
            Swallowed(calls, aborts).aborted <==> Swallowed(calls[..n], aborts).aborted || Aborts(calls, aborts, n)
  {
  }

  lemma {:induction false} AbortsCounted(calls: seq<Call>, aborts: bool)
    ensures Swallowed(calls, aborts).aborted <==> exists i :: 0 <= i < |calls| && Aborts(calls, aborts, i)
  {
    if calls != [] {
      hide Aborts, Swallowed;
      var n := |calls| - 1;
      AbortsCounted(calls[..n], aborts);
      AbortedLast(calls, aborts);
      forall i | 0 <= i < n ensures Aborts(calls[..n], aborts, i) == Aborts(calls, aborts, i) {
        SamePast(calls, aborts, i);
      }
    }
  }

  /** Each torn call leaves one event row without its outbox row. */
  lemma {:induction false} TornRows(calls: seq<Call>, aborts: bool)
    ensures var own := Swallowed(calls, aborts).own;
            && |own.events| == |own.outbox| + TornCalls(calls, aborts)
            && (TornCalls(calls, aborts) == 0 ==> Paired(own))
  {
    if calls != [] {
      TornRows(calls[..|calls| - 1], aborts);
    }
  }

  /**
   Committing after any calls whose exceptions were swallowed, while others commit between
   any two statements, keeps the one-to-one correspondence exactly when no call was torn or
   the commit stores nothing.
   */
  lemma CommitAfterSwallowingExact(db: Tables, calls: seq<Call>, aborts: bool)
    requires Paired(db)
    ensures Paired(StoredBy(db, calls, aborts))
            <==> !Commits(db, calls, aborts) || (forall i :: 0 <= i < |calls| ==> !Torn(calls, aborts, i))
    ensures (exists i :: 0 <= i < |calls| && Aborts(calls, aborts, i)) ==> !Commits(db, calls, aborts)
  {
    hide KeyTaken, EventTaken, Conflicts;
    TornRows(calls, aborts);
    TornCounted(calls, aborts);
    AbortsCounted(calls, aborts);
  }

  // ----- gapless streams -----

  lemma {:induction false} OfMember(events: seq<Envelope>, st: Stream, i: nat) returns (j: nat)
    requires i < |Of(events, st)|
    ensures j < |events| && events[j] == Of(events, st)[i] && events[j].stream == st
  {
    var n := |events| - 1;
    if i < |Of(events[..n], st)| {
      j := OfMember(events[..n], st, i);
    } else {
      j := n;
    }
  }

  lemma {:induction false} NextOfOrdered(events: seq<Envelope>, st: Stream)
    requires InOrder(Of(events, st))
    ensures NextSequence(events, st) == |Of(events, st)|
  {
    if events != [] {
      var n := |events| - 1;
      var before := Of(events[..n], st);
      assert before <= Of(events, st);
      NextOfOrdered(events[..n], st);
      assert events[n].stream == st ==> Of(events, st)[|before|] == events[n];
    }
  }

  /** `next_sequence` is above every sequence of the stream, and right above one unless it is 0. */
  lemma {:induction false} NextSequenceIsNext(events: seq<Envelope>, st: Stream)
    ensures forall i :: 0 <= i < |events| && events[i].stream == st ==> events[i].sequence < NextSequence(events, st)
    ensures NextSequence(events, st) > 0 ==>
              exists i :: 0 <= i < |events|
                          && events[i].stream == st && events[i].sequence + 1 == NextSequence(events, st)
  {
    if events != [] {
      var n := |events| - 1;
      NextSequenceIsNext(events[..n], st);
      if NextSequence(events[..n], st) == NextSequence(events, st) > 0 {
        var i :| 0 <= i < n && events[..n][i].stream == st && events[..n][i].sequence + 1 == NextSequence(events, st);
        assert events[i] == events[..n][i];
      }
    }
  }

  /** In an ordered stream every event is preceded by exactly the sequences below its own. */
  lemma {:induction false} OrderedIsGapless(events: seq<Envelope>, st: Stream, i: nat)
    requires InOrder(Of(events, st)) && i < |events| && events[i].stream == st
    ensures forall j :: 0 <= j < i && events[j].stream == st ==> events[j].sequence < events[i].sequence
    ensures forall k: nat :: k < events[i].sequence ==> Before(events, st, i, k)
  {
    var n := |events| - 1;
    var before := Of(events[..n], st);
    assert before <= Of(events, st);
    if i < n {
      OrderedIsGapless(events[..n], st, i);
      forall k: nat | k < events[i].sequence ensures Before(events, st, i, k) {
        assert Before(events[..n], st, i, k);
      }
    } else {
      assert Of(events, st)[|before|] == events[n];
      forall j | 0 <= j < n && events[j].stream == st ensures events[j].sequence < |before| {
        NextOfOrdered(events[..n], st);
        NextSequenceIsNext(events[..n], st);
        assert events[..n][j] == events[j];
      }
      forall k: nat | k < |before| ensures Before(events, st, i, k) {
        var j := OfMember(events[..n], st, k);
        assert events[j] == events[..n][j];
      }
    }
  }

  /** The stream's sequence k stands before place i. */
  ghost predicate Before(events: seq<Envelope>, st: Stream, i: nat, k: nat)
    requires i <= |events|
  {
    exists j :: 0 <= j < i && events[j].stream == st && events[j].sequence == k
  }

  /** A scope that allocated before another one committed to the stream can no longer commit. */
  ghost predicate Doomed(db: Tables, own: Tables, st: Stream) {
    Of(own.events, st) != [] && Of(own.events, st)[0].sequence < |Of(db.events, st)|
  }

  ghost predicate OwnOk(db: Tables, own: Tables, st: Stream) {
    StartsAt(Of(own.events, st), |Of(db.events, st)|) || Doomed(db, own, st)
  }

  /** A sequence that was read continues the stream, or is taken by now. */
  ghost predicate NextOk(db: Tables, own: Tables, st: Stream, n: nat) {
    n == |Of(db.events, st)| + |Of(own.events, st)| || n < |Of(db.events, st)| || Doomed(db, own, st)
  }

  ghost predicate StreamScopeOk(db: Tables, s: Scope, st: Stream) {
    !s.raised ==>
      && OwnOk(db, s.own, st)
      && (s.next.Some? && s.next.value.stream == st ==> NextOk(db, s.own, st, s.next.value.sequence))
  }

  ghost predicate StreamInv(w: World, st: Stream) {
    && InOrder(Of(w.db.events, st))
    && forall u :: u in w.scopes ==> StreamScopeOk(w.db, w.scopes[u], st)
  }

  lemma DoomedConflicts(db: Tables, own: Tables, st: Stream)
    requires InOrder(Of(db.events, st)) && Doomed(db, own, st)
    ensures Conflicts(db, own)
  {
    var j := OfMember(own.events, st, 0);
    var i := OfMember(db.events, st, own.events[j].sequence);
    assert EventClash(db.events[i], own.events[j]);
    assert EventTaken(db, own.events[j]);
  }

  /** The sequence a scope allocates continues the stream, unless it is doomed already. */
  lemma AllocationContinues(db: Tables, own: Tables, st: Stream)
    requires InOrder(Of(db.events, st)) && StartsAt(Of(own.events, st), |Of(db.events, st)|)
    ensures NextSequence(Merge(db, own).events, st) == |Of(db.events, st)| + |Of(own.events, st)|
  {
    OfConcat(db.events, own.events, st);
    InOrderConcat(Of(db.events, st), Of(own.events, st));
    NextOfOrdered(db.events + own.events, st);
  }

  /** Without an exception a record leaves the own events alone or appends the one. */
  lemma RecordShape(db: Tables, own: Tables, e: Envelope, key: Option<string>, now: real, crash: bool)
    ensures var (own', r) := RecordEffect(db, own, e, key, now, crash);
            r.Raised? || own' == own || own'.events == own.events + [e]
  {
  }

  lemma AppendStream(db: Tables, own: Tables, own': Tables, e: Envelope)
    requires OwnOk(db, own, e.stream) && own'.events == own.events + [e]
    requires StartsAt(Of(own.events, e.stream), |Of(db.events, e.stream)|) ==>
               e.sequence == |Of(db.events, e.stream)| + |Of(own.events, e.stream)|
    ensures OwnOk(db, own', e.stream)
  {
    OfConcat(own.events, [e], e.stream);
    assert Of([e], e.stream) == [e];
  }

  /** A sequence another scope has committed in the meantime is refused by the unique constraint. */
  lemma StaleSequenceClashes(db: Tables, own: Tables, e: Envelope)
    requires InOrder(Of(db.events, e.stream)) && e.sequence < |Of(db.events, e.stream)|
    ensures EventTaken(Merge(db, own), e)
  {
    var i := OfMember(db.events, e.stream, e.sequence);
    assert Merge(db, own).events[i] == db.events[i] && EventClash(db.events[i], e);
  }

  /** The insert of a `record_next`, however long after its read. */
  lemma RecordNextStream(db: Tables, own: Tables, e: Envelope, key: Option<string>, now: real, crash: bool)
    requires InOrder(Of(db.events, e.stream)) && OwnOk(db, own, e.stream) && NextOk(db, own, e.stream, e.sequence)
    ensures var (own', r) := RecordEffect(db, own, e, key, now, crash);
            r.Raised? || OwnOk(db, own', e.stream)
  {
    var (own', r) := RecordEffect(db, own, e, key, now, crash);
    RecordShape(db, own, e, key, now, crash);
    if !r.Raised? && own' != own {
      if e.sequence < |Of(db.events, e.stream)| {
        StaleSequenceClashes(db, own, e);
      }
      AppendStream(db, own, own', e);
    }
  }

  lemma RecordOther(db: Tables, own: Tables, e: Envelope, key: Option<string>, now: real, crash: bool, st: Stream)
    requires OwnOk(db, own, st) && e.stream != st
    ensures var (own', r) := RecordEffect(db, own, e, key, now, crash);
            r.Raised? || OwnOk(db, own', st)
  {
    RecordShape(db, own, e, key, now, crash);
    OfConcat(own.events, [e], st);
  }

  lemma CommitStream(db: Tables, own: Tables, s: Scope, st: Stream)
    requires InOrder(Of(db.events, st)) && OwnOk(db, own, st) && !Conflicts(db, own)
    requires StreamScopeOk(db, s, st)
    ensures InOrder(Of(Merge(db, own).events, st)) && StreamScopeOk(Merge(db, own), s, st)
  {
    if Doomed(db, own, st) {
      DoomedConflicts(db, own, st);
    }
    OfConcat(db.events, own.events, st);
    InOrderConcat(Of(db.events, st), Of(own.events, st));
  }

  lemma StreamStep(w: World, a: Action, st: Stream)
    requires StreamInv(w, st) && Enabled(w, a) && Sequencing(iset{st}, a)
    ensures StreamInv(Step(w, a), st)
  {
    match a
    case Record(u, e, key, now, crash) =>
      RecordOther(w.db, w.scopes[u].own, e, key, now, crash, st);
    case ReadNext(u, other) =>
      if other == st && StartsAt(Of(w.scopes[u].own.events, st), |Of(w.db.events, st)|) {
        AllocationContinues(w.db, w.scopes[u].own, st);
      }
    case RecordNext(u, e, key, now, crash) =>
      var next := e.(sequence := w.scopes[u].next.value.sequence);
      if e.stream == st {
        RecordNextStream(w.db, w.scopes[u].own, next, key, now, crash);
      } else {
        RecordOther(w.db, w.scopes[u].own, next, key, now, crash, st);
      }
    case Commit(u, crash) =>
      var own := w.scopes[u].own;
      if !crash && !Conflicts(w.db, own) {
        CommitStream(w.db, own, w.scopes[u], st);
        forall v | v in w.scopes ensures StreamScopeOk(Merge(w.db, own), w.scopes[v], st) {
          CommitStream(w.db, own, w.scopes[v], st);
        }
      }
    case _ =>
  }

  /**
   A stream written only through `record_next` is gapless in every committed
   state: its sequences are 0, 1, ..., n-1 in commit order, for any number of
   concurrent scopes that each read max + 1 and insert it at some later time.
   */
  lemma {:induction false} StreamsAreGapless(run: seq<World>, st: Stream, n: nat)
    requires Run(iset{st}, run) && n < |run|
    ensures StreamInv(run[n], st)
    ensures forall i :: 0 <= i < |Of(run[n].db.events, st)| ==> Of(run[n].db.events, st)[i].sequence == i
    ensures forall i :: 0 <= i < |run[n].db.events| && run[n].db.events[i].stream == st ==>
              forall k: nat :: k < run[n].db.events[i].sequence ==> Before(run[n].db.events, st, i, k)
  {
    if n > 0 {
      StreamsAreGapless(run, st, n - 1);
      assert NextAt(iset{st}, run, n - 1);
      var a :| Enabled(run[n - 1], a) && Sequencing(iset{st}, a) && run[n] == Step(run[n - 1], a);
      StreamStep(run[n - 1], a, st);
    }
    forall i | 0 <= i < |run[n].db.events| && run[n].db.events[i].stream == st
      ensures forall k: nat :: k < run[n].db.events[i].sequence ==> Before(run[n].db.events, st, i, k)
    {
      OrderedIsGapless(run[n].db.events, st, i);
    }
  }
}
