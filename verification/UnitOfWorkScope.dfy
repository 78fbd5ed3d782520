/** The scope object and the writer that joins it, statement by statement. */
module UnitOfWorkScope {
  import opened Prelude
  import opened Events
  import T = OutboxTable
  import opened UnitOfWork

  const CHECKPOINT_AFTER_EVENT_WRITE := "after_event_write"
  const CHECKPOINT_BEFORE_COMMIT := "before_commit"
  const CHECKPOINT_BEFORE_ROLLBACK := "before_rollback"

  datatype Outcome = Done | AlreadyActive | NotActive | HookRaised | IntegrityError

  class Database {
    var tables: Tables

    constructor ()
      ensures tables == NO_ROWS
    {
      tables := NO_ROWS;
    }

    /** Other scopes commit these rows. */
    method Elsewhere(rows: Tables)
      modifies this
      ensures tables == Merge(old(tables), rows)
    {
      tables := Merge(tables, rows);
    }
  }

  class SqlUnitOfWork {
    const database: Database
    /** True where the checkpoint hook raises. */
    const hook: string -> bool
    var session: Option<Tables>

    constructor (database: Database, hook: string -> bool)
      ensures this.database == database && this.hook == hook && session == None
    {
      this.database, this.hook, session := database, hook, None;
    }

    /** `__aenter__`. */
    method Enter() returns (r: Outcome)
      modifies this
      ensures r == if old(session).None? then Done else AlreadyActive
      ensures session == if old(session).None? then Some(NO_ROWS) else old(session)
    {
      if session.Some? {
        return AlreadyActive;
      }
      session := Some(NO_ROWS);
      r := Done;
    }

    /** `__aexit__`: with or without an exception, whatever was not committed is discarded. */
    method Exit()
      modifies this
      ensures session == None && database.tables == old(database.tables)
    {
      session := None;
    }

    /** `commit`: the rows become durable together or not at all. */
    method Commit() returns (r: Outcome)
      modifies this, database
      ensures old(session).None? ==> r == NotActive && session == None && database.tables == old(database.tables)
      ensures old(session).Some? ==>
                var (db, ok) := CommitEffect(old(database.tables), old(session).value, hook("before_commit"));
                && database.tables == db && (r == Done <==> ok)
                && session == if ok then Some(NO_ROWS) else old(session)
    {
      if session.None? {
        return NotActive;
      }
      if hook(CHECKPOINT_BEFORE_COMMIT) {
        return HookRaised;
      }
      if Conflicts(database.tables, session.value) {
        return IntegrityError;
      }
      database.tables := Merge(database.tables, session.value);
      session := Some(NO_ROWS);
      r := Done;
    }

    /** `rollback`. */
    method Rollback() returns (r: Outcome)
      modifies this
      ensures database.tables == old(database.tables)
      ensures old(session).None? ==> r == NotActive && session == None
      ensures old(session).Some? ==>
                if hook("before_rollback") then r == HookRaised && session == old(session)
                else r == Done && session == Some(NO_ROWS)
    {
      if session.None? {
        return NotActive;
      }
      if hook(CHECKPOINT_BEFORE_ROLLBACK) {
        return HookRaised;
      }
      session := Some(NO_ROWS);
      r := Done;
    }
  }

  class TransactionalOutbox {
    const uow: SqlUnitOfWork

    constructor (uow: SqlUnitOfWork)
      ensures this.uow == uow
    {
      this.uow := uow;
    }

    /** `record`; None where the scope is not active. */
    method Record(e: Envelope, key: Option<string>, now: real) returns (r: Option<Result>)
      modifies uow
      ensures uow.database.tables == old(uow.database.tables)
      ensures old(uow.session).None? ==> r == None && uow.session == None
      ensures old(uow.session).Some? ==>
                var (own, result) := RecordEffect(uow.database.tables, old(uow.session).value, e, key, now,
                                                  uow.hook("after_event_write"));
                r == Some(result) && uow.session == Some(own)
      ensures r == Some(Recorded) ==>
                var own := old(uow.session).value;
                uow.session
                  == Some(Tables(own.events + [e],
                                 own.outbox + [T.Row(e, key, now, now, 0, T.Pending, None, None, None, None, None)]))
      ensures r == Some(Duplicate) <==>
                && old(uow.session).Some? && key.Some?
                && exists row :: row in uow.database.tables.outbox + old(uow.session).value.outbox
                                 && row.dedupKey == key
    {
      if uow.session.Some? {
        RecordExact(uow.database.tables, uow.session.value, e, key, now, uow.hook(CHECKPOINT_AFTER_EVENT_WRITE));
      }
      if uow.session.None? {
        return None;
      }
      var db, own := uow.database.tables, uow.session.value;
      if KeyTaken(Merge(db, own), key) {
        return Some(Duplicate);
      }
      if EventTaken(Merge(db, own), e) {
        return Some(Raised);
      }
      uow.session := Some(own.(events := own.events + [e]));
      if uow.hook(CHECKPOINT_AFTER_EVENT_WRITE) {
        return Some(Raised);
      }
      uow.session := Some(uow.session.value.(outbox := own.outbox + [T.NewRow(e, key, now)]));
      r := Some(Recorded);
    }

    /** `next_sequence`, as a maximum over the visible rows. */
    method NextSequence(st: Stream) returns (n: nat)
      requires uow.session.Some?
      ensures n == UnitOfWork.NextSequence(Merge(uow.database.tables, uow.session.value).events, st)
    {
      var events := Merge(uow.database.tables, uow.session.value).events;
      n := 0;
      for i := 0 to |events|
        invariant n == UnitOfWork.NextSequence(events[..i], st)
      {
        assert events[..i + 1][..i] == events[..i];
        if events[i].stream == st && events[i].sequence >= n {
          n := events[i].sequence + 1;
        }
      }
      assert events[..|events|] == events;
    }

    /** `record_next`; `meanwhile` is what other scopes commit between its read and its insert. */
    method RecordNext(e: Envelope, key: Option<string>, now: real, meanwhile: Tables) returns (r: Option<Result>)
      modifies uow, uow.database
      ensures old(uow.session).None? ==>
                r == None && uow.session == None && uow.database.tables == old(uow.database.tables)
      ensures old(uow.session).Some? ==>
                var own := old(uow.session).value;
                var next := Sequenced(old(uow.database.tables), own, e);
                var (own', result) := RecordEffect(uow.database.tables, own, next, key, now,
                                                   uow.hook("after_event_write"));
                && uow.database.tables == Merge(old(uow.database.tables), meanwhile)
                && r == Some(result) && uow.session == Some(own')
    {
      if uow.session.None? {
        return None;
      }
      var n := NextSequence(e.stream);
      uow.database.Elsewhere(meanwhile);
      r := Record(e.(sequence := n), key, now);
    }
  }
}
