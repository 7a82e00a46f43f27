/** The reprocess command (cmd/reprocess.go): one transaction resets a resource's cursor
    and opens an audit event; then the pass runs and its outcome is stamped. Any
    statement may fail. */
module Reprocess {
  import opened Collections

  type Id = nat

  datatype Cursor = Cursor(resource: string, lastRawOutputId: Option<Id>, version: string)

  datatype Status = Running | Success | Failed

  datatype Event = Event(
    runType: string, source: string, resource: string, status: Status, version: string,
    ended: bool, errorSummary: Option<string>)

  datatype Step = Setup | SourceLookup | Begin | Lookup | CreateCursor | UpdateCursor | InsertEvent | Commit | Stamp

  datatype Error =
    | BadResource | BadFlags | BadUuid | NoSource
    | StepFailed(step: Step) | NotSingular(resource: string) | PassFailed(summary: string)

  datatype Result<T> = Ok(value: T) | Err(error: Error)

  function CursorsOf(cursors: map<Id, Cursor>, resource: string): set<Id> {
    set id | id in cursors && cursors[id].resource == resource
  }

  /** The unique index on processor_cursor.resource. */
  ghost predicate OneCursorEach(cursors: map<Id, Cursor>) {
    forall a, b :: a in cursors && b in cursors && cursors[a].resource == cursors[b].resource ==> a == b
  }

  /** The database, and the statements of this command that will fail. */
  class Store {
    var cursors: map<Id, Cursor>
    var events: map<Id, Event>
    const faults: set<Step>

    constructor (cursors: map<Id, Cursor>, events: map<Id, Event>, faults: set<Step>)
      ensures this.cursors == cursors && this.events == events && this.faults == faults
    {
      this.cursors, this.events, this.faults := cursors, events, faults;
    }
  }

  /** A transaction writes to the store as it goes and remembers what to put back. */
  class Tx {
    const store: Store
    const savedCursors: map<Id, Cursor>
    const savedEvents: map<Id, Event>

    constructor (store: Store)
      ensures this.store == store && savedCursors == store.cursors && savedEvents == store.events
    {
      this.store, savedCursors, savedEvents := store, store.cursors, store.events;
    }

    method Rollback()
      modifies store
      ensures store.cursors == savedCursors && store.events == savedEvents
    {
      store.cursors, store.events := savedCursors, savedEvents;
    }

    /** A commit that fails leaves nothing of the transaction behind. */
    method CommitTx() returns (ok: bool)
      modifies store
      ensures ok == (Commit !in store.faults)
      ensures ok ==> store.cursors == old(store.cursors) && store.events == old(store.events)
      ensures !ok ==> store.cursors == savedCursors && store.events == savedEvents
    {
      ok := Commit !in store.faults;
      if !ok { Rollback(); }
    }

    /** ProcessorCursor.Query().Where(resource).Only: one row, none, or an error. */
    method OnlyCursor(resource: string) returns (r: Result<Option<Id>>)
      ensures Lookup in store.faults ==> r == Err(StepFailed(Lookup))
      ensures Lookup !in store.faults && |CursorsOf(store.cursors, resource)| > 1 ==> r == Err(NotSingular(resource))
      ensures Lookup !in store.faults && |CursorsOf(store.cursors, resource)| <= 1 ==>
                r.Ok? && CursorsOf(store.cursors, resource) == if r.value.Some? then {r.value.value} else {}
    {
      var found := CursorsOf(store.cursors, resource);
      if Lookup in store.faults { return Err(StepFailed(Lookup)); }
      if |found| > 1 { return Err(NotSingular(resource)); }
      if found == {} { return Ok(None); }
      var id :| id in found;
      assert |found - {id}| == |found| - 1;
      assert found == {id};
      return Ok(Some(id));
    }
  }

  function AuditEvent(source: string, resource: string, version: string): Event {
    Event("reprocess", source, resource, Running, version, false, None)
  }

  /** The reset goes through: no statement it needs fails, and the cursor is not
      ambiguous. The cursor is created only where there is none. */
  predicate ResetSucceeds(cursors: map<Id, Cursor>, resource: string, faults: set<Step>) {
    && faults !! {Begin, Lookup, UpdateCursor, InsertEvent, Commit}
    && |CursorsOf(cursors, resource)| <= 1
    && (CursorsOf(cursors, resource) == {} ==> CreateCursor !in faults)
  }

  /** The error of a reset that does not go through: that of the first step to go wrong. */
  function ResetError(cursors: map<Id, Cursor>, resource: string, faults: set<Step>): Option<Error> {
    if Begin in faults then Some(StepFailed(Begin))
    else if Lookup in faults then Some(StepFailed(Lookup))
    else if |CursorsOf(cursors, resource)| > 1 then Some(NotSingular(resource))
    else if CursorsOf(cursors, resource) == {} && CreateCursor in faults then Some(StepFailed(CreateCursor))
    else if UpdateCursor in faults then Some(StepFailed(UpdateCursor))
    else if InsertEvent in faults then Some(StepFailed(InsertEvent))
    else if Commit in faults then Some(StepFailed(Commit))
    else None
  }

  /** The cursor table after a reset: the resource has exactly this one cursor, the other
      resources' cursors are as they were. */
  ghost predicate CursorReset(before: map<Id, Cursor>, resource: string, cursor: Cursor, after: map<Id, Cursor>) {
    && (exists id :: CursorsOf(after, resource) == {id} && after[id] == cursor
                     && (CursorsOf(before, resource) == {} || CursorsOf(before, resource) == {id}))
    && (forall id :: id in before && before[id].resource != resource ==> id in after && after[id] == before[id])
    && (forall id :: id in after && after[id].resource != resource ==> id in before)
  }

  method ResetCursorAndAudit(db: Store, resource: string, fromId: Option<Id>, source: string, version: string)
    returns (r: Result<Id>)
    modifies db
    ensures r.Ok? <==> ResetSucceeds(old(db.cursors), resource, db.faults)
    ensures r.Err? ==> db.cursors == old(db.cursors) && db.events == old(db.events)
    ensures r.Err? ==> Some(r.error) == ResetError(old(db.cursors), resource, db.faults)
    ensures r.Ok? ==>
              && CursorReset(old(db.cursors), resource, Cursor(resource, fromId, version), db.cursors)
              && r.value !in old(db.events)
              && db.events ==
                 old(db.events)[r.value := Event("reprocess", source, resource, Running, version, false, None)]
  {
    if Begin in db.faults { return Err(StepFailed(Begin)); }
    var tx := new Tx(db);
    var only := tx.OnlyCursor(resource);
    if only.Err? {
      tx.Rollback();
      return Err(only.error);
    }
    var cur: Id;
    if only.value.None? {
      if CreateCursor in db.faults {
        tx.Rollback();
        return Err(StepFailed(CreateCursor));
      }
      cur := FreshId(db.cursors.Keys);
      db.cursors := db.cursors[cur := Cursor(resource, None, version)];
    } else {
      cur := only.value.value;
    }
    assert CursorsOf(db.cursors, resource) == {cur};
    if UpdateCursor in db.faults {
      tx.Rollback();
      return Err(StepFailed(UpdateCursor));
    }
    assert cur in CursorsOf(db.cursors, resource);
    db.cursors := db.cursors[cur := db.cursors[cur].(lastRawOutputId := fromId, version := version)];
    assert CursorsOf(db.cursors, resource) == {cur};
    if InsertEvent in db.faults {
      tx.Rollback();
      return Err(StepFailed(InsertEvent));
    }
    var audit := FreshId(db.events.Keys);
    db.events := db.events[audit := AuditEvent(source, resource, version)];
    var committed := tx.CommitTx();
    if !committed { return Err(StepFailed(Commit)); }
    return Ok(audit);
  }

  /** The flags of the command: --all, and --from with what uuid.Parse made of it. */
  datatype From = NotGiven | Unparsable | Parsed(id: Id)

  function FlagError(all: bool, from: From): Option<Error> {
    if !all && from.NotGiven? then Some(BadFlags)
    else if all && !from.NotGiven? then Some(BadFlags)
    else if from.Unparsable? then Some(BadUuid)
    else None
  }

  function Stamped(e: Event, runErr: Option<string>): Event {
    match runErr
    case None => e.(ended := true, status := Success)
    case Some(summary) => e.(ended := true, status := Failed, errorSummary := Some(summary))
  }

  /** The tables the pass leaves, and whether it failed: whatever the processor makes of
      the tables it starts from. */
  datatype Pass = Pass(cursors: map<Id, Cursor>, events: map<Id, Event>, err: Option<string>)

  type Processor = (map<Id, Cursor>, map<Id, Event>) -> Pass

  function FromId(from: From): Option<Id> {
    if from.Parsed? then Some(from.id) else None
  }

  /** The flags are good exactly when one of --all and --from is given, and --from parses. */
  lemma FlagsExactly(all: bool, from: From)
    ensures FlagError(all, from).None? <==> (all && from.NotGiven?) || (!all && from.Parsed?)
    ensures FlagError(all, from) == Some(BadUuid) <==> !all && from.Unparsable?
    ensures FlagError(all, from) == Some(BadFlags) <==> (all <==> !from.NotGiven?)
  {
  }

  /** The errors RunE returns before it opens the transaction, in their order. */
  function EarlyError(resource: Option<string>, all: bool, from: From, faults: set<Step>, source: Option<string>)
    : Option<Error>
  {
    if resource.None? then Some(BadResource)
    else if FlagError(all, from).Some? then FlagError(all, from)
    else if Setup in faults then Some(StepFailed(Setup))
    else if SourceLookup in faults then Some(StepFailed(SourceLookup))
    else if source.None? then Some(NoSource)
    else None
  }

  /** What the final status of the audit event tells, when the pass left it running:
      success iff the pass succeeded, running only if the stamp itself failed; and the stamp
      touches no other event. */
  ghost predicate StatusTells(pass: Pass, audit: Id, stampFails: bool, events: map<Id, Event>) {
    && audit in events && audit in pass.events
    && events[audit] == pass.events[audit].(status := events[audit].status, ended := events[audit].ended,
                                            errorSummary := events[audit].errorSummary)
    && (events[audit].status == Success <==> pass.err.None? && !stampFails)
    && (events[audit].status == Failed <==> pass.err.Some? && !stampFails)
    && (events[audit].status == Running <==> stampFails)
    && (!stampFails ==> events[audit].ended && (pass.err.Some? ==> events[audit].errorSummary == pass.err))
    && events.Keys == pass.events.Keys && forall e :: e in events && e != audit ==> events[e] == pass.events[e]
  }

  /** RunE: resource, flags, components, source system, reset, pass over the reset tables,
      stamp. resource is what the argument normalises to, if it names one. */
  method RunReprocess(db: Store, resource: Option<string>, all: bool, from: From, source: Option<string>,
                      version: string, runPass: Processor)
    returns (err: Option<Error>, audit: Option<Id>, ghost reset: map<Id, Cursor>)
    modifies db
    ensures audit.Some? <==>
              && EarlyError(resource, all, from, db.faults, source).None?
              && ResetSucceeds(old(db.cursors), resource.value, db.faults)
    ensures audit.None? ==> db.cursors == old(db.cursors) && db.events == old(db.events)
    ensures audit.None? ==>
              err.Some? && err == if EarlyError(resource, all, from, db.faults, source).Some?
                                  then EarlyError(resource, all, from, db.faults, source)
                                  else ResetError(old(db.cursors), resource.value, db.faults)
    ensures audit.Some? ==>
              && (all <==> from.NotGiven?) && (all <==> !from.Parsed?)
              && CursorReset(old(db.cursors), resource.value,
                             Cursor(resource.value, if all then None else Some(from.id), version), reset)
              && audit.value !in old(db.events)
              && var open := Event("reprocess", source.value, resource.value, Running, version, false, None);
              && var pass := runPass(reset, old(db.events)[audit.value := open]);
              && err == (match pass.err case None => None case Some(s) => Some(PassFailed(s)))
              && db.cursors == pass.cursors
              && (audit.value !in pass.events ==> db.events == pass.events)
              && (audit.value in pass.events && pass.events[audit.value].status == Running ==>
                    StatusTells(pass, audit.value, Stamp in db.faults, db.events))
              && db.events == if Stamp in db.faults || audit.value !in pass.events then pass.events
                              else pass.events[audit.value := Stamped(pass.events[audit.value], pass.err)]
  {
    audit, reset := None, db.cursors;
    if resource.None? {
      err := Some(BadResource);
      return;
    }
    err := FlagError(all, from);
    if err.Some? { return; }
    if Setup in db.faults {
      err := Some(StepFailed(Setup));
      return;
    }
    if SourceLookup in db.faults {
      err := Some(StepFailed(SourceLookup));
      return;
    }
    if source.None? {
      err := Some(NoSource);
      return;
    }
    var r := ResetCursorAndAudit(db, resource.value, FromId(from), source.value, version);
    if r.Err? {
      err := Some(r.error);
      return;
    }
    audit, reset := Some(r.value), db.cursors;
    var pass := runPass(db.cursors, db.events);
    db.cursors, db.events := pass.cursors, pass.events;
    if Stamp !in db.faults && r.value in db.events {
      db.events := db.events[r.value := Stamped(db.events[r.value], pass.err)];
    }
    err := if pass.err.Some? then Some(PassFailed(pass.err.value)) else None;
  }

  /** What a reset leaves, row by row: one row of the resource, and it is this cursor; the rows
      of the other resources, and nothing else. A resource that had a row keeps its id. */
  lemma ResetMeans(before: map<Id, Cursor>, resource: string, cursor: Cursor, after: map<Id, Cursor>)
    returns (id: Id)
    requires CursorReset(before, resource, cursor, after)
    ensures id in after && after[id] == cursor
    ensures forall x :: x in after && after[x].resource == resource ==> x == id
    ensures forall x :: x in before && before[x].resource == resource ==> x == id
    ensures forall x :: x in after && after[x].resource != resource ==> x in before && before[x] == after[x]
    ensures forall x :: x in before && before[x].resource != resource ==> x in after && after[x] == before[x]
  {
    id :| CursorsOf(after, resource) == {id} && after[id] == cursor
          && (CursorsOf(before, resource) == {} || CursorsOf(before, resource) == {id});
    assert id in CursorsOf(after, resource);
    assert forall x :: x in after && after[x].resource == resource ==> x in CursorsOf(after, resource);
    assert forall x :: x in before && before[x].resource == resource ==> x in CursorsOf(before, resource);
  }

  /** A reset keeps the unique index: one cursor per resource before, one after. */
  lemma ResetKeepsUnique(before: map<Id, Cursor>, resource: string, cursor: Cursor, after: map<Id, Cursor>)
    requires CursorReset(before, resource, cursor, after) && cursor.resource == resource && OneCursorEach(before)
    ensures OneCursorEach(after)
  {
    var id :| CursorsOf(after, resource) == {id} && after[id] == cursor;
    forall a, b | a in after && b in after && after[a].resource == after[b].resource ensures a == b {
      if after[a].resource == resource {
        assert a in CursorsOf(after, resource) && b in CursorsOf(after, resource);
        assert a == id && b == id;
      } else {
        assert a in before && b in before && after[a] == before[a] && after[b] == before[b];
      }
    }
  }

  /** Resetting again to the same position changes no cursor. */
  lemma ResetIsIdempotent(before: map<Id, Cursor>, resource: string, cursor: Cursor,
                          once: map<Id, Cursor>, twice: map<Id, Cursor>)
    requires cursor.resource == resource
    requires CursorReset(before, resource, cursor, once) && CursorReset(once, resource, cursor, twice)
    ensures twice == once
  {
    var id :| CursorsOf(twice, resource) == {id} && twice[id] == cursor
              && (CursorsOf(once, resource) == {} || CursorsOf(once, resource) == {id});
    var o :| CursorsOf(once, resource) == {o} && once[o] == cursor;
    assert o in CursorsOf(once, resource);
    assert o == id;
    forall x ensures x in twice <==> x in once {
      assert x in twice && twice[x].resource == resource ==> x in CursorsOf(twice, resource);
      assert x in once && once[x].resource == resource ==> x in CursorsOf(once, resource);
    }
    forall x | x in once ensures twice[x] == once[x] {
      if once[x].resource == resource { assert x in CursorsOf(once, resource); }
    }
  }
}
