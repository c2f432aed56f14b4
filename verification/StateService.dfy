/**
 The guest-facing state service and the migration service, over one store, one audit log and one set of
 migration windows.
 */
module StateService {
  import opened Prelude
  import opened StateStore
  import M = Migration

  datatype Error =
    | NotReady
    | NotFound
    | Conflict
    | OverBudget
    | UnsupportedSchemaVersion
    | Corrupt
    | Store
    | Audit
    | Internal

  function MapStoreError(e: StoreError): Error {
    match e
    case NotFound => Error.NotFound
    case SchemaVersionMismatch => UnsupportedSchemaVersion
    case TransactionConflict => Conflict
    case InvalidArgument => OverBudget
    case Corrupt => Error.Corrupt
    case Storage => Store
  }

  class World {
    var db: Db
    var gate: set<nat>
    var log: seq<M.Event>
    const shared: bool

    function Sys(): M.Sys
      reads this
    {
      M.Sys(db, gate, log, shared)
    }

    constructor (db: Db, shared: bool)
      ensures Sys() == M.Sys(db, {}, [], shared)
    {
      this.db, this.shared := db, shared;
      gate, log := {}, [];
    }

    method Append(e: M.Event, fails: bool) returns (ok: bool)
      modifies `log
      ensures Sys() == M.Append(old(Sys()), e, fails)
      ensures ok <==> !M.AuditFails(old(Sys()), fails)
    {
      ok := !(fails || (shared && db.tx.Some?));
      if ok { log := log + [e]; }
    }
  }

  class MigrationService {
    const world: World

    constructor (world: World)
      ensures this.world == world
    {
      this.world := world;
    }

    method Migrate(p: M.Plan, guest: M.Guest, f: M.Faults) returns (r: Result<M.Outcome, M.Error>)
      modifies world
      ensures M.Migrate(old(world.Sys()), p, guest, f) == M.Done(world.Sys(), r)
      ensures
        var rows := DataAt(old(world.db), p.i).rows;
        r == Ok(M.Migrated) && M.Contract(guest, rows) ==>
          forall k :: M.HoldsLast(rows, DataAt(world.db, p.i).rows, p.to, guest(rows).writes, k)
    {
      ghost var s := world.Sys();
      M.DoneStays(s, p, guest, f, 1);
      if f.read { return Err(M.Error.Store); }
      var current := StoredVersion(world.db, p.i);
      if current.None? { return Ok(M.NothingToMigrate); }
      if current.value == p.to { return Ok(M.AlreadyAtTarget(current.value)); }
      if current.value != p.from { return Err(M.UnexpectedStoreVersion(current.value)); }
      if p.to <= p.from { return Err(M.UnsupportedVersionRange); }
      world.gate := world.gate + {p.i};
      r := InWindow(p, guest, f, s);
      world.gate := world.gate - {p.i};
      if r == Ok(M.Migrated) && M.Contract(guest, DataAt(s.db, p.i).rows) { M.MigratedHoldsLast(s, p, guest, f); }
    }

    /** The part of a migration that runs with the window open; the caller closes it on every exit. */
    method InWindow(p: M.Plan, guest: M.Guest, f: M.Faults, ghost s: M.Sys) returns (r: Result<M.Outcome, M.Error>)
      requires !f.read && StoredVersion(s.db, p.i) == Some(p.from) && p.from < p.to
      requires world.Sys() == s.(gate := s.gate + {p.i})
      modifies world
      ensures M.Migrate(s, p, guest, f) == M.Done(M.Close(world.Sys(), p.i), r)
    {
      M.DoneStays(s, p, guest, f, 1);
      var began := Begin(world.db, p.i, p.to, Mode.Migration);
      if began.result == Err(TransactionConflict) { return Err(M.Busy); }
      if began.result == Err(SchemaVersionMismatch) { return Err(M.UnsupportedVersionRange); }
      if began.result.Err? || f.begin {
        var audited := world.Append(M.Failed(p.i, p.from, p.to), f.failed);
        return Err(if audited then M.Error.Store else M.Error.Audit);
      }
      world.db := began.db;
      assert M.After(s, p, guest, f, 1) == M.Running(world.Sys(), began.result.value, None);
      r := InTransaction(p, began.result.value, guest, f, s);
    }

    method InTransaction(p: M.Plan, h: Handle, guest: M.Guest, f: M.Faults, ghost s: M.Sys)
        returns (r: Result<M.Outcome, M.Error>)
      requires M.After(s, p, guest, f, 1) == M.Running(world.Sys(), h, None)
      modifies world
      ensures M.Migrate(s, p, guest, f) == M.Done(M.Close(world.Sys(), p.i), r)
    {
      M.DoneStays(s, p, guest, f, 2);
      var audited := world.Append(M.Started(p.i, p.from, p.to), f.started);
      if !audited {
        world.db := Abort(world.db, h, f.abort).db;
        return Err(M.Error.Audit);
      }
      assert M.After(s, p, guest, f, 2) == M.Running(world.Sys(), h, None);
      var run := guest(M.TxRows(world.db));
      world.db := M.EndedByGuest(M.TxWrites(world.db, h, p.i, run.writes), h, run.end);
      assert M.After(s, p, guest, f, 3) == M.Running(world.Sys(), h, Some(run.result));
      if run.result.Ok? {
        r := AcceptGuest(p, h, guest, f, s, run.result);
      } else {
        audited := world.Append(M.RollbackRecorded(p.i, p.from, p.to, run.result.error), f.ended);
        assert M.After(s, p, guest, f, 4) == M.Running(world.Sys(), h, Some(run.result));
        var aborted := Abort(world.db, h, f.abort);
        world.db := aborted.db;
        r := if aborted.result.Ok? then Ok(M.RolledBack(run.result.error)) else Err(M.Error.Store);
      }
    }

    /** Audit first, then commit. */
    method AcceptGuest(p: M.Plan, h: Handle, guest: M.Guest, f: M.Faults, ghost s: M.Sys,
                       ghost result: Result<(), M.GuestError>) returns (r: Result<M.Outcome, M.Error>)
      requires result.Ok? && M.After(s, p, guest, f, 3) == M.Running(world.Sys(), h, Some(result))
      modifies world
      ensures M.Migrate(s, p, guest, f) == M.Done(M.Close(world.Sys(), p.i), r)
    {
      M.DoneStays(s, p, guest, f, 4);
      var audited := world.Append(M.Recorded(p.i, p.from, p.to), f.ended);
      if !audited {
        world.db := Abort(world.db, h, f.abort).db;
        return Err(M.Error.Audit);
      }
      assert M.After(s, p, guest, f, 4) == M.Running(world.Sys(), h, Some(result));
      var committed := Commit(world.db, h, f.commit);
      world.db := committed.db;
      if committed.result.Ok? { return Ok(M.Migrated); }
      audited := world.Append(M.Failed(p.i, p.from, p.to), f.failed);
      if !audited { return Err(M.Error.Audit); }
      r := Err(if committed.result.error.TransactionConflict? then M.Error.Conflict else M.Error.Store);
    }
  }

  datatype CasOutcome = Applied | Rejected

  /** A window or another schema version keeps a runtime call out of the store. */
  function VersionCheck(s: M.Sys, i: nat, declared: Version): Option<Error> {
    var stored := StoredVersion(s.db, i);
    if i in s.gate then Some(NotReady)
    else if stored.Some? && stored.value != declared then Some(UnsupportedSchemaVersion)
    else None
  }

  /** What keeps a runtime call out of the store when reading the stored version can fail by itself. */
  function Refusal(s: M.Sys, i: nat, declared: Version, fault: Option<StoreError>): Option<Error> {
    if i !in s.gate && fault.Some? then Some(MapStoreError(fault.value)) else VersionCheck(s, i, declared)
  }

  /** A call is refused as not ready during a migration whatever the store says, then as the store's own failure, then as
      unsupported when the stored version is another one; a store without a version refuses nobody. */
  lemma RefusedExactly(s: M.Sys, i: nat, declared: Version, fault: Option<StoreError>)
    ensures
      var refused := Refusal(s, i, declared, fault);
      var stored := StoredVersion(s.db, i);
      && (i in s.gate ==> refused == Some(NotReady))
      && (i !in s.gate && fault.None? ==>
            && (refused.None? <==> stored.None? || stored == Some(declared))
            && (refused.Some? ==> refused == Some(UnsupportedSchemaVersion)))
      && (i !in s.gate && fault.Some? ==>
            refused == Some(match fault.value
                            case NotFound => Error.NotFound
                            case SchemaVersionMismatch => UnsupportedSchemaVersion
                            case TransactionConflict => Conflict
                            case InvalidArgument => OverBudget
                            case Corrupt => Error.Corrupt
                            case Storage => Store))
  {
  }

  /** The store's own failure, if it has one, in place of what it would have answered. */
  function OrFault<T>(r: Result<T, StoreError>, fault: Option<StoreError>): Result<T, StoreError> {
    if fault.Some? then Err(fault.value) else r
  }

  class StateService {
    const world: World
    var transactions: map<Handle, (nat, Version)>

    constructor (world: World)
      ensures this.world == world && transactions == map[]
    {
      this.world := world;
      transactions := map[];
    }

    /** Audits the failure of a runtime call; the audit's own failure takes its place. */
    method Fail(i: nat, e: Error, auditFails: bool) returns (reported: Error)
      modifies world`log
      ensures world.db == old(world.db) && world.gate == old(world.gate)
      ensures reported == if M.AuditFails(world.Sys(), auditFails) then Audit else e
    {
      var audited := world.Append(M.StateEvent(i), auditFails);
      reported := if audited then e else Audit;
    }

    /** `version` and `read` are the failures of the two store calls, if they fail by themselves. */
    method Get(i: nat, declared: Version, k: Key, version: Option<StoreError>, read: Option<StoreError>, auditFails: bool)
        returns (r: Result<Option<Value>, Error>)
      modifies world`log
      ensures world.db == old(world.db) && world.gate == old(world.gate)
      ensures
        var refused := Refusal(old(world.Sys()), i, declared, version);
        r == if M.AuditFails(old(world.Sys()), auditFails) then Err(Audit)
             else if refused.Some? then Err(refused.value)
             else if read.Some? then Err(MapStoreError(read.value))
             else if world.db.tx.Some? then Err(Conflict)
             else Ok(Lookup(DataAt(world.db, i).rows, k))
    {
      var refused := Refusal(world.Sys(), i, declared, version);
      if refused.Some? {
        var e := Fail(i, refused.value, auditFails);
        return Err(e);
      }
      match OrFault(StateStore.Get(world.db, None, i, k), read) {
        case Err(e) =>
          var reported := Fail(i, MapStoreError(e), auditFails);
          r := Err(reported);
        case Ok(value) =>
          var audited := world.Append(M.StateEvent(i), auditFails);
          r := if audited then Ok(value) else Err(Audit);
      }
    }

    /** Compare-and-swap on one key.  A write that took effect is reported as a failure when its audit row
        cannot be written; every other error leaves the store alone.  A key that is absent and stays absent takes no
        write, so that the write cannot fail. */
    method Cas(i: nat, declared: Version, k: Key, expected: Option<Value>, next: Option<Value>,
               version: Option<StoreError>, read: Option<StoreError>, write: Option<StoreError>, auditFails: bool)
        returns (r: Result<CasOutcome, Error>, ghost wrote: bool)
      modifies world`log, world`db
      ensures world.gate == old(world.gate)
      ensures wrote <==>
        && Refusal(old(world.Sys()), i, declared, version).None? && read.None? && old(world.db).tx.None?
        && Lookup(DataAt(old(world.db), i).rows, k) == expected
        && (write.None? || (next.None? && expected.None?))
      ensures
        var refused := Refusal(old(world.Sys()), i, declared, version);
        r == if M.AuditFails(old(world.Sys()), auditFails) then Err(Audit)
             else if refused.Some? then Err(refused.value)
             else if read.Some? then Err(MapStoreError(read.value))
             else if old(world.db).tx.Some? then Err(Conflict)
             else if Lookup(DataAt(old(world.db), i).rows, k) != expected then Ok(Rejected)
             else if !wrote then Err(MapStoreError(write.value))
             else Ok(Applied)
      ensures !wrote ==> world.db == old(world.db)
      ensures wrote ==>
        && Lookup(DataAt(world.db, i).rows, k) == next
        && (forall j :: j != k ==> Lookup(DataAt(world.db, i).rows, j) == Lookup(DataAt(old(world.db), i).rows, j))
        && (forall j :: j != i ==> DataAt(world.db, j) == DataAt(old(world.db), j))
        && (next.Some? ==> StoredVersion(world.db, i) == Some(declared))
    {
      wrote := false;
      var refused := Refusal(world.Sys(), i, declared, version);
      if refused.Some? {
        var e := Fail(i, refused.value, auditFails);
        return Err(e), false;
      }
      var current := OrFault(StateStore.Get(world.db, None, i, k), read);
      if current.Err? {
        var e := Fail(i, MapStoreError(current.error), auditFails);
        return Err(e), false;
      }
      if current.value != expected {
        var audited := world.Append(M.StateEvent(i), auditFails);
        return if audited then Ok(Rejected) else Err(Audit), false;
      }
      if (next.Some? || current.value.Some?) && write.Some? {
        var e := Fail(i, MapStoreError(write.value), auditFails);
        return Err(e), false;
      }
      wrote := true;
      if next.Some? {
        world.db := Put(world.db, i, k, declared, next.value).db;
      } else if current.value.Some? {
        world.db := Delete(world.db, i, k).db;
      }
      var audited := world.Append(M.StateEvent(i), auditFails);
      r := if audited then Ok(Applied) else Err(Audit);
    }

    /** With audit rows on the state connection the call fails after the transaction has been opened, and it
        stays open. */
    method BeginTransaction(i: nat, declared: Version, version: Option<StoreError>, begin: Option<StoreError>,
                            auditFails: bool) returns (r: Result<Handle, Error>)
      modifies world`log, world`db, this
      ensures world.gate == old(world.gate) && world.db.data == old(world.db).data
      ensures
        var refused := Refusal(old(world.Sys()), i, declared, version);
        var opens := refused.None? && begin.None? && old(world.db).tx.None?;
        && (!opens ==>
              && world.db == old(world.db) && transactions == old(transactions)
              && r == if M.AuditFails(old(world.Sys()), auditFails) then Err(Audit)
                      else if refused.Some? then Err(refused.value)
                      else if begin.Some? then Err(MapStoreError(begin.value))
                      else Err(Conflict))
        && (opens ==>
              var h := old(world.db).counter + 1;
              && world.db.tx == Some(Tx(h, i, declared, false, DataAt(old(world.db), i).rows))
              && transactions == old(transactions)[h := (i, declared)]
              && r == if auditFails || world.shared then Err(Audit) else Ok(h))
    {
      var refused := Refusal(world.Sys(), i, declared, version);
      if refused.Some? {
        var e := Fail(i, refused.value, auditFails);
        return Err(e);
      }
      var began := Begin(world.db, i, declared, Normal);
      var answered := OrFault(began.result, begin);
      if answered.Err? {
        var e := Fail(i, MapStoreError(answered.error), auditFails);
        return Err(e);
      }
      world.db := began.db;
      transactions := transactions[answered.value := (i, declared)];
      var audited := world.Append(M.StateEvent(i), auditFails);
      r := if audited then Ok(answered.value) else Err(Audit);
    }

    /** A transaction this service did not open can still be committed through it: the store moves and the
        caller is told of an internal error. */
    method CommitTransaction(h: Handle, fails: bool, auditFails: bool) returns (r: Result<(), Error>)
      modifies world`log, world`db, this
      ensures world.gate == old(world.gate)
      ensures world.db == Commit(old(world.db), h, fails).db
      ensures r.Ok? <==> Commit(old(world.db), h, fails).result.Ok? && h in old(transactions) && !auditFails
      ensures r.Ok? ==> world.db.tx.None? && h !in transactions
      ensures Commit(old(world.db), h, fails).result.Ok? && h !in old(transactions) ==> r == Err(Internal)
      ensures Commit(old(world.db), h, fails).result.Ok? ==> transactions == old(transactions) - {h}
      ensures Commit(old(world.db), h, fails).result.Err? ==>
        var e := MapStoreError(Commit(old(world.db), h, fails).result.error);
        && r == Err(if h in old(transactions) && M.AuditFails(world.Sys(), auditFails) then Audit else e)
        && transactions == if e == Conflict then old(transactions) - {h} else old(transactions)
    {
      var committed := Commit(world.db, h, fails);
      world.db := committed.db;
      if committed.result.Err? {
        var e := MapStoreError(committed.result.error);
        if h in transactions {
          var i := transactions[h].0;
          if e == Conflict { transactions := transactions - {h}; }
          e := Fail(i, e, auditFails);
        }
        return Err(e);
      }
      if h !in transactions { return Err(Internal); }
      var i := transactions[h].0;
      transactions := transactions - {h};
      var audited := world.Append(M.StateEvent(i), auditFails);
      r := if audited then Ok(()) else Err(Audit);
    }

    /** Aborting a transaction that is not open does nothing and succeeds. */
    method AbortTransaction(h: Handle, fails: bool, auditFails: bool) returns (r: Result<(), Error>)
      modifies world`log, world`db, this
      ensures world.gate == old(world.gate)
      ensures world.db == Abort(old(world.db), h, fails).db && world.db.data == old(world.db).data
      ensures Abort(old(world.db), h, fails).result.Ok? ==> transactions == old(transactions) - {h}
      ensures Abort(old(world.db), h, fails).result.Err? ==> transactions == old(transactions)
      ensures Abort(old(world.db), h, fails).result.Err? ==>
        r == Err(if h in old(transactions) && M.AuditFails(world.Sys(), auditFails) then Audit else Store)
      ensures Abort(old(world.db), h, fails).result.Ok? ==>
        r == if h in old(transactions) && M.AuditFails(world.Sys(), auditFails) then Err(Audit) else Ok(())
    {
      var aborted := Abort(world.db, h, fails);
      world.db := aborted.db;
      if aborted.result.Err? {
        var e := MapStoreError(aborted.result.error);
        if h in transactions { e := Fail(transactions[h].0, e, auditFails); }
        return Err(e);
      }
      if h !in transactions { return Ok(()); }
      var i := transactions[h].0;
      transactions := transactions - {h};
      var audited := world.Append(M.StateEvent(i), auditFails);
      r := if audited then Ok(()) else Err(Audit);
    }
  }
}
