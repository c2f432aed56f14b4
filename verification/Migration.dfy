/**
 Explicit schema migration: version check, migration window, exclusive transaction, guest, audit before
 commit.  A run is five stages; a crash may come after any of them.
 */
module Migration {
  import opened Prelude
  import opened StateStore

  datatype GuestError = UnsupportedRange | MalformedSource | OverBudget | GuestInternal | Host

  /** How the guest leaves the migration transaction: a guest that keeps its contract keeps it open. */
  datatype GuestEnd = KeepsOpen | CommitsItself | AbortsItself

  datatype GuestRun = GuestRun(writes: seq<Write>, end: GuestEnd, result: Result<(), GuestError>)

  /** A guest is determined by the rows it reads. */
  type Guest = map<Key, Row> -> GuestRun

  datatype Event =
    | Started(i: nat, from: Version, to: Version)
    | Recorded(i: nat, from: Version, to: Version)
    | RollbackRecorded(i: nat, from: Version, to: Version, reason: GuestError)
    | Failed(i: nat, from: Version, to: Version)
    | StateEvent(i: nat)

  datatype Outcome =
    | Migrated
    | AlreadyAtTarget(version: Version)
    | NothingToMigrate
    | RolledBack(reason: GuestError)

  datatype Error =
    | UnexpectedStoreVersion(current: Version)
    | UnsupportedVersionRange
    | Busy
    | Conflict
    | Store
    | Audit

  /** `shared` says that audit rows go through the same connection as the state transaction, which refuses
      every other command while a transaction is open. */
  datatype Sys = Sys(db: Db, gate: set<nat>, log: seq<Event>, shared: bool)

  datatype Plan = Plan(i: nat, from: Version, to: Version)

  /** Which port calls of the attempt fail. */
  datatype Faults = Faults(
    read: bool,
    begin: bool,
    started: bool,
    ended: bool,
    commit: bool,
    abort: bool,
    failed: bool)

  const NO_FAULTS := Faults(false, false, false, false, false, false, false)

  datatype Progress =
    | Running(sys: Sys, tx: Handle, guest: Option<Result<(), GuestError>>)
    | Done(sys: Sys, result: Result<Outcome, Error>)

  predicate AuditFails(s: Sys, fails: bool) { fails || (s.shared && s.db.tx.Some?) }

  function Append(s: Sys, e: Event, fails: bool): Sys {
    if AuditFails(s, fails) then s else s.(log := s.log + [e])
  }

  function Close(s: Sys, i: nat): Sys { s.(gate := s.gate - {i}) }

  /** Ends the attempt with `error` after recording the failure, or with the audit failure itself. */
  function FailWith(s: Sys, p: Plan, error: Error, f: Faults): Progress {
    Done(Close(Append(s, Failed(p.i, p.from, p.to), f.failed), p.i),
         Err(if AuditFails(s, f.failed) then Audit else error))
  }

  function Open(s: Sys, p: Plan, f: Faults): Progress {
    if f.read then Done(s, Err(Store))
    else
      match StoredVersion(s.db, p.i)
      case None => Done(s, Ok(NothingToMigrate))
      case Some(current) =>
        if current == p.to then Done(s, Ok(AlreadyAtTarget(current)))
        else if current != p.from then Done(s, Err(UnexpectedStoreVersion(current)))
        else if p.to <= p.from then Done(s, Err(UnsupportedVersionRange))
        else
          var w := s.(gate := s.gate + {p.i});
          var r := Begin(w.db, p.i, p.to, Mode.Migration);
          match r.result
          case Err(TransactionConflict) => Done(Close(w, p.i), Err(Busy))
          case Err(SchemaVersionMismatch) => Done(Close(w, p.i), Err(UnsupportedVersionRange))
          case Err(_) => FailWith(w, p, Store, f)
          case Ok(h) => if f.begin then FailWith(w, p, Store, f) else Running(w.(db := r.db), h, None)
  }

  function AbortWith(s: Sys, p: Plan, h: Handle, error: Error, f: Faults): Progress {
    Done(Close(s.(db := Abort(s.db, h, f.abort).db), p.i), Err(error))
  }

  function Announce(s: Sys, p: Plan, h: Handle, f: Faults): Progress {
    if AuditFails(s, f.started) then AbortWith(s, p, h, Audit, f)
    else Running(Append(s, Started(p.i, p.from, p.to), false), h, None)
  }

  function TxWrites(db: Db, h: Handle, i: nat, writes: seq<Write>): Db
    decreases |writes|
  {
    if writes == [] then db else TxWrite(TxWrites(db, h, i, writes[..|writes| - 1]), h, i, writes[|writes| - 1]).db
  }

  function EndedByGuest(db: Db, h: Handle, end: GuestEnd): Db {
    match end
    case KeepsOpen => db
    case CommitsItself => Commit(db, h, false).db
    case AbortsItself => Abort(db, h, false).db
  }

  function TxRows(db: Db): map<Key, Row> { if db.tx.Some? then db.tx.value.rows else map[] }

  function RunGuest(s: Sys, p: Plan, h: Handle, guest: Guest): Progress {
    var run := guest(TxRows(s.db));
    Running(s.(db := EndedByGuest(TxWrites(s.db, h, p.i, run.writes), h, run.end)), h, Some(run.result))
  }

  function Record(s: Sys, p: Plan, h: Handle, result: Result<(), GuestError>, f: Faults): Progress {
    match result
    case Ok(_) =>
      if AuditFails(s, f.ended) then AbortWith(s, p, h, Audit, f)
      else Running(Append(s, Recorded(p.i, p.from, p.to), false), h, Some(result))
    case Err(reason) =>
      Running(Append(s, RollbackRecorded(p.i, p.from, p.to, reason), f.ended), h, Some(result))
  }

  function Finish(s: Sys, p: Plan, h: Handle, result: Result<(), GuestError>, f: Faults): Progress {
    match result
    case Ok(_) =>
      var r := Commit(s.db, h, f.commit);
      var t := s.(db := r.db);
      if r.result.Ok? then Done(Close(t, p.i), Ok(Migrated))
      else if r.result.error.TransactionConflict? then FailWith(t, p, Conflict, f)
      else FailWith(t, p, Store, f)
    case Err(reason) =>
      var r := Abort(s.db, h, f.abort);
      Done(Close(s.(db := r.db), p.i), if r.result.Ok? then Ok(RolledBack(reason)) else Err(Store))
  }

  /** The stage a running attempt goes through next. */
  function Stage(t: Progress, p: Plan, guest: Guest, f: Faults, n: nat): Progress
    requires t.Running?
  {
    if n == 2 then Announce(t.sys, p, t.tx, f)
    else if n == 3 then RunGuest(t.sys, p, t.tx, guest)
    else if t.guest.None? then t
    else if n == 4 then Record(t.sys, p, t.tx, t.guest.value, f)
    else Finish(t.sys, p, t.tx, t.guest.value, f)
  }

  /** The attempt after its first `n` stages. */
  function After(s: Sys, p: Plan, guest: Guest, f: Faults, n: nat): Progress {
    if n == 0 then Running(s, 0, None)
    else if n == 1 then Open(s, p, f)
    else
      var before := After(s, p, guest, f, n - 1);
      if before.Done? then before else Stage(before, p, guest, f, n)
  }

  // ---- the guest's transaction ----

  function WriteAll(rows: map<Key, Row>, version: Version, writes: seq<Write>): map<Key, Row>
    decreases |writes|
  {
    if writes == [] then rows
    else
      var before := WriteAll(rows, version, writes[..|writes| - 1]);
      var last := writes[|writes| - 1];
      if Effective(before, last) then WriteRows(before, version, last) else before
  }

  /** Whether any of the writes took effect. */
  predicate Wrote(rows: map<Key, Row>, version: Version, writes: seq<Write>)
    decreases |writes|
  {
    writes != [] &&
    (Wrote(rows, version, writes[..|writes| - 1])
     || Effective(WriteAll(rows, version, writes[..|writes| - 1]), writes[|writes| - 1]))
  }

  lemma {:induction false} TxWritesStage(db: Db, h: Handle, i: nat, writes: seq<Write>)
    requires db.tx.Some? && Addresses(db, Some(h), i)
    ensures
      var tx := db.tx.value;
      TxWrites(db, h, i, writes)
        == db.(tx := Some(tx.(rows := WriteAll(tx.rows, tx.version, writes),
                              dirty := tx.dirty || Wrote(tx.rows, tx.version, writes))))
  {
    if writes != [] { TxWritesStage(db, h, i, writes[..|writes| - 1]); }
  }

  /** The last of the writes to a key. */
  function LastTo(writes: seq<Write>, k: Key): Option<Write>
    decreases |writes|
  {
    if writes == [] then None
    else if writes[|writes| - 1].k == k then Some(writes[|writes| - 1])
    else LastTo(writes[..|writes| - 1], k)
  }

  /** A key holds what the last write to it has put there, at the new version; nothing if that was a delete; and its old
      row if nothing was written to it. */
  predicate HoldsLast(before: map<Key, Row>, after: map<Key, Row>, to: Version, writes: seq<Write>, k: Key) {
    match LastTo(writes, k)
    case Some(PutKey(_, value)) => k in after && after[k] == Row(to, value)
    case Some(DeleteKey(_)) => k !in after
    case None => (k in after <==> k in before) && (k in after ==> after[k] == before[k])
  }

  lemma {:induction false} WriteAllHoldsLast(rows: map<Key, Row>, to: Version, writes: seq<Write>, k: Key)
    ensures HoldsLast(rows, WriteAll(rows, to, writes), to, writes, k)
    decreases |writes|
  {
    if writes != [] { WriteAllHoldsLast(rows, to, writes[..|writes| - 1], k); }
  }

  /** Writes that put something have an effect, and writes without effect leave every row alone. */
  lemma {:induction false} WroteMeans(rows: map<Key, Row>, to: Version, writes: seq<Write>)
    ensures (exists n :: 0 <= n < |writes| && writes[n].PutKey?) ==> Wrote(rows, to, writes)
    ensures !Wrote(rows, to, writes) ==> WriteAll(rows, to, writes) == rows
    ensures Wrote(rows, to, writes) ==> exists n :: 0 <= n < |writes| && (writes[n].PutKey? || writes[n].k in rows)
    decreases |writes|
  {
    if writes != [] {
      var init, last := writes[..|writes| - 1], writes[|writes| - 1];
      WroteMeans(rows, to, init);
      if Wrote(rows, to, init) {
        var n :| 0 <= n < |init| && (init[n].PutKey? || init[n].k in rows);
        assert writes[n] == init[n];
      } else if Wrote(rows, to, writes) {
        assert last.PutKey? || last.k in rows;
      }
      if n :| 0 <= n < |writes| && writes[n].PutKey? {
        if n < |init| { assert init[n].PutKey?; }
      }
    }
  }

  /** The data a full migration leaves: the guest's writes applied and the version moved to the target, or
      nothing at all when the guest wrote nothing. */
  function Target(d: Data, to: Version, guest: Guest): Data {
    var writes := guest(d.rows).writes;
    if Wrote(d.rows, to, writes) then Data(WriteAll(d.rows, to, writes), Some(to)) else d
  }

  /** The committed data with one installation's store taken to the target. */
  function Moved(db: Db, p: Plan, guest: Guest): map<nat, Data> {
    db.data[p.i := Target(DataAt(db, p.i), p.to, guest)]
  }

  // ---- one attempt ----

  predicate Contract(guest: Guest, rows: map<Key, Row>) { guest(rows).end.KeepsOpen? }

  /** What a running attempt holds: the gate closed, its own transaction open over unchanged data. */
  predicate Holds(s: Sys, t: Progress, p: Plan) {
    && t.Running?
    && t.sys.gate == s.gate + {p.i} && t.sys.shared == s.shared
    && t.sys.db.data == s.db.data
    && t.sys.db.tx.Some? && Addresses(t.sys.db, Some(t.tx), p.i)
    && t.sys.db.tx.value.version == p.to
    && StoredVersion(s.db, p.i) == Some(p.from) && p.from < p.to
  }

  lemma OpenHolds(s: Sys, p: Plan, f: Faults)
    ensures
      var t := Open(s, p, f);
      && (t.Running? ==> Holds(s, t, p) && t.guest.None? && t.sys.log == s.log
                         && !t.sys.db.tx.value.dirty && t.sys.db.tx.value.rows == DataAt(s.db, p.i).rows)
      && (t.Done? ==> t.sys.db == s.db && t.result != Ok(Migrated) && !(t.result.Ok? && t.result.value.RolledBack?))
  {
  }

  /** What the guest stage leaves when the guest keeps its contract. */
  lemma GuestHolds(s: Sys, p: Plan, guest: Guest, f: Faults)
    requires After(s, p, guest, f, 3).Running?
    requires Contract(guest, DataAt(s.db, p.i).rows)
    ensures
      var t := After(s, p, guest, f, 3);
      var rows := DataAt(s.db, p.i).rows;
      && Holds(s, t, p)
      && !s.shared
      && t.guest == Some(guest(rows).result)
      && t.sys.log == s.log + [Started(p.i, p.from, p.to)]
      && t.sys.db.tx.value.dirty == Wrote(rows, p.to, guest(rows).writes)
      && t.sys.db.tx.value.rows == WriteAll(rows, p.to, guest(rows).writes)
  {
    OpenHolds(s, p, f);
    var t2 := After(s, p, guest, f, 2);
    assert After(s, p, guest, f, 1) == Open(s, p, f);
    assert t2 == Announce(Open(s, p, f).sys, p, Open(s, p, f).tx, f);
    TxWritesStage(t2.sys.db, t2.tx, p.i, guest(DataAt(s.db, p.i).rows).writes);
  }

  /** The whole of an attempt. */
  function Migrate(s: Sys, p: Plan, guest: Guest, f: Faults): Progress { After(s, p, guest, f, 5) }

  /** An attempt that has ended stays ended. */
  lemma {:induction false} DoneStays(s: Sys, p: Plan, guest: Guest, f: Faults, n: nat)
    requires 1 <= n <= 5
    ensures After(s, p, guest, f, n).Done? ==> Migrate(s, p, guest, f) == After(s, p, guest, f, n)
    decreases 5 - n
  {
    if n < 5 { DoneStays(s, p, guest, f, n + 1); }
  }

  lemma EarlyEnd(s: Sys, p: Plan, guest: Guest, f: Faults)
    requires After(s, p, guest, f, 3).Done?
    ensures
      var t := Migrate(s, p, guest, f);
      && t.Done? && t == After(s, p, guest, f, 3)
      && t.sys.db.data == s.db.data
      && t.result != Ok(Migrated)
      && !(t.result.Ok? && t.result.value.RolledBack?)
  {
    OpenHolds(s, p, f);
    assert After(s, p, guest, f, 1) == Open(s, p, f);
    assert After(s, p, guest, f, 4) == After(s, p, guest, f, 3);
  }

  /** Atomicity.  With a guest that leaves its transaction open, an attempt returns `Migrated` exactly when it
      committed, and then data and version moved together to the target, audited as started and then
      committed; any other return leaves the data of every installation alone. */
  lemma MigrationIsAtomic(s: Sys, p: Plan, guest: Guest, f: Faults)
    requires Contract(guest, DataAt(s.db, p.i).rows)
    ensures
      var t := Migrate(s, p, guest, f);
      && t.Done?
      && (t.result == Ok(Migrated) ==>
            && t.sys.db.data == Moved(s.db, p, guest)
            && t.sys.log == s.log + [Started(p.i, p.from, p.to), Recorded(p.i, p.from, p.to)]
            && guest(DataAt(s.db, p.i).rows).result.Ok?
            && StoredVersion(s.db, p.i) == Some(p.from) && p.from < p.to)
      && (t.result != Ok(Migrated) ==> t.sys.db.data == s.db.data)
  {
    if After(s, p, guest, f, 3).Done? {
      EarlyEnd(s, p, guest, f);
    } else {
      GuestHolds(s, p, guest, f);
      LateStages(s, p, guest, f);
    }
  }

  lemma LateStages(s: Sys, p: Plan, guest: Guest, f: Faults)
    requires Contract(guest, DataAt(s.db, p.i).rows)
    requires After(s, p, guest, f, 3).Running?
    ensures
      var t := Migrate(s, p, guest, f);
      && t.Done?
      && (t.result == Ok(Migrated) ==>
            && t.sys.db.data == Moved(s.db, p, guest)
            && t.sys.log == s.log + [Started(p.i, p.from, p.to), Recorded(p.i, p.from, p.to)]
            && guest(DataAt(s.db, p.i).rows).result.Ok?)
      && (t.result != Ok(Migrated) ==> t.sys.db.data == s.db.data)
  {
    GuestHolds(s, p, guest, f);
    var t3 := After(s, p, guest, f, 3);
    var t4 := After(s, p, guest, f, 4);
    assert t4 == Record(t3.sys, p, t3.tx, t3.guest.value, f);
    assert p.i in s.db.data && s.db.data == s.db.data[p.i := s.db.data[p.i]];
    if t4.Running? {
      assert Migrate(s, p, guest, f) == Finish(t4.sys, p, t4.tx, t4.guest.value, f);
    }
  }

  /** The data behind `Migrated`: every key of the store holds the guest's last write to it, or its old row if the guest
      wrote nothing to it, and nobody else's store has changed. */
  lemma MigratedHoldsLast(s: Sys, p: Plan, guest: Guest, f: Faults)
    requires Contract(guest, DataAt(s.db, p.i).rows)
    requires Migrate(s, p, guest, f).Done? && Migrate(s, p, guest, f).result == Ok(Migrated)
    ensures
      var t := Migrate(s, p, guest, f).sys;
      var rows := DataAt(s.db, p.i).rows;
      && (forall k :: HoldsLast(rows, DataAt(t.db, p.i).rows, p.to, guest(rows).writes, k))
      && (forall j :: j != p.i ==> DataAt(t.db, j) == DataAt(s.db, j))
  {
    MigrationIsAtomic(s, p, guest, f);
    MovedHoldsLast(s.db, p, guest);
    var t := Migrate(s, p, guest, f).sys;
    forall j ensures DataAt(t.db, j) == DataAt(s.db.(data := Moved(s.db, p, guest)), j) {}
  }

  /** So does every store whose guest's writes have been committed. */
  lemma MovedHoldsLast(db: Db, p: Plan, guest: Guest)
    ensures
      var moved := db.(data := Moved(db, p, guest));
      var rows := DataAt(db, p.i).rows;
      && (forall k :: HoldsLast(rows, DataAt(moved, p.i).rows, p.to, guest(rows).writes, k))
      && (forall j :: j != p.i ==> DataAt(moved, j) == DataAt(db, j))
      && (Wrote(rows, p.to, guest(rows).writes) ==> StoredVersion(moved, p.i) == Some(p.to))
  {
    var rows := DataAt(db, p.i).rows;
    WroteMeans(rows, p.to, guest(rows).writes);
    forall k ensures HoldsLast(rows, Target(DataAt(db, p.i), p.to, guest).rows, p.to, guest(rows).writes, k) {
      WriteAllHoldsLast(rows, p.to, guest(rows).writes, k);
    }
  }
}
