/**
 The component state store: rows and a schema version marker per installation, behind one connection that
 holds at most one open transaction for all installations together.

 An operation that fails has no effect on committed data; a commit that fails rolls back.
 */
module StateStore {
  import opened Prelude

  type Key = nat
  type Value = nat
  type Version = nat
  type Handle = nat

  datatype Row = Row(version: Version, value: Value)

  /** `marker` is the schema version of the whole store; a store without one is empty. */
  datatype Data = Data(rows: map<Key, Row>, marker: Option<Version>)

  /** `rows` is what the transaction sees: the committed rows with its own writes on top. */
  datatype Tx = Tx(handle: Handle, installation: nat, version: Version, dirty: bool, rows: map<Key, Row>)

  datatype Db = Db(data: map<nat, Data>, tx: Option<Tx>, counter: nat)

  datatype StoreError = NotFound | SchemaVersionMismatch | TransactionConflict | InvalidArgument | Corrupt | Storage

  datatype Mode = Normal | Migration

  datatype Reply<T> = Reply(db: Db, result: Result<T, StoreError>)

  const EMPTY_DATA := Data(map[], None)

  function DataAt(db: Db, i: nat): Data { if i in db.data then db.data[i] else EMPTY_DATA }

  function StoredVersion(db: Db, i: nat): Option<Version> { DataAt(db, i).marker }

  /** Operations name either the open transaction or none at all. */
  predicate Addresses(db: Db, tx: Option<Handle>, i: nat) {
    match db.tx
    case Some(active) => tx == Some(active.handle) && active.installation == i
    case None => tx.None?
  }

  function Lookup(rows: map<Key, Row>, k: Key): Option<Value> {
    if k in rows then Some(rows[k].value) else None
  }

  function Get(db: Db, tx: Option<Handle>, i: nat, k: Key): Result<Option<Value>, StoreError> {
    if !Addresses(db, tx, i) then Err(TransactionConflict)
    else Ok(Lookup(if db.tx.Some? then db.tx.value.rows else DataAt(db, i).rows, k))
  }

  function Put(db: Db, i: nat, k: Key, version: Version, value: Value): Reply<()> {
    if db.tx.Some? then Reply(db, Err(TransactionConflict))
    else
      var d := DataAt(db, i);
      if d.marker.Some? && d.marker.value != version then Reply(db, Err(SchemaVersionMismatch))
      else Reply(db.(data := db.data[i := Data(d.rows[k := Row(version, value)], Some(version))]), Ok(()))
  }

  function Delete(db: Db, i: nat, k: Key): Reply<()> {
    var d := DataAt(db, i);
    if db.tx.Some? then Reply(db, Err(TransactionConflict))
    else if k !in d.rows then Reply(db, Err(NotFound))
    else Reply(db.(data := db.data[i := d.(rows := d.rows - {k})]), Ok(()))
  }

  function Begin(db: Db, i: nat, version: Version, mode: Mode): Reply<Handle> {
    var d := DataAt(db, i);
    if db.tx.Some? then Reply(db, Err(TransactionConflict))
    else if mode.Normal? && d.marker.Some? && d.marker.value != version then Reply(db, Err(SchemaVersionMismatch))
    else if mode.Migration? && d.marker.None? then Reply(db, Err(InvalidArgument))
    else if mode.Migration? && version <= d.marker.value then Reply(db, Err(SchemaVersionMismatch))
    else
      var h := db.counter + 1;
      Reply(Db(db.data, Some(Tx(h, i, version, false, d.rows)), h), Ok(h))
  }

  datatype Write = PutKey(k: Key, value: Value) | DeleteKey(k: Key)

  predicate Effective(rows: map<Key, Row>, w: Write) { w.PutKey? || w.k in rows }

  function WriteRows(rows: map<Key, Row>, version: Version, w: Write): map<Key, Row> {
    match w
    case PutKey(k, value) => rows[k := Row(version, value)]
    case DeleteKey(k) => rows - {k}
  }

  function TxWrite(db: Db, h: Handle, i: nat, w: Write): Reply<()> {
    if db.tx.None? || !Addresses(db, Some(h), i) then Reply(db, Err(TransactionConflict))
    else
      var tx := db.tx.value;
      if !Effective(tx.rows, w) then Reply(db, Err(NotFound))
      else Reply(db.(tx := Some(tx.(rows := WriteRows(tx.rows, tx.version, w), dirty := true))), Ok(()))
  }

  /** The committed state after a successful commit: a clean transaction leaves it, marker included. */
  function Committed(db: Db): map<nat, Data>
    requires db.tx.Some?
  {
    var tx := db.tx.value;
    if tx.dirty then db.data[tx.installation := Data(tx.rows, Some(tx.version))] else db.data
  }

  function Commit(db: Db, h: Handle, fails: bool): Reply<()> {
    if db.tx.None? || db.tx.value.handle != h then Reply(db, Err(TransactionConflict))
    else if fails then Reply(db.(tx := None), Err(Storage))
    else Reply(db.(data := Committed(db), tx := None), Ok(()))
  }

  function Abort(db: Db, h: Handle, fails: bool): Reply<()> {
    if db.tx.None? || db.tx.value.handle != h then Reply(db, Ok(()))
    else if fails then Reply(db, Err(Storage))
    else Reply(db.(tx := None), Ok(()))
  }

  /** A crash loses the open transaction and nothing else. */
  function Crash(db: Db): Db { db.(tx := None) }

  // ---- what every operation keeps ----

  /** A store without a version is empty, and no row is newer than the store. */
  predicate DataOk(d: Data) {
    && (d.marker.None? ==> d.rows == map[])
    && (d.marker.Some? ==> forall k :: k in d.rows ==> d.rows[k].version <= d.marker.value)
  }

  /** The open transaction writes at a version at least the stored one, and unless it has written something
      it still sees the committed rows. */
  predicate DbOk(db: Db) {
    && (forall i :: i in db.data ==> DataOk(db.data[i]))
    && (db.tx.Some? ==>
          var tx := db.tx.value;
          var d := DataAt(db, tx.installation);
          && tx.handle <= db.counter
          && (d.marker.Some? ==> d.marker.value <= tx.version)
          && (!tx.dirty ==> tx.rows == d.rows)
          && (forall k :: k in tx.rows ==> tx.rows[k].version <= tx.version))
  }

  datatype Op =
    | OpPut(i: nat, k: Key, version: Version, value: Value)
    | OpDelete(i: nat, k: Key)
    | OpBegin(i: nat, version: Version, mode: Mode)
    | OpTxWrite(h: Handle, i: nat, w: Write)
    | OpCommit(h: Handle, fails: bool)
    | OpAbort(h: Handle, fails: bool)
    | OpCrash

  function Perform(db: Db, op: Op): Db {
    match op
    case OpPut(i, k, version, value) => Put(db, i, k, version, value).db
    case OpDelete(i, k) => Delete(db, i, k).db
    case OpBegin(i, version, mode) => Begin(db, i, version, mode).db
    case OpTxWrite(h, i, w) => TxWrite(db, h, i, w).db
    case OpCommit(h, fails) => Commit(db, h, fails).db
    case OpAbort(h, fails) => Abort(db, h, fails).db
    case OpCrash => Crash(db)
  }

  function PerformAll(db: Db, ops: seq<Op>): Db
    decreases |ops|
  {
    if ops == [] then db else PerformAll(Perform(db, ops[0]), ops[1..])
  }

  /** The stored version of an installation never goes back, and is never lost once established. */
  predicate VersionGrows(before: Option<Version>, after: Option<Version>) {
    before.Some? ==> after.Some? && before.value <= after.value
  }

  lemma OpKeepsDbOk(db: Db, op: Op)
    requires DbOk(db)
    ensures DbOk(Perform(db, op))
  {
  }

  /** Across any mix of writes, transactions of either mode, failed commits and aborts, and crashes. */
  lemma {:induction false} VersionNeverDecreases(db: Db, ops: seq<Op>, i: nat)
    requires DbOk(db)
    ensures DbOk(PerformAll(db, ops))
    ensures VersionGrows(StoredVersion(db, i), StoredVersion(PerformAll(db, ops), i))
    decreases |ops|
  {
    if ops != [] {
      OpKeepsDbOk(db, ops[0]);
      VersionNeverDecreases(Perform(db, ops[0]), ops[1..], i);
    }
  }

  /** While a transaction is open nothing reaches the committed state of any installation except its own
      commit. */
  lemma OnlyCommitMovesData(db: Db, op: Op)
    requires DbOk(db) && db.tx.Some? && Perform(db, op).data != db.data
    ensures op == OpCommit(db.tx.value.handle, false) && db.tx.value.dirty
    ensures forall j :: j != db.tx.value.installation ==> DataAt(Perform(db, op), j) == DataAt(db, j)
  {
  }

  // ---- what is read back ----

  /** A write inside a transaction succeeds exactly in that transaction, a delete only of a key it sees; then the
      transaction reads it back, at its own version, every other key as before, and nothing is committed yet. */
  lemma TxWriteReadsBack(db: Db, h: Handle, i: nat, w: Write)
    ensures
      var t := TxWrite(db, h, i, w);
      && (t.result.Ok? <==>
            && db.tx.Some? && db.tx.value.handle == h && db.tx.value.installation == i
            && (w.PutKey? || w.k in db.tx.value.rows))
      && (t.result.Err? ==> t.db == db)
      && (t.result.Ok? ==>
            && Get(t.db, Some(h), i, w.k) == Ok(if w.PutKey? then Some(w.value) else None)
            && t.db.tx.Some? && t.db.tx.value.dirty
            && (w.PutKey? ==> w.k in t.db.tx.value.rows && t.db.tx.value.rows[w.k].version == db.tx.value.version)
            && (forall k :: k != w.k ==>
                  && Get(t.db, Some(h), i, k) == Get(db, Some(h), i, k)
                  && (k in db.tx.value.rows ==> k in t.db.tx.value.rows && t.db.tx.value.rows[k] == db.tx.value.rows[k]))
            && t.db.data == db.data)
  {
  }

  /** A put outside a transaction succeeds exactly at the store's version, or founds it; a delete exactly on a key that
      is there.  Then the key reads back so, and nothing else has changed. */
  lemma WriteReadsBack(db: Db, i: nat, k: Key, version: Version, value: Value)
    ensures
      var put, del := Put(db, i, k, version, value), Delete(db, i, k);
      && (put.result.Ok? <==> db.tx.None? && (StoredVersion(db, i).None? || StoredVersion(db, i) == Some(version)))
      && (del.result.Ok? <==> db.tx.None? && k in DataAt(db, i).rows)
      && (put.result.Err? ==>
            put == Reply(db, Err(if db.tx.Some? then TransactionConflict else SchemaVersionMismatch)))
      && (del.result.Err? ==> del == Reply(db, Err(if db.tx.Some? then TransactionConflict else NotFound)))
      && (put.result.Ok? ==>
            && Get(put.db, None, i, k) == Ok(Some(value)) && StoredVersion(put.db, i) == Some(version)
            && OtherKeysKept(db, put.db, i, k))
      && (del.result.Ok? ==>
            && Get(del.db, None, i, k) == Ok(None) && StoredVersion(del.db, i) == StoredVersion(db, i)
            && OtherKeysKept(db, del.db, i, k))
  {
  }

  ghost predicate OtherKeysKept(a: Db, b: Db, i: nat, k: Key) {
    && b.tx == a.tx
    && (forall j :: j != i ==> DataAt(b, j) == DataAt(a, j))
    && (forall x :: x != k ==> Lookup(DataAt(b, i).rows, x) == Lookup(DataAt(a, i).rows, x))
  }

  /** What a transaction saw is what everybody reads after its commit, at its version if it wrote anything; after an
      abort, a failed commit or a crash everybody reads what they read before it began.  An abort that fails leaves it
      open. */
  lemma TransactionEnds(db: Db, h: Handle, i: nat, k: Key)
    requires DbOk(db) && db.tx.Some? && db.tx.value.handle == h && db.tx.value.installation == i
    ensures
      var c := Commit(db, h, false);
      && c.result.Ok? && Get(c.db, None, i, k) == Get(db, Some(h), i, k)
      && StoredVersion(c.db, i) == (if db.tx.value.dirty then Some(db.tx.value.version) else StoredVersion(db, i))
      && (forall j :: j != i ==> DataAt(c.db, j) == DataAt(db, j))
    ensures
      forall t :: t in {Commit(db, h, true).db, Abort(db, h, false).db, Crash(db)} ==> t.tx.None? && t.data == db.data
    ensures Commit(db, h, true).result == Err(Storage) && Abort(db, h, false).result.Ok?
    ensures Abort(db, h, true) == Reply(db, Err(Storage))
  {
  }

  /** A handle that is not the open transaction's ends nothing: its commit conflicts, its abort is done already. */
  lemma StrangersEndNothing(db: Db, h: Handle, fails: bool)
    requires db.tx.None? || db.tx.value.handle != h
    ensures Commit(db, h, fails) == Reply(db, Err(TransactionConflict)) && Abort(db, h, fails) == Reply(db, Ok(()))
  {
  }

  /** A transaction begins exactly where none is open, at the stored version or in an empty store, and for a migration at
      a later version; it sees the committed rows. */
  lemma BeginReads(db: Db, i: nat, version: Version, mode: Mode, k: Key)
    ensures
      var b := Begin(db, i, version, mode);
      var stored := StoredVersion(db, i);
      && (b.result.Ok? <==>
            && db.tx.None?
            && if mode.Normal? then stored.None? || stored == Some(version) else stored.Some? && stored.value < version)
      && (b.result.Err? ==>
            && b.db == db
            && b.result.error == (if db.tx.Some? then TransactionConflict
                                  else if mode.Migration? && stored.None? then InvalidArgument
                                  else SchemaVersionMismatch))
      && (b.result.Ok? ==>
            && db.counter < b.result.value && b.db.data == db.data
            && b.db.tx == Some(Tx(b.result.value, i, version, false, DataAt(db, i).rows))
            && Get(b.db, Some(b.result.value), i, k) == Get(db, None, i, k))
  {
  }
}
