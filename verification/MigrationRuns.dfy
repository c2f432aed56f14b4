/**
 What migration attempts add up to: the window, crashes and retries, guests that break their contract, and
 the schema phase of the install pipeline.
 */
module MigrationRuns {
  import opened Prelude
  import opened StateStore
  import opened Migration

  // ---- the window ----

  /** The guest runs with the window open and its own transaction the only one. */
  lemma GuestRunsInsideWindow(s: Sys, p: Plan, guest: Guest, f: Faults)
    requires After(s, p, guest, f, 2).Running?
    ensures
      var t := After(s, p, guest, f, 2);
      p.i in t.sys.gate && t.sys.db.tx.Some? && t.sys.db.tx.value.installation == p.i
  {
  }

  /** Whatever fails, the window is closed again when the attempt returns. */
  lemma WindowClosesOnEveryExit(s: Sys, p: Plan, guest: Guest, f: Faults)
    requires p.i !in s.gate
    ensures Migrate(s, p, guest, f).Done? && Migrate(s, p, guest, f).sys.gate == s.gate
  {
    WindowOfStages(s, p, guest, f, 5);
  }

  lemma {:induction false} WindowOfStages(s: Sys, p: Plan, guest: Guest, f: Faults, n: nat)
    requires p.i !in s.gate && 1 <= n <= 5
    ensures
      var t := After(s, p, guest, f, n);
      && (t.Done? ==> t.sys.gate == s.gate)
      && (t.Running? ==> n < 5 && t.sys.gate == s.gate + {p.i})
      && (t.Running? && n >= 3 ==> t.guest.Some?)
      && (t.Running? && n < 3 ==> t.guest.None?)
  {
    if n == 1 {
      OpenHolds(s, p, f);
    } else {
      WindowOfStages(s, p, guest, f, n - 1);
      var before := After(s, p, guest, f, n - 1);
    }
  }

  // ---- version and data ----

  /** A migration that reports success has moved the stored version exactly when the guest wrote something:
      a transaction without writes commits without touching the version. */
  lemma VersionAdvancesIffGuestWrote(s: Sys, p: Plan, guest: Guest, f: Faults)
    requires Contract(guest, DataAt(s.db, p.i).rows)
    requires Migrate(s, p, guest, f).Done? && Migrate(s, p, guest, f).result == Ok(Migrated)
    ensures StoredVersion(Migrate(s, p, guest, f).sys.db, p.i) == Some(p.to)
       <==> Wrote(DataAt(s.db, p.i).rows, p.to, guest(DataAt(s.db, p.i).rows).writes)
  {
    MigrationIsAtomic(s, p, guest, f);
  }

  /** A guest that writes nothing: reported as migrated to version 2, the store is still at version 1. */
  lemma MigratedWithoutMoving()
    ensures
      var s := Sys(Db(map[1 := Data(map[], Some(1))], None, 0), {}, [], false);
      var done := Migrate(s, Plan(1, 1, 2), rows => GuestRun([], KeepsOpen, Ok(())), NO_FAULTS);
      done.Done? && done.result == Ok(Migrated) && StoredVersion(done.sys.db, 1) == Some(1)
  {
    var s := Sys(Db(map[1 := Data(map[], Some(1))], None, 0), {}, [], false);
    var guest: Guest := rows => GuestRun([], KeepsOpen, Ok(()));
    assert GuestReached(s, Plan(1, 1, 2), NO_FAULTS);
    DataMovesExactly(s, Plan(1, 1, 2), guest, NO_FAULTS);
    VersionAdvancesIffGuestWrote(s, Plan(1, 1, 2), guest, NO_FAULTS);
  }

  // ---- what the caller is told ----

  /** An attempt that does not get to its window answers from the stored version alone and leaves everything as it was. */
  lemma AnswersWithoutWindow(s: Sys, p: Plan, guest: Guest, f: Faults)
    ensures
      var t := Migrate(s, p, guest, f);
      var stored := StoredVersion(s.db, p.i);
      && (f.read ==> t == Done(s, Err(Store)))
      && (!f.read && stored.None? ==> t == Done(s, Ok(NothingToMigrate)))
      && (!f.read && stored.Some? && stored.value == p.to ==> t == Done(s, Ok(AlreadyAtTarget(p.to))))
      && (!f.read && stored.Some? && stored.value != p.to && stored.value != p.from ==>
            t == Done(s, Err(UnexpectedStoreVersion(stored.value))))
      && (!f.read && stored == Some(p.from) && p.to < p.from ==> t == Done(s, Err(UnsupportedVersionRange)))
  {
    DoneStays(s, p, guest, f, 1);
    assert After(s, p, guest, f, 1) == Open(s, p, f);
  }

  /** What a failing audit makes of an error that is recorded before it is returned. */
  function Told(error: Error, f: Faults): Error { if f.failed then Error.Audit else error }

  function RecordedUnless(log: seq<Event>, e: Event, fails: bool): seq<Event> { if fails then log else log + [e] }

  /** An attempt that opens its window and does not get to the guest: another transaction is open, none can be begun, or
      its beginning cannot be audited. */
  lemma AnswersWithoutGuest(s: Sys, p: Plan, guest: Guest, f: Faults)
    requires !f.read && StoredVersion(s.db, p.i) == Some(p.from) && p.from < p.to
    ensures
      var t := Migrate(s, p, guest, f);
      && (s.db.tx.Some? ==> t.Done? && t.result == Err(Busy) && t.sys.log == s.log)
      && (s.db.tx.None? && f.begin ==>
            && t.Done? && t.result == Err(Told(Store, f))
            && t.sys.log == RecordedUnless(s.log, Failed(p.i, p.from, p.to), f.failed))
      && (s.db.tx.None? && !f.begin && (f.started || s.shared) ==>
            t.Done? && t.result == Err(Audit) && t.sys.log == s.log)
  {
    DoneStays(s, p, guest, f, 1);
    DoneStays(s, p, guest, f, 2);
    assert After(s, p, guest, f, 1) == Open(s, p, f);
  }

  /** What is returned and audited once the guest has run and the transaction is, or is not, still open. */
  lemma AnswersAfterGuest(s: Sys, p: Plan, guest: Guest, f: Faults)
    requires GuestReached(s, p, f)
    ensures
      var t := Migrate(s, p, guest, f);
      var run := guest(DataAt(s.db, p.i).rows);
      var started := s.log + [Started(p.i, p.from, p.to)];
      && t.Done?
      && (run.result.Err? ==>
            && t.result == (if run.end.KeepsOpen? && f.abort then Err(Store) else Ok(RolledBack(run.result.error)))
            && t.sys.log == RecordedUnless(started, RollbackRecorded(p.i, p.from, p.to, run.result.error), f.ended))
      && (run.result.Ok? && f.ended ==> t.result == Err(Audit) && t.sys.log == started)
      && (run.result.Ok? && !f.ended ==>
            var recorded := started + [Recorded(p.i, p.from, p.to)];
            var failed := RecordedUnless(recorded, Failed(p.i, p.from, p.to), f.failed);
            if !run.end.KeepsOpen? then t.result == Err(Told(Conflict, f)) && t.sys.log == failed
            else if f.commit then t.result == Err(Told(Store, f)) && t.sys.log == failed
            else t.result == Ok(Migrated) && t.sys.log == recorded)
  {
    GuestReachedIsExact(s, p, guest, f);
    GuestLeaves(s, p, guest, f);
    var t3, t4 := After(s, p, guest, f, 3), After(s, p, guest, f, 4);
    var run := guest(DataAt(s.db, p.i).rows);
    assert t4 == Record(t3.sys, p, t3.tx, run.result, f);
    if t4.Running? { assert Migrate(s, p, guest, f) == Finish(t4.sys, p, t4.tx, run.result, f); }
  }

  lemma GuestLeaves(s: Sys, p: Plan, guest: Guest, f: Faults)
    requires GuestReached(s, p, f) && After(s, p, guest, f, 3).Running?
    ensures
      var t := After(s, p, guest, f, 3);
      var run := guest(DataAt(s.db, p.i).rows);
      && t.guest == Some(run.result) && !t.sys.shared && t.sys.log == s.log + [Started(p.i, p.from, p.to)]
      && (run.end.KeepsOpen? <==> t.sys.db.tx.Some? && t.sys.db.tx.value.handle == t.tx)
  {
    OpenHolds(s, p, f);
    var t2 := After(s, p, guest, f, 2);
    assert After(s, p, guest, f, 1) == Open(s, p, f);
    assert t2 == Announce(Open(s, p, f).sys, p, Open(s, p, f).tx, f);
    TxWritesStage(t2.sys.db, t2.tx, p.i, guest(DataAt(s.db, p.i).rows).writes);
  }

  // ---- guests that end the transaction themselves ----

  /** What must hold before an attempt for the guest to be called at all. */
  predicate GuestReached(s: Sys, p: Plan, f: Faults) {
    && !f.read && !f.begin && !f.started && !s.shared
    && StoredVersion(s.db, p.i) == Some(p.from) && p.from < p.to
    && s.db.tx.None?
  }

  lemma GuestReachedIsExact(s: Sys, p: Plan, guest: Guest, f: Faults)
    ensures After(s, p, guest, f, 3).Running? <==> GuestReached(s, p, f)
  {
    assert After(s, p, guest, f, 1) == Open(s, p, f);
    OpenHolds(s, p, f);
    assert After(s, p, guest, f, 3).Running? <==> After(s, p, guest, f, 2).Running?;
  }

  /** What the guest stage leaves when the guest has ended the transaction. */
  lemma GuestEndsItself(s: Sys, p: Plan, guest: Guest, f: Faults)
    requires GuestReached(s, p, f) && !Contract(guest, DataAt(s.db, p.i).rows)
    ensures
      var rows := DataAt(s.db, p.i).rows;
      var t := After(s, p, guest, f, 3);
      && t.Running? && t.guest == Some(guest(rows).result) && t.sys.db.tx.None? && !t.sys.shared
      && t.sys.db.data == if guest(rows).end.CommitsItself? then Moved(s.db, p, guest) else s.db.data
  {
    GuestReachedIsExact(s, p, guest, f);
    OpenHolds(s, p, f);
    var t1 := Open(s, p, f);
    assert After(s, p, guest, f, 1) == t1;
    var t2 := After(s, p, guest, f, 2);
    assert t2 == Announce(t1.sys, p, t1.tx, f);
    TxWritesStage(t2.sys.db, t2.tx, p.i, guest(DataAt(s.db, p.i).rows).writes);
    assert After(s, p, guest, f, 3) == RunGuest(t2.sys, p, t2.tx, guest);
    assert s.db.data == s.db.data[p.i := s.db.data[p.i]];
  }

  /** Without a transaction the last two stages move no data and cannot report a migration. */
  lemma NothingLeftToCommit(s: Sys, p: Plan, guest: Guest, f: Faults)
    requires
      var t := After(s, p, guest, f, 3);
      t.Running? && t.guest.Some? && t.sys.db.tx.None? && !t.sys.shared
    ensures
      var t := After(s, p, guest, f, 3);
      var r := Migrate(s, p, guest, f);
      && r.Done? && r.sys.db.data == t.sys.db.data
      && r.result == match t.guest.value
                     case Ok(_) => if f.ended || f.failed then Err(Audit) else Err(Error.Conflict)
                     case Err(reason) => Ok(RolledBack(reason))
  {
    var t3 := After(s, p, guest, f, 3);
    var t4 := After(s, p, guest, f, 4);
    assert t4 == Record(t3.sys, p, t3.tx, t3.guest.value, f);
    if t4.Running? {
      assert Migrate(s, p, guest, f) == Finish(t4.sys, p, t4.tx, t4.guest.value, f);
    }
  }

  /** The guest commits its own writes behind the attempt's back. */
  predicate Escapes(s: Sys, p: Plan, guest: Guest, f: Faults) {
    var rows := DataAt(s.db, p.i).rows;
    GuestReached(s, p, f) && guest(rows).end.CommitsItself? && Wrote(rows, p.to, guest(rows).writes)
  }

  /** Any guest, any faults.  `Migrated` is returned exactly when the guest was reached, kept its transaction open
      and succeeded and neither the audit nor the commit failed; then data and version are at the target.  Any
      other return leaves the data alone if and only if the guest did not commit writes of its own, and if it did
      they are at the target all the same. */
  lemma DataMovesExactly(s: Sys, p: Plan, guest: Guest, f: Faults)
    ensures
      var run := guest(DataAt(s.db, p.i).rows);
      var t := Migrate(s, p, guest, f);
      && t.Done?
      && (t.result == Ok(Migrated) <==>
            GuestReached(s, p, f) && run.end.KeepsOpen? && run.result.Ok? && !f.ended && !f.commit)
      && (t.result == Ok(Migrated) ==> t.sys.db.data == Moved(s.db, p, guest))
      && (t.result != Ok(Migrated) ==>
            && (t.sys.db.data == s.db.data <==> !Escapes(s, p, guest, f))
            && (Escapes(s, p, guest, f) ==> t.sys.db.data == Moved(s.db, p, guest)))
  {
    GuestReachedIsExact(s, p, guest, f);
    if !GuestReached(s, p, f) {
      EarlyEnd(s, p, guest, f);
    } else if Contract(guest, DataAt(s.db, p.i).rows) {
      MigrationIsAtomic(s, p, guest, f);
      MigratedExactly(s, p, guest, f);
    } else {
      GuestEndsItself(s, p, guest, f);
      NothingLeftToCommit(s, p, guest, f);
    }
  }

  lemma MigratedExactly(s: Sys, p: Plan, guest: Guest, f: Faults)
    requires GuestReached(s, p, f) && Contract(guest, DataAt(s.db, p.i).rows)
    ensures Migrate(s, p, guest, f).Done?
    ensures Migrate(s, p, guest, f).result == Ok(Migrated)
       <==> guest(DataAt(s.db, p.i).rows).result.Ok? && !f.ended && !f.commit
  {
    GuestReachedIsExact(s, p, guest, f);
    GuestHolds(s, p, guest, f);
    var t3 := After(s, p, guest, f, 3);
    var t4 := After(s, p, guest, f, 4);
    assert t4 == Record(t3.sys, p, t3.tx, t3.guest.value, f);
    if t4.Running? {
      assert Migrate(s, p, guest, f) == Finish(t4.sys, p, t4.tx, t4.guest.value, f);
    }
  }

  /** What the caller of an escaped migration is told: a conflict, an audit failure, or even a roll-back. */
  lemma GuestCommitEscapesRollback(s: Sys, p: Plan, guest: Guest, f: Faults)
    requires GuestReached(s, p, f) && guest(DataAt(s.db, p.i).rows).end.CommitsItself?
    ensures
      var t := Migrate(s, p, guest, f);
      && t.Done? && t.sys.db.data == Moved(s.db, p, guest)
      && t.result == match guest(DataAt(s.db, p.i).rows).result
                     case Ok(_) => if f.ended || f.failed then Err(Audit) else Err(Error.Conflict)
                     case Err(reason) => Ok(RolledBack(reason))
  {
    GuestEndsItself(s, p, guest, f);
    NothingLeftToCommit(s, p, guest, f);
  }

  /** With audit rows on the state connection no migration ever runs: the first audit append is refused
      because the migration's own transaction is open. */
  lemma SharedConnectionNeverMigrates(s: Sys, p: Plan, guest: Guest, f: Faults)
    requires s.shared
    ensures
      var t := Migrate(s, p, guest, f);
      && t.Done? && t.sys.db.data == s.db.data
      && t.result != Ok(Migrated) && !(t.result.Ok? && t.result.value.RolledBack?)
      && (Open(s, p, f).Running? ==> t.result == Err(Audit))
  {
    OpenHolds(s, p, f);
    assert After(s, p, guest, f, 1) == Open(s, p, f);
    assert After(s, p, guest, f, 2).Done?;
    assert After(s, p, guest, f, 3) == After(s, p, guest, f, 2);
    EarlyEnd(s, p, guest, f);
  }

  // ---- attempts, crashes, retries ----

  /** One attempt: the guest may be stopped after some writes, and the process may die after any stage. */
  datatype Attempt = Attempt(f: Faults, trap: Option<nat>, crashAfter: Option<nat>)

  function Cut(run: GuestRun, n: nat): GuestRun {
    GuestRun(if n < |run.writes| then run.writes[..n] else run.writes, KeepsOpen, Err(Host))
  }

  function Trapped(script: Guest, trap: Option<nat>): Guest {
    if trap.None? then script else (rows: map<Key, Row>) => Cut(script(rows), trap.value)
  }

  /** A restart finds the committed data, no transaction and no window. */
  function Restarted(s: Sys): Sys { s.(db := Crash(s.db), gate := {}) }

  function Attempted(s: Sys, p: Plan, script: Guest, a: Attempt): Sys {
    var guest := Trapped(script, a.trap);
    match a.crashAfter
    case None => Migrate(s, p, guest, a.f).sys
    case Some(n) => Restarted(After(s, p, guest, a.f, if n < 5 then n else 5).sys)
  }

  function AttemptAll(s: Sys, p: Plan, script: Guest, attempts: seq<Attempt>): Sys
    decreases |attempts|
  {
    if attempts == [] then s
    else Attempted(AttemptAll(s, p, script, attempts[..|attempts| - 1]), p, script, attempts[|attempts| - 1])
  }

  lemma StagesBeforeCommit(s: Sys, p: Plan, guest: Guest, f: Faults, n: nat)
    requires n < 5 && Contract(guest, DataAt(s.db, p.i).rows)
    ensures After(s, p, guest, f, n).sys.db.data == s.db.data
  {
    if n >= 1 {
      OpenHolds(s, p, f);
      assert After(s, p, guest, f, 1) == Open(s, p, f);
      if After(s, p, guest, f, 3).Running? {
        GuestHolds(s, p, guest, f);
      }
      if n == 4 { FourthStage(s, p, guest, f); }
    }
  }

  lemma FourthStage(s: Sys, p: Plan, guest: Guest, f: Faults)
    requires Contract(guest, DataAt(s.db, p.i).rows)
    ensures After(s, p, guest, f, 4).sys.db.data == s.db.data
  {
    var t3 := After(s, p, guest, f, 3);
    if t3.Done? {
      EarlyEnd(s, p, guest, f);
    } else {
      GuestHolds(s, p, guest, f);
      assert After(s, p, guest, f, 4) == Record(t3.sys, p, t3.tx, t3.guest.value, f);
    }
  }

  /** One attempt leaves the data alone or takes it all the way to the script's target. */
  lemma AttemptIsAllOrNothing(s: Sys, p: Plan, script: Guest, a: Attempt)
    requires p.i in s.db.data && Contract(script, s.db.data[p.i].rows)
    ensures
      var t := Attempted(s, p, script, a);
      || t.db.data == s.db.data
      || (&& s.db.data[p.i].marker == Some(p.from) && p.from < p.to
          && t.db.data == Moved(s.db, p, script))
  {
    var guest := Trapped(script, a.trap);
    MigrationIsAtomic(s, p, guest, a.f);
    if a.crashAfter.Some? && a.crashAfter.value < 5 {
      StagesBeforeCommit(s, p, guest, a.f, a.crashAfter.value);
    }
  }

  /** Convergence.  Any sequence of attempts, with port failures, traps and crashes anywhere, leaves every
      store either with the original data at the source version or with the fully migrated data. */
  lemma {:induction false} AttemptsConverge(s: Sys, p: Plan, script: Guest, attempts: seq<Attempt>)
    requires p.i in s.db.data && s.db.data[p.i].marker == Some(p.from) && p.from < p.to
    requires forall rows :: Contract(script, rows)
    ensures
      var t := AttemptAll(s, p, script, attempts);
      t.db.data == s.db.data || t.db.data == Moved(s.db, p, script)
    decreases |attempts|
  {
    if attempts != [] {
      var init := attempts[..|attempts| - 1];
      AttemptsConverge(s, p, script, init);
      var before := AttemptAll(s, p, script, init);
      assert Contract(script, before.db.data[p.i].rows);
      AttemptIsAllOrNothing(before, p, script, attempts[|attempts| - 1]);
      assert s.db.data == s.db.data[p.i := s.db.data[p.i]];
    }
  }

  /** At the target version every later attempt says so without running the guest. */
  lemma AtTargetStays(s: Sys, p: Plan, guest: Guest, f: Faults)
    requires StoredVersion(s.db, p.i) == Some(p.to)
    ensures Migrate(s, p, guest, f) == Done(s, if f.read then Err(Store) else Ok(AlreadyAtTarget(p.to)))
  {
    assert After(s, p, guest, f, 1) == Open(s, p, f);
    assert After(s, p, guest, f, 2) == Open(s, p, f);
    assert After(s, p, guest, f, 3) == Open(s, p, f);
    assert After(s, p, guest, f, 4) == Open(s, p, f);
  }

  /** After any history of attempts, a restart and one attempt without faults end at the target, provided the
      guest accepts the original data and writes something. */
  lemma CleanAttemptCompletes(s: Sys, p: Plan, script: Guest, attempts: seq<Attempt>)
    requires p.i in s.db.data && s.db.data[p.i].marker == Some(p.from) && p.from < p.to && !s.shared
    requires forall rows :: Contract(script, rows)
    requires script(s.db.data[p.i].rows).result.Ok?
    requires Wrote(s.db.data[p.i].rows, p.to, script(s.db.data[p.i].rows).writes)
    ensures
      var before := Restarted(AttemptAll(s, p, script, attempts));
      var t := Migrate(before, p, script, NO_FAULTS);
      && t.Done?
      && t.result == Ok(if StoredVersion(before.db, p.i) == Some(p.to) then AlreadyAtTarget(p.to) else Migrated)
      && t.sys.db.data == Moved(s.db, p, script)
  {
    AttemptsConverge(s, p, script, attempts);
    SharingIsFixed(s, p, script, attempts);
    var before := Restarted(AttemptAll(s, p, script, attempts));
    if StoredVersion(before.db, p.i) == Some(p.to) {
      AtTargetStays(before, p, script, NO_FAULTS);
    } else {
      CleanAttemptMigrates(before, p, script);
    }
  }

  lemma SharingOfStages(s: Sys, p: Plan, guest: Guest, f: Faults, n: nat)
    requires n <= 5
    ensures After(s, p, guest, f, n).sys.shared == s.shared
  {
  }

  lemma {:induction false} SharingIsFixed(s: Sys, p: Plan, script: Guest, attempts: seq<Attempt>)
    ensures AttemptAll(s, p, script, attempts).shared == s.shared
    decreases |attempts|
  {
    if attempts != [] {
      SharingIsFixed(s, p, script, attempts[..|attempts| - 1]);
      var before, a := AttemptAll(s, p, script, attempts[..|attempts| - 1]), attempts[|attempts| - 1];
      var n := if a.crashAfter.Some? && a.crashAfter.value < 5 then a.crashAfter.value else 5;
      SharingOfStages(before, p, Trapped(script, a.trap), a.f, n);
    }
  }

  lemma CleanAttemptMigrates(s: Sys, p: Plan, script: Guest)
    requires p.i in s.db.data && s.db.data[p.i].marker == Some(p.from) && p.from < p.to
    requires s.db.tx.None? && !s.shared
    requires Contract(script, s.db.data[p.i].rows) && script(s.db.data[p.i].rows).result.Ok?
    ensures Migrate(s, p, script, NO_FAULTS).Done?
    ensures Migrate(s, p, script, NO_FAULTS).result == Ok(Migrated)
    ensures Migrate(s, p, script, NO_FAULTS).sys.db.data == Moved(s.db, p, script)
  {
    DataMovesExactly(s, p, script, NO_FAULTS);
  }

  // ---- versions ----

  lemma {:induction false} TxWritesKeepDb(db: Db, h: Handle, i: nat, writes: seq<Write>)
    requires DbOk(db)
    ensures DbOk(TxWrites(db, h, i, writes)) && TxWrites(db, h, i, writes).data == db.data
  {
    if writes != [] {
      var init := writes[..|writes| - 1];
      TxWritesKeepDb(db, h, i, init);
      OpKeepsDbOk(TxWrites(db, h, i, init), OpTxWrite(h, i, writes[|writes| - 1]));
    }
  }

  lemma GuestStageKeepsDb(s: Sys, p: Plan, h: Handle, guest: Guest, j: nat)
    requires DbOk(s.db)
    ensures
      var t := RunGuest(s, p, h, guest).sys;
      DbOk(t.db) && VersionGrows(StoredVersion(s.db, j), StoredVersion(t.db, j))
  {
    var run := guest(TxRows(s.db));
    var db := TxWrites(s.db, h, p.i, run.writes);
    TxWritesKeepDb(s.db, h, p.i, run.writes);
    match run.end {
      case KeepsOpen =>
      case CommitsItself =>
        OpKeepsDbOk(db, OpCommit(h, false));
      case AbortsItself =>
        OpKeepsDbOk(db, OpAbort(h, false));
    }
  }

  lemma AuditStagesKeepDb(s: Sys, p: Plan, h: Handle, result: Result<(), GuestError>, f: Faults, j: nat)
    requires DbOk(s.db)
    ensures DbOk(Announce(s, p, h, f).sys.db) && DbOk(Record(s, p, h, result, f).sys.db)
    ensures StoredVersion(Announce(s, p, h, f).sys.db, j) == StoredVersion(s.db, j)
    ensures StoredVersion(Record(s, p, h, result, f).sys.db, j) == StoredVersion(s.db, j)
  {
  }

  lemma FinishKeepsDb(s: Sys, p: Plan, h: Handle, result: Result<(), GuestError>, f: Faults, j: nat)
    requires DbOk(s.db)
    ensures
      var t := Finish(s, p, h, result, f).sys.db;
      DbOk(t) && VersionGrows(StoredVersion(s.db, j), StoredVersion(t, j))
  {
  }

  /** No stage of any migration, by any guest, takes any installation's stored version back. */
  lemma {:induction false} StagesGrowVersion(s: Sys, p: Plan, guest: Guest, f: Faults, n: nat, j: nat)
    requires DbOk(s.db) && n <= 5
    ensures
      var t := After(s, p, guest, f, n).sys;
      DbOk(t.db) && VersionGrows(StoredVersion(s.db, j), StoredVersion(t.db, j))
  {
    if n == 1 {
    } else if n > 1 {
      StagesGrowVersion(s, p, guest, f, n - 1, j);
      var before := After(s, p, guest, f, n - 1);
      if before.Running? { StageGrowsVersion(before, p, guest, f, n, j); }
    }
  }

  lemma StageGrowsVersion(t: Progress, p: Plan, guest: Guest, f: Faults, n: nat, j: nat)
    requires t.Running? && DbOk(t.sys.db)
    ensures
      var after := Stage(t, p, guest, f, n).sys;
      DbOk(after.db) && VersionGrows(StoredVersion(t.sys.db, j), StoredVersion(after.db, j))
  {
    GuestStageKeepsDb(t.sys, p, t.tx, guest, j);
    var result := if t.guest.Some? then t.guest.value else Ok(());
    AuditStagesKeepDb(t.sys, p, t.tx, result, f, j);
    FinishKeepsDb(t.sys, p, t.tx, result, f, j);
  }

  /** What an activation may do to a store: nothing, or one migration to the declared version. */
  datatype PhaseResult = PhaseResult(sys: Sys, ok: bool)

  /** The schema phase: `reads` are the two readings of the component's declaration, each the declared version
      if it has one. */
  function SchemaPhase(s: Sys, i: nat, first: Option<Version>, second: Option<Version>, readFails: bool,
                       guest: Guest, f: Faults): PhaseResult
  {
    if first != second then PhaseResult(s, false)
    else if first.None? then PhaseResult(s, true)
    else if readFails then PhaseResult(s, false)
    else
      var stored := StoredVersion(s.db, i);
      if stored.None? || stored == first then PhaseResult(s, true)
      else if first.value < stored.value then PhaseResult(s, false)
      else
        var t := Migrate(s, Plan(i, stored.value, first.value), guest, f);
        PhaseResult(t.sys, t.Done? && t.result.Ok? && !t.result.value.RolledBack?)
  }

  /** A component that passes the schema phase over a non-empty store runs against its declared version exactly
      when the store was there already or its migration wrote something.  A component that fails it has changed
      no data, unless its guest committed behind the migration's back. */
  lemma PhaseEndsAtDeclaredVersion(s: Sys, i: nat, declared: Version, readFails: bool, guest: Guest, f: Faults)
    requires DbOk(s.db) && StoredVersion(s.db, i).Some?
    ensures
      var r := SchemaPhase(s, i, Some(declared), Some(declared), readFails, guest, f);
      var before := StoredVersion(s.db, i);
      && (r.ok ==>
            && before.value <= declared
            && (StoredVersion(r.sys.db, i) == Some(declared) <==>
                  || before.value == declared
                  || Wrote(DataAt(s.db, i).rows, declared, guest(DataAt(s.db, i).rows).writes)))
      && (!r.ok ==>
            (r.sys.db.data == s.db.data <==>
               readFails || declared < before.value || !Escapes(s, Plan(i, before.value, declared), guest, f)))
      && VersionGrows(before, StoredVersion(r.sys.db, i))
  {
    var before := StoredVersion(s.db, i);
    var p := Plan(i, before.value, declared);
    if before.value < declared {
      DataMovesExactly(s, p, guest, f);
      StagesGrowVersion(s, p, guest, f, 5, i);
      MigratedOrFailed(s, p, guest, f);
    }
  }

  /** The attempt commits what the guest has written. */
  predicate AttemptCommits(s: Sys, p: Plan, guest: Guest, f: Faults) {
    var run := guest(DataAt(s.db, p.i).rows);
    GuestReached(s, p, f) && (run.end.CommitsItself? || (run.end.KeepsOpen? && run.result.Ok? && !f.ended && !f.commit))
  }

  /** What an attempt on a store at the source version comes to: success exactly in the orderly case, and data at the
      target exactly when someone committed. */
  lemma AttemptMeans(s: Sys, p: Plan, guest: Guest, f: Faults)
    requires DbOk(s.db) && StoredVersion(s.db, p.i) == Some(p.from) && p.from < p.to
    ensures
      var t := Migrate(s, p, guest, f);
      && t.Done? && DbOk(t.sys.db)
      && (t.result.Ok? ==> t.result.value.Migrated? || t.result.value.RolledBack?)
      && (t.result == Ok(Migrated) <==>
            AttemptCommits(s, p, guest, f) && !guest(DataAt(s.db, p.i).rows).end.CommitsItself?)
      && t.sys.db.data == if AttemptCommits(s, p, guest, f) then Moved(s.db, p, guest) else s.db.data
  {
    DataMovesExactly(s, p, guest, f);
    MigratedOrFailed(s, p, guest, f);
    StagesGrowVersion(s, p, guest, f, 5, p.i);
    if !Wrote(DataAt(s.db, p.i).rows, p.to, guest(DataAt(s.db, p.i).rows).writes) {
      assert Moved(s.db, p, guest) == s.db.data[p.i := s.db.data[p.i]] == s.db.data;
    }
  }

  lemma MigratedOrFailed(s: Sys, p: Plan, guest: Guest, f: Faults)
    requires StoredVersion(s.db, p.i) == Some(p.from) && p.from < p.to
    ensures
      var r := Migrate(s, p, guest, f);
      r.Done? && (r.result.Ok? ==> r.result.value.Migrated? || r.result.value.RolledBack?)
  {
    DataMovesExactly(s, p, guest, f);
    assert After(s, p, guest, f, 1) == Open(s, p, f);
    var t3 := After(s, p, guest, f, 3);
    if t3.Done? {
      EarlyEnd(s, p, guest, f);
    } else {
      GuestReachedIsExact(s, p, guest, f);
      if Contract(guest, DataAt(s.db, p.i).rows) {
        GuestHolds(s, p, guest, f);
        var t4 := After(s, p, guest, f, 4);
        assert t4 == Record(t3.sys, p, t3.tx, t3.guest.value, f);
      } else {
        GuestEndsItself(s, p, guest, f);
        NothingLeftToCommit(s, p, guest, f);
      }
    }
  }

  // ---- whole histories ----

  /** What can happen to the store over its life: a store operation of any caller, a migration attempt that ends or
      crashes after some stage, or the schema phase of an activation. */
  datatype Happening =
    | Direct(op: Op)
    | Attempting(p: Plan, guest: Guest, f: Faults, stages: nat, crashes: bool)
    | Activating(i: nat, first: Option<Version>, second: Option<Version>, readFails: bool, guest: Guest, f: Faults)

  function Happens(s: Sys, h: Happening): Sys {
    match h
    case Direct(op) => s.(db := Perform(s.db, op))
    case Attempting(p, guest, f, stages, crashes) =>
      var t := After(s, p, guest, f, if stages < 5 then stages else 5).sys;
      if crashes || stages < 5 then Restarted(t) else t
    case Activating(i, first, second, readFails, guest, f) => SchemaPhase(s, i, first, second, readFails, guest, f).sys
  }

  function History(s: Sys, happenings: seq<Happening>): Sys
    decreases |happenings|
  {
    if happenings == [] then s else History(Happens(s, happenings[0]), happenings[1..])
  }

  lemma HappeningGrowsVersion(s: Sys, h: Happening, j: nat)
    requires DbOk(s.db)
    ensures DbOk(Happens(s, h).db) && VersionGrows(StoredVersion(s.db, j), StoredVersion(Happens(s, h).db, j))
  {
    match h
    case Direct(op) =>
      OpKeepsDbOk(s.db, op);
    case Attempting(p, guest, f, stages, _) =>
      var n := if stages < 5 then stages else 5;
      StagesGrowVersion(s, p, guest, f, n, j);
      OpKeepsDbOk(After(s, p, guest, f, n).sys.db, OpCrash);
    case Activating(i, first, _, _, guest, f) =>
      if first.Some? && StoredVersion(s.db, i).Some? {
        StagesGrowVersion(s, Plan(i, StoredVersion(s.db, i).value, first.value), guest, f, 5, j);
      }
  }

  /** Across any mix of state operations, transactions, migrations by any guest, crashes and activations, no
      installation's stored schema version ever decreases or disappears, and a store without one stays empty. */
  lemma {:induction false} VersionNeverDecreasesOverHistories(s: Sys, happenings: seq<Happening>, j: nat)
    requires DbOk(s.db)
    ensures
      var t := History(s, happenings);
      && DbOk(t.db) && VersionGrows(StoredVersion(s.db, j), StoredVersion(t.db, j))
      && (StoredVersion(t.db, j).None? ==> DataAt(t.db, j).rows == map[])
    decreases |happenings|
  {
    if happenings != [] {
      HappeningGrowsVersion(s, happenings[0], j);
      VersionNeverDecreasesOverHistories(Happens(s, happenings[0]), happenings[1..], j);
    }
  }
}
