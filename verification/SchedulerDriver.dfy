/**
 The wake-up protocol between the callers of one installation's scheduler and its driver task.

 A step is one critical section, one clock reading or one `select!` outcome, so `schedule` is two steps
 (insert under the lock, then `ensure_driver`), and a firing round is two (read the clock, then fire under
 the lock).  The clock never runs backwards.  Callers, the clock and the driver interleave arbitrarily.
 */
module SchedulerDriver {
  import opened Prelude
  import opened SchedulerFire
  import opened SchedulerTable

  datatype Pc =
    | Absent
    | Scanning
    | Scanned(earliest: Option<Instant>)
    | Parked(earliest: Option<Instant>)
    | FireReady
    | Firing(at: Instant)
    | Exiting

  /** `seen` is the wake version the driver has consumed; `owed` counts the `schedule` calls that have
      inserted their task and not yet made sure that a driver runs. */
  datatype State = State(
    install: Install,
    nextId: nat,
    pc: Pc,
    seen: nat,
    now: Instant,
    owed: nat,
    token: bool,
    clockFailed: bool)

  datatype Step =
    | Insert(trigger: Trigger)
    | EnsureDriver
    | Cancel(id: nat)
    | Stop
    | CancelToken
    | Tick(to: Instant)
    | Scan(found: Option<Instant>)
    | ReadClock
    | ClockFails
    | WakeUp
    | SleepEnds
    | TokenBranch
    | ReadFireClock
    | FireClockFails
    | Fire(accept: nat -> nat -> bool)
    | Exit

  predicate DriverStep(step: Step) {
    step.Scan? || step.ReadClock? || step.ClockFails? || step.WakeUp? || step.SleepEnds? || step.TokenBranch?
    || step.ReadFireClock? || step.FireClockFails? || step.Fire? || step.Exit?
  }

  predicate Initial(s: State) {
    s.install == EMPTY_INSTALL && s.pc.Absent? && s.seen == 0 && s.owed == 0 && !s.token && !s.clockFailed
  }

  ghost predicate Enabled(s: State, step: Step) {
    match step
    case Insert(_) => !s.install.stopped
    case EnsureDriver => s.owed > 0
    case Cancel(id) => !s.install.stopped && id in Live(s.install.tasks)
    case Stop => !s.install.stopped
    case CancelToken => s.install.stopped && !s.token
    case Tick(to) => s.now <= to
    case Scan(found) => s.pc.Scanning? && IsEarliest(s.install.tasks, found)
    case ReadClock => s.pc.Scanned?
    case ClockFails => s.pc.Scanned? && s.pc.earliest.Some?
    case WakeUp => s.pc.Parked? && s.seen < s.install.wake
    case SleepEnds => s.pc.Parked? && s.pc.earliest.Some? && s.pc.earliest.value <= s.now
    case TokenBranch => s.pc.Parked? && s.token
    case ReadFireClock => s.pc.FireReady?
    case FireClockFails => s.pc.FireReady?
    case Fire(_) => s.pc.Firing?
    case Exit => s.pc.Exiting?
  }

  ghost function Apply(s: State, step: Step): State
    requires Enabled(s, step)
  {
    match step
    case Insert(trigger) =>
      s.(install := InsertTask(s.install, s.nextId, trigger), nextId := s.nextId + 1, owed := s.owed + 1)
    case EnsureDriver =>
      if s.install.driver then s.(owed := s.owed - 1)
      else s.(owed := s.owed - 1, install := s.install.(driver := true), pc := Scanning, seen := s.install.wake)
    case Cancel(id) => s.(install := CancelTask(s.install, id))
    case Stop => s.(install := s.install.(stopped := true))
    case CancelToken => s.(token := true)
    case Tick(to) => s.(now := to)
    case Scan(found) => s.(pc := Scanned(found))
    case ReadClock =>
      if s.pc.earliest.Some? && s.pc.earliest.value <= s.now then s.(pc := FireReady)
      else s.(pc := Parked(s.pc.earliest))
    case ClockFails => s.(pc := Exiting, clockFailed := true)
    case WakeUp => s.(pc := Scanning, seen := s.install.wake)
    case SleepEnds => s.(pc := FireReady)
    case TokenBranch => s.(pc := Exiting)
    case ReadFireClock => s.(pc := Firing(s.now))
    case FireClockFails => s.(pc := Scanning)
    case Fire(accept) => s.(pc := Scanning, install := FireInstall(s.install, s.pc.at, accept, s.nextId))
    case Exit => s.(pc := Absent, install := s.install.(driver := false))
  }

  ghost predicate ValidRun(s: State, run: seq<Step>)
    decreases |run|
  {
    run == [] || (Enabled(s, run[0]) && ValidRun(Apply(s, run[0]), run[1..]))
  }

  ghost function Final(s: State, run: seq<Step>): State
    requires ValidRun(s, run)
    decreases |run|
  {
    if run == [] then s else Final(Apply(s, run[0]), run[1..])
  }

  lemma {:induction false} PrefixIsRun(s: State, run: seq<Step>, k: nat)
    requires ValidRun(s, run) && k <= |run|
    ensures ValidRun(s, run[..k])
    decreases |run|
  {
    if k > 0 {
      PrefixIsRun(Apply(s, run[0]), run[1..], k - 1);
      assert run[..k][1..] == run[1..][..k - 1];
    }
  }

  lemma {:induction false} RunAppend(s: State, run: seq<Step>, step: Step)
    requires ValidRun(s, run) && Enabled(Final(s, run), step)
    ensures ValidRun(s, run + [step]) && Final(s, run + [step]) == Apply(Final(s, run), step)
    decreases |run|
  {
    if run == [] {
      assert [step][1..] == [];
      assert run + [step] == [step];
      assert ValidRun(Apply(s, step), []);
    } else {
      RunAppend(Apply(s, run[0]), run[1..], step);
      assert (run + [step])[1..] == run[1..] + [step];
    }
  }

  // ---- the invariant of every interleaving ----

  /** What the driver has scanned is current, or a wake-up it has not consumed is waiting. */
  ghost predicate ScanInv(s: State) {
    && s.seen <= s.install.wake
    && (s.pc.Scanned? || s.pc.Parked? ==> s.seen < s.install.wake || IsEarliest(s.install.tasks, s.pc.earliest))
    && (s.pc.Firing? ==> s.pc.at <= s.now)
    && IdsBelow(s.install.tasks, s.nextId)
  }

  /** The driver handle is set while the driver runs, and the driver only ends after a clock failure or a
      cancelled token. */
  predicate LifeInv(s: State) {
    && (s.install.driver <==> !s.pc.Absent?)
    && (s.token ==> s.install.stopped)
    && (s.pc.Exiting? ==> s.clockFailed || s.token)
    && (s.pc.Absent? && s.install.tasks != map[] && s.owed == 0 ==> s.clockFailed || s.token)
  }

  ghost predicate Inv(s: State) { ScanInv(s) && LifeInv(s) }

  lemma StepKeepsScanInv(s: State, step: Step)
    requires Inv(s) && Enabled(s, step)
    ensures ScanInv(Apply(s, step))
  {
    if step.Fire? {
      FireUpToKeys(s.install.tasks, s.pc.at, step.accept, s.nextId);
    }
  }

  lemma StepKeepsLifeInv(s: State, step: Step)
    requires Inv(s) && Enabled(s, step)
    ensures LifeInv(Apply(s, step))
  {
  }

  lemma {:induction false} InvOverRuns(s: State, run: seq<Step>)
    requires Inv(s) && ValidRun(s, run)
    ensures Inv(Final(s, run))
    decreases |run|
  {
    if run != [] {
      StepKeepsScanInv(s, run[0]);
      StepKeepsLifeInv(s, run[0]);
      InvOverRuns(Apply(s, run[0]), run[1..]);
    }
  }

  lemma InitialInv(s: State)
    requires Initial(s)
    ensures Inv(s)
  {
  }

  /** A parked driver either has a wake-up waiting or sleeps until exactly the earliest next fire. */
  lemma ParkedIsExact(s: State, run: seq<Step>)
    requires Initial(s) && ValidRun(s, run) && Final(s, run).pc.Parked?
    ensures Enabled(Final(s, run), WakeUp) || IsEarliest(Final(s, run).install.tasks, Final(s, run).pc.earliest)
  {
    InitialInv(s);
    InvOverRuns(s, run);
  }

  predicate Driven(s: State) { !s.pc.Absent? && !s.pc.Exiting? }

  /** The steps by which a driver decides to end. */
  predicate Quits(step: Step) { step.ClockFails? || step.TokenBranch? }

  lemma {:induction false} RunConcat(s: State, run: seq<Step>, more: seq<Step>)
    requires ValidRun(s, run + more)
    ensures ValidRun(s, run) && ValidRun(Final(s, run), more) && Final(s, run + more) == Final(Final(s, run), more)
    decreases |run|
  {
    if run == [] {
      assert run + more == more;
    } else {
      assert (run + more)[1..] == run[1..] + more;
      RunConcat(Apply(s, run[0]), run[1..], more);
    }
  }

  /** `ensure_driver` leaves a driver behind exactly when it does not meet one on its way out. */
  lemma EnsureDriverDecides(s: State)
    requires LifeInv(s) && Enabled(s, EnsureDriver)
    ensures Driven(Apply(s, EnsureDriver)) <==> !s.pc.Exiting?
  {
  }

  lemma {:induction false} DrivenUntilQuit(s: State, run: seq<Step>)
    requires ValidRun(s, run) && EnsureDriver !in run
    ensures Driven(Final(s, run)) <==> Driven(s) && forall step: Step :: step in run ==> !Quits(step)
    decreases |run|
  {
    if run != [] {
      DrivenUntilQuit(Apply(s, run[0]), run[1..]);
      assert run[0] in run && forall step: Step :: step in run <==> step == run[0] || step in run[1..];
      assert Driven(Apply(s, run[0])) <==> Driven(s) && !Quits(run[0]);
    }
  }

  lemma {:induction false} TasksOweADriver(s: State, run: seq<Step>)
    requires ValidRun(s, run) && EnsureDriver !in run
    requires s.install.tasks == map[] || s.owed > 0
    ensures Final(s, run).install.tasks == map[] || Final(s, run).owed > 0
    decreases |run|
  {
    if run != [] {
      if run[0].Fire? { FireUpToKeys(s.install.tasks, s.pc.at, run[0].accept, s.nextId); }
      TasksOweADriver(Apply(s, run[0]), run[1..]);
    }
  }

  lemma {:induction false} LastEnsure(run: seq<Step>) returns (k: nat)
    requires EnsureDriver in run
    ensures k < |run| && run[k] == EnsureDriver && EnsureDriver !in run[k + 1..]
    decreases |run|
  {
    var last := |run| - 1;
    if run[last] == EnsureDriver {
      k := last;
    } else {
      k := LastEnsure(run[..last]);
      assert run[k + 1..] == run[..last][k + 1..] + [run[last]];
    }
  }

  /** When a driver is running, in every state in which all `schedule` calls have returned: exactly when the last
      `ensure_driver` did not meet a driver on its way out, and no driver has decided to end since. */
  lemma DriverExists(s: State, run: seq<Step>) returns (k: nat)
    requires Initial(s) && ValidRun(s, run)
    requires Final(s, run).install.tasks != map[] && Final(s, run).owed == 0
    ensures k < |run| && run[k] == EnsureDriver && EnsureDriver !in run[k + 1..] && ValidRun(s, run[..k])
    ensures Driven(Final(s, run)) <==>
              !Final(s, run[..k]).pc.Exiting? && forall step: Step :: step in run[k + 1..] ==> !Quits(step)
  {
    if EnsureDriver !in run {
      TasksOweADriver(s, run);
      assert false;
    }
    k := LastEnsure(run);
    var before, more := run[..k], run[k + 1..];
    assert run == before + ([EnsureDriver] + more);
    RunConcat(s, before, [EnsureDriver] + more);
    var t := Final(s, before);
    assert ([EnsureDriver] + more)[1..] == more;
    InitialInv(s);
    InvOverRuns(s, before);
    EnsureDriverDecides(t);
    DrivenUntilQuit(Apply(t, EnsureDriver), more);
  }

  /** Without a clock failure or a stop a driver is always running once every `schedule` call has returned. */
  lemma DriverExistsUnlessClockFails(s: State, run: seq<Step>)
    requires Initial(s) && ValidRun(s, run)
    requires Final(s, run).install.tasks != map[] && Final(s, run).owed == 0
    requires !Final(s, run).clockFailed && !Final(s, run).install.stopped
    ensures Driven(Final(s, run))
  {
    InitialInv(s);
    InvOverRuns(s, run);
  }

  /** A clock failure does lose tasks: any task scheduled while the driver is on its way out is accepted,
      finds the handle still set, and is left with no driver at all. */
  lemma ScheduleDuringExitIsOrphaned(s: State, run: seq<Step>, trigger: Trigger)
    requires Initial(s) && ValidRun(s, run)
    requires Final(s, run).pc.Exiting? && !Final(s, run).install.stopped && Final(s, run).owed == 0
    ensures
      var t := Final(s, run);
      var more := run + [Insert(trigger)] + [EnsureDriver] + [Exit];
      && t.clockFailed
      && ValidRun(s, more) && Final(s, more).pc.Absent? && Final(s, more).owed == 0
      && t.nextId in Live(Final(s, more).install.tasks)
  {
    InitialInv(s);
    InvOverRuns(s, run);
    RunAppend(s, run, Insert(trigger));
    RunAppend(s, run + [Insert(trigger)], EnsureDriver);
    RunAppend(s, run + [Insert(trigger)] + [EnsureDriver], Exit);
  }

  /** Such a run exists from every fresh installation. */
  lemma TasksCanBeOrphaned(s: State, trigger: Trigger) returns (run: seq<Step>)
    requires Initial(s) && !s.install.stopped
    ensures ValidRun(s, run) && Final(s, run).pc.Exiting?
    ensures !Final(s, run).install.stopped && Final(s, run).owed == 0
  {
    RunAppend(s, [], Insert(trigger));
    run := [] + [Insert(trigger)];
    RunAppend(s, run, EnsureDriver);
    run := run + [EnsureDriver];
    var tasks := Final(s, run).install.tasks;
    assert Candidate(tasks, s.nextId);
    assert IsEarliest(tasks, Some(FirstFireAt(trigger)));
    RunAppend(s, run, Scan(Some(FirstFireAt(trigger))));
    run := run + [Scan(Some(FirstFireAt(trigger)))];
    RunAppend(s, run, ClockFails);
    run := run + [ClockFails];
  }

  // ---- no task is slept past ----

  predicate Running(s: State) {
    !s.install.stopped && Driven(s)
  }

  /** The task stands due and has not been fired yet. */
  predicate Pending(s: State, id: nat, e: Entry) {
    id in s.install.tasks && s.install.tasks[id] == e && Due(e, s.now)
  }

  /** How many driver steps can still pass before the pending task is fired. */
  function Rank(pc: Pc, next: Instant): nat {
    match pc
    case Scanned(found) => if found.Some? && found.value <= next then 3 else 6
    case Parked(_) => 5
    case Scanning => 4
    case FireReady => 2
    case Firing(at) => if next <= at then 1 else 5
    case Absent => 0
    case Exiting => 0
  }

  predicate FiresTask(s: State, step: Step, id: nat) {
    step.Fire? && s.pc.Firing? && id in s.install.tasks && Due(s.install.tasks[id], s.pc.at)
  }

  /** The caller does not cancel the task or stop the installation, and the clock answers. */
  predicate Undisturbed(step: Step, id: nat) {
    step != Stop && step != Cancel(id) && !step.ClockFails? && !step.FireClockFails?
  }

  /** Every driver step brings the due task strictly closer to its fire, and nothing any caller does
      moves it away. */
  lemma StepApproachesFire(s: State, step: Step, id: nat, e: Entry)
    requires Inv(s) && Enabled(s, step) && Running(s) && Pending(s, id, e)
    requires Undisturbed(step, id) && !FiresTask(s, step, id)
    ensures
      var t := Apply(s, step);
      && Running(t) && Pending(t, id, e)
      && Rank(t.pc, e.next.value) <= Rank(s.pc, e.next.value) - (if DriverStep(step) then 1 else 0)
  {
    if step.Fire? {
      FireUpToPointwise(s.install.tasks, s.pc.at, step.accept, s.nextId, id);
    }
  }

  lemma FiringFires(s: State, step: Step, id: nat)
    requires Inv(s) && Running(s) && FiresTask(s, step, id)
    ensures
      var e := s.install.tasks[id];
      var t := Apply(s, step);
      && id in t.install.tasks
      && t.install.tasks[id] == FireEntry(id, e, s.pc.at, step.accept(id)).entry
      && t.install.delivered
         == s.install.delivered + FireUpTo(s.install.tasks, s.pc.at, step.accept, s.nextId).payloads
  {
    FireUpToPointwise(s.install.tasks, s.pc.at, step.accept, s.nextId, id);
  }

  function DriverSteps(run: seq<Step>): nat {
    if run == [] then 0 else (if DriverStep(run[0]) then 1 else 0) + DriverSteps(run[1..])
  }

  /** A due task is fired within six driver steps, whatever is scheduled, cancelled or ticked meanwhile. */
  lemma {:induction false} DueTaskIsFired(s: State, run: seq<Step>, id: nat, e: Entry) returns (k: nat)
    requires Inv(s) && ValidRun(s, run) && Running(s) && Pending(s, id, e)
    requires forall step: Step :: step in run ==> Undisturbed(step, id)
    requires DriverSteps(run) >= Rank(s.pc, e.next.value)
    ensures Rank(s.pc, e.next.value) <= 6
    ensures k < |run| && ValidRun(s, run[..k]) && FiresTask(Final(s, run[..k]), run[k], id)
    ensures Pending(Final(s, run[..k]), id, e)
    decreases |run|
  {
    if FiresTask(s, run[0], id) {
      k := 0;
    } else {
      StepApproachesFire(s, run[0], id, e);
      StepKeepsScanInv(s, run[0]);
      StepKeepsLifeInv(s, run[0]);
      var rest := DueTaskIsFired(Apply(s, run[0]), run[1..], id, e);
      k := rest + 1;
      PrefixIsRun(s, run, k);
      assert run[..k][1..] == run[1..][..rest];
    }
  }

  lemma {:induction false} EarliestExists(tasks: Table) returns (r: Option<Instant>)
    ensures IsEarliest(tasks, r)
    decreases |tasks|
  {
    if id :| Candidate(tasks, id) {
      var rest := map j | j in tasks && j != id :: tasks[j];
      assert rest.Keys == tasks.Keys - {id};
      r := EarliestExists(rest);
      forall j | Candidate(tasks, j) && j != id ensures Candidate(rest, j) {
      }
      var other := r;
      if r.None? || tasks[id].next.value < r.value {
        r := tasks[id].next;
      } else {
        var j :| Candidate(rest, j) && rest[j].next.value == other.value;
        assert Candidate(tasks, j);
      }
    } else {
      r := None;
    }
  }

  /** While a task is due the driver is never stuck: it has a step to take, and so the fire is reached. */
  lemma DriverCanAlwaysStep(s: State, id: nat, e: Entry) returns (step: Step)
    requires Inv(s) && Running(s) && Pending(s, id, e)
    ensures DriverStep(step) && Enabled(s, step) && Undisturbed(step, id)
  {
    match s.pc
    case Scanning =>
      var found := EarliestExists(s.install.tasks);
      step := Scan(found);
    case Scanned(_) => step := ReadClock;
    case Parked(found) =>
      assert Candidate(s.install.tasks, id);
      step := if s.seen < s.install.wake then WakeUp else SleepEnds;
    case FireReady => step := ReadFireClock;
    case Firing(_) => step := Fire(i => k => true);
  }

  // ---- cancelled tasks ----

  lemma CancelledStepStays(s: State, step: Step, id: nat)
    requires Inv(s) && Enabled(s, step) && IsCancelled(s.install.tasks, id)
    ensures
      var t := Apply(s, step);
      IsCancelled(t.install.tasks, id) && t.install.tasks[id] == s.install.tasks[id]
      && DeliveredTo(t.install.delivered, id) == DeliveredTo(s.install.delivered, id)
  {
    if step.Fire? && !s.install.stopped {
      FireUpToPointwise(s.install.tasks, s.pc.at, step.accept, s.nextId, id);
      DeliveredToAppend(s.install.delivered, FireUpTo(s.install.tasks, s.pc.at, step.accept, s.nextId).payloads, id);
      assert DeliveredTo(s.install.delivered, id) + [] == DeliveredTo(s.install.delivered, id);
    }
  }

  lemma {:induction false} CancelledStays(s: State, run: seq<Step>, id: nat)
    requires Inv(s) && ValidRun(s, run) && IsCancelled(s.install.tasks, id)
    ensures
      var t := Final(s, run);
      IsCancelled(t.install.tasks, id) && t.install.tasks[id] == s.install.tasks[id]
      && DeliveredTo(t.install.delivered, id) == DeliveredTo(s.install.delivered, id)
    decreases |run|
  {
    if run != [] {
      CancelledStepStays(s, run[0], id);
      StepKeepsScanInv(s, run[0]);
      StepKeepsLifeInv(s, run[0]);
      CancelledStays(Apply(s, run[0]), run[1..], id);
    }
  }

  /** A cancel is final: whatever is scheduled, cancelled, ticked and fired after it, the task stays cancelled, delivers
      nothing more, and cannot be cancelled again.  Its own step touches no other task. */
  lemma CancelIsFinal(s: State, run: seq<Step>, id: nat)
    requires Inv(s) && Enabled(s, Cancel(id)) && ValidRun(Apply(s, Cancel(id)), run)
    ensures
      var t := Final(Apply(s, Cancel(id)), run);
      && IsCancelled(t.install.tasks, id) && !Enabled(t, Cancel(id))
      && DeliveredTo(t.install.delivered, id) == DeliveredTo(s.install.delivered, id)
      && t.install.tasks[id].sequence == s.install.tasks[id].sequence
    ensures forall j :: j in s.install.tasks && j != id ==>
              j in Apply(s, Cancel(id)).install.tasks && Apply(s, Cancel(id)).install.tasks[j] == s.install.tasks[j]
  {
    CancelEndsTask(s.install, id);
    StepKeepsScanInv(s, Cancel(id));
    StepKeepsLifeInv(s, Cancel(id));
    CancelledStays(Apply(s, Cancel(id)), run, id);
    CancelledIsNeverDue(Final(Apply(s, Cancel(id)), run).install.tasks, id, s.now);
  }

  // ---- stopping ----

  ghost predicate ClockWorks(run: seq<Step>) { forall step: Step :: step in run ==> !step.ClockFails? }

  /** The driver goes round its loop without reaching the `select!` that looks at the token. */
  predicate Spinning(s: State, id: nat, e: Entry) {
    && s.install.stopped && Pending(s, id, e)
    && (s.pc.Scanning? || s.pc.FireReady? || s.pc.Firing?
        || (s.pc.Scanned? && s.pc.earliest.Some? && s.pc.earliest.value <= s.now))
  }

  lemma {:induction false} SpinningForever(s: State, run: seq<Step>, id: nat, e: Entry)
    requires Spinning(s, id, e) && s.install.driver && ValidRun(s, run)
    requires ClockWorks(run)
    ensures Spinning(Final(s, run), id, e) && Final(s, run).install.driver
    decreases |run|
  {
    if run != [] {
      if run[0].Scan? { assert Candidate(s.install.tasks, id); }
      SpinningForever(Apply(s, run[0]), run[1..], id, e);
    }
  }

  /** The way out of a stopped driver that finds nothing due. */
  lemma QuietDriverExits(s: State) returns (run: seq<Step>)
    requires s.pc.Scanning? && s.token
    requires forall id :: id in s.install.tasks ==> !Due(s.install.tasks[id], s.now)
    ensures ValidRun(s, run) && Final(s, run).pc.Absent?
    ensures ClockWorks(run)
  {
    var found := EarliestExists(s.install.tasks);
    if found.Some? {
      var id :| Candidate(s.install.tasks, id) && s.install.tasks[id].next.value == found.value;
      assert !Due(s.install.tasks[id], s.now);
    }
    RunAppend(s, [], Scan(found));
    run := [] + [Scan(found)];
    RunAppend(s, run, ReadClock);
    run := run + [ReadClock];
    RunAppend(s, run, TokenBranch);
    run := run + [TokenBranch];
    RunAppend(s, run, Exit);
    run := run + [Exit];
  }

  ghost predicate CanExit(s: State) {
    exists run: seq<Step> :: ValidRun(s, run) && Final(s, run).pc.Absent? && ClockWorks(run)
  }

  /** After a stop, a driver back at the top of its loop can end (short of a clock failure) exactly when no
      task is due; with one due it spins for ever and never releases the delivery queue. */
  lemma StoppedDriverExits(s: State)
    requires LifeInv(s) && s.pc.Scanning? && s.token
    ensures CanExit(s) <==> forall id :: id in s.install.tasks ==> !Due(s.install.tasks[id], s.now)
  {
    if id :| id in s.install.tasks && Due(s.install.tasks[id], s.now) {
      var e := s.install.tasks[id];
      forall run: seq<Step> | ValidRun(s, run) && ClockWorks(run)
        ensures !Final(s, run).pc.Absent?
      {
        SpinningForever(s, run, id, e);
      }
    } else {
      var run := QuietDriverExits(s);
    }
  }

  /** Spinning is within reach of every fresh installation: the task falls due after the stop. */
  lemma SpinningHappens(s: State, trigger: Trigger) returns (run: seq<Step>)
    requires Initial(s)
    ensures ValidRun(s, run) && Final(s, run).token
    ensures Spinning(Final(s, run), s.nextId, NewEntry(trigger))
  {
    var at := FirstFireAt(trigger);
    RunAppend(s, [], Insert(trigger));
    run := [] + [Insert(trigger)];
    RunAppend(s, run, EnsureDriver);
    run := run + [EnsureDriver];
    RunAppend(s, run, Stop);
    run := run + [Stop];
    RunAppend(s, run, CancelToken);
    run := run + [CancelToken];
    var to := if at < s.now then s.now else at;
    RunAppend(s, run, Tick(to));
    run := run + [Tick(to)];
  }

  // ---- when a stopped driver must end ----

  /** No run from here on, the clock working, has more than `n` driver steps. */
  ghost predicate StepsBounded(s: State, n: nat) {
    forall run: seq<Step> :: ValidRun(s, run) && ClockWorks(run) ==> DriverSteps(run) <= n
  }

  predicate NothingScheduled(tasks: Table) { forall id :: id in tasks ==> !Candidate(tasks, id) }

  /** How many driver steps are left once nothing is scheduled and nothing more can be. */
  function QuietRank(s: State): nat {
    var base :=
      match s.pc
      case Scanned(found) => if found.Some? then 8 else 3
      case Parked(found) => if found.Some? then 7 else 2
      case FireReady => 6
      case Firing(_) => 5
      case Scanning => 4
      case Exiting => 1
      case Absent => 0;
    base + (if s.seen < s.install.wake then 3 else 0) + 4 * s.owed
  }

  lemma StepLowersQuietRank(s: State, step: Step)
    requires Enabled(s, step) && s.install.stopped && NothingScheduled(s.install.tasks)
    ensures
      var t := Apply(s, step);
      && t.install.stopped && t.install.tasks == s.install.tasks
      && QuietRank(t) + (if DriverStep(step) then 1 else 0) <= QuietRank(s)
  {
  }

  lemma {:induction false} QuietRunIsBounded(s: State, run: seq<Step>)
    requires ValidRun(s, run) && s.install.stopped && NothingScheduled(s.install.tasks)
    ensures DriverSteps(run) <= QuietRank(s)
    decreases |run|
  {
    if run != [] {
      StepLowersQuietRank(s, run[0]);
      QuietRunIsBounded(Apply(s, run[0]), run[1..]);
    }
  }

  /** A spinning driver always has a step to take, and spins on. */
  lemma SpinningStep(s: State, id: nat, e: Entry) returns (step: Step)
    requires Spinning(s, id, e)
    ensures DriverStep(step) && !step.ClockFails? && Enabled(s, step) && Spinning(Apply(s, step), id, e)
  {
    match s.pc
    case Scanning =>
      var found := EarliestExists(s.install.tasks);
      assert Candidate(s.install.tasks, id);
      step := Scan(found);
    case Scanned(_) => step := ReadClock;
    case FireReady => step := ReadFireClock;
    case Firing(_) => step := Fire(i => k => true);
  }

  lemma {:induction false} SpinningRuns(s: State, id: nat, e: Entry, n: nat) returns (run: seq<Step>)
    requires Spinning(s, id, e)
    ensures ValidRun(s, run) && ClockWorks(run) && DriverSteps(run) == n
    decreases n
  {
    if n == 0 {
      run := [];
    } else {
      var step := SpinningStep(s, id, e);
      var rest := SpinningRuns(Apply(s, step), id, e, n - 1);
      run := [step] + rest;
      assert run[1..] == rest;
    }
  }

  /** With the task due, a stopped driver is at most two steps from spinning. */
  lemma DueLeadsToSpinning(s: State, id: nat) returns (run: seq<Step>)
    requires ScanInv(s) && Driven(s) && s.install.stopped
    requires Candidate(s.install.tasks, id) && Due(s.install.tasks[id], s.now)
    ensures ValidRun(s, run) && ClockWorks(run) && Spinning(Final(s, run), id, s.install.tasks[id])
  {
    run := [];
    if s.pc.Scanned? && !(s.pc.earliest.Some? && s.pc.earliest.value <= s.now) {
      RunAppend(s, run, ReadClock);
      run := run + [ReadClock];
    }
    var t := Final(s, run);
    if t.pc.Parked? {
      var step := if t.seen < t.install.wake then WakeUp else SleepEnds;
      RunAppend(s, run, step);
      run := run + [step];
    }
  }

  lemma ScheduledLeadsToSpinning(s: State, id: nat) returns (run: seq<Step>)
    requires ScanInv(s) && Driven(s) && s.install.stopped && Candidate(s.install.tasks, id)
    ensures ValidRun(s, run) && ClockWorks(run) && Spinning(Final(s, run), id, s.install.tasks[id])
  {
    var at := s.install.tasks[id].next.value;
    var tick := Tick(if at < s.now then s.now else at);
    var rest := DueLeadsToSpinning(Apply(s, tick), id);
    run := [tick] + rest;
    assert run[1..] == rest;
  }

  /** The driver of a stopped installation must end, whatever the interleaving and however the clock moves,
      exactly when no task is left scheduled. */
  lemma StoppedDriverMustEnd(s: State)
    requires Inv(s) && Driven(s) && s.install.stopped
    ensures (exists n :: StepsBounded(s, n)) <==> NothingScheduled(s.install.tasks)
  {
    if NothingScheduled(s.install.tasks) {
      forall run: seq<Step> | ValidRun(s, run) && ClockWorks(run) ensures DriverSteps(run) <= QuietRank(s) {
        QuietRunIsBounded(s, run);
      }
      assert StepsBounded(s, QuietRank(s));
    } else {
      var id :| id in s.install.tasks && Candidate(s.install.tasks, id);
      forall n ensures !StepsBounded(s, n) {
        ScheduledIsUnbounded(s, id, n);
      }
    }
  }

  lemma ScheduledIsUnbounded(s: State, id: nat, n: nat)
    requires ScanInv(s) && Driven(s) && s.install.stopped && Candidate(s.install.tasks, id)
    ensures !StepsBounded(s, n)
  {
    var run := ScheduledLeadsToSpinning(s, id);
    var more := SpinningRuns(Final(s, run), id, s.install.tasks[id], n + 1);
    JoinRuns(s, run, more);
    DriverStepsAppend(run, more);
    assert ClockWorks(run + more);
  }

  lemma {:induction false} JoinRuns(s: State, run: seq<Step>, more: seq<Step>)
    requires ValidRun(s, run) && ValidRun(Final(s, run), more)
    ensures ValidRun(s, run + more)
    decreases |run|
  {
    if run == [] {
      assert run + more == more;
    } else {
      JoinRuns(Apply(s, run[0]), run[1..], more);
      assert (run + more)[1..] == run[1..] + more;
    }
  }

  lemma {:induction false} DriverStepsAppend(run: seq<Step>, more: seq<Step>)
    ensures DriverSteps(run + more) == DriverSteps(run) + DriverSteps(more)
    decreases |run|
  {
    if run == [] {
      assert run + more == more;
    } else {
      DriverStepsAppend(run[1..], more);
      assert (run + more)[1..] == run[1..] + more;
    }
  }

  /** And it is never stuck on the way: until it has ended it has a step to take, the clock working. */
  lemma StoppedDriverCanStep(s: State) returns (step: Step)
    requires s.token && !s.pc.Absent?
    ensures DriverStep(step) && !step.ClockFails? && Enabled(s, step)
  {
    match s.pc
    case Scanning =>
      var found := EarliestExists(s.install.tasks);
      step := Scan(found);
    case Scanned(_) => step := ReadClock;
    case Parked(_) => step := TokenBranch;
    case FireReady => step := ReadFireClock;
    case Firing(_) => step := Fire(i => k => true);
    case Exiting => step := Exit;
  }
}
