/**
 The scheduler service: the table of installations behind one lock, with the operations a guest and the
 host call.  Grants, the wall clock and the asynchronous runtime answer through parameters.
 */
module SchedulerService {
  import opened Prelude
  import opened SchedulerFire
  import opened SchedulerTable

  datatype Error = Denied | InvalidTrigger | NotFound | NotReady | OverBudget | Internal

  type Installs = map<nat, Install>

  function LiveAll(installs: Installs): set<(nat, nat)> {
    set i, id | i in installs && id in Live(installs[i].tasks) :: (i, id)
  }

  predicate ValidTrigger(trigger: Trigger, now: Instant, minInterval: nat) {
    && now < FirstFireAt(trigger)
    && (trigger.Periodic? ==> minInterval <= trigger.interval)
  }

  function InstallAt(installs: Installs, i: nat): Install {
    if i in installs then installs[i] else EMPTY_INSTALL
  }

  lemma {:induction false} SmallerCard<T>(a: set<T>, b: set<T>)
    requires a <= b
    ensures |a| <= |b|
  {
    if a != {} {
      var x :| x in a;
      SmallerCard(a - {x}, b - {x});
    }
  }

  lemma LiveAllMember(installs: Installs, p: (nat, nat))
    ensures p in LiveAll(installs) <==> p.0 in installs && p.1 in Live(installs[p.0].tasks)
  {
  }

  lemma LiveAfterInsert(installs: Installs, i: nat, s: Install, id: nat)
    requires id !in InstallAt(installs, i).tasks && Live(s.tasks) == Live(InstallAt(installs, i).tasks) + {id}
    ensures LiveAll(installs[i := s]) == LiveAll(installs) + {(i, id)} && (i, id) !in LiveAll(installs)
    ensures |LiveAll(installs[i := s])| == |LiveAll(installs)| + 1
  {
    var all, before := LiveAll(installs[i := s]), LiveAll(installs);
    forall p ensures p in all <==> p in before || p == (i, id) {
      LiveAllMember(installs, p);
      LiveAllMember(installs[i := s], p);
    }
    assert all == before + {(i, id)};
    LiveAllMember(installs, (i, id));
  }

  lemma LiveShrinks(installs: Installs, i: nat, s: Install)
    requires Live(s.tasks) <= Live(InstallAt(installs, i).tasks)
    ensures |LiveAll(installs[i := s])| <= |LiveAll(installs)|
    ensures |Live(s.tasks)| <= |Live(InstallAt(installs, i).tasks)|
  {
    SmallerCard(Live(s.tasks), Live(InstallAt(installs, i).tasks));
    forall p | p in LiveAll(installs[i := s]) ensures p in LiveAll(installs) {
      LiveAllMember(installs, p);
      LiveAllMember(installs[i := s], p);
    }
    SmallerCard(LiveAll(installs[i := s]), LiveAll(installs));
  }

  /** The quotas hold, task identifiers are never shared, and every task's fires are accounted for. */
  predicate ServiceInv(installs: Installs, n: nat, maxPer: nat, maxTotal: nat) {
    && |LiveAll(installs)| <= maxTotal
    && (forall i :: i in installs ==> Balanced(installs[i].tasks, installs[i].delivered, n))
    && (forall i :: i in installs ==> |Live(installs[i].tasks)| <= maxPer)
    && (forall i, j :: i in installs && j in installs && i != j ==> installs[i].tasks.Keys !! installs[j].tasks.Keys)
  }

  /** Replacing the state of one installation within the quotas, with no identifier another one uses. */
  lemma ReplaceKeepsInv(installs: Installs, n: nat, maxPer: nat, maxTotal: nat, i: nat, s: Install)
    requires ServiceInv(installs, n, maxPer, maxTotal)
    requires Balanced(s.tasks, s.delivered, n) && |Live(s.tasks)| <= maxPer
    requires |LiveAll(installs[i := s])| <= maxTotal
    requires forall j :: j in installs && j != i ==> s.tasks.Keys !! installs[j].tasks.Keys
    ensures ServiceInv(installs[i := s], n, maxPer, maxTotal)
  {
  }

  lemma LiveInsert(s: Install, n: nat, trigger: Trigger)
    requires n !in s.tasks
    ensures Live(InsertTask(s, n, trigger).tasks) == Live(s.tasks) + {n}
    ensures |Live(InsertTask(s, n, trigger).tasks)| == |Live(s.tasks)| + 1
  {
  }

  lemma FreshIdIsDisjoint(installs: Installs, n: nat, maxPer: nat, maxTotal: nat, i: nat, trigger: Trigger, j: nat)
    requires ServiceInv(installs, n, maxPer, maxTotal)
    requires j in installs && j != i
    ensures InsertTask(InstallAt(installs, i), n, trigger).tasks.Keys !! installs[j].tasks.Keys
  {
    assert InsertTask(InstallAt(installs, i), n, trigger).tasks.Keys == InstallAt(installs, i).tasks.Keys + {n};
  }

  lemma InsertedIsBalanced(installs: Installs, n: nat, maxPer: nat, maxTotal: nat, i: nat, trigger: Trigger)
    requires ServiceInv(installs, n, maxPer, maxTotal)
    ensures
      var t := InsertTask(InstallAt(installs, i), n, trigger);
      && Balanced(t.tasks, t.delivered, n + 1)
      && Live(t.tasks) == Live(InstallAt(installs, i).tasks) + {n}
      && |Live(t.tasks)| == |Live(InstallAt(installs, i).tasks)| + 1
  {
    var s := InstallAt(installs, i);
    InsertKeepsBalance(s, n, trigger);
    LiveInsert(s, n, trigger);
  }

  /** Registering the fresh identifier `n` in an installation that has room. */
  lemma InsertKeepsInv(installs: Installs, n: nat, maxPer: nat, maxTotal: nat, i: nat, trigger: Trigger, driver: bool)
    requires ServiceInv(installs, n, maxPer, maxTotal)
    requires |LiveAll(installs)| < maxTotal && |Live(InstallAt(installs, i).tasks)| < maxPer
    ensures
      ServiceInv(installs[i := InsertTask(InstallAt(installs, i), n, trigger).(driver := driver)], n + 1, maxPer, maxTotal)
  {
    var t := InsertTask(InstallAt(installs, i), n, trigger).(driver := driver);
    InsertedIsBalanced(installs, n, maxPer, maxTotal, i, trigger);
    LiveAfterInsert(installs, i, t, n);
    forall j | j in installs && j != i ensures t.tasks.Keys !! installs[j].tasks.Keys {
      FreshIdIsDisjoint(installs, n, maxPer, maxTotal, i, trigger, j);
    }
    ReplaceKeepsInv(installs, n + 1, maxPer, maxTotal, i, t);
  }

  /** Replacing the state of one installation by one with no new tasks. */
  lemma UpdateKeepsInv(installs: Installs, n: nat, maxPer: nat, maxTotal: nat, i: nat, s: Install)
    requires ServiceInv(installs, n, maxPer, maxTotal)
    requires Balanced(s.tasks, s.delivered, n)
    requires s.tasks.Keys == InstallAt(installs, i).tasks.Keys
    requires Live(s.tasks) <= Live(InstallAt(installs, i).tasks)
    ensures ServiceInv(installs[i := s], n, maxPer, maxTotal)
  {
    LiveShrinks(installs, i, s);
    ReplaceKeepsInv(installs, n, maxPer, maxTotal, i, s);
  }

  datatype Registered = Registered(installs: Installs, result: Result<nat, Error>)

  /** Registration succeeds exactly within both quotas and before a stop; then the fresh task is the only
      change.  A refusal changes no task: at most it leaves an empty entry for an unknown installation. */
  function RegisterTask(installs: Installs, n: nat, maxPer: nat, maxTotal: nat, i: nat, trigger: Trigger): Registered {
    var s := InstallAt(installs, i);
    if |LiveAll(installs)| >= maxTotal then Registered(installs, Err(OverBudget))
    else if s.stopped then Registered(installs[i := s], Err(NotReady))
    else if |Live(s.tasks)| >= maxPer then Registered(installs[i := s], Err(OverBudget))
    else Registered(installs[i := InsertTask(s, n, trigger).(driver := true)], Ok(n))
  }

  lemma RegisterKeepsInv(installs: Installs, n: nat, maxPer: nat, maxTotal: nat, i: nat, trigger: Trigger)
    requires ServiceInv(installs, n, maxPer, maxTotal)
    ensures ServiceInv(RegisterTask(installs, n, maxPer, maxTotal, i, trigger).installs, n + 1, maxPer, maxTotal)
  {
    if |LiveAll(installs)| < maxTotal {
      var s := InstallAt(installs, i);
      if s.stopped || |Live(s.tasks)| >= maxPer {
        UpdateKeepsInv(installs, n + 1, maxPer, maxTotal, i, s);
      } else {
        InsertKeepsInv(installs, n, maxPer, maxTotal, i, trigger, true);
      }
    }
  }

  /** `t` is `s` with the live task `n` added and its driver running. */
  predicate GainsTask(s: Install, t: Install, n: nat, trigger: Trigger) {
    && n !in s.tasks && n in t.tasks && t.driver && s.wake < t.wake
    && t.tasks[n] == Entry(trigger, Scheduled, 1, 0, Some(if trigger.OneShot? then trigger.at else trigger.nextFireAt))
    && forall id :: id in s.tasks ==> id in t.tasks && t.tasks[id] == s.tasks[id]
  }

  ghost predicate UnusedId(installs: Installs, n: nat) {
    forall j :: n !in InstallAt(installs, j).tasks
  }

  ghost predicate OthersKept(installs: Installs, after: Installs, i: nat) {
    forall j :: j != i ==> InstallAt(after, j) == InstallAt(installs, j)
  }

  lemma UpdateKeepsOthers(installs: Installs, i: nat, s: Install)
    ensures OthersKept(installs, installs[i := s], i) && InstallAt(installs[i := s], i) == s
  {
  }

  lemma InsertGainsTask(s: Install, n: nat, trigger: Trigger)
    requires n !in s.tasks
    ensures GainsTask(s, InsertTask(s, n, trigger).(driver := true), n, trigger)
  {
  }

  lemma RegistrationIsFresh(installs: Installs, n: nat, maxPer: nat, maxTotal: nat, i: nat, trigger: Trigger)
    requires ServiceInv(installs, n, maxPer, maxTotal)
    ensures
      var t := InsertTask(InstallAt(installs, i), n, trigger).(driver := true);
      && LiveAll(installs[i := t]) == LiveAll(installs) + {(i, n)}
      && |LiveAll(installs[i := t])| == |LiveAll(installs)| + 1
      && UnusedId(installs, n)
  {
    LiveInsert(InstallAt(installs, i), n, trigger);
    LiveAfterInsert(installs, i, InsertTask(InstallAt(installs, i), n, trigger).(driver := true), n);
  }

  /** Registration succeeds exactly within both quotas and before a stop; the total quota is looked at first, then the
      stop, then the installation's own quota. */
  lemma RegistersExactly(installs: Installs, n: nat, maxPer: nat, maxTotal: nat, i: nat, trigger: Trigger)
    ensures
      var r := RegisterTask(installs, n, maxPer, maxTotal, i, trigger).result;
      var s := InstallAt(installs, i);
      && (r == Ok(n) <==> |LiveAll(installs)| < maxTotal && !s.stopped && |Live(s.tasks)| < maxPer)
      && (r == Err(NotReady) <==> |LiveAll(installs)| < maxTotal && s.stopped)
      && (r == Err(OverBudget) <==>
            |LiveAll(installs)| >= maxTotal || (!s.stopped && |Live(s.tasks)| >= maxPer))
  {
  }

  /** What registration means to every installation: a success adds exactly one live task, under an identifier
      nobody has used, and leaves all tasks there were; a refusal leaves every installation as it was. */
  lemma RegistrationAddsOneTask(installs: Installs, n: nat, maxPer: nat, maxTotal: nat, i: nat, trigger: Trigger)
    requires ServiceInv(installs, n, maxPer, maxTotal)
    ensures
      var r := RegisterTask(installs, n, maxPer, maxTotal, i, trigger);
      && OthersKept(installs, r.installs, i)
      && (r.result.Err? ==> InstallAt(r.installs, i) == InstallAt(installs, i))
      && (r.result.Ok? ==>
            && LiveAll(r.installs) == LiveAll(installs) + {(i, n)}
            && |LiveAll(r.installs)| == |LiveAll(installs)| + 1
            && UnusedId(installs, n)
            && GainsTask(InstallAt(installs, i), InstallAt(r.installs, i), n, trigger))
  {
    var s := InstallAt(installs, i);
    UpdateKeepsOthers(installs, i, s);
    if RegisterTask(installs, n, maxPer, maxTotal, i, trigger).result.Ok? {
      RegistrationIsFresh(installs, n, maxPer, maxTotal, i, trigger);
      UpdateKeepsOthers(installs, i, InsertTask(s, n, trigger).(driver := true));
      InsertGainsTask(s, n, trigger);
    }
  }

  /** Every task of every installation keeps to its grid. */
  predicate AllOnGrid(installs: Installs) { forall i :: i in installs ==> OnGrid(installs[i]) }

  lemma UpdateKeepsGrid(installs: Installs, i: nat, s: Install)
    requires AllOnGrid(installs) && OnGrid(s)
    ensures AllOnGrid(installs[i := s])
  {
  }

  /** A registration keeps every task on its grid; it is all `Schedule` and `Register` do. */
  lemma RegisterKeepsGrid(installs: Installs, n: nat, maxPer: nat, maxTotal: nat, i: nat, trigger: Trigger)
    requires ServiceInv(installs, n, maxPer, maxTotal) && AllOnGrid(installs)
    ensures AllOnGrid(RegisterTask(installs, n, maxPer, maxTotal, i, trigger).installs)
  {
    var s := InstallAt(installs, i);
    assert OnGrid(s);
    InsertKeepsGrid(s, n, trigger);
    UpdateKeepsGrid(installs, i, s);
    UpdateKeepsGrid(installs, i, InsertTask(s, n, trigger).(driver := true));
  }

  lemma CancelKeepsInv(installs: Installs, n: nat, maxPer: nat, maxTotal: nat, i: nat, id: nat)
    requires ServiceInv(installs, n, maxPer, maxTotal) && i in installs && id in installs[i].tasks
    ensures ServiceInv(installs[i := CancelTask(installs[i], id)], n, maxPer, maxTotal)
    ensures AllOnGrid(installs) ==> AllOnGrid(installs[i := CancelTask(installs[i], id)])
  {
    UpdateKeepsInv(installs, n, maxPer, maxTotal, i, CancelTask(installs[i], id));
    if AllOnGrid(installs) { CancelKeepsGrid(installs[i], id); }
  }

  class SchedulerService {
    var installs: Installs
    var nextTaskId: nat
    const maxPerInstallation: nat
    const maxTotal: nat
    const minInterval: nat

    ghost predicate Valid()
      reads this
    {
      ServiceInv(installs, nextTaskId, maxPerInstallation, maxTotal)
    }

    constructor (maxPerInstallation: nat, maxTotal: nat, minInterval: nat)
      ensures Valid() && installs == map[] && nextTaskId == 1 && AllOnGrid(installs)
      ensures this.maxPerInstallation == maxPerInstallation && this.maxTotal == maxTotal
      ensures this.minInterval == minInterval
    {
      this.maxPerInstallation, this.maxTotal, this.minInterval := maxPerInstallation, maxTotal, minInterval;
      installs, nextTaskId := map[], 1;
      new;
      assert LiveAll(installs) == {};
    }

    method Schedule(runtime: bool, granted: Option<bool>, clock: Option<Instant>, i: nat, trigger: Trigger)
        returns (r: Result<nat, Error>)
      requires Valid()
      modifies this
      ensures Valid()
      ensures !runtime ==> r == Err(NotReady)
      ensures runtime && granted == Some(false) ==> r == Err(Denied)
      ensures runtime && (granted.None? || (granted.value && clock.None?)) ==> r == Err(Internal)
      ensures runtime && granted == Some(true) && clock.Some? && !ValidTrigger(trigger, clock.value, minInterval) ==>
                r == Err(InvalidTrigger)
      ensures runtime && granted == Some(true) && clock.Some? && ValidTrigger(trigger, clock.value, minInterval) ==>
                Registered(installs, r)
                  == RegisterTask(old(installs), old(nextTaskId), maxPerInstallation, maxTotal, i, trigger)
      ensures runtime && granted == Some(true) && clock.Some? ==>
        (r == Err(InvalidTrigger) <==>
          match trigger
          case OneShot(at) => at <= clock.value
          case Periodic(first, interval) => first <= clock.value || interval < minInterval)
      ensures r.Err? && !Admitted(runtime, granted, clock, trigger, minInterval) ==>
                installs == old(installs) && nextTaskId == old(nextTaskId)
    {
      if !runtime { return Err(NotReady); }
      if granted.None? { return Err(Internal); }
      if !granted.value { return Err(Denied); }
      if clock.None? { return Err(Internal); }
      if !ValidTrigger(trigger, clock.value, minInterval) { return Err(InvalidTrigger); }
      r := Register(i, trigger);
    }

    /** The locked part of `Schedule`, with the driver spawned right behind it. */
    method Register(i: nat, trigger: Trigger) returns (r: Result<nat, Error>)
      requires Valid()
      modifies this
      ensures Valid() && nextTaskId == old(nextTaskId) + 1
      ensures Registered(installs, r)
           == RegisterTask(old(installs), old(nextTaskId), maxPerInstallation, maxTotal, i, trigger)
      ensures r == Ok(old(nextTaskId)) <==>
        && |LiveAll(old(installs))| < maxTotal && !InstallAt(old(installs), i).stopped
        && |Live(InstallAt(old(installs), i).tasks)| < maxPerInstallation
      ensures r == Err(NotReady) <==> |LiveAll(old(installs))| < maxTotal && InstallAt(old(installs), i).stopped
      ensures r.Ok? || r == Err(NotReady) || r == Err(OverBudget)
    {
      RegisterKeepsInv(installs, nextTaskId, maxPerInstallation, maxTotal, i, trigger);
      var id := nextTaskId;
      nextTaskId := nextTaskId + 1;
      if |LiveAll(installs)| >= maxTotal { return Err(OverBudget); }
      var s := InstallAt(installs, i);
      if s.stopped {
        installs := installs[i := s];
        return Err(NotReady);
      }
      if |Live(s.tasks)| >= maxPerInstallation {
        installs := installs[i := s];
        return Err(OverBudget);
      }
      installs := installs[i := InsertTask(s, id, trigger).(driver := true)];
      r := Ok(id);
    }

    method Cancel(i: nat, id: nat) returns (r: Result<(), Error>)
      requires Valid()
      modifies this
      ensures Valid() && nextTaskId == old(nextTaskId) && (old(AllOnGrid(installs)) ==> AllOnGrid(installs))
      ensures r.Ok? <==> i in old(installs) && !old(installs)[i].stopped && id in Live(old(installs)[i].tasks)
      ensures r.Ok? ==>
        && i in installs && IsCancelled(installs[i].tasks, id) && id !in Live(installs[i].tasks)
        && installs[i].tasks.Keys == old(installs)[i].tasks.Keys
        && (forall j :: j in installs[i].tasks && j != id ==> installs[i].tasks[j] == old(installs)[i].tasks[j])
        && installs[i].delivered == old(installs)[i].delivered && old(installs)[i].wake < installs[i].wake
      ensures r.Ok? ==> installs == old(installs)[i := CancelTask(old(installs)[i], id)]
      ensures r.Err? ==> installs == old(installs)
      ensures r.Err? ==> r.error == if i in old(installs) && old(installs)[i].stopped then NotReady else NotFound
    {
      if i !in installs { return Err(NotFound); }
      var s := installs[i];
      if s.stopped { return Err(NotReady); }
      if id !in s.tasks || !s.tasks[id].state.Scheduled? { return Err(NotFound); }
      CancelKeepsInv(installs, nextTaskId, maxPerInstallation, maxTotal, i, id);
      CancelEndsTask(s, id);
      installs := installs[i := CancelTask(s, id)];
      r := Ok(());
    }

    /** Returns whether this call is the one that stops the installation, and so cancels its token. */
    method Stop(i: nat) returns (first: bool)
      requires Valid()
      modifies this
      ensures Valid() && nextTaskId == old(nextTaskId) && (old(AllOnGrid(installs)) ==> AllOnGrid(installs))
      ensures first <==> !InstallAt(old(installs), i).stopped
      ensures installs == old(installs)[i := InstallAt(old(installs), i).(stopped := true)]
    {
      var s := InstallAt(installs, i);
      first := !s.stopped;
      UpdateKeepsInv(installs, nextTaskId, maxPerInstallation, maxTotal, i, s.(stopped := true));
      installs := installs[i := s.(stopped := true)];
    }

    /** One firing round of an installation: tasks in identifier order, every due grid point delivered or
        counted as missed. */
    method FireDue(i: nat, clock: Option<Instant>, accept: nat -> nat -> bool)
      requires Valid()
      modifies this
      ensures Valid() && nextTaskId == old(nextTaskId)
      ensures installs ==
        if clock.Some? && i in old(installs) && !old(installs)[i].stopped
        then old(installs)[i := FireInstall(old(installs)[i], clock.value, accept, nextTaskId)]
        else old(installs)
      ensures old(AllOnGrid(installs)) && (clock.Some? && i in old(installs) ==> InReach(old(installs)[i].tasks, clock.value)) ==>
                AllOnGrid(installs)
    {
      if clock.None? || i !in installs { return; }
      var now, s := clock.value, installs[i];
      if s.stopped {
        assert installs == installs[i := s];
        return;
      }
      FireKeepsBalance(s, now, accept, nextTaskId);
      if OnGrid(s) && InReach(s.tasks, now) { FireKeepsGrid(s, now, accept, nextTaskId); }
      UpdateKeepsInv(installs, nextTaskId, maxPerInstallation, maxTotal, i, FireInstall(s, now, accept, nextTaskId));
      var tasks, payloads := FireTable(s.tasks, now, accept, nextTaskId);
      installs := installs[i := s.(tasks := tasks, delivered := s.delivered + payloads)];
    }
  }

  predicate Admitted(runtime: bool, granted: Option<bool>, clock: Option<Instant>, trigger: Trigger, minInterval: nat) {
    runtime && granted == Some(true) && clock.Some? && ValidTrigger(trigger, clock.value, minInterval)
  }

  method FireTable(table: Table, now: Instant, accept: nat -> nat -> bool, n: nat)
      returns (tasks: Table, payloads: seq<Payload>)
    ensures FiredTable(tasks, payloads) == FireUpTo(table, now, accept, n)
  {
    tasks, payloads := table, [];
    for id := 0 to n
      invariant FiredTable(tasks, payloads) == FireUpTo(table, now, accept, id)
      invariant forall j :: id <= j ==> (j in tasks <==> j in table) && (j in table ==> tasks[j] == table[j])
    {
      if id in tasks && Due(tasks[id], now) {
        var e := tasks[id];
        var fired: Fired;
        match e.trigger {
          case OneShot(_) => fired := FireOneShot(id, e, now, accept(id));
          case Periodic(_, _) => fired := FirePeriodic(id, e, now, accept(id));
        }
        tasks := tasks[id := fired.entry];
        payloads := payloads + fired.payloads;
      }
    }
  }
}
