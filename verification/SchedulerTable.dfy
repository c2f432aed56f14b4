/**
 The task table of one installation: inserting, cancelling, firing everything that is due, and finding
 the earliest next fire.
 */
module SchedulerTable {
  import opened Prelude
  import opened SchedulerFire
  import opened SchedulerLedger

  type Table = map<nat, Entry>

  /** `delivered` is everything the delivery queue has accepted, in order; `wake` is the version of the wake
      channel. */
  datatype Install = Install(tasks: Table, stopped: bool, wake: nat, driver: bool, delivered: seq<Payload>)

  const EMPTY_INSTALL := Install(map[], false, 0, false, [])

  function Live(tasks: Table): set<nat> {
    set id | id in tasks && tasks[id].state.Scheduled?
  }

  function InsertTask(s: Install, id: nat, trigger: Trigger): Install {
    s.(tasks := s.tasks[id := NewEntry(trigger)], wake := s.wake + 1)
  }

  function CancelTask(s: Install, id: nat): Install
    requires id in s.tasks
  {
    s.(tasks := s.tasks[id := s.tasks[id].(state := Cancelled, next := None)], wake := s.wake + 1)
  }

  /** Cancelled for good: no next fire, so never due again, and not live. */
  predicate IsCancelled(tasks: Table, id: nat) {
    id in tasks && tasks[id].state == Cancelled && tasks[id].next == None
  }

  lemma CancelledIsNeverDue(tasks: Table, id: nat, now: Instant)
    requires IsCancelled(tasks, id)
    ensures id !in Live(tasks) && !Due(tasks[id], now)
  {
  }

  /** What cancelling a task means to its installation: the task is cancelled with its counters kept, every other task is
      as it was, nothing is delivered, and the driver is woken. */
  lemma CancelEndsTask(s: Install, id: nat)
    requires id in s.tasks
    ensures
      var t := CancelTask(s, id);
      && IsCancelled(t.tasks, id) && id !in Live(t.tasks)
      && t.tasks[id].sequence == s.tasks[id].sequence && t.tasks[id].missed == s.tasks[id].missed
      && t.tasks[id].trigger == s.tasks[id].trigger
      && t.tasks.Keys == s.tasks.Keys && (forall j :: j in s.tasks && j != id ==> t.tasks[j] == s.tasks[j])
      && t.delivered == s.delivered && t.stopped == s.stopped && t.driver == s.driver && s.wake < t.wake
  {
  }

  datatype FiredTable = FiredTable(tasks: Table, payloads: seq<Payload>)

  /** Fires the due tasks with an identifier below `n`, in identifier order. */
  function FireUpTo(tasks: Table, now: Instant, accept: nat -> nat -> bool, n: nat): FiredTable {
    if n == 0 then FiredTable(tasks, [])
    else
      var before := FireUpTo(tasks, now, accept, n - 1);
      if n - 1 in tasks && Due(tasks[n - 1], now) then
        var fired := FireEntry(n - 1, tasks[n - 1], now, accept(n - 1));
        FiredTable(before.tasks[n - 1 := fired.entry], before.payloads + fired.payloads)
      else before
  }

  predicate IdsBelow(tasks: Table, n: nat) { forall id :: id in tasks ==> id < n }

  /** The round touches each due task exactly once and nothing else. */
  lemma {:induction false} FireUpToPointwise(tasks: Table, now: Instant, accept: nat -> nat -> bool, n: nat, id: nat)
    requires id in tasks
    ensures FireUpTo(tasks, now, accept, n).tasks.Keys == tasks.Keys
    ensures
      FireUpTo(tasks, now, accept, n).tasks[id] ==
      if id < n && Due(tasks[id], now) then FireEntry(id, tasks[id], now, accept(id)).entry else tasks[id]
    ensures
      DeliveredTo(FireUpTo(tasks, now, accept, n).payloads, id) ==
      if id < n && Due(tasks[id], now) then FireEntry(id, tasks[id], now, accept(id)).payloads else []
  {
    if n > 0 {
      FireUpToPointwise(tasks, now, accept, n - 1, id);
      if n - 1 in tasks && Due(tasks[n - 1], now) {
        var fired := FireEntry(n - 1, tasks[n - 1], now, accept(n - 1));
        DeliveredToAppend(FireUpTo(tasks, now, accept, n - 1).payloads, fired.payloads, id);
        FiredPayloadsAreOwn(n - 1, tasks[n - 1], now, accept(n - 1));
        DeliveredToOne(fired.payloads, n - 1, id);
      }
    }
  }

  lemma FireUpToKeys(tasks: Table, now: Instant, accept: nat -> nat -> bool, n: nat)
    ensures FireUpTo(tasks, now, accept, n).tasks.Keys == tasks.Keys
  {
  }

  predicate InTaskOrder(payloads: seq<Payload>) {
    forall i, j :: 0 <= i < j < |payloads| ==> payloads[i].task <= payloads[j].task
  }

  /** The round delivers in identifier order. */
  lemma {:induction false} RoundInOrder(tasks: Table, now: Instant, accept: nat -> nat -> bool, n: nat)
    ensures InTaskOrder(FireUpTo(tasks, now, accept, n).payloads)
  {
    if n > 0 {
      RoundInOrder(tasks, now, accept, n - 1);
      FiredPayloadsBelow(tasks, now, accept, n - 1);
      if n - 1 in tasks && Due(tasks[n - 1], now) {
        FiredPayloadsAreOwn(n - 1, tasks[n - 1], now, accept(n - 1));
        AppendInOrder(FireUpTo(tasks, now, accept, n - 1).payloads,
                      FireEntry(n - 1, tasks[n - 1], now, accept(n - 1)).payloads, n - 1);
      }
    }
  }

  lemma AppendInOrder(a: seq<Payload>, b: seq<Payload>, id: nat)
    requires InTaskOrder(a)
    requires forall i :: 0 <= i < |a| ==> a[i].task < id
    requires forall i :: 0 <= i < |b| ==> b[i].task == id
    ensures InTaskOrder(a + b)
  {
  }

  // ---- the deliveries of one task ----

  function DeliveredTo(log: seq<Payload>, id: nat): seq<Payload> {
    if log == [] then []
    else
      var before := DeliveredTo(log[..|log| - 1], id);
      if log[|log| - 1].task == id then before + [log[|log| - 1]] else before
  }

  lemma {:induction false} DeliveredToAppend(log: seq<Payload>, more: seq<Payload>, id: nat)
    ensures DeliveredTo(log + more, id) == DeliveredTo(log, id) + DeliveredTo(more, id)
  {
    if more == [] {
      assert log + more == log;
    } else {
      var init := more[..|more| - 1];
      DeliveredToAppend(log, init, id);
      assert (log + more)[..|log + more| - 1] == log + init;
    }
  }

  lemma {:induction false} DeliveredToOne(log: seq<Payload>, owner: nat, id: nat)
    requires forall i :: 0 <= i < |log| ==> log[i].task == owner
    ensures DeliveredTo(log, id) == if id == owner then log else []
  {
    if log != [] {
      DeliveredToOne(log[..|log| - 1], owner, id);
      assert log == log[..|log| - 1] + [log[|log| - 1]];
    }
  }

  lemma FiredPayloadsAreOwn(id: nat, e: Entry, now: Instant, accept: nat -> bool)
    requires Due(e, now)
    ensures forall i :: 0 <= i < |FireEntry(id, e, now, accept).payloads| ==>
              FireEntry(id, e, now, accept).payloads[i].task == id
  {
  }

  // ---- the ledger of the table ----

  /** While its 64-bit sequence number has not saturated, a task's deliveries and its counters balance. */
  predicate TaskBalanced(e: Entry, delivered: seq<Payload>, id: nat) {
    e.sequence < U64_MAX ==> CountLedger(e, DeliveredTo(delivered, id))
  }

  predicate Balanced(tasks: Table, delivered: seq<Payload>, n: nat) {
    && IdsBelow(tasks, n)
    && (forall i :: 0 <= i < |delivered| ==> delivered[i].task < n)
    && (forall id :: id in tasks ==> TaskBalanced(tasks[id], delivered, id))
  }

  lemma {:induction false} NothingDeliveredTo(log: seq<Payload>, n: nat, id: nat)
    requires forall i :: 0 <= i < |log| ==> log[i].task < n
    requires n <= id
    ensures DeliveredTo(log, id) == []
  {
    if log != [] {
      NothingDeliveredTo(log[..|log| - 1], n, id);
      assert log[|log| - 1].task < n;
    }
  }

  lemma InsertKeepsBalance(s: Install, id: nat, trigger: Trigger)
    requires Balanced(s.tasks, s.delivered, id)
    ensures Balanced(InsertTask(s, id, trigger).tasks, s.delivered, id + 1)
  {
    NothingDeliveredTo(s.delivered, id, id);
  }

  function FireInstall(s: Install, now: Instant, accept: nat -> nat -> bool, n: nat): Install {
    if s.stopped then s
    else
      var fired := FireUpTo(s.tasks, now, accept, n);
      s.(tasks := fired.tasks, delivered := s.delivered + fired.payloads)
  }

  lemma FireKeepsTaskBalanced(s: Install, now: Instant, accept: nat -> nat -> bool, n: nat, id: nat)
    requires id in s.tasks && TaskBalanced(s.tasks[id], s.delivered, id)
    ensures
      var t := FireInstall(s, now, accept, n);
      id in t.tasks && TaskBalanced(t.tasks[id], t.delivered, id)
  {
    if !s.stopped {
      var fired := FireUpTo(s.tasks, now, accept, n);
      FireUpToPointwise(s.tasks, now, accept, n, id);
      DeliveredToAppend(s.delivered, fired.payloads, id);
      if id < n && Due(s.tasks[id], now) {
        if fired.tasks[id].sequence < U64_MAX {
          FireKeepsCountLedger(id, s.tasks[id], now, accept(id), DeliveredTo(s.delivered, id));
        }
      } else {
        assert DeliveredTo(s.delivered, id) + [] == DeliveredTo(s.delivered, id);
      }
    }
  }

  lemma {:induction false} FiredPayloadsBelow(tasks: Table, now: Instant, accept: nat -> nat -> bool, n: nat)
    ensures forall i :: 0 <= i < |FireUpTo(tasks, now, accept, n).payloads| ==>
              FireUpTo(tasks, now, accept, n).payloads[i].task < n
  {
    if n > 0 {
      FiredPayloadsBelow(tasks, now, accept, n - 1);
      if n - 1 in tasks && Due(tasks[n - 1], now) {
        FiredPayloadsAreOwn(n - 1, tasks[n - 1], now, accept(n - 1));
      }
    }
  }

  lemma FireKeepsBalance(s: Install, now: Instant, accept: nat -> nat -> bool, n: nat)
    requires Balanced(s.tasks, s.delivered, n)
    ensures
      var t := FireInstall(s, now, accept, n);
      Balanced(t.tasks, t.delivered, n) && Live(t.tasks) <= Live(s.tasks) && t.tasks.Keys == s.tasks.Keys
  {
    var t := FireInstall(s, now, accept, n);
    FiredPayloadsBelow(s.tasks, now, accept, n);
    FireUpToKeys(s.tasks, now, accept, n);
    forall id | id in t.tasks ensures TaskBalanced(t.tasks[id], t.delivered, id) {
      assert TaskBalanced(s.tasks[id], s.delivered, id);
      FireKeepsTaskBalanced(s, now, accept, n, id);
    }
    forall id | id in Live(t.tasks) ensures id in Live(s.tasks) {
      FireUpToPointwise(s.tasks, now, accept, n, id);
    }
  }

  // ---- the grid of the table ----

  /** While its sequence number has not saturated, a task's deliveries and its next fire are on its grid. */
  predicate TaskOnGrid(e: Entry, delivered: seq<Payload>, id: nat) {
    e.sequence < U64_MAX ==> GridLedger(e, DeliveredTo(delivered, id))
  }

  predicate OnGrid(s: Install) { forall id :: id in s.tasks ==> TaskOnGrid(s.tasks[id], s.delivered, id) }

  /** No task has fallen more grid points behind than fit the 32-bit factor. */
  predicate InReach(tasks: Table, now: Instant) {
    forall id :: id in tasks && Due(tasks[id], now) ==> DueCount(tasks[id], now) <= U32_MAX
  }

  lemma InsertKeepsGrid(s: Install, id: nat, trigger: Trigger)
    requires OnGrid(s) && forall i :: 0 <= i < |s.delivered| ==> s.delivered[i].task < id
    ensures OnGrid(InsertTask(s, id, trigger))
  {
    NothingDeliveredTo(s.delivered, id, id);
  }

  lemma CancelKeepsGrid(s: Install, id: nat)
    requires OnGrid(s) && id in s.tasks
    ensures OnGrid(CancelTask(s, id))
  {
    assert TaskOnGrid(s.tasks[id], s.delivered, id);
  }

  lemma FireKeepsTaskOnGrid(s: Install, now: Instant, accept: nat -> nat -> bool, n: nat, id: nat)
    requires id in s.tasks && TaskOnGrid(s.tasks[id], s.delivered, id) && InReach(s.tasks, now)
    ensures
      var t := FireInstall(s, now, accept, n);
      id in t.tasks && TaskOnGrid(t.tasks[id], t.delivered, id)
  {
    if !s.stopped {
      var fired := FireUpTo(s.tasks, now, accept, n);
      FireUpToPointwise(s.tasks, now, accept, n, id);
      DeliveredToAppend(s.delivered, fired.payloads, id);
      if id < n && Due(s.tasks[id], now) {
        if fired.tasks[id].sequence < U64_MAX {
          FireKeepsGridLedger(id, s.tasks[id], now, accept(id), DeliveredTo(s.delivered, id));
        }
      } else {
        assert DeliveredTo(s.delivered, id) + [] == DeliveredTo(s.delivered, id);
      }
    }
  }

  /** A round over the whole table keeps every task on its own grid. */
  lemma FireKeepsGrid(s: Install, now: Instant, accept: nat -> nat -> bool, n: nat)
    requires OnGrid(s) && InReach(s.tasks, now)
    ensures OnGrid(FireInstall(s, now, accept, n))
  {
    var t := FireInstall(s, now, accept, n);
    FireUpToKeys(s.tasks, now, accept, n);
    forall id | id in t.tasks ensures TaskOnGrid(t.tasks[id], t.delivered, id) {
      assert TaskOnGrid(s.tasks[id], s.delivered, id);
      FireKeepsTaskOnGrid(s, now, accept, n, id);
    }
  }

  // ---- earliest next fire ----

  predicate Candidate(tasks: Table, id: nat) {
    id in tasks && tasks[id].state.Scheduled? && tasks[id].next.Some?
  }

  /** `r` is the least next fire among the scheduled tasks, or nothing when there is none. */
  ghost predicate IsEarliest(tasks: Table, r: Option<Instant>) {
    match r
    case None => forall id :: id in tasks ==> !Candidate(tasks, id)
    case Some(t) =>
      && (exists id :: Candidate(tasks, id) && tasks[id].next.value == t)
      && (forall id :: Candidate(tasks, id) ==> t <= tasks[id].next.value)
  }

  method EarliestNextFire(tasks: Table) returns (r: Option<Instant>)
    ensures IsEarliest(tasks, r)
  {
    r := None;
    var rest := tasks.Keys;
    while rest != {}
      invariant rest <= tasks.Keys
      invariant r.None? ==> forall id :: id in tasks && id !in rest ==> !Candidate(tasks, id)
      invariant r.Some? ==> exists id :: Candidate(tasks, id) && id !in rest && tasks[id].next == r
      invariant r.Some? ==> forall id :: Candidate(tasks, id) && id !in rest ==> r.value <= tasks[id].next.value
      decreases rest
    {
      var id :| id in rest;
      if Candidate(tasks, id) && (r.None? || tasks[id].next.value < r.value) {
        r := tasks[id].next;
      }
      rest := rest - {id};
    }
  }

  /** After a round nothing is due any more, so re-scanning at the same instant finds a later fire and the
      driver's immediate re-loop makes progress. */
  lemma RoundLeavesNothingDue(tasks: Table, now: Instant, accept: nat -> nat -> bool, n: nat, r: Option<Instant>)
    requires IdsBelow(tasks, n)
    requires forall id :: id in tasks && tasks[id].trigger.Periodic? ==> tasks[id].trigger.interval > 0
    requires InReach(tasks, now)
    requires IsEarliest(FireUpTo(tasks, now, accept, n).tasks, r)
    ensures r.Some? ==> now < r.value
  {
    if r.Some? {
      var fired := FireUpTo(tasks, now, accept, n).tasks;
      var id :| Candidate(fired, id) && fired[id].next.value == r.value;
      FireUpToKeys(tasks, now, accept, n);
      FireUpToPointwise(tasks, now, accept, n, id);
      if Due(tasks[id], now) && tasks[id].trigger.Periodic? {
        BatchEndsAfterNow(tasks[id].next.value, now, tasks[id].trigger.interval);
      }
    }
  }
}
