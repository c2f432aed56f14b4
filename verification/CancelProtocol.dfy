/**
 The cancellation token: an atomic flag plus a watch channel, with any number of
 waiters (calls of `cancelled`) and cancellers (calls of `cancel`).

 Every atomic access is a step of its own: the flag load before the subscription, the
 subscription, the flag load after it, the wake-up of `changed`, the flag swap, and the
 two halves of `watch::Sender::send` (it first counts the receivers and, when there are
 none, fails without touching the value or the version).  A waiter may also be dropped
 at any point, which is what a losing `select!` branch does.
 */
module CancelProtocol {

  datatype Waiter =
    | Start
    | FirstCheckPassed
    | Subscribed(seen: nat)
    | Blocked(seen: nat)
    | Returned
    | Dropped

  datatype Canceller = Idle | SendPending | WritePending | Done

  datatype State = State(flag: bool, version: nat, waiters: seq<Waiter>, cancellers: seq<Canceller>)

  datatype Step =
    | CheckFirst(i: nat)
    | Subscribe(i: nat)
    | CheckSecond(i: nat)
    | Wake(i: nat)
    | Drop(i: nat)
    | Swap(j: nat)
    | CountReceivers(j: nat)
    | Publish(j: nat)

  predicate Initial(s: State) {
    && !s.flag
    && s.version == 0
    && (forall i :: 0 <= i < |s.waiters| ==> s.waiters[i] == Start)
    && (forall j :: 0 <= j < |s.cancellers| ==> s.cancellers[j] == Idle)
  }

  predicate HasReceiver(s: State) {
    exists i :: 0 <= i < |s.waiters| && (s.waiters[i].Subscribed? || s.waiters[i].Blocked?)
  }

  predicate Enabled(s: State, step: Step) {
    match step
    case CheckFirst(i) => i < |s.waiters| && s.waiters[i].Start?
    case Subscribe(i) => i < |s.waiters| && s.waiters[i].FirstCheckPassed?
    case CheckSecond(i) => i < |s.waiters| && s.waiters[i].Subscribed?
    case Wake(i) => i < |s.waiters| && s.waiters[i].Blocked? && s.waiters[i].seen < s.version
    case Drop(i) => i < |s.waiters| && !s.waiters[i].Returned? && !s.waiters[i].Dropped?
    case Swap(j) => j < |s.cancellers| && s.cancellers[j].Idle?
    case CountReceivers(j) => j < |s.cancellers| && s.cancellers[j].SendPending?
    case Publish(j) => j < |s.cancellers| && s.cancellers[j].WritePending?
  }

  function Apply(s: State, step: Step): State
    requires Enabled(s, step)
  {
    match step
    case CheckFirst(i) => s.(waiters := s.waiters[i := if s.flag then Returned else FirstCheckPassed])
    case Subscribe(i) => s.(waiters := s.waiters[i := Subscribed(s.version)])
    case CheckSecond(i) =>
      s.(waiters := s.waiters[i := if s.flag then Returned else Blocked(s.waiters[i].seen)])
    case Wake(i) => s.(waiters := s.waiters[i := Returned])
    case Drop(i) => s.(waiters := s.waiters[i := Dropped])
    case Swap(j) => s.(flag := true, cancellers := s.cancellers[j := if s.flag then Done else SendPending])
    case CountReceivers(j) => s.(cancellers := s.cancellers[j := if HasReceiver(s) then WritePending else Done])
    case Publish(j) => s.(version := s.version + 1, cancellers := s.cancellers[j := Done])
  }

  predicate ValidRun(s: State, run: seq<Step>)
    decreases |run|
  {
    run == [] || (Enabled(s, run[0]) && ValidRun(Apply(s, run[0]), run[1..]))
  }

  function Final(s: State, run: seq<Step>): State
    requires ValidRun(s, run)
    decreases |run|
  {
    if run == [] then s else Final(Apply(s, run[0]), run[1..])
  }

  // ---- the invariant of every interleaving ----

  predicate Sending(c: Canceller) { c.SendPending? || c.WritePending? }

  predicate SenderInFlight(s: State) {
    exists j :: 0 <= j < |s.cancellers| && Sending(s.cancellers[j])
  }

  /** Before the first swap nobody has sent or been woken; from then on at most one canceller sends,
      and it does so at most once. */
  predicate FlagInv(s: State) {
    && s.version <= 1
    && (!s.flag ==> s.version == 0)
    && (!s.flag ==> forall j :: 0 <= j < |s.cancellers| ==> s.cancellers[j].Idle?)
    && (!s.flag ==> forall i :: 0 <= i < |s.waiters| ==> !s.waiters[i].Returned?)
    && (s.version == 1 ==> !SenderInFlight(s))
    && (forall j, k :: 0 <= j < k < |s.cancellers| ==> !(Sending(s.cancellers[j]) && Sending(s.cancellers[k])))
  }

  /** A blocked waiter subscribed before the send, and while it has not been notified the send is still
      to come. */
  predicate WaiterInv(s: State) {
    && (forall i :: 0 <= i < |s.waiters| && s.waiters[i].Subscribed? ==> s.waiters[i].seen <= s.version)
    && (forall i :: 0 <= i < |s.waiters| && s.waiters[i].Blocked? ==>
          s.waiters[i].seen == 0 && (s.flag && s.version == 0 ==> SenderInFlight(s)))
  }

  predicate Inv(s: State) { FlagInv(s) && WaiterInv(s) }

  lemma StepPreservesFlagInv(s: State, step: Step)
    requires Inv(s) && Enabled(s, step)
    ensures FlagInv(Apply(s, step))
  {
  }

  lemma StepPreservesWaiterInv(s: State, step: Step)
    requires Inv(s) && Enabled(s, step)
    ensures WaiterInv(Apply(s, step))
  {
    var t := Apply(s, step);
    if step.Swap? {
      if !s.flag { assert Sending(t.cancellers[step.j]); }
    } else if step.CountReceivers? {
      if HasReceiver(s) { assert Sending(t.cancellers[step.j]); }
    }
    if SenderInFlight(s) {
      var k :| 0 <= k < |s.cancellers| && Sending(s.cancellers[k]);
      assert (step.CountReceivers? || step.Publish?) || Sending(t.cancellers[k]);
    }
  }

  lemma {:induction false} InvOverRuns(s: State, run: seq<Step>)
    requires Inv(s) && ValidRun(s, run)
    ensures Inv(Final(s, run))
    decreases |run|
  {
    if run != [] {
      StepPreservesFlagInv(s, run[0]);
      StepPreservesWaiterInv(s, run[0]);
      InvOverRuns(Apply(s, run[0]), run[1..]);
    }
  }

  // ---- what the invariant is for ----

  /** No lost wake-up: in any interleaving, a waiter blocked after the flag is set either can wake now, or a
      send is still to come that finds a receiver and publishes. */
  lemma NoLostWakeup(s: State, run: seq<Step>, i: nat)
    requires Initial(s) && ValidRun(s, run)
    requires i < |Final(s, run).waiters| && Final(s, run).waiters[i].Blocked? && Final(s, run).flag
    ensures
      var t := Final(s, run);
      || Enabled(t, Wake(i))
      || (exists j :: 0 <= j < |t.cancellers| && Enabled(t, Publish(j)))
      || (exists j :: 0 <= j < |t.cancellers| && Enabled(t, CountReceivers(j)) && HasReceiver(t)
                      && Enabled(Apply(t, CountReceivers(j)), Publish(j)))
  {
    InvOverRuns(s, run);
    var t := Final(s, run);
    assert HasReceiver(t);
    if t.version == 0 {
      var j :| 0 <= j < |t.cancellers| && Sending(t.cancellers[j]);
      if t.cancellers[j].SendPending? {
        assert Apply(t, CountReceivers(j)).cancellers[j] == WritePending;
        assert Enabled(t, CountReceivers(j));
        assert Enabled(Apply(t, CountReceivers(j)), Publish(j));
      } else {
        assert Enabled(t, Publish(j));
      }
    }
  }

  /** No early wake-up: a waiter only ever returns once the flag is set, and the channel is written at
      most once however many cancellers there are. */
  lemma ReturnedOnlyAfterCancel(s: State, run: seq<Step>, i: nat)
    requires Initial(s) && ValidRun(s, run)
    requires i < |Final(s, run).waiters| && Final(s, run).waiters[i].Returned?
    ensures Final(s, run).flag && Final(s, run).version <= 1
  {
    InvOverRuns(s, run);
  }

  // ---- every waiter returns ----

  function WaiterRank(w: Waiter): nat {
    match w
    case Start => 4
    case FirstCheckPassed => 3
    case Subscribed(_) => 2
    case Blocked(_) => 1
    case Returned => 0
    case Dropped => 0
  }

  function CancellerRank(c: Canceller): nat {
    match c
    case Idle => 3
    case SendPending => 2
    case WritePending => 1
    case Done => 0
  }

  function WaiterSum(ws: seq<Waiter>): nat {
    if ws == [] then 0 else WaiterRank(ws[0]) + WaiterSum(ws[1..])
  }

  function CancellerSum(cs: seq<Canceller>): nat {
    if cs == [] then 0 else CancellerRank(cs[0]) + CancellerSum(cs[1..])
  }

  /** The number of atomic steps the calls in flight can still take. */
  function Remaining(s: State): nat { WaiterSum(s.waiters) + CancellerSum(s.cancellers) }

  lemma {:induction false} WaiterSumUpdate(ws: seq<Waiter>, i: nat, w: Waiter)
    requires i < |ws|
    ensures WaiterSum(ws[i := w]) + WaiterRank(ws[i]) == WaiterSum(ws) + WaiterRank(w)
  {
    if i == 0 {
      assert ws[0 := w][1..] == ws[1..];
    } else {
      assert ws[i := w][1..] == ws[1..][i - 1 := w];
      WaiterSumUpdate(ws[1..], i - 1, w);
    }
  }

  lemma {:induction false} CancellerSumUpdate(cs: seq<Canceller>, j: nat, c: Canceller)
    requires j < |cs|
    ensures CancellerSum(cs[j := c]) + CancellerRank(cs[j]) == CancellerSum(cs) + CancellerRank(c)
  {
    if j == 0 {
      assert cs[0 := c][1..] == cs[1..];
    } else {
      assert cs[j := c][1..] == cs[1..][j - 1 := c];
      CancellerSumUpdate(cs[1..], j - 1, c);
    }
  }

  lemma StepDecreases(s: State, step: Step)
    requires Enabled(s, step)
    ensures Remaining(Apply(s, step)) < Remaining(s)
  {
    var t := Apply(s, step);
    if step.Swap? || step.CountReceivers? || step.Publish? {
      CancellerSumUpdate(s.cancellers, step.j, t.cancellers[step.j]);
    } else {
      WaiterSumUpdate(s.waiters, step.i, t.waiters[step.i]);
    }
  }

  lemma {:induction false} RunsAreBounded(s: State, run: seq<Step>)
    requires ValidRun(s, run)
    ensures |run| + Remaining(Final(s, run)) <= Remaining(s)
    decreases |run|
  {
    if run != [] {
      StepDecreases(s, run[0]);
      RunsAreBounded(Apply(s, run[0]), run[1..]);
    }
  }

  /** Steps the environment chooses to take: starting a call or dropping a future. */
  predicate Voluntary(step: Step) { step.CheckFirst? || step.Drop? || step.Swap? }

  /** A run that has been cancelled and cannot go on by itself has no waiter left inside `cancelled`. */
  lemma CancelledRunsReleaseEveryWaiter(s: State, run: seq<Step>)
    requires Initial(s) && ValidRun(s, run) && Final(s, run).flag
    requires forall step :: Enabled(Final(s, run), step) ==> Voluntary(step)
    ensures |run| <= Remaining(s)
    ensures forall i :: 0 <= i < |Final(s, run).waiters| ==>
              var w := Final(s, run).waiters[i]; w.Start? || w.Returned? || w.Dropped?
  {
    RunsAreBounded(s, run);
    InvOverRuns(s, run);
    var t := Final(s, run);
    forall i | 0 <= i < |t.waiters|
      ensures t.waiters[i].Start? || t.waiters[i].Returned? || t.waiters[i].Dropped?
    {
      assert Enabled(t, Subscribe(i)) ==> Voluntary(Subscribe(i));
      assert Enabled(t, CheckSecond(i)) ==> Voluntary(CheckSecond(i));
      assert Enabled(t, Wake(i)) ==> Voluntary(Wake(i));
      if t.waiters[i].Blocked? { NoLostWakeup(s, run, i); }
    }
  }
}
