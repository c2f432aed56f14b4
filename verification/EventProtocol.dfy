/**
 One publishing installation of the event bus as a protocol between publishers, `stop`, the pump and the
 subscribers' consumers.

 A `publish` is two steps: it clones the inbound sender under the lock and sends after releasing it.  The
 pump's receives, its look at the token, each offer to one subscriber and the final drop of the inbound
 receiver are steps of their own, and any `select!` branch may win.
 */
module EventProtocol {
  import opened Prelude
  import opened EventDelivery

  datatype Answer = Accepted | OverBudget | NotReady

  datatype Pc =
    | NotStarted
    | Waiting
    | Batching(batch: seq<EventId>)
    | FanBatch(batch: seq<EventId>, draining: bool)
    | Fanning(event: EventId, targets: seq<nat>, batch: seq<EventId>, draining: bool)
    | Draining
    | Leaving
    | Exited

  /** `ready` are the publish calls that hold a sender clone; `accepted`, `fanned`, `snapshots` (the subscribers each
      fan-out named) and the subscriptions are histories; `mark` is how many events had been accepted when `stop` took
      the lock and `early` the calls then still holding a clone; `leftAt` is how many had been accepted at the pump's
      last empty receive. */
  datatype State = State(
    stopped: bool,
    token: bool,
    nextEvent: EventId,
    ready: set<EventId>,
    queue: seq<EventId>,
    pc: Pc,
    accepted: seq<EventId>,
    fanned: seq<EventId>,
    snapshots: seq<seq<nat>>,
    answers: map<EventId, Answer>,
    subs: Subs,
    mark: nat,
    early: set<EventId>,
    leftAt: nat)

  datatype Limits = Limits(inbound: nat, delivery: nat)

  datatype Step =
    | Begin
    | TrySend(e: EventId)
    | Stop
    | CancelToken
    | Consume(who: nat)
    | Receive
    | ReceiveClosed
    | TakeToken
    | ReceiveMore
    | StartFan(targets: seq<nat>)
    | Offer
    | FinishEvent
    | FinishBatch
    | DrainOne
    | DrainDone
    | CloseInbound

  predicate PumpStep(step: Step) {
    !step.Begin? && !step.TrySend? && !step.Stop? && !step.CancelToken? && !step.Consume?
  }

  predicate Initial(s: State) {
    s == State(false, false, s.nextEvent, {}, [], NotStarted, [], [], [], map[], map[], 0, {}, 0)
  }

  predicate Sorted(targets: seq<nat>) { forall i, j :: 0 <= i < j < |targets| ==> targets[i] < targets[j] }

  predicate Enabled(s: State, step: Step) {
    match step
    case Begin => true
    case TrySend(e) => e in s.ready
    case Stop => !s.stopped
    case CancelToken => s.stopped && !s.token
    case Consume(who) => who in s.subs && s.subs[who].consumed < |s.subs[who].sent|
    case Receive => s.pc.Waiting? && s.queue != []
    case ReceiveClosed => s.pc.Waiting? && s.queue == [] && s.stopped && s.ready == {}
    case TakeToken => s.pc.Waiting? && s.token
    case ReceiveMore => s.pc.Batching?
    case StartFan(targets) => s.pc.FanBatch? && s.pc.batch != [] && Sorted(targets)
    case Offer => s.pc.Fanning? && s.pc.targets != []
    case FinishEvent => s.pc.Fanning? && s.pc.targets == []
    case FinishBatch => s.pc.FanBatch? && s.pc.batch == []
    case DrainOne => s.pc.Draining? && s.queue != []
    case DrainDone => s.pc.Draining? && s.queue == []
    case CloseInbound => s.pc.Leaving?
  }

  function Apply(l: Limits, s: State, step: Step): State
    requires Enabled(s, step) && ConsumersBehind(s.subs)
  {
    match step
    case Begin =>
      if s.stopped then s.(nextEvent := s.nextEvent + 1, answers := s.answers[s.nextEvent := NotReady])
      else
        s.(nextEvent := s.nextEvent + 1, ready := s.ready + {s.nextEvent},
           pc := if s.pc.NotStarted? then Waiting else s.pc)
    case TrySend(e) =>
      var t := s.(ready := s.ready - {e});
      if s.pc.Exited? then t.(answers := s.answers[e := NotReady])
      else if |s.queue| >= l.inbound then t.(answers := s.answers[e := OverBudget])
      else t.(answers := s.answers[e := Accepted], queue := s.queue + [e], accepted := s.accepted + [e])
    case Stop => s.(stopped := true, mark := |s.accepted|, early := s.ready)
    case CancelToken => s.(token := true)
    case Consume(who) => s.(subs := s.subs[who := TakeOne(s.subs[who])])
    case Receive => s.(pc := Batching([s.queue[0]]), queue := s.queue[1..])
    case ReceiveClosed => s.(pc := Leaving, leftAt := |s.accepted|)
    case TakeToken => s.(pc := Draining)
    case ReceiveMore =>
      if s.queue == [] then s.(pc := FanBatch(s.pc.batch, false))
      else s.(pc := Batching(s.pc.batch + [s.queue[0]]), queue := s.queue[1..])
    case StartFan(targets) =>
      s.(pc := Fanning(s.pc.batch[0], targets, s.pc.batch[1..], s.pc.draining),
         fanned := s.fanned + [s.pc.batch[0]], snapshots := s.snapshots + [targets])
    case Offer =>
      var who := s.pc.targets[0];
      s.(pc := s.pc.(targets := s.pc.targets[1..]),
         subs := s.subs[who := OfferTo(SubAt(s.subs, who), s.pc.event, l.delivery)])
    case FinishEvent => s.(pc := FanBatch(s.pc.batch, s.pc.draining))
    case FinishBatch => s.(pc := if s.pc.draining || s.token then Draining else Waiting)
    case DrainOne => s.(pc := FanBatch([s.queue[0]], true), queue := s.queue[1..])
    case DrainDone => s.(pc := Leaving, leftAt := |s.accepted|)
    case CloseInbound => s.(pc := Exited)
  }

  // ---- the invariant of every interleaving ----

  /** Events the pump has received and not yet begun to fan out. */
  function InHand(pc: Pc): seq<EventId> {
    match pc
    case Batching(batch) => batch
    case FanBatch(batch, _) => batch
    case Fanning(_, _, batch, _) => batch
    case _ => []
  }

  /** The inbound queue is bounded, and accepted events are fanned out, in hand or queued, in order. */
  predicate FlowInv(l: Limits, s: State) {
    && |s.queue| <= l.inbound
    && s.fanned + InHand(s.pc) + s.queue == s.accepted
  }

  ghost predicate IdInv(s: State) {
    && NoDup(s.accepted)
    && (forall e :: e in s.accepted ==> e < s.nextEvent && e !in s.ready)
    && (forall e :: e in s.ready ==> e < s.nextEvent && e !in s.answers)
    && (forall e :: e in s.answers ==> e < s.nextEvent)
    && (forall e :: e in s.accepted <==> e in s.answers && s.answers[e].Accepted?)
  }

  /** What the stop lets through: only calls that already held a sender. */
  predicate StopInv(s: State) {
    && (s.token ==> s.stopped)
    && (s.pc.NotStarted? ==> s.ready == {} && s.accepted == [])
    && s.mark <= |s.accepted|
    && (s.stopped ==> s.ready <= s.early && forall i :: s.mark <= i < |s.accepted| ==> s.accepted[i] in s.early)
    && (s.pc.Draining? || (s.pc.FanBatch? && s.pc.draining) || (s.pc.Fanning? && s.pc.draining) ==> s.token)
    && (s.pc.Leaving? || s.pc.Exited? ==> s.stopped && s.mark <= s.leftAt == |s.fanned|)
  }

  /** What `who` has been sent or is still to be offered follows the fan-out order. */
  predicate InOrder(s: State, who: nat) {
    var sent := Events(SubAt(s.subs, who).sent);
    if s.pc.Fanning? && who in s.pc.targets then
      s.fanned != [] && IsSubseq(sent, s.fanned[..|s.fanned| - 1])
    else IsSubseq(sent, s.fanned)
  }

  ghost predicate SubsInv(l: Limits, s: State) {
    && (forall who :: who in s.subs ==> QueueOk(s.subs[who], l.delivery))
    && (forall who :: InOrder(s, who))
  }

  /** The fanned-out events whose snapshot names `who`. */
  function OfferedTo(fanned: seq<EventId>, snapshots: seq<seq<nat>>, who: nat): seq<EventId>
    requires |fanned| == |snapshots|
  {
    if fanned == [] then []
    else
      var last := |fanned| - 1;
      OfferedTo(fanned[..last], snapshots[..last], who) + if who in snapshots[last] then [fanned[last]] else []
  }

  /** The fan-outs already over for `who`: all of them, or all but the one that still has it ahead. */
  function Concluded(s: State, who: nat): nat {
    if Offering(s.pc, who) && s.fanned != [] then |s.fanned| - 1 else |s.fanned|
  }

  predicate OfferedAsNamed(s: State, who: nat)
    requires |s.fanned| == |s.snapshots|
  {
    var n := Concluded(s, who);
    SubAt(s.subs, who).offered == OfferedTo(s.fanned[..n], s.snapshots[..n], who)
  }

  /** The fan-out under way is of the last fanned-out event, to subscribers its snapshot names. */
  predicate FanInv(s: State) {
    && |s.fanned| == |s.snapshots|
    && (s.pc.Fanning? ==>
          && Sorted(s.pc.targets) && s.fanned != [] && s.fanned[|s.fanned| - 1] == s.pc.event
          && forall i :: 0 <= i < |s.pc.targets| ==> s.pc.targets[i] in s.snapshots[|s.snapshots| - 1])
  }

  /** Every subscriber has been offered exactly the events whose snapshot named it, in order. */
  ghost predicate HistoryInv(s: State) {
    FanInv(s) && forall who :: OfferedAsNamed(s, who)
  }

  ghost predicate Inv(l: Limits, s: State) {
    FlowInv(l, s) && IdInv(s) && StopInv(s) && SubsInv(l, s) && HistoryInv(s)
  }

  lemma TakeIntoHand(fanned: seq<EventId>, hand: seq<EventId>, queue: seq<EventId>)
    requires queue != []
    ensures fanned + (hand + [queue[0]]) + queue[1..] == fanned + hand + queue
  {
  }

  lemma ReceiveKeepsFlowInv(l: Limits, s: State, step: Step)
    requires ConsumersBehind(s.subs) && FlowInv(l, s) && Enabled(s, step)
    requires step.Receive? || step.DrainOne? || step.ReceiveMore? || step.StartFan?
    ensures FlowInv(l, Apply(l, s, step))
  {
    if step.Receive? || step.DrainOne? {
      assert [] + [s.queue[0]] == [s.queue[0]];
      TakeIntoHand(s.fanned, [], s.queue);
    } else if step.StartFan? {
    } else if s.queue != [] {
      TakeIntoHand(s.fanned, s.pc.batch, s.queue);
    }
  }

  lemma StepKeepsFlowInv(l: Limits, s: State, step: Step)
    requires ConsumersBehind(s.subs) && FlowInv(l, s) && Enabled(s, step)
    ensures FlowInv(l, Apply(l, s, step))
  {
    if step.Receive? || step.DrainOne? || step.ReceiveMore? || step.StartFan? {
      ReceiveKeepsFlowInv(l, s, step);
    }
  }

  lemma StepKeepsIdInv(l: Limits, s: State, step: Step)
    requires ConsumersBehind(s.subs) && Enabled(s, step) && IdInv(s)
    ensures IdInv(Apply(l, s, step))
  {
    if step.TrySend? {
      AnswerKeepsIdInv(l, s, step.e);
    } else if !step.Begin? {
      var t := Apply(l, s, step);
      assert t.accepted == s.accepted && t.ready == s.ready && t.answers == s.answers && t.nextEvent == s.nextEvent;
    }
  }

  lemma AnswerKeepsIdInv(l: Limits, s: State, e: EventId)
    requires ConsumersBehind(s.subs) && IdInv(s) && e in s.ready
    ensures IdInv(Apply(l, s, TrySend(e)))
  {
    var t := Apply(l, s, TrySend(e));
    assert t.ready == s.ready - {e} && t.nextEvent == s.nextEvent;
    if t.accepted == s.accepted {
      assert forall x :: x in t.answers ==> x == e || (x in s.answers && t.answers[x] == s.answers[x]);
    } else {
      AcceptKeepsIdInv(s, t, e);
    }
  }

  lemma AcceptKeepsIdInv(s: State, t: State, e: EventId)
    requires IdInv(s) && e in s.ready
    requires t.ready == s.ready - {e} && t.nextEvent == s.nextEvent
    requires t.answers == s.answers[e := Accepted] && t.accepted == s.accepted + [e]
    ensures IdInv(t)
  {
  }

  lemma PublisherKeepsStopInv(l: Limits, s: State, step: Step)
    requires ConsumersBehind(s.subs) && FlowInv(l, s) && StopInv(s) && Enabled(s, step) && !PumpStep(step)
    ensures StopInv(Apply(l, s, step))
  {
  }

  predicate Offering(pc: Pc, who: nat) { pc.Fanning? && who in pc.targets }

  lemma SameOrder(s: State, t: State, who: nat)
    requires InOrder(s, who) && t.fanned == s.fanned
    requires SubAt(t.subs, who).sent == SubAt(s.subs, who).sent
    requires Offering(t.pc, who) == Offering(s.pc, who)
    ensures InOrder(t, who)
  {
  }

  lemma StartFanKeepsOrder(l: Limits, s: State, step: Step, who: nat)
    requires ConsumersBehind(s.subs) && InOrder(s, who) && Enabled(s, step) && step.StartFan?
    ensures InOrder(Apply(l, s, step), who)
  {
  }

  lemma TailOfSorted(targets: seq<nat>, who: nat)
    requires Sorted(targets) && targets != []
    ensures who in targets[1..] <==> who in targets && who != targets[0]
  {
    assert targets == [targets[0]] + targets[1..];
  }

  lemma OfferStepKeepsOrder(l: Limits, s: State, who: nat)
    requires ConsumersBehind(s.subs) && InOrder(s, who) && Enabled(s, Offer)
    requires Sorted(s.pc.targets) && s.fanned != [] && s.fanned[|s.fanned| - 1] == s.pc.event
    ensures InOrder(Apply(l, s, Offer), who)
  {
    var t := Apply(l, s, Offer);
    TailOfSorted(s.pc.targets, who);
    SubAfterStep(l, s, Offer, who);
    if who == s.pc.targets[0] {
      OfferedIsInOrder(s, SubAt(s.subs, who), l.delivery);
    } else {
      SameOrder(s, t, who);
    }
  }

  lemma OfferedIsInOrder(s: State, sub: Sub, capacity: nat)
    requires s.pc.Fanning? && s.fanned != [] && s.fanned[|s.fanned| - 1] == s.pc.event
    requires sub.consumed <= |sub.sent| && IsSubseq(Events(sub.sent), s.fanned[..|s.fanned| - 1])
    ensures IsSubseq(Events(OfferTo(sub, s.pc.event, capacity).sent), s.fanned)
  {
    var before := s.fanned[..|s.fanned| - 1];
    OfferKeepsOrder(sub, s.pc.event, capacity, before);
    assert before + [s.pc.event] == s.fanned;
  }

  lemma StepKeepsOrder(l: Limits, s: State, step: Step, who: nat)
    requires ConsumersBehind(s.subs) && Enabled(s, step) && FanInv(s) && InOrder(s, who)
    ensures InOrder(Apply(l, s, step), who)
  {
    if step.StartFan? {
      StartFanKeepsOrder(l, s, step, who);
    } else if step.Offer? {
      OfferStepKeepsOrder(l, s, who);
    } else {
      SameOrder(s, Apply(l, s, step), who);
    }
  }

  /** What a step does to one subscription. */
  lemma SubAfterStep(l: Limits, s: State, step: Step, who: nat)
    requires ConsumersBehind(s.subs) && Enabled(s, step)
    ensures SubAt(Apply(l, s, step).subs, who)
         == if step == Consume(who) then TakeOne(s.subs[who])
            else if step.Offer? && s.pc.targets[0] == who then OfferTo(SubAt(s.subs, who), s.pc.event, l.delivery)
            else SubAt(s.subs, who)
  {
  }

  /** Every subscription is left alone, or its head taken, or offered one event. */
  lemma QueueStaysOk(s: Sub, t: Sub, e: EventId, capacity: nat)
    requires QueueOk(s, capacity)
    requires t == s || t == OfferTo(s, e, capacity) || (s.consumed < |s.sent| && t == TakeOne(s))
    ensures QueueOk(t, capacity)
  {
    if t == OfferTo(s, e, capacity) { OfferKeepsBalance(s, e, capacity); }
  }

  lemma SubStaysOk(l: Limits, s: State, step: Step, who: nat)
    requires ConsumersBehind(s.subs) && Enabled(s, step) && QueueOk(SubAt(s.subs, who), l.delivery)
    ensures QueueOk(SubAt(Apply(l, s, step).subs, who), l.delivery)
  {
    var e := if s.pc.Fanning? then s.pc.event else 0;
    SubAfterStep(l, s, step, who);
    QueueStaysOk(SubAt(s.subs, who), SubAt(Apply(l, s, step).subs, who), e, l.delivery);
  }

  lemma StepKeepsSubsInv(l: Limits, s: State, step: Step)
    requires ConsumersBehind(s.subs) && Enabled(s, step) && FanInv(s) && SubsInv(l, s)
    ensures SubsInv(l, Apply(l, s, step))
  {
    var t := Apply(l, s, step);
    forall who ensures QueueOk(SubAt(t.subs, who), l.delivery) { SubStaysOk(l, s, step, who); }
    forall who ensures InOrder(t, who) {
      assert InOrder(s, who);
      StepKeepsOrder(l, s, step, who);
    }
    QueuesAreOk(l, t);
  }

  lemma QueuesAreOk(l: Limits, t: State)
    requires forall who :: QueueOk(SubAt(t.subs, who), l.delivery)
    ensures forall who :: who in t.subs ==> QueueOk(t.subs[who], l.delivery)
  {
    forall who | who in t.subs ensures QueueOk(t.subs[who], l.delivery) {
      assert QueueOk(SubAt(t.subs, who), l.delivery);
    }
  }

  // ---- who has been offered what ----

  lemma SameHistory(s: State, t: State, who: nat)
    requires |s.fanned| == |s.snapshots| && OfferedAsNamed(s, who)
    requires t.fanned == s.fanned && t.snapshots == s.snapshots && Offering(t.pc, who) == Offering(s.pc, who)
    requires SubAt(t.subs, who).offered == SubAt(s.subs, who).offered
    ensures OfferedAsNamed(t, who)
  {
  }

  lemma StartFanKeepsHistory(l: Limits, s: State, step: Step, who: nat)
    requires ConsumersBehind(s.subs) && Enabled(s, step) && step.StartFan?
    requires |s.fanned| == |s.snapshots| && OfferedAsNamed(s, who)
    ensures OfferedAsNamed(Apply(l, s, step), who)
  {
    var t := Apply(l, s, step);
    var n := |s.fanned|;
    assert t.fanned[..n] == s.fanned && t.snapshots[..n] == s.snapshots;
    assert s.fanned[..n] == s.fanned && s.snapshots[..n] == s.snapshots;
    assert t.fanned[..n + 1] == t.fanned && t.snapshots[..n + 1] == t.snapshots;
  }

  /** The offer completes the history of the subscriber it goes to. */
  lemma OfferedIsNamed(l: Limits, s: State)
    requires ConsumersBehind(s.subs) && Enabled(s, Offer) && FanInv(s) && OfferedAsNamed(s, s.pc.targets[0])
    ensures OfferedAsNamed(Apply(l, s, Offer), s.pc.targets[0])
  {
    TailOfSorted(s.pc.targets, s.pc.targets[0]);
    SubAfterStep(l, s, Offer, s.pc.targets[0]);
    assert s.fanned[..|s.fanned|] == s.fanned && s.snapshots[..|s.fanned|] == s.snapshots;
  }

  lemma OfferKeepsHistory(l: Limits, s: State, who: nat)
    requires ConsumersBehind(s.subs) && Enabled(s, Offer) && FanInv(s) && OfferedAsNamed(s, who)
    ensures OfferedAsNamed(Apply(l, s, Offer), who)
  {
    if who == s.pc.targets[0] {
      OfferedIsNamed(l, s);
    } else {
      TailOfSorted(s.pc.targets, who);
      SubAfterStep(l, s, Offer, who);
      SameHistory(s, Apply(l, s, Offer), who);
    }
  }

  lemma QuietStepKeepsHistory(l: Limits, s: State, step: Step, who: nat)
    requires ConsumersBehind(s.subs) && Enabled(s, step) && |s.fanned| == |s.snapshots| && OfferedAsNamed(s, who)
    requires !step.StartFan? && !step.Offer?
    ensures |Apply(l, s, step).fanned| == |Apply(l, s, step).snapshots| && OfferedAsNamed(Apply(l, s, step), who)
  {
    SubAfterStep(l, s, step, who);
    SameHistory(s, Apply(l, s, step), who);
  }

  lemma OfferKeepsFanInv(s: State, t: State)
    requires FanInv(s) && s.pc.Fanning? && s.pc.targets != [] && t.pc == s.pc.(targets := s.pc.targets[1..])
    requires t.fanned == s.fanned && t.snapshots == s.snapshots
    ensures FanInv(t)
  {
  }

  lemma StepKeepsFanInv(l: Limits, s: State, step: Step)
    requires ConsumersBehind(s.subs) && Enabled(s, step) && FanInv(s)
    ensures FanInv(Apply(l, s, step))
  {
    var t := Apply(l, s, step);
    if step.StartFan? {
      assert t.snapshots[|t.snapshots| - 1] == step.targets;
    } else if step.Offer? {
      OfferKeepsFanInv(s, t);
    }
  }

  lemma StepKeepsHistoryInv(l: Limits, s: State, step: Step)
    requires ConsumersBehind(s.subs) && Enabled(s, step) && HistoryInv(s)
    ensures HistoryInv(Apply(l, s, step))
  {
    StepKeepsFanInv(l, s, step);
    forall who ensures OfferedAsNamed(Apply(l, s, step), who) {
      assert OfferedAsNamed(s, who);
      if step.StartFan? {
        StartFanKeepsHistory(l, s, step, who);
      } else if step.Offer? {
        OfferKeepsHistory(l, s, who);
      } else {
        QuietStepKeepsHistory(l, s, step, who);
      }
    }
  }

  lemma {:induction false} OfferedToInOrder(fanned: seq<EventId>, snapshots: seq<seq<nat>>, who: nat)
    requires |fanned| == |snapshots|
    ensures IsSubseq(OfferedTo(fanned, snapshots, who), fanned)
  {
    if fanned != [] {
      var last := |fanned| - 1;
      var before := OfferedTo(fanned[..last], snapshots[..last], who);
      OfferedToInOrder(fanned[..last], snapshots[..last], who);
      assert fanned[..last] + [fanned[last]] == fanned;
      assert before + [] == before;
    }
  }

  lemma {:induction false} OfferedToIsNamed(fanned: seq<EventId>, snapshots: seq<seq<nat>>, who: nat, i: nat)
    requires |fanned| == |snapshots| && NoDup(fanned) && i < |fanned|
    ensures fanned[i] in OfferedTo(fanned, snapshots, who) <==> who in snapshots[i]
  {
    var last := |fanned| - 1;
    var before := OfferedTo(fanned[..last], snapshots[..last], who);
    if i < last {
      OfferedToIsNamed(fanned[..last], snapshots[..last], who, i);
    } else {
      OfferedToInOrder(fanned[..last], snapshots[..last], who);
      if fanned[last] in before {
        var j :| 0 <= j < |before| && before[j] == fanned[last];
        SubseqMember(before, fanned[..last], j);
        assert false;
      }
    }
  }

  ghost predicate ValidRun(l: Limits, s: State, run: seq<Step>)
    decreases |run|
  {
    run == [] || (ConsumersBehind(s.subs) && Enabled(s, run[0]) && ValidRun(l, Apply(l, s, run[0]), run[1..]))
  }

  ghost function Final(l: Limits, s: State, run: seq<Step>): State
    requires ValidRun(l, s, run)
    decreases |run|
  {
    if run == [] then s else Final(l, Apply(l, s, run[0]), run[1..])
  }

  lemma StepKeepsInv(l: Limits, s: State, step: Step)
    requires Inv(l, s) && Enabled(s, step)
    ensures ConsumersBehind(s.subs) && Inv(l, Apply(l, s, step))
  {
    StepKeepsFlowInv(l, s, step);
    StepKeepsIdInv(l, s, step);
    if !PumpStep(step) { PublisherKeepsStopInv(l, s, step); }
    StepKeepsSubsInv(l, s, step);
    StepKeepsHistoryInv(l, s, step);
  }

  lemma {:induction false} InvOverRuns(l: Limits, s: State, run: seq<Step>)
    requires Inv(l, s) && ValidRun(l, s, run)
    ensures Inv(l, Final(l, s, run))
    decreases |run|
  {
    if run != [] {
      StepKeepsInv(l, s, run[0]);
      InvOverRuns(l, Apply(l, s, run[0]), run[1..]);
    }
  }

  lemma InitialInv(l: Limits, s: State)
    requires Initial(s)
    ensures Inv(l, s)
  {
  }

  // ---- accepted work ----

  lemma LateAreEarlyCalls(l: Limits, t: State)
    requires FlowInv(l, t) && StopInv(t) && t.stopped
    ensures forall i :: t.mark <= i < |t.accepted| ==> t.accepted[i] in t.early
    ensures t.early == {} ==> |t.accepted| == t.mark
    ensures t.early == {} && t.pc.Exited? ==> t.fanned == t.accepted
  {
    if |t.accepted| > t.mark { assert t.accepted[t.mark] in t.early; }
    if t.early == {} && t.pc.Exited? {
      assert |t.fanned| + |t.queue| == |t.accepted|;
      assert t.fanned + t.queue == t.fanned;
    }
  }

  /** Work accepted before `stop` survives it: when the pump is gone it has fanned out, exactly once and in
      acceptance order, at least everything accepted when `stop` took the lock.  What it has fanned out is
      exactly what was accepted before its last empty receive. */
  lemma AcceptedWorkSurvivesStop(l: Limits, s: State, run: seq<Step>)
    requires Initial(s) && ValidRun(l, s, run) && Final(l, s, run).pc.Exited?
    ensures
      var t := Final(l, s, run);
      && t.mark <= t.leftAt <= |t.accepted|
      && t.fanned == t.accepted[..t.leftAt] && NoDup(t.fanned)
      && (forall i :: 0 <= i < |t.accepted| ==> (t.accepted[i] in t.fanned <==> i < t.leftAt))
  {
    InitialInv(l, s);
    InvOverRuns(l, s, run);
  }

  /** After `stop` only calls already past the lock can be accepted; when there were none, nothing is
      accepted any more and every accepted event has been fanned out by the time the pump is gone. */
  lemma NothingNewIsAcceptedAfterStop(l: Limits, s: State, run: seq<Step>)
    requires Initial(s) && ValidRun(l, s, run) && Final(l, s, run).stopped
    ensures
      var t := Final(l, s, run);
      && (forall i :: t.mark <= i < |t.accepted| ==> t.accepted[i] in t.early)
      && (t.early == {} ==> |t.accepted| == t.mark)
      && (t.early == {} && t.pc.Exited? ==> t.fanned == t.accepted)
  {
    InitialInv(l, s);
    InvOverRuns(l, s, run);
    LateAreEarlyCalls(l, Final(l, s, run));
  }

  lemma {:induction false} NothingIsFannedOutAfterLeaving(l: Limits, s: State, run: seq<Step>)
    requires ValidRun(l, s, run) && (s.pc.Leaving? || s.pc.Exited?)
    ensures Final(l, s, run).fanned == s.fanned
    ensures s.accepted <= Final(l, s, run).accepted
    decreases |run|
  {
    if run != [] { NothingIsFannedOutAfterLeaving(l, Apply(l, s, run[0]), run[1..]); }
  }

  /** The other side of the split publish: a call that still holds its sender when the pump makes its last
      empty receive is told `Ok`, and its event never reaches anyone. */
  lemma LateSendIsLost(l: Limits, s: State, run: seq<Step>, e: EventId, more: seq<Step>)
    requires Initial(s) && ValidRun(l, s, run) && l.inbound > 0
    requires Final(l, s, run).pc.Draining? && Final(l, s, run).queue == [] && e in Final(l, s, run).ready
    requires ConsumersBehind(Final(l, s, run).subs)
    requires
      var left := Apply(l, Final(l, s, run), DrainDone);
      ConsumersBehind(left.subs) && ValidRun(l, Apply(l, left, TrySend(e)), more)
    ensures
      var left := Apply(l, Final(l, s, run), DrainDone);
      var t := Final(l, Apply(l, left, TrySend(e)), more);
      e in t.answers && t.answers[e] == Accepted && e !in t.fanned
  {
    InitialInv(l, s);
    InvOverRuns(l, s, run);
    var t0 := Final(l, s, run);
    var left := Apply(l, t0, DrainDone);
    StepKeepsInv(l, t0, DrainDone);
    var sent := Apply(l, left, TrySend(e));
    StepKeepsInv(l, left, TrySend(e));
    InvOverRuns(l, sent, more);
    NothingIsFannedOutAfterLeaving(l, sent, more);
    AcceptedAnswer(Final(l, sent, more), sent.accepted, e);
  }

  lemma AcceptedAnswer(t: State, accepted: seq<EventId>, e: EventId)
    requires IdInv(t) && accepted <= t.accepted && e in accepted
    ensures e in t.answers && t.answers[e] == Accepted
  {
    assert e in t.accepted;
  }

  // ---- what a publisher is told ----

  /** A call is refused at once exactly after the stop; otherwise it is accepted exactly when the pump is not gone and the
      inbound queue has room when the call sends, and told which of the two it was if not.  Nobody else's answer changes. */
  lemma PublishAnswers(l: Limits, s: State, e: EventId)
    requires ConsumersBehind(s.subs)
    ensures
      var t := Apply(l, s, Begin);
      && t.nextEvent == s.nextEvent + 1 && t.accepted == s.accepted && t.queue == s.queue
      && (s.stopped ==> t.ready == s.ready && t.answers == s.answers[s.nextEvent := NotReady])
      && (!s.stopped ==> t.ready == s.ready + {s.nextEvent} && t.answers == s.answers)
    ensures e in s.ready ==>
      var t := Apply(l, s, TrySend(e));
      && e in t.answers && t.answers == s.answers[e := t.answers[e]] && t.ready == s.ready - {e}
      && (t.answers[e] == Accepted <==> !s.pc.Exited? && |s.queue| < l.inbound)
      && (t.answers[e] == OverBudget <==> !s.pc.Exited? && |s.queue| >= l.inbound)
      && (t.answers[e] == NotReady <==> s.pc.Exited?)
      && t.accepted == (if t.answers[e] == Accepted then s.accepted + [e] else s.accepted)
      && t.queue == (if t.answers[e] == Accepted then s.queue + [e] else s.queue)
  {
  }

  /** An answer once given stands. */
  lemma {:induction false} AnswersAreFinal(l: Limits, s: State, run: seq<Step>, e: EventId)
    requires Inv(l, s) && ValidRun(l, s, run) && e in s.answers
    ensures e in Final(l, s, run).answers && Final(l, s, run).answers[e] == s.answers[e]
    decreases |run|
  {
    if run != [] {
      StepKeepsInv(l, s, run[0]);
      AnswersAreFinal(l, Apply(l, s, run[0]), run[1..], e);
    }
  }

  // ---- what a subscriber sees ----

  /** A subscriber receives a subsequence of the acceptance order without repeats, out of a bounded queue, and
      its payloads account for every event fanned out to it. */
  lemma SubscriberView(l: Limits, s: State, run: seq<Step>, who: nat)
    requires Initial(s) && ValidRun(l, s, run)
    ensures
      var t := Final(l, s, run);
      var sub := SubAt(t.subs, who);
      && sub.consumed <= |sub.sent|
      && var received := Events(sub.sent)[..sub.consumed];
      && |t.queue| <= l.inbound && |Queue(sub)| <= l.delivery
      && IsSubseq(received, t.accepted) && NoDup(received)
      && (|sub.offered| <= U64_MAX ==> Weight(sub.sent) + sub.dropped == |sub.offered|)
      && (|sub.offered| <= U64_MAX ==> forall i :: 0 <= i < |sub.sent| ==> SentInPlace(sub.sent, sub.offered, i))
  {
    InitialInv(l, s);
    InvOverRuns(l, s, run);
    var t := Final(l, s, run);
    var sub := SubAt(t.subs, who);
    assert QueueOk(sub, l.delivery);
    assert InOrder(t, who);
    FannedBefore(l, t, who);
    SubseqPrefix(Events(sub.sent), t.accepted, sub.consumed);
    SubseqNoDup(Events(sub.sent)[..sub.consumed], t.accepted);
  }

  /** The events counted there are the ones fanned out to it: every event whose fan-out is over for `who` has been
      offered to it if and only if that fan-out's snapshot named it, each once and in fan-out order. */
  lemma SubscriberIsOffered(l: Limits, s: State, run: seq<Step>, who: nat)
    requires Initial(s) && ValidRun(l, s, run)
    ensures
      var t := Final(l, s, run);
      var offered := SubAt(t.subs, who).offered;
      && |t.snapshots| == |t.fanned| && Concluded(t, who) <= |t.fanned|
      && IsSubseq(offered, t.fanned) && NoDup(offered)
      && (forall i :: 0 <= i < Concluded(t, who) ==> (t.fanned[i] in offered <==> who in t.snapshots[i]))
      && (!t.pc.Fanning? ==> Concluded(t, who) == |t.fanned|)
  {
    InitialInv(l, s);
    InvOverRuns(l, s, run);
    OfferedFromHistory(l, Final(l, s, run), who);
  }

  lemma FannedNoDup(l: Limits, t: State)
    requires FlowInv(l, t) && NoDup(t.accepted)
    ensures NoDup(t.fanned)
  {
    forall i, j | 0 <= i < j < |t.fanned| ensures t.fanned[i] != t.fanned[j] {
      assert t.fanned[i] == t.accepted[i] && t.fanned[j] == t.accepted[j];
    }
  }

  lemma OfferedFromHistory(l: Limits, t: State, who: nat)
    requires FlowInv(l, t) && NoDup(t.accepted) && HistoryInv(t)
    ensures
      var offered := SubAt(t.subs, who).offered;
      && IsSubseq(offered, t.fanned) && NoDup(offered)
      && (forall i :: 0 <= i < Concluded(t, who) ==> (t.fanned[i] in offered <==> who in t.snapshots[i]))
  {
    var n := Concluded(t, who);
    var fanned, snapshots := t.fanned[..n], t.snapshots[..n];
    FannedNoDup(l, t);
    assert OfferedAsNamed(t, who);
    OfferedToInOrder(fanned, snapshots, who);
    SubseqGrow(OfferedTo(fanned, snapshots, who), fanned, t.fanned[n..]);
    assert fanned + t.fanned[n..] == t.fanned;
    SubseqNoDup(OfferedTo(fanned, snapshots, who), t.fanned);
    forall i | 0 <= i < n ensures t.fanned[i] in OfferedTo(fanned, snapshots, who) <==> who in t.snapshots[i] {
      OfferedToIsNamed(fanned, snapshots, who, i);
      assert fanned[i] == t.fanned[i] && snapshots[i] == t.snapshots[i];
    }
  }

  lemma FannedBefore(l: Limits, t: State, who: nat)
    requires FlowInv(l, t) && InOrder(t, who)
    ensures IsSubseq(Events(SubAt(t.subs, who).sent), t.accepted)
  {
    var sent := Events(SubAt(t.subs, who).sent);
    var rest := InHand(t.pc) + t.queue;
    assert t.fanned + rest == t.accepted;
    SubseqGrow(sent, t.fanned, rest);
  }

  // ---- what is dropped ----

  /** The step offers an event to `who`. */
  predicate OffersTo(s: State, step: Step, who: nat) {
    step.Offer? && s.pc.Fanning? && s.pc.targets != [] && s.pc.targets[0] == who
  }

  /** The events offered to `who` in a run; of them those that met a queue with room, and those that met a full one. */
  ghost function OfferedIn(l: Limits, s: State, run: seq<Step>, who: nat): seq<EventId>
    requires ValidRun(l, s, run)
    decreases |run|
  {
    if run == [] then []
    else (if OffersTo(s, run[0], who) then [s.pc.event] else []) + OfferedIn(l, Apply(l, s, run[0]), run[1..], who)
  }

  ghost function MetRoom(l: Limits, s: State, run: seq<Step>, who: nat): seq<EventId>
    requires ValidRun(l, s, run)
    decreases |run|
  {
    if run == [] then []
    else
      (if OffersTo(s, run[0], who) && HasRoom(SubAt(s.subs, who), l.delivery) then [s.pc.event] else [])
      + MetRoom(l, Apply(l, s, run[0]), run[1..], who)
  }

  ghost function MetFull(l: Limits, s: State, run: seq<Step>, who: nat): seq<EventId>
    requires ValidRun(l, s, run)
    decreases |run|
  {
    if run == [] then []
    else
      (if OffersTo(s, run[0], who) && !HasRoom(SubAt(s.subs, who), l.delivery) then [s.pc.event] else [])
      + MetFull(l, Apply(l, s, run[0]), run[1..], who)
  }

  lemma EventsAppend(a: seq<Delivered>, d: Delivered)
    ensures Events(a + [d]) == Events(a) + [d.event]
  {
  }

  lemma StepSends(l: Limits, s: State, step: Step, who: nat)
    requires ConsumersBehind(s.subs) && Enabled(s, step)
    ensures
      var sub, sub' := SubAt(s.subs, who), SubAt(Apply(l, s, step).subs, who);
      && sub'.offered == sub.offered + (if OffersTo(s, step, who) then [s.pc.event] else [])
      && Events(sub'.sent) == Events(sub.sent)
           + (if OffersTo(s, step, who) && HasRoom(sub, l.delivery) then [s.pc.event] else [])
  {
    var sub := SubAt(s.subs, who);
    SubAfterStep(l, s, step, who);
    assert Events(sub.sent) + [] == Events(sub.sent) && sub.offered + [] == sub.offered;
    if OffersTo(s, step, who) {
      OfferDelivers(sub, s.pc.event, l.delivery);
      EventsAppend(sub.sent, Delivered(s.pc.event, sub.dropped));
    }
  }

  lemma {:induction false} RunSends(l: Limits, s: State, run: seq<Step>, who: nat)
    requires ValidRun(l, s, run)
    ensures
      var sub, sub' := SubAt(s.subs, who), SubAt(Final(l, s, run).subs, who);
      && sub'.offered == sub.offered + OfferedIn(l, s, run, who)
      && Events(sub'.sent) == Events(sub.sent) + MetRoom(l, s, run, who)
    decreases |run|
  {
    var sub := SubAt(s.subs, who);
    if run == [] {
      assert Events(sub.sent) + [] == Events(sub.sent) && sub.offered + [] == sub.offered;
    } else {
      var hit, room := OffersTo(s, run[0], who), HasRoom(sub, l.delivery);
      StepSends(l, s, run[0], who);
      RunSends(l, Apply(l, s, run[0]), run[1..], who);
      Regroup(sub.offered, if hit then [s.pc.event] else [], OfferedIn(l, Apply(l, s, run[0]), run[1..], who));
      Regroup(Events(sub.sent), if hit && room then [s.pc.event] else [], MetRoom(l, Apply(l, s, run[0]), run[1..], who));
    }
  }

  lemma Regroup(a: seq<EventId>, b: seq<EventId>, c: seq<EventId>)
    ensures a + b + c == a + (b + c)
  {
  }

  lemma {:induction false} RoomOrFull(l: Limits, s: State, run: seq<Step>, who: nat, e: EventId)
    requires ValidRun(l, s, run) && NoDup(OfferedIn(l, s, run, who))
    ensures e in OfferedIn(l, s, run, who) <==> e in MetRoom(l, s, run, who) || e in MetFull(l, s, run, who)
    ensures !(e in MetRoom(l, s, run, who) && e in MetFull(l, s, run, who))
    ensures MetFull(l, s, run, who) == [] ==> MetRoom(l, s, run, who) == OfferedIn(l, s, run, who)
    decreases |run|
  {
    if run != [] {
      var all, rest := OfferedIn(l, s, run, who), OfferedIn(l, Apply(l, s, run[0]), run[1..], who);
      if OffersTo(s, run[0], who) {
        assert all == [s.pc.event] + rest;
        NoDupTail(all);
      } else {
        assert all == rest;
      }
      RoomOrFull(l, Apply(l, s, run[0]), run[1..], who, e);
      assert s.pc.Fanning? && all == [s.pc.event] + rest ==> s.pc.event !in rest;
    }
  }

  lemma NoDupTail(s: seq<EventId>)
    requires NoDup(s) && s != []
    ensures NoDup(s[1..]) && s[0] !in s[1..]
  {
  }

  /** A subscriber is sent exactly the events whose offer met a queue with room, in order: an event is dropped if and only
      if the queue was full when it was offered, and nothing is where it never was. */
  lemma DroppedExactlyWhenFull(l: Limits, s: State, run: seq<Step>, who: nat)
    requires Initial(s) && ValidRun(l, s, run)
    ensures
      var sub := SubAt(Final(l, s, run).subs, who);
      && sub.offered == OfferedIn(l, s, run, who) && Events(sub.sent) == MetRoom(l, s, run, who)
      && (forall e :: e in sub.offered ==> (e !in Events(sub.sent) <==> e in MetFull(l, s, run, who)))
      && (MetFull(l, s, run, who) == [] ==> Events(sub.sent) == sub.offered)
  {
    SentFromStart(l, s, run, who);
    SubscriberIsOffered(l, s, run, who);
    RoomOrFullFor(l, s, run, who);
  }

  lemma SentFromStart(l: Limits, s: State, run: seq<Step>, who: nat)
    requires Initial(s) && ValidRun(l, s, run)
    ensures
      var sub := SubAt(Final(l, s, run).subs, who);
      sub.offered == OfferedIn(l, s, run, who) && Events(sub.sent) == MetRoom(l, s, run, who)
  {
    RunSends(l, s, run, who);
    assert Events(NEW_SUB.sent) == [];
    assert [] + OfferedIn(l, s, run, who) == OfferedIn(l, s, run, who);
    assert [] + MetRoom(l, s, run, who) == MetRoom(l, s, run, who);
  }

  lemma RoomOrFullFor(l: Limits, s: State, run: seq<Step>, who: nat)
    requires ValidRun(l, s, run) && NoDup(OfferedIn(l, s, run, who))
    ensures forall e :: e in OfferedIn(l, s, run, who) ==>
              (e !in MetRoom(l, s, run, who) <==> e in MetFull(l, s, run, who))
    ensures MetFull(l, s, run, who) == [] ==> MetRoom(l, s, run, who) == OfferedIn(l, s, run, who)
  {
    forall e ensures e in OfferedIn(l, s, run, who) ==>
                       (e !in MetRoom(l, s, run, who) <==> e in MetFull(l, s, run, who)) {
      RoomOrFull(l, s, run, who, e);
    }
    RoomOrFull(l, s, run, who, 0);
  }

  // ---- the pump ends ----

  function PcRank(pc: Pc): nat {
    match pc
    case NotStarted => 7
    case Waiting => 6
    case Batching(_) => 5
    case Fanning(_, targets, _, _) => 4 + |targets|
    case FanBatch(_, _) => 3
    case Draining => 2
    case Leaving => 1
    case Exited => 0
  }

  function Work(s: State): nat { 3 * |s.ready| + 2 * |s.queue| + |InHand(s.pc)| }

  /** A bound on the pump steps left after a stop, when a topic has at most `m` subscribers. */
  function Remaining(s: State, m: nat): nat {
    Work(s) * (m + 8) + PcRank(s.pc)
  }

  predicate AtMost(step: Step, m: nat) { step.StartFan? ==> |step.targets| <= m }

  lemma LessWork(w: nat, w': nat, c: nat)
    requires w' < w
    ensures w' * c + c <= w * c
  {
    var d: nat := w - w' - 1;
    assert w * c == (w' + 1 + d) * c == w' * c + c + d * c;
  }

  lemma StoppedStepDescends(l: Limits, s: State, step: Step, m: nat)
    requires ConsumersBehind(s.subs) && Enabled(s, step) && s.stopped && s.token && AtMost(step, m)
    ensures
      var t := Apply(l, s, step);
      t.stopped && t.token && Remaining(t, m) + (if PumpStep(step) then 1 else 0) <= Remaining(s, m)
  {
    var t := Apply(l, s, step);
    assert Work(t) <= Work(s);
    if Work(t) < Work(s) {
      LessWork(Work(s), Work(t), m + 8);
    }
  }

  function PumpSteps(run: seq<Step>): nat {
    if run == [] then 0 else (if PumpStep(run[0]) then 1 else 0) + PumpSteps(run[1..])
  }

  /** Once stopped the pump takes a bounded number of steps, whatever publishers and consumers do. */
  lemma {:induction false} StoppedPumpIsBounded(l: Limits, s: State, run: seq<Step>, m: nat)
    requires ValidRun(l, s, run) && s.stopped && s.token
    requires forall step :: step in run ==> AtMost(step, m)
    ensures PumpSteps(run) + Remaining(Final(l, s, run), m) <= Remaining(s, m)
    decreases |run|
  {
    if run != [] {
      StoppedStepDescends(l, s, run[0], m);
      StoppedPumpIsBounded(l, Apply(l, s, run[0]), run[1..], m);
    }
  }

  /** And until it is gone it always has a step to take. */
  lemma StoppedPumpCanStep(s: State) returns (step: Step)
    requires s.token && !s.pc.NotStarted? && !s.pc.Exited?
    ensures PumpStep(step) && Enabled(s, step) && AtMost(step, 0)
  {
    match s.pc
    case Waiting => step := TakeToken;
    case Batching(_) => step := ReceiveMore;
    case FanBatch(batch, _) => step := if batch == [] then FinishBatch else StartFan([]);
    case Fanning(_, targets, _, _) => step := if targets == [] then FinishEvent else Offer;
    case Draining => step := if s.queue == [] then DrainDone else DrainOne;
    case Leaving => step := CloseInbound;
  }

  // ---- runs that show what can happen ----

  lemma {:induction false} RunAppend(l: Limits, s: State, run: seq<Step>, step: Step)
    requires Inv(l, s) && ValidRun(l, s, run) && Enabled(Final(l, s, run), step)
    ensures ValidRun(l, s, run + [step])
    ensures ConsumersBehind(Final(l, s, run).subs)
    ensures Final(l, s, run + [step]) == Apply(l, Final(l, s, run), step)
    decreases |run|
  {
    if run == [] {
      assert [step][1..] == [];
      assert run + [step] == [step];
      assert ValidRun(l, Apply(l, s, step), []);
    } else {
      StepKeepsInv(l, s, run[0]);
      RunAppend(l, Apply(l, s, run[0]), run[1..], step);
      assert (run + [step])[1..] == run[1..] + [step];
    }
  }

  /** From every fresh bus with room for an event there is a run that answers `Ok`, ends the pump, and delivers
      nothing. */
  lemma LateSendHappens(l: Limits, s: State) returns (run: seq<Step>)
    requires Initial(s) && l.inbound > 0
    ensures ValidRun(l, s, run) && Final(l, s, run).pc.Exited?
    ensures Final(l, s, run).accepted == [s.nextEvent] && Final(l, s, run).fanned == []
  {
    InitialInv(l, s);
    RunAppend(l, s, [], Begin);
    run := [] + [Begin];
    RunAppend(l, s, run, Stop);
    run := run + [Stop];
    RunAppend(l, s, run, CancelToken);
    run := run + [CancelToken];
    RunAppend(l, s, run, TakeToken);
    run := run + [TakeToken];
    RunAppend(l, s, run, DrainDone);
    run := run + [DrainDone];
    RunAppend(l, s, run, TrySend(s.nextEvent));
    run := run + [TrySend(s.nextEvent)];
    RunAppend(l, s, run, CloseInbound);
    run := run + [CloseInbound];
  }

  // ---- how large a batch gets ----

  /** The pump keeps collecting one batch during the whole run. */
  ghost predicate Collecting(l: Limits, s: State, run: seq<Step>)
    decreases |run|
  {
    && s.pc.Batching?
    && (run == [] ||
        (ConsumersBehind(s.subs) && Enabled(s, run[0]) && Collecting(l, Apply(l, s, run[0]), run[1..])))
  }

  lemma CollectingStep(l: Limits, s: State, step: Step)
    requires s.pc.Batching? && ConsumersBehind(s.subs) && Enabled(s, step) && Apply(l, s, step).pc.Batching?
    ensures
      var t := Apply(l, s, step);
      && t.fanned == s.fanned && |s.accepted| <= |t.accepted|
      && |t.pc.batch| + |t.queue| - |t.accepted| == |s.pc.batch| + |s.queue| - |s.accepted|
  {
  }

  /** While a batch is collected it grows, together with the queue, by exactly the accepted sends, and nothing is
      fanned out. */
  lemma {:induction false} BatchGrowsBySends(l: Limits, s: State, run: seq<Step>)
    requires Collecting(l, s, run)
    ensures ValidRun(l, s, run)
    ensures
      var t := Final(l, s, run);
      && t.pc.Batching? && t.fanned == s.fanned && |s.accepted| <= |t.accepted|
      && |t.pc.batch| + |t.queue| == |s.pc.batch| + |s.queue| + (|t.accepted| - |s.accepted|)
    decreases |run|
  {
    if run != [] {
      var next := Apply(l, s, run[0]);
      assert Collecting(l, next, run[1..]);
      BatchGrowsBySends(l, next, run[1..]);
      CollectingStep(l, s, run[0]);
    }
  }

  /** A batch that ends with the empty receive is exactly what was accepted and not yet fanned out: its size is
      the queue's length at the first receive plus the number of sends accepted while it was collected.  So it
      stays within the inbound capacity if and only if that sum does, and always when nothing is accepted
      meanwhile. */
  lemma BatchSize(l: Limits, s: State, run: seq<Step>)
    requires Inv(l, s) && Enabled(s, Receive)
    requires ConsumersBehind(s.subs) && Collecting(l, Apply(l, s, Receive), run)
    requires ValidRun(l, Apply(l, s, Receive), run) && Final(l, Apply(l, s, Receive), run).queue == []
    ensures
      var t := Final(l, Apply(l, s, Receive), run);
      && ConsumersBehind(t.subs) && Enabled(t, ReceiveMore) && |s.fanned| <= |t.accepted|
      && var batch := t.accepted[|s.fanned|..];
      && Apply(l, t, ReceiveMore).pc == FanBatch(batch, false)
      && var meanwhile := |t.accepted| - |s.accepted|;
      && meanwhile >= 0 && |batch| == |s.queue| + meanwhile
      && (|batch| <= l.inbound <==> |s.queue| + meanwhile <= l.inbound)
      && (meanwhile == 0 ==> |batch| <= l.inbound)
  {
    var u := Apply(l, s, Receive);
    StepKeepsInv(l, s, Receive);
    BatchGrowsBySends(l, u, run);
    InvOverRuns(l, u, run);
    var t := Final(l, u, run);
    StepKeepsInv(l, t, ReceiveMore);
    BatchIsLastPart(t.fanned, t.pc.batch, t.accepted);
    assert |s.fanned| + |s.queue| == |s.accepted|;
  }

  lemma BatchIsLastPart(fanned: seq<EventId>, batch: seq<EventId>, accepted: seq<EventId>)
    requires fanned + batch + [] == accepted
    ensures batch == accepted[|fanned|..]
  {
  }

  /** The batch the pump collects is not bounded by the capacity of the inbound queue: publishers refill the
      queue while it is being emptied, so even with room for a single event a batch can reach any size. */
  lemma {:induction false} BatchesAreUnbounded(l: Limits, s: State, n: nat) returns (run: seq<Step>)
    requires Initial(s) && l.inbound > 0
    ensures ValidRun(l, s, run)
    ensures Final(l, s, run).pc.Batching? && |Final(l, s, run).pc.batch| == n + 1
    ensures Final(l, s, run).queue == [] && !Final(l, s, run).stopped
  {
    InitialInv(l, s);
    if n == 0 {
      run := [];
    } else {
      run := BatchesAreUnbounded(l, s, n - 1);
    }
    var e := Final(l, s, run).nextEvent;
    RunAppend(l, s, run, Begin);
    run := run + [Begin];
    RunAppend(l, s, run, TrySend(e));
    run := run + [TrySend(e)];
    var receive := if n == 0 then Receive else ReceiveMore;
    RunAppend(l, s, run, receive);
    run := run + [receive];
  }
}
