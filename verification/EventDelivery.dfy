/**
 The delivery side of the event bus: one bounded queue per subscriber and the count of events dropped
 since the last delivery that got through.
 */
module EventDelivery {
  import opened Prelude

  type EventId = nat

  datatype Delivered = Delivered(event: EventId, dropped: nat)

  /** `sent` is everything the queue has accepted, of which the consumer has taken the first `consumed`;
      `offered` is everything fanned out to this subscription. */
  datatype Sub = Sub(sent: seq<Delivered>, consumed: nat, offered: seq<EventId>, dropped: nat)

  const NEW_SUB := Sub([], 0, [], 0)

  function Queue(s: Sub): seq<Delivered>
    requires s.consumed <= |s.sent|
  {
    s.sent[s.consumed..]
  }

  function OfferTo(s: Sub, e: EventId, capacity: nat): Sub
    requires s.consumed <= |s.sent|
  {
    if |Queue(s)| < capacity then
      s.(sent := s.sent + [Delivered(e, s.dropped)], offered := s.offered + [e], dropped := 0)
    else
      s.(offered := s.offered + [e], dropped := if s.dropped < U64_MAX then s.dropped + 1 else U64_MAX)
  }

  /** The consumer is less than `capacity` deliveries behind. */
  predicate HasRoom(s: Sub, capacity: nat) { |s.sent| < s.consumed + capacity }

  /** What an offer makes of a subscription: with room the event goes out with the drops since the last delivery and the
      count starts over; without, the event is dropped and counted. */
  predicate Offered(s: Sub, t: Sub, e: EventId, capacity: nat) {
    && t.consumed == s.consumed && t.offered == s.offered + [e]
    && (HasRoom(s, capacity) ==> t.sent == s.sent + [Delivered(e, s.dropped)] && t.dropped == 0)
    && (!HasRoom(s, capacity) ==>
          t.sent == s.sent && t.dropped == if s.dropped < U64_MAX then s.dropped + 1 else U64_MAX)
  }

  /** An event is dropped exactly when the queue is full when it is offered. */
  lemma OfferDelivers(s: Sub, e: EventId, capacity: nat)
    requires s.consumed <= |s.sent|
    ensures Offered(s, OfferTo(s, e, capacity), e, capacity)
  {
  }

  /** The number of offered events a run of deliveries accounts for. */
  function Weight(sent: seq<Delivered>): nat {
    if sent == [] then 0 else Weight(sent[..|sent| - 1]) + 1 + sent[|sent| - 1].dropped
  }

  /** The `i`-th delivery is the offered event right after the drops it reports. */
  predicate SentInPlace(sent: seq<Delivered>, offered: seq<EventId>, i: nat)
    requires i < |sent|
  {
    var place := Weight(sent[..i]) + sent[i].dropped;
    place < |offered| && offered[place] == sent[i].event
  }

  predicate Balanced(s: Sub) {
    && s.consumed <= |s.sent|
    && (|s.offered| <= U64_MAX ==>
          && Weight(s.sent) + s.dropped == |s.offered|
          && (forall i :: 0 <= i < |s.sent| ==> SentInPlace(s.sent, s.offered, i)))
  }

  lemma OfferKeepsPlaces(s: Sub, e: EventId, capacity: nat, i: nat)
    requires s.consumed <= |s.sent| && i < |s.sent| && SentInPlace(s.sent, s.offered, i)
    ensures SentInPlace(OfferTo(s, e, capacity).sent, OfferTo(s, e, capacity).offered, i)
  {
    var t := OfferTo(s, e, capacity);
    assert t.sent[..i] == s.sent[..i];
  }

  /** The drop ledger survives every fan-out, whatever the queue does. */
  lemma OfferKeepsBalance(s: Sub, e: EventId, capacity: nat)
    requires Balanced(s)
    ensures Balanced(OfferTo(s, e, capacity))
    ensures |Queue(s)| <= capacity ==> |Queue(OfferTo(s, e, capacity))| <= capacity
  {
    var t := OfferTo(s, e, capacity);
    if |t.offered| <= U64_MAX {
      if |t.sent| > |s.sent| {
        assert t.sent[..|t.sent| - 1] == s.sent;
        assert SentInPlace(t.sent, t.offered, |s.sent|);
      }
      forall i | 0 <= i < |t.sent| ensures SentInPlace(t.sent, t.offered, i) {
        if i < |s.sent| { OfferKeepsPlaces(s, e, capacity, i); }
      }
    }
  }

  // ---- order-preserving subsequences ----

  predicate IsSubseq(a: seq<EventId>, b: seq<EventId>)
    decreases |b|
  {
    if a == [] then true
    else if b == [] then false
    else
      || (a[|a| - 1] == b[|b| - 1] && IsSubseq(a[..|a| - 1], b[..|b| - 1]))
      || IsSubseq(a, b[..|b| - 1])
  }

  lemma {:induction false} SubseqPrefix(a: seq<EventId>, b: seq<EventId>, n: nat)
    requires IsSubseq(a, b) && n <= |a|
    ensures IsSubseq(a[..n], b)
    decreases |b|
  {
    if n < |a| && b != [] {
      if a[|a| - 1] == b[|b| - 1] && IsSubseq(a[..|a| - 1], b[..|b| - 1]) {
        SubseqPrefix(a[..|a| - 1], b[..|b| - 1], n);
        assert a[..|a| - 1][..n] == a[..n];
      } else {
        SubseqPrefix(a, b[..|b| - 1], n);
      }
    } else {
      assert n == |a| ==> a[..n] == a;
    }
  }

  lemma {:induction false} SubseqGrow(a: seq<EventId>, b: seq<EventId>, more: seq<EventId>)
    requires IsSubseq(a, b)
    ensures IsSubseq(a, b + more)
  {
    if more == [] {
      assert b + more == b;
    } else {
      var init := more[..|more| - 1];
      SubseqGrow(a, b, init);
      assert b + more == b + init + [more[|more| - 1]];
    }
  }

  lemma {:induction false} SubseqMember(a: seq<EventId>, b: seq<EventId>, i: nat)
    requires IsSubseq(a, b) && i < |a|
    ensures a[i] in b
    decreases |b|
  {
    if a[|a| - 1] == b[|b| - 1] && IsSubseq(a[..|a| - 1], b[..|b| - 1]) {
      if i < |a| - 1 {
        SubseqMember(a[..|a| - 1], b[..|b| - 1], i);
        assert a[i] in b[..|b| - 1];
      }
    } else {
      SubseqMember(a, b[..|b| - 1], i);
    }
  }

  lemma {:induction false} SubseqNoDup(a: seq<EventId>, b: seq<EventId>)
    requires IsSubseq(a, b) && NoDup(b)
    ensures NoDup(a)
    decreases |b|
  {
    if a != [] {
      var a', b' := a[..|a| - 1], b[..|b| - 1];
      if a[|a| - 1] == b[|b| - 1] && IsSubseq(a', b') {
        SubseqNoDup(a', b');
        forall i | 0 <= i < |a'| ensures a[i] != a[|a| - 1] {
          SubseqMember(a', b', i);
          var j :| 0 <= j < |b'| && b'[j] == a'[i];
          assert b[j] != b[|b| - 1];
        }
        forall i, j | 0 <= i < j < |a| ensures a[i] != a[j] {
          if j < |a'| { assert a'[i] != a'[j]; }
        }
      } else {
        SubseqNoDup(a, b');
      }
    }
  }

  function Events(sent: seq<Delivered>): (r: seq<EventId>)
    ensures |r| == |sent|
  {
    seq(|sent|, i requires 0 <= i < |sent| => sent[i].event)
  }

  lemma OfferKeepsOrder(s: Sub, e: EventId, capacity: nat, before: seq<EventId>)
    requires s.consumed <= |s.sent| && IsSubseq(Events(s.sent), before)
    ensures IsSubseq(Events(OfferTo(s, e, capacity).sent), before + [e])
  {
    var sent' := OfferTo(s, e, capacity).sent;
    if sent' == s.sent + [Delivered(e, s.dropped)] {
      assert Events(sent') == Events(s.sent) + [e];
    } else {
      assert sent' == s.sent;
    }
  }

  // ---- one event to every subscriber of its topic ----

  type Subs = map<nat, Sub>

  function SubAt(subs: Subs, who: nat): Sub { if who in subs then subs[who] else NEW_SUB }

  predicate ConsumersBehind(subs: Subs) { forall who :: who in subs ==> subs[who].consumed <= |subs[who].sent| }

  /** The subscriber tables after offering `e` to `targets` in turn. */
  function OfferAll(subs: Subs, e: EventId, targets: seq<nat>, capacity: nat): (r: Subs)
    requires ConsumersBehind(subs)
    ensures ConsumersBehind(r)
    decreases |targets|
  {
    if targets == [] then subs
    else
      var init := OfferAll(subs, e, targets[..|targets| - 1], capacity);
      var last := targets[|targets| - 1];
      init[last := OfferTo(SubAt(init, last), e, capacity)]
  }

  /** With a policy snapshot that names each subscriber once, every one of them is offered the event exactly
      once and nobody else is touched. */
  lemma {:induction false} OfferAllPointwise(subs: Subs, e: EventId, targets: seq<nat>, capacity: nat, who: nat)
    requires ConsumersBehind(subs) && NoDup(targets)
    ensures SubAt(OfferAll(subs, e, targets, capacity), who)
         == if who in targets then OfferTo(SubAt(subs, who), e, capacity) else SubAt(subs, who)
    decreases |targets|
  {
    if targets != [] {
      OfferAllPointwise(subs, e, targets[..|targets| - 1], capacity, who);
      assert targets == targets[..|targets| - 1] + [targets[|targets| - 1]];
    }
  }

  /** Every subscriber named is offered the event, once; for nobody else anything changes. */
  lemma FannedOutToAll(subs: Subs, e: EventId, targets: seq<nat>, capacity: nat)
    requires ConsumersBehind(subs) && NoDup(targets)
    ensures
      var after := OfferAll(subs, e, targets, capacity);
      forall who :: if who in targets then Offered(SubAt(subs, who), SubAt(after, who), e, capacity)
                    else SubAt(after, who) == SubAt(subs, who)
  {
    var after := OfferAll(subs, e, targets, capacity);
    forall who ensures if who in targets then Offered(SubAt(subs, who), SubAt(after, who), e, capacity)
                       else SubAt(after, who) == SubAt(subs, who)
    {
      OfferAllPointwise(subs, e, targets, capacity, who);
      OfferDelivers(SubAt(subs, who), e, capacity);
    }
  }

  function TakeOne(s: Sub): Sub { s.(consumed := s.consumed + 1) }

  predicate QueueOk(s: Sub, capacity: nat) { Balanced(s) && |Queue(s)| <= capacity }

  /** The subscriptions of one publishing installation. */
  class Bus {
    var subs: Subs
    const capacity: nat

    ghost predicate Valid()
      reads this
    {
      forall who :: who in subs ==> QueueOk(subs[who], capacity)
    }

    constructor (capacity: nat)
      ensures Valid() && subs == map[] && this.capacity == capacity
    {
      this.capacity := capacity;
      subs := map[];
    }

    method FanOut(e: EventId, targets: seq<nat>)
      requires Valid()
      modifies this
      ensures Valid()
      ensures ConsumersBehind(old(subs)) && subs == OfferAll(old(subs), e, targets, capacity)
      ensures NoDup(targets) ==>
        forall who :: if who in targets then Offered(SubAt(old(subs), who), SubAt(subs, who), e, capacity)
                      else SubAt(subs, who) == SubAt(old(subs), who)
    {
      for k := 0 to |targets|
        invariant Valid()
        invariant ConsumersBehind(old(subs)) && subs == OfferAll(old(subs), e, targets[..k], capacity)
      {
        OfferKeepsBalance(SubAt(subs, targets[k]), e, capacity);
        var s := OfferOne(SubAt(subs, targets[k]), e);
        assert targets[..k + 1][..k] == targets[..k];
        subs := subs[targets[k] := s];
      }
      assert targets[..|targets|] == targets;
      if NoDup(targets) { FannedOutToAll(old(subs), e, targets, capacity); }
    }

    /** One attempt to send: the event with the drops it reports, or one more drop. */
    method OfferOne(s: Sub, e: EventId) returns (t: Sub)
      requires s.consumed <= |s.sent|
      ensures t == OfferTo(s, e, capacity) && Offered(s, t, e, capacity)
    {
      var payload := Delivered(e, s.dropped);
      if |s.sent| - s.consumed < capacity {
        t := s.(sent := s.sent + [payload], dropped := 0);
      } else {
        t := s.(dropped := if s.dropped < U64_MAX then s.dropped + 1 else U64_MAX);
      }
      t := t.(offered := t.offered + [e]);
    }

    /** The consumer of one subscription takes the next delivery, if there is one. */
    method Take(who: nat) returns (next: Option<Delivered>)
      requires Valid()
      modifies this
      ensures Valid()
      ensures next.Some? <==> who in old(subs) && 0 < |Queue(old(subs)[who])|
      ensures next.Some? ==> next.value == Queue(old(subs)[who])[0]
      ensures next.Some? ==>
        && who in subs && subs[who].consumed <= |subs[who].sent| && Queue(subs[who]) == Queue(old(subs)[who])[1..]
        && subs[who].sent == old(subs)[who].sent && subs[who].offered == old(subs)[who].offered
        && subs[who].dropped == old(subs)[who].dropped
      ensures subs == if next.Some? then old(subs)[who := TakeOne(old(subs)[who])] else old(subs)
    {
      if who !in subs || subs[who].consumed == |subs[who].sent| { return None; }
      next := Some(subs[who].sent[subs[who].consumed]);
      subs := subs[who := TakeOne(subs[who])];
    }
  }
}
