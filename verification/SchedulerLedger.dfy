/**
 What a sequence of firing rounds adds up to: the batch is the same as firing every due grid point
 singly, and the delivered payloads together with the missed counter account for every fire.
 */
module SchedulerLedger {
  import opened Prelude
  import opened SchedulerFire

  // ---- the batch refines one-at-a-time firing ----

  function Interval(e: Entry): nat {
    match e.trigger
    case OneShot(_) => 0
    case Periodic(_, interval) => interval
  }

  /** Fires the single grid point the entry stands on. */
  function FireOnce(id: nat, e: Entry, delivered: bool): Fired
    requires e.next.Some?
  {
    var next := if e.trigger.OneShot? then None else CheckedAdd(e.next.value, Interval(e));
    Fired(
      e.(sequence := Saturating(e.sequence + 1),
         missed := if delivered then 0 else Saturating(e.missed + 1),
         state := if next.None? then Completed else e.state,
         next := next),
      if delivered then [Payload(id, e.sequence, e.next.value, e.missed)] else [])
  }

  /** Fires grid points one by one until none is due, against a queue that stays full once full. */
  function FireSingly(id: nat, e: Entry, now: Instant, accept: nat -> bool, k: nat, full: bool): Fired
    requires e.trigger.Periodic? ==> Interval(e) > 0
    decreases if Due(e, now) then now - e.next.value + 1 else 0
  {
    if !Due(e, now) then Fired(e, [])
    else
      var one := FireOnce(id, e, !full && accept(k));
      var rest := FireSingly(id, one.entry, now, accept, k + 1, full || !accept(k));
      Fired(rest.entry, one.payloads + rest.payloads)
  }

  /** The entry after `j` points of the batch have been fired singly. */
  function MidEntry(e: Entry, due: nat, sent: nat, j: nat): Entry
    requires e.next.Some? && j <= due && sent <= due
    requires e.next.value + Interval(e) * j <= MAX_INSTANT
  {
    e.(sequence := Saturating(e.sequence + j),
       missed := if j <= sent then (if j == 0 then e.missed else 0) else MissedAfter(e, sent, j),
       next := Some(e.next.value + Interval(e) * j))
  }

  lemma {:induction false} SinglesFromMiddle(id: nat, e: Entry, now: Instant, accept: nat -> bool, j: nat)
    requires Due(e, now) && e.trigger.Periodic? && Interval(e) > 0
    requires j < DueCount(e, now) <= U32_MAX
    requires e.next.value + Interval(e) * j <= now
    ensures
      var due := DueCount(e, now);
      var sent := FirstRefusal(accept, 0, due);
      var batch := FireEntry(id, e, now, accept);
      FireSingly(id, MidEntry(e, due, sent, j), now, accept, j, sent < j)
        == Fired(batch.entry, if j < sent then batch.payloads[j..] else [])
    decreases DueCount(e, now) - j
  {
    var due := DueCount(e, now);
    var sent := FirstRefusal(accept, 0, due);
    MiddleStep(id, e, now, accept, j);
    if j + 1 < due {
      BatchEndsAfterNow(e.next.value, now, Interval(e));
      MulMonotone(Interval(e), j + 1, due - 1);
      SinglesFromMiddle(id, e, now, accept, j + 1);
      PayloadsFrom(id, e, now, accept, j);
    } else {
      LastPoint(id, e, now, accept);
    }
  }

  lemma PayloadsFrom(id: nat, e: Entry, now: Instant, accept: nat -> bool, j: nat)
    requires Due(e, now) && e.trigger.Periodic?
    ensures
      var payloads := FireEntry(id, e, now, accept).payloads;
      j < |payloads| ==> payloads[j..] == [PointPayload(id, e, Interval(e), j)] + payloads[j + 1..]
  {
  }

  /** One single fire out of the middle of a batch. */
  lemma MiddleStep(id: nat, e: Entry, now: Instant, accept: nat -> bool, j: nat)
    requires Due(e, now) && e.trigger.Periodic? && Interval(e) > 0
    requires j < DueCount(e, now) <= U32_MAX
    requires e.next.value + Interval(e) * j <= now
    ensures
      var due := DueCount(e, now);
      var sent := FirstRefusal(accept, 0, due);
      var one := FireOnce(id, MidEntry(e, due, sent, j), sent >= j && accept(j));
      && (sent < j || !accept(j)) == (sent < j + 1)
      && one.payloads == (if j < sent then [PointPayload(id, e, Interval(e), j)] else [])
      && (j + 1 < due && e.next.value + Interval(e) * (j + 1) <= now ==>
            one.entry == MidEntry(e, due, sent, j + 1))
  {
    var due := DueCount(e, now);
    var sent := FirstRefusal(accept, 0, due);
    assert (sent < j || !accept(j)) == (sent < j + 1);
    assert (sent >= j && accept(j)) == (j < sent);
    GridOffsetIsExact(e.next.value, now, Interval(e), j);
    if j + 1 < due && e.next.value + Interval(e) * (j + 1) <= now {
      MiddleEntry(id, e, due, sent, j);
    }
  }

  lemma MiddleEntry(id: nat, e: Entry, due: nat, sent: nat, j: nat)
    requires e.trigger.Periodic? && e.next.Some? && e.state == Scheduled
    requires j + 1 < due && sent <= due
    requires e.next.value + Interval(e) * j <= MAX_INSTANT
    requires e.next.value + Interval(e) * (j + 1) <= MAX_INSTANT
    ensures FireOnce(id, MidEntry(e, due, sent, j), j < sent).entry == MidEntry(e, due, sent, j + 1)
  {
    NextPoint(e.next.value, Interval(e), j);
  }

  lemma NextPoint(next: nat, interval: nat, j: nat)
    ensures next + interval * j + interval == next + interval * (j + 1)
  {
  }

  lemma LastPoint(id: nat, e: Entry, now: Instant, accept: nat -> bool)
    requires Due(e, now) && e.trigger.Periodic? && Interval(e) > 0
    requires 1 <= DueCount(e, now) <= U32_MAX
    requires e.next.value + Interval(e) * (DueCount(e, now) - 1) <= now
    ensures
      var due := DueCount(e, now);
      var sent := FirstRefusal(accept, 0, due);
      var last := FireOnce(id, MidEntry(e, due, sent, due - 1), sent >= due - 1 && accept(due - 1)).entry;
      last == FireEntry(id, e, now, accept).entry && !Due(last, now)
  {
    var due := DueCount(e, now);
    NextPoint(e.next.value, Interval(e), due - 1);
    BatchEndsAfterNow(e.next.value, now, Interval(e));
  }

  /** The constant-time batch gives the same payloads, missed count, sequence number and next fire as firing
      each due grid point singly. */
  lemma BatchRefinesSingles(id: nat, e: Entry, now: Instant, accept: nat -> bool)
    requires Due(e, now) && e.trigger.Periodic? && Interval(e) > 0
    requires DueCount(e, now) <= U32_MAX
    ensures FireEntry(id, e, now, accept) == FireSingly(id, e, now, accept, 0, false)
  {
    var due := DueCount(e, now);
    var sent := FirstRefusal(accept, 0, due);
    BatchEndsAfterNow(e.next.value, now, Interval(e));
    SinglesFromMiddle(id, e, now, accept, 0);
    assert MidEntry(e, due, sent, 0) == e;
    var payloads := FireEntry(id, e, now, accept).payloads;
    assert payloads[0..] == payloads;
  }

  // ---- the missed-fire ledger ----

  function SequenceBefore(log: seq<Payload>, i: nat): nat
    requires i <= |log|
  {
    if i == 0 then 0 else log[i - 1].sequence
  }

  /** The payload carries exactly the gap to the previously delivered sequence number. */
  predicate CarriesItsGap(log: seq<Payload>, i: nat)
    requires i < |log|
  {
    log[i].sequence == SequenceBefore(log, i) + log[i].missed + 1
  }

  /** Every payload carries its gap, and the entry carries the gap since the last one. */
  predicate CountLedger(e: Entry, log: seq<Payload>) {
    && (forall i :: 0 <= i < |log| ==> CarriesItsGap(log, i))
    && e.sequence == SequenceBefore(log, |log|) + e.missed + 1
  }

  /** Every payload was scheduled on its own grid point, and the entry stands on the next one. */
  predicate GridLedger(e: Entry, log: seq<Payload>) {
    && e.sequence >= 1
    && (forall i :: 0 <= i < |log| ==>
          && log[i].sequence >= 1
          && log[i].scheduledAt == FirstFireAt(e.trigger) + Interval(e) * (log[i].sequence - 1))
    && (e.next.Some? ==> e.next.value == FirstFireAt(e.trigger) + Interval(e) * (e.sequence - 1))
  }

  /** The number of fires the log accounts for. */
  function Weight(log: seq<Payload>): nat {
    if log == [] then 0 else Weight(log[..|log| - 1]) + 1 + log[|log| - 1].missed
  }

  lemma {:induction false} WeightIsLastSequence(log: seq<Payload>)
    requires forall i :: 0 <= i < |log| ==> CarriesItsGap(log, i)
    ensures Weight(log) == SequenceBefore(log, |log|)
  {
    if log != [] {
      var init := log[..|log| - 1];
      forall i | 0 <= i < |init| ensures CarriesItsGap(init, i) {
        assert CarriesItsGap(log, i);
      }
      WeightIsLastSequence(init);
      assert CarriesItsGap(log, |log| - 1);
    }
  }

  lemma FireKeepsCountLedger(id: nat, e: Entry, now: Instant, accept: nat -> bool, log: seq<Payload>)
    requires Due(e, now) && CountLedger(e, log)
    requires e.sequence + DueCount(e, now) <= U64_MAX
    ensures CountLedger(FireEntry(id, e, now, accept).entry, log + FireEntry(id, e, now, accept).payloads)
  {
    var fired := FireEntry(id, e, now, accept);
    CountLedgerExtends(e, fired.entry, log, fired.payloads, DueCount(e, now));
  }

  lemma CountLedgerExtends(e: Entry, e': Entry, log: seq<Payload>, more: seq<Payload>, due: nat)
    requires CountLedger(e, log) && |more| <= due
    requires forall k :: 0 <= k < |more| ==>
      more[k].sequence == e.sequence + k && more[k].missed == if k == 0 then e.missed else 0
    requires e'.sequence == e.sequence + due
    requires e'.missed == (if |more| == 0 then e.missed else 0) + (due - |more|)
    ensures CountLedger(e', log + more)
  {
    var all := log + more;
    forall i | 0 <= i < |all| ensures CarriesItsGap(all, i) {
      if i < |log| {
        assert CarriesItsGap(log, i);
      } else {
        assert all[i] == more[i - |log|];
      }
    }
  }

  lemma GridShift(base: nat, interval: nat, s: nat, k: nat)
    requires s >= 1
    ensures base + interval * (s - 1) + interval * k == base + interval * (s + k - 1)
  {
  }

  lemma PayloadOnGrid(id: nat, e: Entry, now: Instant, accept: nat -> bool, k: nat)
    requires Due(e, now) && GridLedger(e, [])
    requires DueCount(e, now) <= U32_MAX && e.sequence + DueCount(e, now) <= U64_MAX
    requires k < |FireEntry(id, e, now, accept).payloads|
    ensures
      var p := FireEntry(id, e, now, accept).payloads[k];
      p.sequence == e.sequence + k
      && p.scheduledAt == FirstFireAt(e.trigger) + Interval(e) * (p.sequence - 1)
  {
    if e.trigger.Periodic? {
      GridOffsetIsExact(e.next.value, now, Interval(e), k);
      GridShift(FirstFireAt(e.trigger), Interval(e), e.sequence, k);
    }
  }

  lemma NextOnGrid(id: nat, e: Entry, now: Instant, accept: nat -> bool)
    requires Due(e, now) && GridLedger(e, [])
    requires DueCount(e, now) <= U32_MAX && e.sequence + DueCount(e, now) <= U64_MAX
    ensures GridLedger(FireEntry(id, e, now, accept).entry, [])
  {
    if e.trigger.Periodic? {
      GridShift(FirstFireAt(e.trigger), Interval(e), e.sequence, DueCount(e, now));
    }
  }

  /** A round leaves the grid exactly when the task has fallen further behind than the 32-bit factor reaches. */
  lemma GridKeptExactly(id: nat, e: Entry, now: Instant, accept: nat -> bool)
    requires Due(e, now) && GridLedger(e, []) && (e.trigger.Periodic? ==> Interval(e) > 0)
    requires e.sequence + DueCount(e, now) <= U64_MAX
    ensures GridLedger(FireEntry(id, e, now, accept).entry, []) <==> DueCount(e, now) <= U32_MAX
  {
    if DueCount(e, now) <= U32_MAX {
      NextOnGrid(id, e, now, accept);
    } else {
      var due := DueCount(e, now);
      DueGridPointsAreRepresentable(e.next.value, now, Interval(e), U32_MAX);
      GridShift(FirstFireAt(e.trigger), Interval(e), e.sequence, due);
      StrictlyMore(Interval(e), U32_MAX, due);
    }
  }

  lemma StrictlyMore(a: nat, k: nat, m: nat)
    requires a > 0 && k < m
    ensures a * k < a * m
  {
  }

  lemma FireKeepsGridLedger(id: nat, e: Entry, now: Instant, accept: nat -> bool, log: seq<Payload>)
    requires Due(e, now) && GridLedger(e, log)
    requires DueCount(e, now) <= U32_MAX && e.sequence + DueCount(e, now) <= U64_MAX
    ensures GridLedger(FireEntry(id, e, now, accept).entry, log + FireEntry(id, e, now, accept).payloads)
  {
    var fired := FireEntry(id, e, now, accept);
    var all := log + fired.payloads;
    NextOnGrid(id, e, now, accept);
    forall i | 0 <= i < |all|
      ensures all[i].sequence >= 1
           && all[i].scheduledAt == FirstFireAt(e.trigger) + Interval(e) * (all[i].sequence - 1)
    {
      if i < |log| {
        assert all[i] == log[i];
      } else {
        assert all[i] == fired.payloads[i - |log|];
        PayloadOnGrid(id, e, now, accept, i - |log|);
      }
    }
  }

  // ---- runs of firing rounds ----

  datatype Round = Round(now: Instant, accept: nat -> bool)

  function FireRound(id: nat, e: Entry, round: Round): Fired {
    if Due(e, round.now) then FireEntry(id, e, round.now, round.accept) else Fired(e, [])
  }

  function FireRounds(id: nat, e: Entry, rounds: seq<Round>): Fired
    decreases |rounds|
  {
    if rounds == [] then Fired(e, [])
    else
      var before := FireRounds(id, e, rounds[..|rounds| - 1]);
      var last := FireRound(id, before.entry, rounds[|rounds| - 1]);
      Fired(last.entry, before.payloads + last.payloads)
  }

  /** No round of the run meets more due points than fit the 32-bit grid factor, and the 64-bit sequence
      number never saturates. */
  predicate WithinCounters(id: nat, e: Entry, rounds: seq<Round>)
    decreases |rounds|
  {
    rounds == [] ||
    var before := FireRounds(id, e, rounds[..|rounds| - 1]).entry;
    var now := rounds[|rounds| - 1].now;
    && WithinCounters(id, e, rounds[..|rounds| - 1])
    && (Due(before, now) ==>
          DueCount(before, now) <= U32_MAX && before.sequence + DueCount(before, now) <= U64_MAX)
  }

  lemma {:induction false} RoundsKeepLedgers(id: nat, trigger: Trigger, rounds: seq<Round>)
    requires WithinCounters(id, NewEntry(trigger), rounds)
    ensures
      var run := FireRounds(id, NewEntry(trigger), rounds);
      run.entry.trigger == trigger && CountLedger(run.entry, run.payloads) && GridLedger(run.entry, run.payloads)
    decreases |rounds|
  {
    if rounds != [] {
      var init, last := rounds[..|rounds| - 1], rounds[|rounds| - 1];
      RoundsKeepLedgers(id, trigger, init);
      var before := FireRounds(id, NewEntry(trigger), init);
      if Due(before.entry, last.now) {
        FireKeepsCountLedger(id, before.entry, last.now, last.accept, before.payloads);
        FireKeepsGridLedger(id, before.entry, last.now, last.accept, before.payloads);
      } else {
        assert before.payloads + [] == before.payloads;
      }
    }
  }

  /** The fire ledger of a task over any sequence of firing rounds and any pattern of refused deliveries:
      delivered fires plus the misses they carry plus the misses still pending are all the fires so far, each
      payload reports exactly the fires lost since the previous one, and each fire kept its grid point. */
  lemma FireLedger(id: nat, trigger: Trigger, rounds: seq<Round>)
    requires WithinCounters(id, NewEntry(trigger), rounds)
    ensures
      var run := FireRounds(id, NewEntry(trigger), rounds);
      var e, log := run.entry, run.payloads;
      && Weight(log) + e.missed == e.sequence - 1
      && (forall i :: 0 <= i < |log| ==>
            && log[i].missed == log[i].sequence - 1 - SequenceBefore(log, i)
            && log[i].scheduledAt == FirstFireAt(trigger) + Interval(e) * (log[i].sequence - 1))
      && (trigger.OneShot? ==> FirstFireAt(trigger) == trigger.at && Interval(e) == 0)
      && (trigger.Periodic? ==> FirstFireAt(trigger) == trigger.nextFireAt && Interval(e) == trigger.interval)
  {
    RoundsKeepLedgers(id, trigger, rounds);
    var log := FireRounds(id, NewEntry(trigger), rounds).payloads;
    WeightIsLastSequence(log);
    forall i | 0 <= i < |log| ensures log[i].missed == log[i].sequence - 1 - SequenceBefore(log, i) {
      assert CarriesItsGap(log, i);
    }
  }

  // ---- one-shot tasks ----

  predicate SomeRoundReaches(at: Instant, rounds: seq<Round>) {
    exists i :: 0 <= i < |rounds| && at <= rounds[i].now
  }

  /** A one-shot task fires exactly once over any sequence of rounds: nothing happens before the first round
      at or past its instant, that round completes it for good, and the single fire is either delivered, at its
      own instant, or counted as the single miss. */
  lemma {:induction false} OneShotFiresExactlyOnce(id: nat, at: Instant, rounds: seq<Round>)
    ensures
      var run := FireRounds(id, NewEntry(OneShot(at)), rounds);
      var e, log := run.entry, run.payloads;
      && (e.state == Completed <==> SomeRoundReaches(at, rounds))
      && (e.state != Completed ==> e == NewEntry(OneShot(at)) && log == [])
      && (e.state == Completed ==>
            && e.next == None && e.sequence == 2
            && ((log == [Payload(id, 1, at, 0)] && e.missed == 0) || (log == [] && e.missed == 1)))
    decreases |rounds|
  {
    if rounds != [] {
      var init, last := rounds[..|rounds| - 1], rounds[|rounds| - 1];
      OneShotFiresExactlyOnce(id, at, init);
      assert rounds == init + [last];
      assert SomeRoundReaches(at, rounds) <==> SomeRoundReaches(at, init) || at <= last.now by {
        if at <= last.now { assert at <= rounds[|rounds| - 1].now; }
        forall i | 0 <= i < |init| ensures init[i] == rounds[i] {}
      }
    }
  }
}
