/**
 Firing one scheduled task: the periodic grid, the batch over all due grid points with its
 constant-time skip once the delivery queue is full, and the missed-fire ledger.

 Instants and durations are nanosecond counts.  An instant is representable up to the end of the
 year 9999; counters are 64-bit and saturate, as in the source.
 */
module SchedulerFire {
  import opened Prelude

  const U32_MAX: nat := 0xFFFF_FFFF
  const NANOS_PER_SEC: nat := 1_000_000_000
  const MAX_INSTANT: nat := 253_402_300_800 * NANOS_PER_SEC - 1
  const MAX_DURATION: nat := U64_MAX * NANOS_PER_SEC + (NANOS_PER_SEC - 1)

  type U64 = n: nat | n <= U64_MAX witness 0
  type Instant = t: nat | t <= MAX_INSTANT witness 0

  datatype Trigger = OneShot(at: Instant) | Periodic(nextFireAt: Instant, interval: nat)

  datatype TaskState = Scheduled | Cancelled | Completed

  datatype Entry = Entry(
    trigger: Trigger,
    state: TaskState,
    sequence: U64,
    missed: U64,
    next: Option<Instant>)

  datatype Payload = Payload(task: nat, sequence: U64, scheduledAt: nat, missed: U64)

  datatype Fired = Fired(entry: Entry, payloads: seq<Payload>)

  function Min(a: nat, b: nat): nat { if a < b then a else b }

  function Saturating(n: nat): U64 { Min(n, U64_MAX) }

  function FirstFireAt(trigger: Trigger): Instant {
    match trigger
    case OneShot(at) => at
    case Periodic(next, _) => next
  }

  function NewEntry(trigger: Trigger): Entry {
    Entry(trigger, Scheduled, 1, 0, Some(FirstFireAt(trigger)))
  }

  function CheckedAdd(t: Instant, d: nat): Option<Instant> {
    if t + d <= MAX_INSTANT then Some(t + d) else None
  }

  /** The 64-bit count of grid points `next + k * interval <= now`. */
  function DueGridPoints(next: Instant, now: Instant, interval: nat): U64 {
    if interval == 0 then 1
    else
      var elapsed := if now < next then 0 else now - next;
      Saturating(elapsed / interval + 1)
  }

  /** `interval * k` with the factor clamped to 32 bits and the product clamped to a duration. */
  function GridOffset(interval: nat, k: nat): nat {
    Min(interval * Min(k, U32_MAX), MAX_DURATION)
  }

  function DueCount(e: Entry, now: Instant): nat
    requires e.next.Some?
  {
    match e.trigger
    case OneShot(_) => 1
    case Periodic(_, interval) => DueGridPoints(e.next.value, now, interval)
  }

  predicate Due(e: Entry, now: Instant) {
    e.state == Scheduled && e.next.Some? && e.next.value <= now
  }

  // ---- the grid ----

  lemma MulMonotone(a: nat, k: nat, m: nat)
    requires k <= m
    ensures a * k <= a * m
  {
  }

  /** The `k`-th grid point is due exactly when it is counted; without an interval the one point is. */
  lemma DueGridPointsAreExact(next: Instant, now: Instant, interval: nat, k: nat)
    requires next <= now && k < U64_MAX
    ensures interval > 0 ==> (k < DueGridPoints(next, now, interval) <==> next + interval * k <= now)
    ensures interval == 0 ==> (k < DueGridPoints(next, now, interval) <==> k == 0)
  {
    if interval > 0 {
      var elapsed := now - next;
      var q := elapsed / interval;
      if k <= q { MulMonotone(interval, k, q); } else { MulMonotone(interval, q + 1, k); }
    }
  }

  /** Every grid point of the batch lies at or before `now`: the out-of-range exit of the batch loop is
      never taken, whatever the interval and however long the delay. */
  lemma DueGridPointsAreRepresentable(next: Instant, now: Instant, interval: nat, k: nat)
    requires next <= now && k < DueGridPoints(next, now, interval)
    ensures next + GridOffset(interval, k) <= now
    ensures CheckedAdd(next, GridOffset(interval, k)).Some?
  {
    if interval > 0 {
      var elapsed := now - next;
      MulMonotone(interval, Min(k, U32_MAX), elapsed / interval);
    }
  }

  /** Below 2^32 due points the offsets are exact. */
  lemma GridOffsetIsExact(next: Instant, now: Instant, interval: nat, k: nat)
    requires next <= now && k <= DueGridPoints(next, now, interval) <= U32_MAX
    requires next + interval * k <= MAX_INSTANT || k < DueGridPoints(next, now, interval)
    ensures GridOffset(interval, k) == interval * k
    ensures CheckedAdd(next, GridOffset(interval, k)) == Some(next + interval * k)
  {
    if k < DueGridPoints(next, now, interval) {
      DueGridPointsAreRepresentable(next, now, interval, k);
    }
  }

  /** The batch ends on the first grid point strictly after `now` exactly when the number of due points
      fits the 32-bit factor. */
  lemma BatchEndsAfterNow(next: Instant, now: Instant, interval: nat)
    requires next <= now && interval > 0
    ensures
      var k := DueGridPoints(next, now, interval);
      && k >= 1
      && (now < next + GridOffset(interval, k) <==> k <= U32_MAX)
      && (k <= U32_MAX ==> next + interval * (k - 1) <= now < next + interval * k)
  {
    var elapsed := now - next;
    var q := elapsed / interval;
    var k := DueGridPoints(next, now, interval);
    if k <= U32_MAX {
      assert k == q + 1;
      assert Min(k, U32_MAX) == k;
    } else {
      assert q >= U32_MAX;
      MulMonotone(interval, U32_MAX, q);
      assert Min(k, U32_MAX) == U32_MAX;
    }
  }

  // ---- one firing round of one task ----

  /** The first due point at or after `k` whose delivery is refused, or `kMax`. */
  function FirstRefusal(accept: nat -> bool, k: nat, kMax: nat): (r: nat)
    requires k <= kMax
    ensures k <= r <= kMax
    ensures forall i :: k <= i < r ==> accept(i)
    ensures r < kMax ==> !accept(r)
    decreases kMax - k
  {
    if k == kMax || !accept(k) then k else FirstRefusal(accept, k + 1, kMax)
  }

  function PointPayload(id: nat, e: Entry, interval: nat, k: nat): Payload
    requires e.next.Some?
  {
    Payload(id, Saturating(e.sequence + k), e.next.value + GridOffset(interval, k), if k == 0 then e.missed else 0)
  }

  function MissedAfter(e: Entry, sent: nat, due: nat): U64
    requires sent <= due
  {
    Saturating((if sent == 0 then e.missed else 0) + (due - sent))
  }

  /** What one round makes of a due task when the `k`-th delivery attempt succeeds iff `accept(k)`. */
  function FireEntry(id: nat, e: Entry, now: Instant, accept: nat -> bool): Fired
    requires Due(e, now)
  {
    var due := DueCount(e, now);
    var sent := FirstRefusal(accept, 0, due);
    match e.trigger
    case OneShot(_) =>
      Fired(
        e.(sequence := Saturating(e.sequence + 1), state := Completed, next := None,
           missed := MissedAfter(e, sent, due)),
        if sent == 1 then [Payload(id, e.sequence, e.next.value, e.missed)] else [])
    case Periodic(_, interval) =>
      var next := CheckedAdd(e.next.value, GridOffset(interval, due));
      Fired(
        e.(sequence := Saturating(e.sequence + due),
           missed := MissedAfter(e, sent, due),
           state := if next.None? then Completed else Scheduled,
           next := next),
        seq(sent, k requires 0 <= k < sent => PointPayload(id, e, interval, k)))
  }

  method FirePeriodic(id: nat, e: Entry, now: Instant, accept: nat -> bool) returns (r: Fired)
    requires Due(e, now) && e.trigger.Periodic?
    ensures r == FireEntry(id, e, now, accept)
  {
    var next, interval := e.next.value, e.trigger.interval;
    var kMax: nat := DueGridPoints(next, now, interval);
    var sent := FirstRefusal(accept, 0, kMax);
    var payloads, k := [], 0;
    var missed: U64 := e.missed;
    while k < kMax
      invariant k <= sent || k == kMax
      invariant |payloads| == Min(k, sent)
      invariant forall i :: 0 <= i < |payloads| ==> payloads[i] == PointPayload(id, e, interval, i)
      invariant missed == if k <= sent then (if k == 0 then e.missed else 0) else MissedAfter(e, sent, kMax)
    {
      DueGridPointsAreRepresentable(next, now, interval, k);
      var scheduledAt := CheckedAdd(next, GridOffset(interval, k));
      if scheduledAt.None? { assert false; break; }
      if accept(k) {
        payloads := payloads + [Payload(id, Saturating(e.sequence + k), scheduledAt.value, missed)];
        missed := 0;
        k := k + 1;
      } else {
        missed := Saturating(kMax - k + missed);
        k := kMax;
      }
    }
    var e' := e.(sequence := Saturating(e.sequence + kMax), missed := missed);
    match CheckedAdd(next, GridOffset(interval, kMax)) {
      case Some(t) => e' := e'.(next := Some(t));
      case None => e' := e'.(state := Completed, next := None);
    }
    r := Fired(e', payloads);
  }

  method FireOneShot(id: nat, e: Entry, now: Instant, accept: nat -> bool) returns (r: Fired)
    requires Due(e, now) && e.trigger.OneShot?
    ensures r == FireEntry(id, e, now, accept)
    ensures r.entry.state == Completed && r.entry.next == None && r.entry.trigger == e.trigger
    ensures accept(0) ==> r.payloads == [Payload(id, e.sequence, e.next.value, e.missed)] && r.entry.missed == 0
    ensures !accept(0) && e.missed < U64_MAX ==> r.payloads == [] && r.entry.missed == e.missed + 1
  {
    var payload := Payload(id, e.sequence, e.next.value, e.missed);
    var e' := e.(sequence := Saturating(e.sequence + 1), state := Completed, next := None);
    if accept(0) {
      r := Fired(e'.(missed := 0), [payload]);
    } else {
      r := Fired(e'.(missed := Saturating(e.missed + 1)), []);
    }
  }
}
