/** The slot-reserving rate limiter: every caller is given a slot, and slots are an interval apart. */
module RateLimiter {
  import opened Prelude
  import opened Digits

  /** Milliseconds in the window the limiter's rate speaks of. */
  const WINDOW: nat := 1000

  /** The slot reserved by a caller whose clock reads `now`. */
  function Slot(now: nat, nextAllowed: nat): nat {
    if now >= nextAllowed then now else nextAllowed
  }

  /** The slots reserved by a run of callers, given their clock readings. */
  function Slots(interval: nat, nextAllowed: nat, clocks: seq<nat>): (slots: seq<nat>)
    ensures |slots| == |clocks|
    decreases |clocks|
  {
    if clocks == [] then []
    else
      var slot := Slot(clocks[0], nextAllowed);
      [slot] + Slots(interval, slot + interval, clocks[1..])
  }

  /** When the next slot is allowed after such a run. */
  function NextAllowed(interval: nat, nextAllowed: nat, clocks: seq<nat>): nat
    decreases |clocks|
  {
    if clocks == [] then nextAllowed
    else NextAllowed(interval, Slot(clocks[0], nextAllowed) + interval, clocks[1..])
  }

  lemma {:induction false} RunExtends(interval: nat, start: nat, clocks: seq<nat>, now: nat)
    ensures Slots(interval, start, clocks + [now])
            == Slots(interval, start, clocks) + [Slot(now, NextAllowed(interval, start, clocks))]
    ensures NextAllowed(interval, start, clocks + [now])
            == Slot(now, NextAllowed(interval, start, clocks)) + interval
    decreases |clocks|
  {
    if clocks == [] {
      assert clocks + [now] == [now];
    } else {
      var slot := Slot(clocks[0], start);
      assert (clocks + [now])[1..] == clocks[1..] + [now];
      RunExtends(interval, slot + interval, clocks[1..], now);
    }
  }

  /** The shared bucket. `clocks` records the readings of all callers so far. */
  class TokenBucket {
    const intervalMs: nat
    var nextAllowedMs: nat
    ghost var clocks: seq<nat>

    ghost predicate Valid()
      reads this
    {
      nextAllowedMs == NextAllowed(intervalMs, 0, clocks)
    }

    /** All slots reserved so far. */
    ghost function Reserved(): seq<nat>
      reads this
    {
      Slots(intervalMs, 0, clocks)
    }

    constructor (maxRps: nat)
      requires maxRps > 0
      ensures Valid() && clocks == [] && intervalMs == WINDOW / maxRps
    {
      intervalMs := WINDOW / maxRps;
      nextAllowedMs := 0;
      clocks := [];
    }

    /** Reserves the next slot and returns how long to sleep until it. */
    method Acquire(now: nat) returns (waitMs: nat)
      requires Valid()
      modifies this
      ensures Valid() && clocks == old(clocks) + [now]
      ensures Reserved() == old(Reserved()) + [now + waitMs]
      ensures waitMs == if now < old(nextAllowedMs) then old(nextAllowedMs) - now else 0
      ensures nextAllowedMs == now + waitMs + intervalMs
    {
      RunExtends(intervalMs, 0, clocks, now);
      clocks := clocks + [now];
      if now >= nextAllowedMs {
        nextAllowedMs := now + intervalMs;
        waitMs := 0;
      } else {
        waitMs := nextAllowedMs - now;
        nextAllowedMs := nextAllowedMs + intervalMs;
      }
    }
  }

  // ---------------------------------------------------------------- spacing

  lemma {:induction false} FirstSlots(interval: nat, start: nat, clocks: seq<nat>, k: nat)
    requires k < |clocks|
    ensures Slots(interval, start, clocks)[k] >= start + k * interval
    decreases |clocks|
  {
    if k > 0 {
      var slot := Slot(clocks[0], start);
      FirstSlots(interval, slot + interval, clocks[1..], k - 1);
      assert (k - 1) * interval + interval == k * interval;
    }
  }

  /** Whatever the clocks read, even backwards, slots are at least the interval apart. */
  lemma {:induction false} SlotsAreSpaced(interval: nat, start: nat, clocks: seq<nat>, j: nat, k: nat)
    requires j <= k < |clocks|
    ensures Slots(interval, start, clocks)[k] >= Slots(interval, start, clocks)[j] + (k - j) * interval
    decreases |clocks|
  {
    var slot := Slot(clocks[0], start);
    if j > 0 {
      SlotsAreSpaced(interval, slot + interval, clocks[1..], j - 1, k - 1);
    } else if k > 0 {
      FirstSlots(interval, slot + interval, clocks[1..], k - 1);
      assert (k - 1) * interval + interval == k * interval;
    }
  }

  /** A schedule gives every caller a slot not before its clock, an interval after the one before, from `start`. */
  ghost predicate Schedule(interval: nat, start: nat, clocks: seq<nat>, plan: seq<nat>) {
    && |plan| == |clocks|
    && (plan != [] ==> plan[0] >= start)
    && (forall k :: 0 <= k < |plan| ==> plan[k] >= clocks[k])
    && (forall k :: 0 < k < |plan| ==> plan[k] >= plan[k - 1] + interval)
  }

  /** The reserved slots are a schedule. */
  lemma {:induction false} SlotsAreASchedule(interval: nat, start: nat, clocks: seq<nat>)
    ensures Schedule(interval, start, clocks, Slots(interval, start, clocks))
    decreases |clocks|
  {
    if clocks != [] {
      var slot := Slot(clocks[0], start);
      var rest := Slots(interval, slot + interval, clocks[1..]);
      SlotsAreASchedule(interval, slot + interval, clocks[1..]);
      assert forall k :: 0 < k < |clocks| ==> Slots(interval, start, clocks)[k] == rest[k - 1];
    }
  }

  /** No schedule serves any caller earlier: nobody waits longer than needed. */
  lemma {:induction false} SlotsAreLeast(interval: nat, start: nat, clocks: seq<nat>, plan: seq<nat>)
    requires Schedule(interval, start, clocks, plan)
    ensures forall k :: 0 <= k < |clocks| ==> Slots(interval, start, clocks)[k] <= plan[k]
    decreases |clocks|
  {
    if clocks != [] {
      var slot := Slot(clocks[0], start);
      SlotsAreLeast(interval, slot + interval, clocks[1..], plan[1..]);
    }
  }

  // ---------------------------------------------------------------- windows

  /** The callers whose slots fall in the half-open window from `from`. */
  function InWindow(slots: seq<nat>, from: nat): set<nat> {
    set k: nat | k < |slots| && from <= slots[k] < from + WINDOW
  }

  /** `ceil(WINDOW / interval)`. */
  function Capacity(interval: nat): nat
    requires interval > 0
  {
    (WINDOW + interval - 1) / interval
  }

  function Range(lo: nat, n: nat): (s: set<nat>)
    ensures forall k :: k in s <==> lo <= k < lo + n
    ensures |s| == n
  {
    if n == 0 then {} else Range(lo, n - 1) + {lo + n - 1}
  }

  lemma BelowCapacity(d: nat, interval: nat)
    requires interval > 0 && d * interval < WINDOW
    ensures d < Capacity(interval)
  {
  }

  /** A window never holds more slots than fit at the interval. */
  lemma WindowIsBounded(interval: nat, start: nat, clocks: seq<nat>, from: nat)
    requires interval > 0
    ensures |InWindow(Slots(interval, start, clocks), from)| <= Capacity(interval)
  {
    var slots := Slots(interval, start, clocks);
    var w := InWindow(slots, from);
    if w != {} {
      var lo := LeastBy(w, (k: nat) => k);
      forall k | k in w ensures lo <= k < lo + Capacity(interval) {
        SlotsAreSpaced(interval, start, clocks, lo, k);
        BelowCapacity(k - lo, interval);
      }
      SubsetSize(w, Range(lo, Capacity(interval)));
    }
  }

  // ---------------------------------------------------------------- the promised rate

  /** In every run, every window holds at most `maxRps` slots. */
  ghost predicate RateHolds(maxRps: nat)
    requires maxRps > 0
  {
    forall clocks: seq<nat>, from: nat ::
      |InWindow(Slots(WINDOW / maxRps, 0, clocks), from)| <= maxRps
  }

  lemma {:induction false} BurstSlots(interval: nat, start: nat, clocks: seq<nat>, k: nat)
    requires forall i :: 0 <= i < |clocks| ==> clocks[i] == 0
    requires k < |clocks|
    ensures Slots(interval, start, clocks)[k] == start + k * interval
    decreases |clocks|
  {
    if k > 0 {
      assert Slot(clocks[0], start) == start;
      BurstSlots(interval, start + interval, clocks[1..], k - 1);
      assert (k - 1) * interval + interval == k * interval;
    }
  }

  /** A burst of one caller too many still fits in one window when the interval was rounded down. */
  lemma BurstExceeds(maxRps: nat, clocks: seq<nat>)
    requires maxRps > 0 && WINDOW % maxRps != 0
    requires |clocks| == maxRps + 1 && forall i :: 0 <= i < |clocks| ==> clocks[i] == 0
    ensures |InWindow(Slots(WINDOW / maxRps, 0, clocks), 0)| == maxRps + 1
  {
    var interval := WINDOW / maxRps;
    var slots := Slots(interval, 0, clocks);
    assert maxRps * interval < WINDOW;
    forall k: nat | k < |clocks| ensures k in InWindow(slots, 0) {
      BurstSlots(interval, 0, clocks, k);
      MulMono(k, maxRps, interval);
    }
    assert InWindow(slots, 0) == Range(0, maxRps + 1);
  }

  lemma ExactCapacity(maxRps: nat)
    requires maxRps > 0 && WINDOW % maxRps == 0
    ensures WINDOW / maxRps > 0 && Capacity(WINDOW / maxRps) == maxRps
  {
    var interval := WINDOW / maxRps;
    assert WINDOW == maxRps * interval;
    assert interval > 0;
    DivModUnique(WINDOW + interval - 1, interval, maxRps, interval - 1);
  }

  /** The limiter keeps its promise in every run exactly when the rate divides a second. */
  lemma RateHoldsIffExact(maxRps: nat)
    requires maxRps > 0
    ensures RateHolds(maxRps) <==> WINDOW % maxRps == 0
  {
    if WINDOW % maxRps == 0 {
      ExactCapacity(maxRps);
      forall clocks: seq<nat>, from: nat
        ensures |InWindow(Slots(WINDOW / maxRps, 0, clocks), from)| <= maxRps
      {
        WindowIsBounded(WINDOW / maxRps, 0, clocks, from);
      }
    } else {
      var clocks: seq<nat> := seq(maxRps + 1, _ => 0);
      BurstExceeds(maxRps, clocks);
    }
  }
}
