/** The publish-rate cap of the bridge: plugins/ros2-bridge/src/cam_bridge_base.cpp, throttle_drop. */
module Throttle {
  import opened Common

  /** The deadline after a publish at `now`. */
  function Advance(period: nat, next: int, now: int): int {
    if now - next >= period then now + period else next + period
  }

  class Limiter {
    const period: nat
    var next: int

    constructor (period: nat)
      ensures this.period == period && next == 0
    {
      this.period := period;
      next := 0;
    }

    method Drop(now: int) returns (drop: bool)
      modifies this
      ensures drop <==> period != 0 && now < old(next)
      ensures next == if drop || period == 0 then old(next) else Advance(period, old(next), now)
    {
      if period == 0 {
        return false;
      }
      if now < next {
        return true;
      }
      next := if now - next >= period then now + period else next + period;
      return false;
    }
  }

  /** The frames that get through, by their arrival times. */
  function Published(period: nat, next: int, arrivals: seq<int>): seq<int>
    decreases |arrivals|
  {
    if arrivals == [] then []
    else if period == 0 then arrivals
    else if arrivals[0] < next then Published(period, next, arrivals[1..])
    else [arrivals[0]] + Published(period, Advance(period, next, arrivals[0]), arrivals[1..])
  }

  lemma Multiples(k: nat, period: nat)
    ensures (k + 1) * period == k * period + period && k * period >= 0
  {
    Distributes(k, 1, period);
    AtLeastZero(k, period);
  }

  /** The k-th publish from here on comes no earlier than k periods after the deadline. */
  lemma {:induction false} DeadlinesAdd(period: nat, next: int, arrivals: seq<int>, k: nat)
    requires period > 0 && k < |Published(period, next, arrivals)|
    ensures Published(period, next, arrivals)[k] >= next + k * period
    decreases |arrivals|
  {
    if arrivals[0] < next {
      DeadlinesAdd(period, next, arrivals[1..], k);
    } else if k > 0 {
      DeadlinesAdd(period, Advance(period, next, arrivals[0]), arrivals[1..], k - 1);
      Multiples(k - 1, period);
    }
  }

  /** Publishes i and j, however the frames arrive, are more than j - i - 1 periods apart. */
  lemma {:induction false} PublishesApart(period: nat, next: int, arrivals: seq<int>, i: nat, j: nat)
    requires period > 0 && i < j < |Published(period, next, arrivals)|
    ensures var ps := Published(period, next, arrivals); ps[j] - ps[i] > (j - i - 1) * period
    decreases |arrivals|
  {
    if arrivals[0] < next {
      PublishesApart(period, next, arrivals[1..], i, j);
    } else {
      var after := Advance(period, next, arrivals[0]);
      if i > 0 {
        PublishesApart(period, after, arrivals[1..], i - 1, j - 1);
      } else {
        DeadlinesAdd(period, after, arrivals[1..], j - 1);
      }
    }
  }

  /**
   * So in any window of m periods and r more, wherever it lies, at most m + 1 frames get through, and one
   * more if r is not zero.
   */
  lemma {:induction false} WindowBound(period: nat, arrivals: seq<int>, i: nat, j: nat, m: nat, r: nat)
    requires period > r && i <= j < |Published(period, 0, arrivals)|
    requires Published(period, 0, arrivals)[j] - Published(period, 0, arrivals)[i] <= m * period + r
    ensures j - i + 1 <= m + 1 + (if r > 0 then 1 else 0)
  {
    if i < j {
      PublishesApart(period, 0, arrivals, i, j);
      if j - i > m + 1 {
        Grows(m + 1, j - i - 1, period);
        Multiples(m, period);
      } else if j - i == m + 1 {
        assert m * period + r > m * period;
      }
    }
  }

  /** `n` arrivals a period apart. */
  function Ticks(period: nat, from: int, n: nat): (ts: seq<int>)
    ensures |ts| == n
    decreases n
  {
    if n == 0 then [] else [from] + Ticks(period, from + period, n - 1)
  }

  lemma {:induction false} TickAt(period: nat, from: int, n: nat, k: nat)
    requires k < n
    ensures Ticks(period, from, n)[k] == from + k * period
    decreases n
  {
    if k > 0 {
      TickAt(period, from + period, n - 1, k - 1);
      Multiples(k - 1, period);
    }
  }

  lemma {:induction false} TicksPublished(period: nat, from: int, n: nat)
    requires period > 0
    ensures Published(period, from, Ticks(period, from, n)) == Ticks(period, from, n)
    decreases n
  {
    if n > 0 {
      TicksPublished(period, from + period, n - 1);
      assert Ticks(period, from, n)[1..] == Ticks(period, from + period, n - 1);
    }
  }

  /** And that many do, for every period and every window: a frame just before a deadline, then one on each. */
  lemma {:induction false} WindowBoundIsReached(period: nat, m: nat, r: nat) returns (arrivals: seq<int>, i: nat, j: nat)
    requires period > r
    ensures var ps := Published(period, 0, arrivals);
            && i <= j < |ps| && ps[j] - ps[i] <= m * period + r
            && j - i + 1 == m + 1 + (if r > 0 then 1 else 0)
  {
    var at := 2 * period;
    if r == 0 {
      arrivals := [at] + Ticks(period, at + period, m);
      TicksPublished(period, at + period, m);
      assert arrivals[1..] == Ticks(period, at + period, m);
      assert Published(period, 0, arrivals) == arrivals;
      i, j := 0, m;
      if m > 0 {
        TickAt(period, at + period, m, m - 1);
        Multiples(m - 1, period);
      }
    } else {
      var late := at + 2 * period - 1;
      var ticks := Ticks(period, at + 2 * period, m + 1);
      arrivals := [at] + ([late] + ticks);
      TicksPublished(period, at + 2 * period, m + 1);
      assert arrivals[1..] == [late] + ticks && ([late] + ticks)[1..] == ticks;
      assert Published(period, at + period, [late] + ticks) == [late] + ticks;
      assert Published(period, 0, arrivals) == arrivals;
      i, j := 1, m + 2;
      TickAt(period, at + 2 * period, m + 1, m);
    }
  }

  /** Frames never stay away for longer than a period and one gap between arrivals. */
  predicate GapsAtMost(arrivals: seq<int>, gap: nat) {
    forall i :: 0 <= i < |arrivals| - 1 ==> arrivals[i + 1] - arrivals[i] <= gap
  }

  lemma GapsKept(a: int, arrivals: seq<int>, gap: nat)
    requires GapsAtMost([a] + arrivals, gap)
    ensures GapsAtMost(arrivals, gap)
  {
    forall i | 0 <= i < |arrivals| - 1 ensures arrivals[i + 1] - arrivals[i] <= gap {
      assert ([a] + arrivals)[i + 2] - ([a] + arrivals)[i + 1] <= gap;
    }
  }

  /** After a publish at `last`, the next one, if the arrivals go on long enough for one. */
  lemma {:induction false} NextSoon(period: nat, next: int, arrivals: seq<int>, last: int, gap: nat)
    requires period > 0 && next <= last + period
    requires GapsAtMost([last] + arrivals, gap)
    ensures var ps := Published(period, next, arrivals); ps != [] ==> ps[0] <= last + period + gap
    ensures Published(period, next, arrivals) == [] ==> forall i :: 0 <= i < |arrivals| ==> arrivals[i] < last + period
    decreases |arrivals|
  {
    if arrivals != [] {
      assert ([last] + arrivals)[1] - ([last] + arrivals)[0] <= gap;
      if arrivals[0] < next {
        GapsKept(last, arrivals, gap);
        NextSoonStep(period, next, arrivals, gap);
      }
    }
  }

  /** While frames come too early, the next arrival is at most a gap later. */
  lemma {:induction false} NextSoonStep(period: nat, next: int, arrivals: seq<int>, gap: nat)
    requires period > 0 && arrivals != [] && arrivals[0] < next && GapsAtMost(arrivals, gap)
    ensures var ps := Published(period, next, arrivals); ps != [] ==> ps[0] <= next + gap
    ensures Published(period, next, arrivals) == [] ==> forall i :: 0 <= i < |arrivals| ==> arrivals[i] < next
    decreases |arrivals|
  {
    var rest := arrivals[1..];
    assert arrivals == [arrivals[0]] + rest;
    GapsKept(arrivals[0], rest, gap);
    if rest != [] {
      assert arrivals[1] - arrivals[0] <= gap;
      if rest[0] < next { NextSoonStep(period, next, rest, gap); }
    }
  }

  /** Consecutive publishes are at most a period and the largest arrival gap apart. */
  lemma {:induction false} ConsecutiveClose(period: nat, next: int, arrivals: seq<int>, gap: nat, i: nat)
    requires period > 0 && GapsAtMost(arrivals, gap) && i + 1 < |Published(period, next, arrivals)|
    ensures var ps := Published(period, next, arrivals); ps[i + 1] - ps[i] <= period + gap
    decreases |arrivals|
  {
    var rest := arrivals[1..];
    assert arrivals == [arrivals[0]] + rest;
    GapsKept(arrivals[0], rest, gap);
    if arrivals[0] < next {
      ConsecutiveClose(period, next, rest, gap, i);
    } else {
      var after := Advance(period, next, arrivals[0]);
      if i > 0 {
        ConsecutiveClose(period, after, rest, gap, i - 1);
      } else {
        NextSoon(period, after, rest, arrivals[0], gap);
      }
    }
  }
}
