/**
 * The recording timeline: core-driver/cam_driver/pipeline.py, _pts_for.
 * One caller feeds the recording and owns the timeline; the other only reads it.
 */
module Pts {
  import opened Common

  const MAX_JUMP: int := 60_000_000_000
  const MEMO_FRAMES: nat := 256

  datatype Stamp = Stamp(id: int, ts: int)
  datatype Entry = Entry(key: Stamp, pts: int)

  datatype Timeline = Timeline(base: Option<int>, skew: int, last: Option<int>, memo: seq<Entry>, rebases: nat)

  function NoTimeline(): Timeline { Timeline(None, 0, None, [], 0) }

  function Lookup(memo: seq<Entry>, key: Stamp): Option<int> {
    if memo == [] then None
    else if memo[0].key == key then Some(memo[0].pts)
    else Lookup(memo[1..], key)
  }

  /** A bounded memo forgets its oldest entries. */
  function Evict(memo: seq<Entry>): seq<Entry> {
    if |memo| > MEMO_FRAMES then Evict(memo[1..]) else memo
  }

  predicate OutOfRange(delta: int) { delta <= 0 || delta > MAX_JUMP }

  /** The owner computes a PTS for a frame that is not in the memo. */
  function OwnMiss(interval: int, t: Timeline, s: Stamp): (u: Timeline)
    ensures u.last.Some?
  {
    var base := if t.base.None? then s.ts else t.base.value;
    var plain := s.ts - base + t.skew;
    var jump := t.last.Some? && OutOfRange(plain - t.last.value);
    var target := if jump then t.last.value + interval else plain;
    var pts := if target < 0 then 0 else target;
    Timeline(Some(base), t.skew + (target - plain), Some(pts), Evict(t.memo + [Entry(s, pts)]),
             if jump then t.rebases + 1 else t.rebases)
  }

  /** What the read-only caller is told about a frame that is not in the memo. */
  function ReadMiss(t: Timeline, s: Stamp): int {
    if t.base.None? then 0
    else if s.ts - t.base.value + t.skew < 0 then 0
    else s.ts - t.base.value + t.skew
  }

  function After(interval: int, t: Timeline, s: Stamp, own: bool): Timeline {
    if Lookup(t.memo, s).Some? || !own then t else OwnMiss(interval, t, s)
  }

  function Answer(interval: int, t: Timeline, s: Stamp, own: bool): int {
    var hit := Lookup(t.memo, s);
    if hit.Some? then hit.value
    else if !own then ReadMiss(t, s)
    else OwnMiss(interval, t, s).last.value
  }

  class PtsSource {
    const interval: int
    var base: Option<int>
    var skew: int
    var last: Option<int>
    var memo: seq<Entry>
    var rebases: nat

    constructor (interval: int)
      ensures this.interval == interval && View() == NoTimeline()
    {
      this.interval := interval;
      base, skew, last, memo, rebases := None, 0, None, [], 0;
    }

    function View(): Timeline
      reads this
    {
      Timeline(base, skew, last, memo, rebases)
    }

    method PtsFor(s: Stamp, own: bool) returns (pts: int)
      modifies this
      ensures View() == After(interval, old(View()), s, own)
      ensures pts == Answer(interval, old(View()), s, own)
    {
      var hit := Lookup(memo, s);
      if hit.Some? {
        return hit.value;
      }
      if !own {
        if base.None? {
          return 0;
        }
        pts := s.ts - base.value + skew;
        if pts < 0 {
          pts := 0;
        }
        return;
      }
      if base.None? {
        base := Some(s.ts);
      }
      pts := s.ts - base.value + skew;
      if last.Some? {
        var delta := pts - last.value;
        if delta <= 0 || delta > MAX_JUMP {
          var target := last.value + interval;
          skew := skew + (target - pts);
          rebases := rebases + 1;
          pts := target;
        }
      }
      if pts < 0 {
        pts := 0;
      }
      last := Some(pts);
      memo := memo + [Entry(s, pts)];
      ghost var full := memo;
      while |memo| > MEMO_FRAMES
        invariant Evict(memo) == Evict(full)
        invariant base == Some(if old(base).None? then s.ts else old(base).value)
        modifies this`memo
      {
        memo := memo[1..];
      }
    }

    /** A reconnect: the reopened source restarts its own numbering. */
    method Forget()
      modifies this`memo
      ensures View() == old(View()).(memo := [])
    {
      memo := [];
    }
  }

  // ---- whole runs ----------------------------------------------------------------------

  datatype Op = Own(stamp: Stamp) | Read(stamp: Stamp) | Reconnect

  /** The timeline with its past: every PTS the owner computed, and how many of them since the last reconnect. */
  datatype Trace = Trace(t: Timeline, log: seq<Entry>, recent: seq<Entry>)

  predicate Computes(t: Timeline, op: Op) { op.Own? && Lookup(t.memo, op.stamp).None? }

  function Apply(interval: int, t: Timeline, op: Op): Timeline {
    match op
    case Own(s) => After(interval, t, s, true)
    case Read(s) => After(interval, t, s, false)
    case Reconnect => t.(memo := [])
  }

  function Next(interval: int, r: Trace, op: Op): Trace {
    var computed := if Computes(r.t, op) then [Entry(op.stamp, Answer(interval, r.t, op.stamp, true))] else [];
    Trace(Apply(interval, r.t, op), r.log + computed, if op.Reconnect? then [] else r.recent + computed)
  }

  function Run(interval: int, r: Trace, ops: seq<Op>): Trace
    decreases |ops|
  {
    if ops == [] then r else Run(interval, Next(interval, r, ops[0]), ops[1..])
  }

  function Begin(): Trace { Trace(NoTimeline(), [], []) }

  // ---- the reference: one PTS from the one before ------------------------------------------

  function Step(interval: int, delta: int): int { if OutOfRange(delta) then interval else delta }

  /** The PTS of the last of the frames. */
  function IdealLast(interval: int, es: seq<Entry>): int {
    if |es| <= 1 then 0
    else IdealLast(interval, es[..|es| - 1]) + Step(interval, es[|es| - 1].key.ts - es[|es| - 2].key.ts)
  }

  /** Every frame has the PTS it should have, given the stamps up to it. */
  predicate Ideal(interval: int, es: seq<Entry>)
    decreases |es|
  {
    es == [] || (es[|es| - 1].pts == IdealLast(interval, es) && Ideal(interval, es[..|es| - 1]))
  }

  /** How often consecutive stamps step backwards, stand still, or leap. */
  function Discontinuities(es: seq<Entry>): nat {
    if |es| <= 1 then 0
    else Discontinuities(es[..|es| - 1])
         + (if OutOfRange(es[|es| - 1].key.ts - es[|es| - 2].key.ts) then 1 else 0)
  }

  predicate Increasing(es: seq<Entry>) {
    (forall i :: 0 <= i < |es| ==> es[i].pts >= 0) && (forall i, j :: 0 <= i < j < |es| ==> es[i].pts < es[j].pts)
  }

  // ---- the invariant -------------------------------------------------------------------

  function LastFew(es: seq<Entry>): seq<Entry> { if |es| > MEMO_FRAMES then es[|es| - MEMO_FRAMES..] else es }

  predicate DistinctKeys(es: seq<Entry>) { forall i, j :: 0 <= i < j < |es| ==> es[i].key != es[j].key }

  /** base, skew and last PTS say where the newest stamp is; nothing has been computed yet otherwise. */
  predicate Anchored(t: Timeline, log: seq<Entry>) {
    if log == [] then t == NoTimeline()
    else
      var e := log[|log| - 1];
      t.base.Some? && t.last == Some(e.pts) && e.pts == e.key.ts - t.base.value + t.skew
  }

  predicate Remembers(t: Timeline, recent: seq<Entry>) { t.memo == LastFew(recent) && DistinctKeys(t.memo) }

  predicate Inv(interval: int, r: Trace) {
    && Anchored(r.t, r.log)
    && Ideal(interval, r.log)
    && Increasing(r.log)
    && r.t.rebases == Discontinuities(r.log)
    && Remembers(r.t, r.recent)
  }

  lemma {:induction false} EvictIsLastFew(memo: seq<Entry>)
    ensures Evict(memo) == LastFew(memo)
    decreases |memo|
  {
    if |memo| > MEMO_FRAMES {
      EvictIsLastFew(memo[1..]);
    }
  }

  lemma {:induction false} LookupFinds(memo: seq<Entry>, i: nat)
    requires i < |memo| && DistinctKeys(memo)
    ensures Lookup(memo, memo[i].key) == Some(memo[i].pts)
    decreases |memo|
  {
    if i > 0 {
      assert memo[0].key != memo[i].key;
      assert DistinctKeys(memo[1..]);
      LookupFinds(memo[1..], i - 1);
      assert memo[1..][i - 1] == memo[i];
    }
  }

  lemma {:induction false} LookupMisses(memo: seq<Entry>, key: Stamp)
    requires Lookup(memo, key).None?
    ensures forall i :: 0 <= i < |memo| ==> memo[i].key != key
    decreases |memo|
  {
    if memo != [] {
      LookupMisses(memo[1..], key);
      forall i | 0 <= i < |memo| ensures memo[i].key != key {
        if i > 0 { assert memo[1..][i - 1] == memo[i]; }
      }
    }
  }

  /** A new PTS against the one before it: never clamped, and one reference step away. */
  lemma MissSteps(interval: int, t: Timeline, log: seq<Entry>, s: Stamp)
    requires interval > 0 && Anchored(t, log) && (log != [] ==> log[|log| - 1].pts >= 0)
    ensures var u := OwnMiss(interval, t, s);
            var e := Entry(s, u.last.value);
            && Anchored(u, log + [e])
            && e.pts == (if log == [] then 0
                         else log[|log| - 1].pts + Step(interval, s.ts - log[|log| - 1].key.ts))
            && u.rebases == t.rebases + (if log != [] && OutOfRange(s.ts - log[|log| - 1].key.ts) then 1 else 0)
  {
    hide Evict;
  }

  lemma {:induction false} IdealGrows(interval: int, log: seq<Entry>, e: Entry)
    requires Ideal(interval, log)
    requires e.pts == if log == [] then 0 else log[|log| - 1].pts + Step(interval, e.key.ts - log[|log| - 1].key.ts)
    ensures Ideal(interval, log + [e])
    ensures Discontinuities(log + [e])
         == Discontinuities(log) + (if log != [] && OutOfRange(e.key.ts - log[|log| - 1].key.ts) then 1 else 0)
  {
    assert (log + [e])[..|log|] == log;
  }

  lemma IncreasingGrows(interval: int, log: seq<Entry>, e: Entry)
    requires interval > 0 && Increasing(log)
    requires e.pts == if log == [] then 0 else log[|log| - 1].pts + Step(interval, e.key.ts - log[|log| - 1].key.ts)
    ensures Increasing(log + [e])
  {
  }

  lemma {:induction false} RemembersMore(interval: int, t: Timeline, recent: seq<Entry>, s: Stamp)
    requires Remembers(t, recent) && Lookup(t.memo, s).None?
    ensures var u := OwnMiss(interval, t, s);
            Remembers(u, recent + [Entry(s, u.last.value)])
  {
    var u := OwnMiss(interval, t, s);
    var e := Entry(s, u.last.value);
    LookupMisses(t.memo, s);
    EvictIsLastFew(t.memo + [e]);
    assert DistinctKeys(t.memo + [e]);
    assert u.memo == LastFew(recent + [e]);
  }

  lemma {:induction false} ComputedKeeps(interval: int, r: Trace, s: Stamp)
    requires interval > 0 && Inv(interval, r) && Lookup(r.t.memo, s).None?
    ensures Inv(interval, Next(interval, r, Own(s)))
  {
    hide OwnMiss, Ideal, Increasing, Discontinuities, Remembers, Anchored;
    var e := Entry(s, OwnMiss(interval, r.t, s).last.value);
    assert r.log != [] ==> r.log[|r.log| - 1].pts >= 0 by { LastIsNatural(r.log); }
    MissSteps(interval, r.t, r.log, s);
    IdealGrows(interval, r.log, e);
    IncreasingGrows(interval, r.log, e);
    RemembersMore(interval, r.t, r.recent, s);
  }

  lemma LastIsNatural(log: seq<Entry>)
    requires Increasing(log)
    ensures log != [] ==> log[|log| - 1].pts >= 0
  {
  }

  lemma NextKeeps(interval: int, r: Trace, op: Op)
    requires interval > 0 && Inv(interval, r)
    ensures Inv(interval, Next(interval, r, op))
  {
    if Computes(r.t, op) {
      ComputedKeeps(interval, r, op.stamp);
    } else {
      hide Ideal, Increasing, Discontinuities;
      assert r.log + [] == r.log && r.recent + [] == r.recent;
    }
  }

  lemma {:induction false} RunKeeps(interval: int, r: Trace, ops: seq<Op>)
    requires interval > 0 && Inv(interval, r)
    ensures Inv(interval, Run(interval, r, ops))
    decreases |ops|
  {
    hide Inv, Next;
    if ops != [] {
      NextKeeps(interval, r, ops[0]);
      RunKeeps(interval, Next(interval, r, ops[0]), ops[1..]);
    }
  }

  lemma BeginInv(interval: int)
    ensures Inv(interval, Begin())
  {
  }

  // ---- results -------------------------------------------------------------------------

  /**
   * Over every run, the PTSs the owner computes are the reference timeline of their stamps: zero for
   * the first frame, then one stamp difference more if it lies in (0, 60 s] and one frame interval
   * more otherwise, each such correction counted once. They are non-negative and strictly increasing.
   */
  lemma {:induction false} OwnerFollowsIdeal(interval: int, ops: seq<Op>)
    requires interval > 0
    ensures var r := Run(interval, Begin(), ops);
            Ideal(interval, r.log) && Increasing(r.log) && r.t.rebases == Discontinuities(r.log)
  {
    BeginInv(interval);
    RunKeeps(interval, Begin(), ops);
  }

  /** A positive frame interval is what it takes: exactly then no run has two frames out of order. */
  lemma IncreasingExactly(interval: int)
    ensures (forall ops :: Increasing(Run(interval, Begin(), ops).log)) <==> interval > 0
  {
    if interval > 0 {
      forall ops ensures Increasing(Run(interval, Begin(), ops).log) { OwnerFollowsIdeal(interval, ops); }
    } else {
      StandingStill(interval);
    }
  }

  /** Two frames with one stamp: without a positive interval the second does not move forward. */
  lemma {:induction false} StandingStill(interval: int)
    requires interval <= 0
    ensures !Increasing(Run(interval, Begin(), [Own(Stamp(0, 5)), Own(Stamp(1, 5))]).log)
  {
    var a, b := Own(Stamp(0, 5)), Own(Stamp(1, 5));
    var r1 := Next(interval, Begin(), a);
    EvictIsLastFew([Entry(Stamp(0, 5), 0)]);
    assert r1.log == [Entry(Stamp(0, 5), 0)] && r1.t.memo == [Entry(Stamp(0, 5), 0)];
    var r2 := Next(interval, r1, b);
    assert Run(interval, r1, [b]) == r2;
    assert [a, b][1..] == [b];
    assert Run(interval, Begin(), [a, b]) == r2;
    assert r2.log[1].pts <= r2.log[0].pts;
  }

  function WithoutReads(ops: seq<Op>): seq<Op> {
    if ops == [] then []
    else if ops[0].Read? then WithoutReads(ops[1..])
    else [ops[0]] + WithoutReads(ops[1..])
  }

  /** The read-only branch cannot move the timeline: leave its calls out and the run is the same. */
  lemma {:induction false} ReadsChangeNothing(interval: int, r: Trace, ops: seq<Op>)
    ensures Run(interval, r, ops) == Run(interval, r, WithoutReads(ops))
    decreases |ops|
  {
    hide OwnMiss;
    if ops != [] {
      ReadsChangeNothing(interval, Next(interval, r, ops[0]), ops[1..]);
      if ops[0].Read? {
        assert r.log + [] == r.log && r.recent + [] == r.recent;
      } else {
        assert WithoutReads(ops)[1..] == WithoutReads(ops[1..]);
      }
    }
  }

  lemma RememberedAnswer(interval: int, t: Timeline, recent: seq<Entry>, i: nat, own: bool)
    requires Remembers(t, recent) && |recent| - MEMO_FRAMES <= i < |recent|
    ensures Answer(interval, t, recent[i].key, own) == recent[i].pts
  {
    hide OwnMiss;
    var k := |recent| - |t.memo|;
    assert t.memo[i - k] == recent[i];
    LookupFinds(t.memo, i - k);
  }

  predicate NoReconnect(ops: seq<Op>)
    decreases |ops|
  {
    ops == [] || (!ops[0].Reconnect? && NoReconnect(ops[1..]))
  }

  function Owns(ops: seq<Op>): nat
    decreases |ops|
  {
    if ops == [] then 0 else (if ops[0].Own? then 1 else 0) + Owns(ops[1..])
  }

  lemma {:induction false} RecentGrows(interval: int, r: Trace, ops: seq<Op>)
    requires NoReconnect(ops)
    ensures var u := Run(interval, r, ops).recent; r.recent <= u && |u| <= |r.recent| + Owns(ops)
    decreases |ops|
  {
    hide OwnMiss, Answer, Apply, Lookup;
    if ops != [] {
      RecentGrows(interval, Next(interval, r, ops[0]), ops[1..]);
    }
  }

  lemma {:induction false} RunAppend(interval: int, r: Trace, a: seq<Op>, b: seq<Op>)
    ensures Run(interval, r, a + b) == Run(interval, Run(interval, r, a), b)
    decreases |a|
  {
    hide Next;
    if a == [] {
      assert a + b == b;
    } else {
      assert (a + b)[0] == a[0] && (a + b)[1..] == a[1..] + b;
      RunAppend(interval, Next(interval, r, a[0]), a[1..], b);
    }
  }

  /**
   * Both branches stamp a frame alike: once the owner has computed its PTS, either caller gets that
   * value for it, until a reconnect or until the owner has been through 256 more frames.
   */
  lemma {:induction false} BranchesAgree(interval: int, before: seq<Op>, s: Stamp, ops: seq<Op>, own: bool)
    requires interval > 0 && NoReconnect(ops) && Owns(ops) < MEMO_FRAMES
    requires Lookup(Run(interval, Begin(), before).t.memo, s).None?
    ensures var r := Run(interval, Begin(), before);
            Answer(interval, Run(interval, Begin(), before + [Own(s)] + ops).t, s, own)
            == Answer(interval, r.t, s, true)
  {
    hide Inv, Answer, NoReconnect;
    var r := Run(interval, Begin(), before);
    var r1 := Next(interval, r, Own(s));
    var u := Run(interval, r1, ops);
    RunAppend(interval, Begin(), before, [Own(s)]);
    assert Run(interval, r, [Own(s)]) == r1;
    RunAppend(interval, Begin(), before + [Own(s)], ops);
    RecentGrows(interval, r1, ops);
    RunKeepsMemo(interval, before + [Own(s)] + ops);
    var i := |r.recent|;
    assert u.recent[i] == Entry(s, Answer(interval, r.t, s, true));
    RememberedAnswer(interval, u.t, u.recent, i, own);
  }

  lemma {:induction false} RunKeepsMemo(interval: int, ops: seq<Op>)
    requires interval > 0
    ensures var r := Run(interval, Begin(), ops); Remembers(r.t, r.recent) && Anchored(r.t, r.log)
  {
    hide Remembers, Anchored, Run;
    BeginInv(interval);
    RunKeeps(interval, Begin(), ops);
    var r := Run(interval, Begin(), ops);
    assert Inv(interval, r);
  }

  /** Any other frame is placed by the read-only caller relative to the newest recorded one. */
  lemma {:induction false} ReadExtrapolates(interval: int, ops: seq<Op>, s: Stamp)
    requires interval > 0
    ensures var r := Run(interval, Begin(), ops);
            Lookup(r.t.memo, s).None? ==> Answer(interval, r.t, s, false) == Extrapolated(r.log, s)
  {
    hide Remembers, Run, OwnMiss;
    RunKeepsMemo(interval, ops);
  }

  /** As far from the newest recorded frame as the stamps are apart, but not before zero. */
  function Extrapolated(log: seq<Entry>, s: Stamp): int {
    if log == [] then 0
    else
      var e := log[|log| - 1];
      if e.pts + (s.ts - e.key.ts) < 0 then 0 else e.pts + (s.ts - e.key.ts)
  }
}
