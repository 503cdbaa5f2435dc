/**
 * One timeline over the sessions of a recording: core-driver/cam_driver/sources/replay.py, open, and
 * core-driver/cam_driver/playback.py.
 */
module ReplayTimeline {
  import opened Common

  /** One row of a sidecar CSV. */
  datatype Stamp = Stamp(id: int, ts: int, system: int, camera: int, chunk: Option<int>)

  /** Every time field moves by the same amount. */
  function Shift(s: Stamp, d: int): Stamp {
    if d == 0 then s
    else Stamp(s.id, s.ts + d, s.system + d, s.camera + d, if s.chunk.Some? then Some(s.chunk.value + d) else None)
  }

  /** `gapMax`, `from`, `to` in nanoseconds; epoch None: the run's own first frame. */
  datatype Plan = Plan(sessions: seq<seq<Stamp>>, median: int, epoch: Option<int>,
                       from: Option<int>, to: Option<int>, gapMax: nat, retime: int)

  ghost predicate Valid(p: Plan) {
    p.sessions != [] && (forall k :: 0 <= k < |p.sessions| ==> p.sessions[k] != []) && p.median > 0
  }

  function First(p: Plan): int requires Valid(p) { p.sessions[0][0].ts }

  function LastOf(rows: seq<Stamp>): int requires rows != [] { rows[|rows| - 1].ts }

  function Last(p: Plan): int requires Valid(p) { LastOf(p.sessions[|p.sessions| - 1]) }

  function Span(p: Plan): int requires Valid(p) { Last(p) - First(p) + p.median }

  function Zero(p: Plan): int requires Valid(p) { if p.epoch.Some? then p.epoch.value else First(p) }

  function FromNs(p: Plan): Option<int>
    requires Valid(p)
  {
    if p.epoch.Some? then Some(p.epoch.value + (if p.from.Some? then p.from.value else 0))
    else if p.from.Some? then Some(First(p) + p.from.value)
    else None
  }

  function ToNs(p: Plan): Option<int> requires Valid(p) { if p.to.Some? then Some(Zero(p) + p.to.value) else None }

  /** Silence is only capped on the run's own timeline. */
  function Cap(p: Plan): nat { if p.epoch.None? then p.gapMax else 0 }

  /** What open() refuses. */
  ghost predicate Playable(p: Plan) {
    Valid(p) && (FromNs(p).Some? ==> FromNs(p).value <= Last(p)) && (ToNs(p).Some? ==> ToNs(p).value > First(p))
  }

  predicate BeforeWindow(p: Plan, ts: int) requires Valid(p) { FromNs(p).Some? && ts < FromNs(p).value }
  predicate PastWindow(p: Plan, ts: int) requires Valid(p) { ToNs(p).Some? && ts >= ToNs(p).value }

  /** The first session, from `k` on, with anything inside the window. */
  function FirstSession(p: Plan, k: nat): (r: nat)
    requires Valid(p) && k < |p.sessions|
    ensures k <= r < |p.sessions|
    ensures BeforeWindow(p, LastOf(p.sessions[r])) ==> r == |p.sessions| - 1
    ensures forall j :: k <= j < r ==> BeforeWindow(p, LastOf(p.sessions[j]))
    decreases |p.sessions| - k
  {
    if BeforeWindow(p, LastOf(p.sessions[k])) && k + 1 < |p.sessions| then FirstSession(p, k + 1) else k
  }

  function Begin(p: Plan): nat requires Valid(p) { FirstSession(p, 0) }

  // ---- silence between sessions ------------------------------------------------------------

  /** From the end of session k to the start of the next. */
  function Gap(p: Plan, k: nat): int
    requires Valid(p) && k + 1 < |p.sessions|
  {
    p.sessions[k + 1][0].ts - LastOf(p.sessions[k])
  }

  predicate Capped(p: Plan, k: nat)
    requires Valid(p) && k + 1 < |p.sessions|
  {
    0 < Cap(p) < Gap(p, k)
  }

  /** The part of the gap after session k that is not waited for. */
  function Excess(p: Plan, k: nat): nat
    requires Valid(p) && k + 1 < |p.sessions|
  {
    if Capped(p, k) then Gap(p, k) - Cap(p) else 0
  }

  /** Over the gaps after sessions a, ..., b - 1. */
  function Skipped(p: Plan, a: nat, b: nat): nat
    requires Valid(p) && a <= b < |p.sessions|
  {
    if a == b then 0 else Skipped(p, a, b - 1) + Excess(p, b - 1)
  }

  function End(p: Plan): int
    requires Valid(p)
  {
    var full := Last(p) + p.median;
    if ToNs(p).Some? && ToNs(p).value < full then ToNs(p).value else full
  }

  /** The length of one cycle that the descriptor shows. */
  method Duration(p: Plan) returns (ns: int)
    requires Valid(p)
    ensures ns == End(p) - Zero(p) - Skipped(p, 0, |p.sessions| - 1)
  {
    ns := End(p) - Zero(p);
    var k := 0;
    while k + 1 < |p.sessions|
      invariant k < |p.sessions|
      invariant ns == End(p) - Zero(p) - Skipped(p, 0, k)
    {
      var gap := Gap(p, k);
      if Cap(p) > 0 {
        if gap > Cap(p) {
          ns := ns - (gap - Cap(p));
        }
      }
      k := k + 1;
    }
  }

  // ---- what is played ----------------------------------------------------------------------

  /** Effective time at the start of session k: recorded time, with every gap on the way at most the cap. */
  function Effective(p: Plan, k: nat): int
    requires Valid(p) && Begin(p) <= k < |p.sessions|
  {
    if k == Begin(p) then p.sessions[k][0].ts - Zero(p)
    else
      Effective(p, k - 1) + (LastOf(p.sessions[k - 1]) - p.sessions[k - 1][0].ts)
      + (if Capped(p, k - 1) then Cap(p) else Gap(p, k - 1))
  }

  /** ... at row i of it. */
  function EffectiveAt(p: Plan, k: nat, i: nat): int
    requires Valid(p) && Begin(p) <= k < |p.sessions| && i < |p.sessions[k]|
  {
    Effective(p, k) + (p.sessions[k][i].ts - p.sessions[k][0].ts)
  }

  /** Subtracting the skipped silence from the recorded position is effective time. */
  lemma {:induction false} EffectiveIsSkipped(p: Plan, k: nat)
    requires Valid(p) && Begin(p) <= k < |p.sessions|
    ensures Effective(p, k) == p.sessions[k][0].ts - Zero(p) - Skipped(p, Begin(p), k)
  {
    if k > Begin(p) { EffectiveIsSkipped(p, k - 1); }
  }

  /** The last session a cycle gets to, from session k on. */
  function LastSession(p: Plan, k: nat): (r: nat)
    requires Valid(p) && k < |p.sessions|
    ensures k <= r < |p.sessions|
    decreases |p.sessions| - k
  {
    if k + 1 < |p.sessions| && !PastWindow(p, p.sessions[k + 1][0].ts) then LastSession(p, k + 1) else k
  }

  function Final(p: Plan): nat requires Valid(p) { LastSession(p, Begin(p)) }

  /** Effective time at the end of the window. */
  function WindowEnd(p: Plan): int
    requires Valid(p)
  {
    End(p) - Zero(p) - Skipped(p, Begin(p), Final(p))
  }

  function Advertised(p: Plan): int
    requires Valid(p)
  {
    End(p) - Zero(p) - Skipped(p, 0, |p.sessions| - 1)
  }

  lemma {:induction false} SkippedSplits(p: Plan, a: nat, b: nat, c: nat)
    requires Valid(p) && a <= b <= c < |p.sessions|
    ensures Skipped(p, a, c) == Skipped(p, a, b) + Skipped(p, b, c)
    decreases c
  {
    if b < c { SkippedSplits(p, a, b, c - 1); }
  }

  /** No gap after sessions a, ..., b - 1 is longer than the cap. */
  ghost predicate NoneCapped(p: Plan, a: nat, b: nat)
    requires Valid(p) && a <= b < |p.sessions|
  {
    forall k :: a <= k < b ==> !Capped(p, k)
  }

  lemma {:induction false} SkippedZero(p: Plan, a: nat, b: nat)
    requires Valid(p) && a <= b < |p.sessions|
    ensures Skipped(p, a, b) == 0 <==> NoneCapped(p, a, b)
    decreases b
  {
    if a < b {
      SkippedZero(p, a, b - 1);
      if Skipped(p, a, b) == 0 {
        forall k | a <= k < b ensures !Capped(p, k) {}
      } else if NoneCapped(p, a, b) {
        assert NoneCapped(p, a, b - 1);
      }
    }
  }

  /** Silence over the cap that the duration leaves out although no cycle passes it: before and behind the window. */
  function Outside(p: Plan): nat
    requires Valid(p)
  {
    Skipped(p, 0, Begin(p)) + Skipped(p, Final(p), |p.sessions| - 1)
  }

  /** The duration falls short of the end of the window by that much; exactly then is there none, if no such gap is capped. */
  lemma OutsideIsMissing(p: Plan)
    requires Valid(p)
    ensures Advertised(p) == WindowEnd(p) - Outside(p)
    ensures Outside(p) == 0 <==> NoneCapped(p, 0, Begin(p)) && NoneCapped(p, Final(p), |p.sessions| - 1)
  {
    var n := |p.sessions| - 1;
    SkippedSplits(p, 0, Begin(p), n);
    SkippedSplits(p, Begin(p), Final(p), n);
    SkippedZero(p, 0, Begin(p));
    SkippedZero(p, Final(p), n);
  }

  // ---- bounds on a recording whose rows are in order ---------------------------------------

  ghost predicate Ordered(p: Plan)
    requires Valid(p)
  {
    && (forall k, i, j :: 0 <= k < |p.sessions| && 0 <= i < j < |p.sessions[k]|
          ==> p.sessions[k][i].ts <= p.sessions[k][j].ts)
    && (forall k :: 0 <= k < |p.sessions| - 1 ==> Gap(p, k) >= 0)
  }

  lemma {:induction false} SessionsAscend(p: Plan, a: nat, b: nat)
    requires Valid(p) && Ordered(p) && a <= b < |p.sessions|
    ensures p.sessions[a][0].ts <= p.sessions[b][0].ts
    ensures LastOf(p.sessions[a]) <= LastOf(p.sessions[b])
    ensures a < b ==> LastOf(p.sessions[a]) <= p.sessions[b][0].ts
    decreases b
  {
    if a < b {
      SessionsAscend(p, a, b - 1);
      assert Gap(p, b - 1) >= 0;
      assert p.sessions[b][0].ts <= LastOf(p.sessions[b]) by { RowsAscend(p, b, 0, |p.sessions[b]| - 1); }
      assert p.sessions[b - 1][0].ts <= LastOf(p.sessions[b - 1]) by { RowsAscend(p, b - 1, 0, |p.sessions[b - 1]| - 1); }
    }
  }

  lemma RowsAscend(p: Plan, k: nat, i: nat, j: nat)
    requires Valid(p) && Ordered(p) && k < |p.sessions| && i <= j < |p.sessions[k]|
    ensures p.sessions[k][i].ts <= p.sessions[k][j].ts
  {
  }

  /** Every row lies within the run. */
  lemma WithinRun(p: Plan, k: nat, i: nat)
    requires Valid(p) && Ordered(p) && k < |p.sessions| && i < |p.sessions[k]|
    ensures First(p) <= p.sessions[k][i].ts <= Last(p)
  {
    SessionsAscend(p, 0, k);
    SessionsAscend(p, k, |p.sessions| - 1);
    RowsAscend(p, k, 0, i);
    RowsAscend(p, k, i, |p.sessions[k]| - 1);
  }

  /** Effective time never runs backwards from one session to the next. */
  lemma {:induction false} EffectiveAscends(p: Plan, k: nat, l: nat)
    requires Valid(p) && Ordered(p) && Begin(p) <= k < l < |p.sessions|
    ensures EffectiveAt(p, k, |p.sessions[k]| - 1) <= Effective(p, l)
    decreases l
  {
    assert Gap(p, l - 1) >= 0;
    if k < l - 1 {
      EffectiveAscends(p, k, l - 1);
      RowsAscend(p, l - 1, 0, |p.sessions[l - 1]| - 1);
    }
  }

  lemma {:induction false} LastSessionInWindow(p: Plan, k: nat)
    requires Valid(p) && k < |p.sessions|
    ensures LastSession(p, k) > k ==> !PastWindow(p, p.sessions[LastSession(p, k)][0].ts)
    decreases |p.sessions| - k
  {
    if k + 1 < |p.sessions| && !PastWindow(p, p.sessions[k + 1][0].ts) { LastSessionInWindow(p, k + 1); }
  }

  /** Rows inside the window that the cycle gets to. */
  predicate InWindow(p: Plan, k: nat, i: nat)
    requires Valid(p)
  {
    && Begin(p) <= k <= Final(p) && i < |p.sessions[k]|
    && !BeforeWindow(p, p.sessions[k][i].ts) && !PastWindow(p, p.sessions[k][i].ts)
  }

  /** Every frame of a cycle is at a position before the end of the window, and not before zero. */
  lemma PositionsBelowWindowEnd(p: Plan, k: nat, i: nat)
    requires Valid(p) && Ordered(p) && InWindow(p, k, i)
    requires p.epoch.Some? && p.from.Some? ==> p.from.value >= 0
    ensures 0 <= EffectiveAt(p, k, i) < WindowEnd(p)
  {
    var l := Final(p);
    EffectiveIsSkipped(p, k);
    EffectiveIsSkipped(p, l);
    WithinRun(p, k, i);
    NotBeforeZero(p, k, i);
    if k < l {
      EffectiveAscends(p, k, l);
      RowsAscend(p, k, i, |p.sessions[k]| - 1);
      LastSessionInWindow(p, Begin(p));
      WithinRun(p, l, 0);
    }
  }

  lemma NotBeforeZero(p: Plan, k: nat, i: nat)
    requires Valid(p) && Ordered(p) && InWindow(p, k, i)
    requires p.epoch.Some? && p.from.Some? ==> p.from.value >= 0
    ensures 0 <= EffectiveAt(p, k, i)
  {
    WithinRun(p, k, i);
    if p.epoch.Some? {
      EffectiveIsSkipped(p, k);
      SkippedZero(p, Begin(p), k);
      assert NoneCapped(p, Begin(p), k);
    } else {
      WithinRun(p, Begin(p), 0);
      RowsAscend(p, k, 0, i);
      if k > Begin(p) {
        EffectiveAscends(p, Begin(p), k);
        RowsAscend(p, Begin(p), 0, |p.sessions[Begin(p)]| - 1);
      }
    }
  }

  /** Without a window a cycle starts at zero and ends exactly one median interval short of the duration. */
  lemma UnwindowedEnds(p: Plan)
    requires Valid(p) && p.epoch.None? && p.from.None? && p.to.None?
    ensures Begin(p) == 0 && Final(p) == |p.sessions| - 1
    ensures EffectiveAt(p, 0, 0) == 0
    ensures var n := |p.sessions| - 1; EffectiveAt(p, n, |p.sessions[n]| - 1) == Advertised(p) - p.median
  {
    var n := |p.sessions| - 1;
    NoWindowPlaysAll(p, 0);
    EffectiveIsSkipped(p, n);
  }

  lemma {:induction false} NoWindowPlaysAll(p: Plan, k: nat)
    requires Valid(p) && p.to.None? && k < |p.sessions|
    ensures LastSession(p, k) == |p.sessions| - 1
    decreases |p.sessions| - k
  {
    if k + 1 < |p.sessions| { NoWindowPlaysAll(p, k + 1); }
  }

  function Row(ts: int): Stamp { Stamp(0, ts, ts, ts, None) }

  // ---- the duration against the last frame played ---------------------------------------------

  /** The last row a cycle plays: the window has no more rows behind it in the last session it reaches. */
  predicate LastRow(p: Plan, i: nat)
    requires Valid(p)
  {
    InWindow(p, Final(p), i) && (i + 1 < |p.sessions[Final(p)]| ==> PastWindow(p, p.sessions[Final(p)][i + 1].ts))
  }

  /** From the last row played to the end of the window. */
  function Silence(p: Plan, i: nat): int
    requires Valid(p) && i < |p.sessions[Final(p)]|
  {
    End(p) - p.sessions[Final(p)][i].ts
  }

  /** Nothing in the window is later than its last row. */
  lemma LastIsLatest(p: Plan, last: nat, k: nat, i: nat)
    requires Valid(p) && Ordered(p) && LastRow(p, last) && InWindow(p, k, i)
    ensures EffectiveAt(p, k, i) <= EffectiveAt(p, Final(p), last)
  {
    var l := Final(p);
    if k < l {
      EffectiveAscends(p, k, l);
      RowsAscend(p, k, i, |p.sessions[k]| - 1);
      RowsAscend(p, l, 0, last);
    } else if i <= last {
      RowsAscend(p, l, i, last);
    } else {
      RowsAscend(p, l, last + 1, i);
    }
  }

  /**
   * The duration against what plays, for any window: it is the position of the last frame, plus the
   * silence from there to the end of the window, less the silence outside it. So every frame stands
   * before the duration if and only if the one exceeds the other, and the duration is within one
   * interval of the last frame if and only if it does so by no more than that.
   */
  lemma DurationExactly(p: Plan, last: nat)
    requires Valid(p) && Ordered(p) && LastRow(p, last)
    ensures Advertised(p) == EffectiveAt(p, Final(p), last) + Silence(p, last) - Outside(p)
    ensures Silence(p, last) > 0
    ensures (forall k, i :: InWindow(p, k, i) ==> EffectiveAt(p, k, i) < Advertised(p)) <==> Outside(p) < Silence(p, last)
    ensures EffectiveAt(p, Final(p), last) < Advertised(p) <= EffectiveAt(p, Final(p), last) + p.median
            <==> Outside(p) < Silence(p, last) <= Outside(p) + p.median
  {
    var l := Final(p);
    OutsideIsMissing(p);
    EffectiveIsSkipped(p, l);
    WithinRun(p, l, last);
    if Outside(p) < Silence(p, last) {
      forall k, i | InWindow(p, k, i) ensures EffectiveAt(p, k, i) < Advertised(p) { LastIsLatest(p, last, k, i); }
    } else {
      assert InWindow(p, l, last) && EffectiveAt(p, l, last) >= Advertised(p);
    }
  }

  /** The silence is an interval at most exactly if the window plays to the run's end, or ends within an interval of a row. */
  lemma SilenceExactly(p: Plan, last: nat)
    requires Valid(p) && Ordered(p) && LastRow(p, last)
    ensures var ts := p.sessions[Final(p)][last].ts;
            Silence(p, last) <= p.median <==> ts == Last(p) || (ToNs(p).Some? && ToNs(p).value <= ts + p.median)
  {
    WithinRun(p, Final(p), last);
  }

  /** Ten seconds recorded, a long break, one more frame; played up to the middle of the break, nothing capped. */
  function ToInSilence(): Plan {
    Plan([[Row(0), Row(10_000_000_000)], [Row(1_000_000_000_000)]], 10_000_000_000, None, None, Some(500_000_000_000), 0, 0)
  }

  lemma ToInSilenceShape()
    ensures var p := ToInSilence();
            && Valid(p) && |p.sessions| == 2 && |p.sessions[0]| == 2 && |p.sessions[1]| == 1
            && p.sessions[0][0].ts == 0 && p.sessions[0][1].ts == 10_000_000_000
            && p.sessions[1][0].ts == 1_000_000_000_000
  {
    var p := ToInSilence();
    assert p.sessions[0] == [Row(0), Row(10_000_000_000)];
    assert p.sessions[1] == [Row(1_000_000_000_000)];
  }

  /** There no gap is capped at all, and the duration is 490 s longer than what plays. */
  lemma DurationCountsSilence()
    ensures var p := ToInSilence();
            && Valid(p) && Ordered(p) && Playable(p) && LastRow(p, 1) && Outside(p) == 0
            && Advertised(p) == EffectiveAt(p, Final(p), 1) + 490_000_000_000
  {
    ToInSilenceShape();
    var p := ToInSilence();
    assert Begin(p) == 0;
    assert Final(p) == 0;
    assert Skipped(p, 0, 0) == 0 && Skipped(p, 0, 1) == 0;
  }

  /** Two sessions an hour apart, silence capped at 5 s, played from within the second one. */
  function LateWindow(): Plan {
    Plan([[Row(0)], [Row(3_600_000_000_000), Row(3_600_100_000_000)]], 33_333_333, None,
         Some(3_600_000_000_000), None, 5_000_000_000, 0)
  }

  lemma LateWindowShape()
    ensures var p := LateWindow();
            && Valid(p) && |p.sessions| == 2 && |p.sessions[0]| == 1 && |p.sessions[1]| == 2
            && p.sessions[0][0].ts == 0
            && p.sessions[1][0].ts == 3_600_000_000_000 && p.sessions[1][1].ts == 3_600_100_000_000
  {
    var p := LateWindow();
    assert p.sessions[0] == [Row(0)];
  }

  /** There the very first frame already stands past the advertised end. */
  lemma WindowedPositionOvertakes()
    ensures var p := LateWindow();
            Valid(p) && Ordered(p) && Playable(p) && InWindow(p, 1, 0) && EffectiveAt(p, 1, 0) > Advertised(p)
  {
    LateWindowShape();
    var p := LateWindow();
    assert Begin(p) == 1 by { assert FirstSession(p, 1) == 1; }
    assert Final(p) == 1;
    assert Skipped(p, 0, 1) == 3_595_000_000_000 by { assert Skipped(p, 0, 0) == 0; }
  }

  // ---- the median interval -----------------------------------------------------------------

  const DEFAULT_INTERVAL: int := 33_333_333

  function Insert(x: int, s: seq<int>): seq<int>
    decreases |s|
  {
    if s == [] || x <= s[0] then [x] + s else [s[0]] + Insert(x, s[1..])
  }

  function Sort(s: seq<int>): seq<int>
    decreases |s|
  {
    if s == [] then [] else Insert(s[0], Sort(s[1..]))
  }

  /** The forward steps between consecutive timestamps. */
  function Steps(ts: seq<int>): seq<int>
    decreases |ts|
  {
    if |ts| < 2 then [] else (if ts[1] > ts[0] then [ts[1] - ts[0]] else []) + Steps(ts[1..])
  }

  function Middle(s: seq<int>): int
    requires s != []
  {
    if |s| % 2 == 1 then s[|s| / 2] else (s[|s| / 2 - 1] + s[|s| / 2]) / 2
  }

  function MedianInterval(ts: seq<int>): int {
    var s := Sort(Steps(ts));
    if s == [] then DEFAULT_INTERVAL else Middle(s)
  }

  predicate AllPositive(s: seq<int>) { forall i :: 0 <= i < |s| ==> s[i] > 0 }

  lemma {:induction false} InsertPositive(x: int, s: seq<int>)
    requires x > 0 && AllPositive(s)
    ensures AllPositive(Insert(x, s))
    decreases |s|
  {
    if s != [] && x > s[0] { InsertPositive(x, s[1..]); }
  }

  lemma {:induction false} SortPositive(s: seq<int>)
    requires AllPositive(s)
    ensures AllPositive(Sort(s))
    decreases |s|
  {
    if s != [] {
      SortPositive(s[1..]);
      InsertPositive(s[0], Sort(s[1..]));
    }
  }

  lemma {:induction false} StepsPositive(ts: seq<int>)
    ensures AllPositive(Steps(ts))
    decreases |ts|
  {
    if |ts| >= 2 { StepsPositive(ts[1..]); }
  }

  /** Whatever the rows, repeated and backward stamps included, a cycle is at least one tick longer than its span. */
  lemma MedianPositive(ts: seq<int>)
    ensures MedianInterval(ts) > 0
  {
    StepsPositive(ts);
    SortPositive(Steps(ts));
  }
}
