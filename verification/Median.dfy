/** The usual interval between two recorded frames: core-driver/cam_driver/playback.py, median_interval_ns. */
module Median {
  import opened ReplayTimeline

  predicate Ascending(s: seq<int>) { forall i, j :: 0 <= i < j < |s| ==> s[i] <= s[j] }

  lemma {:induction false} InsertPermutes(x: int, s: seq<int>)
    ensures multiset(Insert(x, s)) == multiset(s) + multiset{x}
    decreases |s|
  {
    if s != [] && x > s[0] {
      InsertPermutes(x, s[1..]);
      assert s == [s[0]] + s[1..];
    }
  }

  lemma {:induction false} InsertAscending(x: int, s: seq<int>)
    requires Ascending(s)
    ensures Ascending(Insert(x, s))
    decreases |s|
  {
    if s != [] && x > s[0] {
      var t := Insert(x, s[1..]);
      InsertAscending(x, s[1..]);
      InsertPermutes(x, s[1..]);
      forall i | 0 <= i < |t| ensures s[0] <= t[i] {
        assert t[i] in multiset(t);
        assert t[i] == x || t[i] in s[1..];
      }
    }
  }

  lemma {:induction false} SortPermutes(s: seq<int>)
    ensures multiset(Sort(s)) == multiset(s) && |Sort(s)| == |s|
    decreases |s|
  {
    if s != [] {
      SortPermutes(s[1..]);
      InsertPermutes(s[0], Sort(s[1..]));
      assert s == [s[0]] + s[1..];
    }
    assert |Sort(s)| == |multiset(Sort(s))| == |multiset(s)| == |s|;
  }

  lemma {:induction false} SortAscending(s: seq<int>)
    ensures Ascending(Sort(s))
    decreases |s|
  {
    if s != [] {
      SortAscending(s[1..]);
      InsertAscending(s[0], Sort(s[1..]));
    }
  }

  lemma HeadIsLeast(a: seq<int>, b: seq<int>)
    requires Ascending(a) && a != [] && b != [] && multiset(a) == multiset(b)
    ensures a[0] <= b[0]
  {
    assert b[0] in multiset(b);
    assert b[0] in a;
  }

  /** There is one way to put numbers in ascending order. */
  lemma {:induction false} OneOrder(a: seq<int>, b: seq<int>)
    requires Ascending(a) && Ascending(b) && multiset(a) == multiset(b)
    ensures a == b
    decreases |a|
  {
    assert |multiset(a)| == |a| && |multiset(b)| == |b|;
    if a != [] {
      HeadIsLeast(a, b);
      HeadIsLeast(b, a);
      assert a == [a[0]] + a[1..] && b == [b[0]] + b[1..];
      assert multiset(a[1..]) == multiset(a) - multiset{a[0]};
      assert multiset(b[1..]) == multiset(b) - multiset{b[0]};
      OneOrder(a[1..], b[1..]);
    }
  }

  /** The places at which the stamps go forward by x. */
  ghost function ForwardBy(ts: seq<int>, x: int): set<int> { set i | 0 <= i < |ts| - 1 && GoesBy(ts, i, x) }

  predicate GoesBy(ts: seq<int>, i: int, x: int)
    requires 0 <= i < |ts| - 1
  {
    ts[i] < ts[i + 1] && ts[i + 1] - ts[i] == x
  }

  lemma ForwardGrows(ts: seq<int>, t: int, x: int)
    requires ts != []
    ensures |ForwardBy(ts + [t], x)| == |ForwardBy(ts, x)| + if t > ts[|ts| - 1] && t - ts[|ts| - 1] == x then 1 else 0
  {
    var us, n := ts + [t], |ts| - 1;
    var here := if GoesBy(us, n, x) then {n} else {};
    forall i | 0 <= i < n ensures GoesBy(us, i, x) == GoesBy(ts, i, x) {}
    assert ForwardBy(us, x) == ForwardBy(ts, x) + here;
    assert ForwardBy(ts, x) !! here;
  }

  lemma {:induction false} LastStep(ts: seq<int>, t: int)
    requires ts != []
    ensures Steps(ts + [t]) == Steps(ts) + if t > ts[|ts| - 1] then [t - ts[|ts| - 1]] else []
    decreases |ts|
  {
    var us := ts + [t];
    if |ts| == 1 {
      assert us[1..] == [t] && Steps([t]) == [];
    } else {
      LastStep(ts[1..], t);
      assert us[1..] == ts[1..] + [t];
    }
  }

  /** Each step forward counts once, in whatever order the rows come; a repeated or backward stamp does not count. */
  lemma {:induction false} StepsAre(ts: seq<int>, x: int)
    ensures multiset(Steps(ts))[x] == |ForwardBy(ts, x)|
    decreases |ts|
  {
    var n := |ts|;
    if n < 2 {
      assert ForwardBy(ts, x) == {};
    } else {
      var us := ts[..n - 1];
      StepsAre(us, x);
      LastStep(us, ts[n - 1]);
      assert ts == us + [ts[n - 1]];
      ForwardGrows(us, ts[n - 1], x);
    }
  }

  /** How many are at most v, and how many at least v. */
  function AtMost(s: seq<int>, v: int): nat { if s == [] then 0 else (if s[0] <= v then 1 else 0) + AtMost(s[1..], v) }
  function AtLeast(s: seq<int>, v: int): nat { if s == [] then 0 else (if s[0] >= v then 1 else 0) + AtLeast(s[1..], v) }

  lemma {:induction false} CountsInserted(x: int, s: seq<int>, v: int)
    ensures AtMost(Insert(x, s), v) == AtMost(s, v) + if x <= v then 1 else 0
    ensures AtLeast(Insert(x, s), v) == AtLeast(s, v) + if x >= v then 1 else 0
    decreases |s|
  {
    if s != [] && x > s[0] {
      CountsInserted(x, s[1..], v);
      assert ([s[0]] + Insert(x, s[1..]))[1..] == Insert(x, s[1..]);
    } else {
      assert ([x] + s)[1..] == s;
    }
  }

  lemma {:induction false} CountsSorted(s: seq<int>, v: int)
    ensures AtMost(Sort(s), v) == AtMost(s, v) && AtLeast(Sort(s), v) == AtLeast(s, v)
    decreases |s|
  {
    if s != [] {
      CountsSorted(s[1..], v);
      CountsInserted(s[0], Sort(s[1..]), v);
    }
  }

  lemma {:induction false} FirstAreAtMost(s: seq<int>, k: nat, v: int)
    requires k <= |s| && (forall i :: 0 <= i < k ==> s[i] <= v)
    ensures AtMost(s, v) >= k
    decreases k
  {
    if k > 0 { FirstAreAtMost(s[1..], k - 1, v); }
  }

  lemma {:induction false} LastAreAtLeast(s: seq<int>, k: nat, v: int)
    requires k <= |s| && (forall i :: k <= i < |s| ==> s[i] >= v)
    ensures AtLeast(s, v) >= |s| - k
    decreases |s|
  {
    if s != [] { LastAreAtLeast(s[1..], if k > 0 then k - 1 else 0, v); }
  }

  lemma {:induction false} MiddleSplits(s: seq<int>)
    requires s != [] && Ascending(s)
    ensures 2 * AtMost(s, Middle(s)) >= |s| && 2 * AtLeast(s, Middle(s)) >= |s|
  {
    var n := |s|;
    FirstAreAtMost(s, (n + 1) / 2, Middle(s));
    LastAreAtLeast(s, n / 2, Middle(s));
  }

  /**
   * The median interval, by what it is among the forward steps: at least half of them are no longer, at
   * least half no shorter; and once they stand in ascending order, it is the middle one, or the mean of
   * the two middle ones rounded down. Without a forward step it is that of 30 frames a second.
   */
  lemma {:induction false} MedianIsMedian(ts: seq<int>, sorted: seq<int>)
    requires Ascending(sorted) && multiset(sorted) == multiset(Steps(ts))
    ensures var m, d, n := MedianInterval(ts), Steps(ts), |sorted|;
            && n == |d|
            && (n == 0 ==> m == 33_333_333)
            && (n > 0 ==> 2 * AtMost(d, m) >= n && 2 * AtLeast(d, m) >= n)
            && (n % 2 == 1 ==> m == sorted[n / 2] && m in d)
            && (n > 0 && n % 2 == 0 ==> 2 * m <= sorted[n / 2 - 1] + sorted[n / 2] <= 2 * m + 1)
  {
    hide Sort, Steps, AtMost, AtLeast;
    var d := Steps(ts);
    var s := Sort(d);
    SortPermutes(d);
    SortAscending(d);
    OneOrder(s, sorted);
    if d != [] {
      CountsSorted(d, MedianInterval(ts));
      MiddleSplits(s);
      if |s| % 2 == 1 {
        assert s[|s| / 2] in multiset(s);
      }
    }
  }

  lemma {:induction false} CountsApart(s: seq<int>, x: int, v: int)
    ensures v < x ==> AtMost(s, v) + multiset(s)[x] <= |s|
    ensures v > x ==> AtLeast(s, v) + multiset(s)[x] <= |s|
    decreases |s|
  {
    if s != [] {
      CountsApart(s[1..], x, v);
      assert s == [s[0]] + s[1..];
    }
  }

  /** So gaps in the recording do not matter: an interval that most steps have is the answer. */
  lemma {:induction false} GapsDoNotMatter(ts: seq<int>, x: int)
    requires 2 * |ForwardBy(ts, x)| > |Steps(ts)|
    ensures MedianInterval(ts) == x
  {
    hide Steps, ForwardBy, MedianInterval, AtMost, AtLeast, Sort;
    var d := Steps(ts);
    StepsAre(ts, x);
    SortPermutes(d);
    SortAscending(d);
    MedianIsMedian(ts, Sort(d));
    CountsApart(d, x, MedianInterval(ts));
    assert |multiset(d)| == |d|;
  }
}
