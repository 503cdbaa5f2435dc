/** Looping over a USB capture: core-driver/cam_driver/sources/pcapsrc.py, _feed_loop. */
module PcapFeed {
  import opened Common

  const DEFAULT_INTERVAL: int := 33_333_333

  /** A frame of the capture; how far the reassembly had read, and how many frames it had made, when it came out. */
  datatype Item = Item(ts: int, seen: int, ok: nat)

  /** `first`, `last`: the transfers' own first and last timestamps. */
  datatype Capture = Capture(items: seq<Item>, first: int, last: int, ok: nat, retime: int)

  /** A capture read in time order. */
  ghost predicate Valid(c: Capture) {
    && c.first <= c.last && c.ok >= |c.items|
    && (forall i :: 0 <= i < |c.items| ==>
          c.first <= c.items[i].ts <= c.items[i].seen <= c.last && i < c.items[i].ok <= c.ok)
    && (forall i, j :: 0 <= i <= j < |c.items| ==> c.items[i].ts <= c.items[j].ts)
  }

  /** One pass: cut by a restart in front of frame k, or not; and whether looping is on at its end. */
  datatype Pass = Pass(cut: Option<nat>, loop: bool)

  datatype Feeder = Feeder(cycle: nat, offset: int, span: int, failed: bool, done: bool)

  datatype Note = Note(cycle: nat, row: nat, stamp: int)

  function Start(): Feeder { Feeder(0, 0, 0, false, false) }

  predicate IsCut(c: Capture, p: Pass) { p.cut.Some? && p.cut.value < |c.items| }

  function Length(c: Capture, p: Pass): (n: nat)
    ensures n <= |c.items|
  {
    if IsCut(c, p) then p.cut.value else |c.items|
  }

  function SeenAt(c: Capture, p: Pass): int { if IsCut(c, p) then c.items[p.cut.value].seen else c.last }
  function OkAt(c: Capture, p: Pass): nat { if IsCut(c, p) then c.items[p.cut.value].ok else c.ok }

  function Interval(length: int, ok: nat): int { if ok > 1 then length / (ok - 1) else DEFAULT_INTERVAL }

  /** The cycle length a pass measures. */
  function Measured(c: Capture, p: Pass): int {
    var length := SeenAt(c, p) - c.first;
    length + Interval(length, OkAt(c, p))
  }

  function SpanAfter(c: Capture, f: Feeder, p: Pass): int {
    if f.span == 0 && SeenAt(c, p) != 0 then Measured(c, p) else f.span
  }

  function AfterPass(c: Capture, f: Feeder, p: Pass): Feeder {
    var span := SpanAfter(c, f, p);
    if Length(c, p) == 0 && !IsCut(c, p) then f.(span := span, failed := true)
    else if !IsCut(c, p) && !p.loop then f.(span := span, done := true)
    else Feeder(f.cycle + 1, (f.cycle + 1) * span, span, false, false)
  }

  /** The frames of one pass, from frame i on. */
  function PassNotes(c: Capture, f: Feeder, i: nat, n: nat): seq<Note>
    requires n <= |c.items|
    decreases n - i
  {
    if i >= n then []
    else [Note(f.cycle, i, c.items[i].ts + (c.retime + f.offset))] + PassNotes(c, f, i + 1, n)
  }

  class PcapFeeder {
    const capture: Capture
    var cycle: nat
    var offset: int
    var span: int
    var failed: bool
    var done: bool

    constructor (c: Capture)
      ensures capture == c && View() == Start()
    {
      capture := c;
      cycle, offset, span, failed, done := 0, 0, 0, false, false;
    }

    function View(): Feeder
      reads this
    {
      Feeder(cycle, offset, span, failed, done)
    }

    /** Stamp the first n frames of the capture for this cycle. */
    method Deliver(n: nat) returns (notes: seq<Note>)
      requires n <= |capture.items|
      ensures notes == PassNotes(capture, View(), 0, n)
    {
      ghost var f := View();
      ghost var all := PassNotes(capture, f, 0, n);
      notes := [];
      var i := 0;
      while i < n
        invariant 0 <= i <= n
        invariant notes + PassNotes(capture, f, i, n) == all
      {
        var note := Note(cycle, i, capture.items[i].ts + (capture.retime + offset));
        Associative(notes, [note], PassNotes(capture, f, i + 1, n));
        notes := notes + [note];
        i := i + 1;
      }
      assert PassNotes(capture, f, i, n) == [];
    }

    method PlayPass(p: Pass) returns (notes: seq<Note>)
      requires !failed && !done
      modifies this
      ensures View() == AfterPass(capture, old(View()), p)
      ensures notes == PassNotes(capture, old(View()), 0, Length(capture, p))
    {
      var n := Length(capture, p);
      notes := Deliver(n);
      if span == 0 && SeenAt(capture, p) != 0 {
        var length := SeenAt(capture, p) - capture.first;
        var interval := if OkAt(capture, p) > 1 then length / (OkAt(capture, p) - 1) else DEFAULT_INTERVAL;
        span := length + interval;
      }
      if n == 0 && !IsCut(capture, p) {
        failed := true;
        return;
      }
      if !IsCut(capture, p) && !p.loop {
        done := true;
        return;
      }
      cycle := cycle + 1;
      offset := cycle * span;
    }
  }

  // ---- whole runs ----------------------------------------------------------------------

  function Notes(c: Capture, f: Feeder, ps: seq<Pass>): seq<Note>
    decreases |ps|
  {
    if ps == [] || f.failed || f.done then []
    else PassNotes(c, f, 0, Length(c, ps[0])) + Notes(c, AfterPass(c, f, ps[0]), ps[1..])
  }

  /** Where a frame of a cycle is stamped when a cycle is `span` long. */
  predicate Placed(c: Capture, span: int, n: Note) {
    n.row < |c.items| && n.stamp == c.items[n.row].ts + c.retime + n.cycle * span
  }

  lemma {:induction false} PassPlaced(c: Capture, f: Feeder, span: int, i: nat, n: nat)
    requires n <= |c.items| && f.offset == f.cycle * span
    ensures forall x :: x in PassNotes(c, f, i, n) ==> Placed(c, span, x)
    decreases n - i
  {
    if i < n { PassPlaced(c, f, span, i + 1, n); }
  }

  lemma {:induction false} RunPlaced(c: Capture, f: Feeder, ps: seq<Pass>)
    requires f.span != 0 && f.offset == f.cycle * f.span
    ensures forall x :: x in Notes(c, f, ps) ==> Placed(c, f.span, x)
    decreases |ps|
  {
    if ps != [] && !f.failed && !f.done {
      PassPlaced(c, f, f.span, 0, Length(c, ps[0]));
      RunPlaced(c, AfterPass(c, f, ps[0]), ps[1..]);
    }
  }

  /** The length measured by the first pass, if it is not zero, is the length of every cycle of the run. */
  lemma {:induction false} FirstPassDecides(c: Capture, first: Pass, ps: seq<Pass>)
    requires SpanAfter(c, Start(), first) != 0
    ensures forall x :: x in Notes(c, Start(), [first] + ps) ==> Placed(c, SpanAfter(c, Start(), first), x)
  {
    var span := SpanAfter(c, Start(), first);
    assert ([first] + ps)[1..] == ps;
    PassPlaced(c, Start(), span, 0, Length(c, first));
    RunPlaced(c, AfterPass(c, Start(), first), ps);
  }

  /** Every stamp of a later cycle exceeds every stamp of an earlier one. */
  ghost predicate Forward(c: Capture, span: int) {
    forall m: Note, n: Note :: Placed(c, span, m) && Placed(c, span, n) && m.cycle < n.cycle ==> m.stamp < n.stamp
  }

  function Extent(c: Capture): int
    requires c.items != []
  {
    c.items[|c.items| - 1].ts - c.items[0].ts
  }

  /** Cycles follow one another exactly when a cycle is longer than the frames of the capture are apart. */
  lemma ForwardExactly(c: Capture, span: int)
    requires Valid(c) && c.items != []
    ensures Forward(c, span) <==> span > Extent(c)
  {
    var n := |c.items| - 1;
    if span > Extent(c) {
      forall a: Note, b: Note | Placed(c, span, a) && Placed(c, span, b) && a.cycle < b.cycle ensures a.stamp < b.stamp {
        CyclesApart(a.cycle, b.cycle, span);
        assert c.items[a.row].ts <= c.items[n].ts && c.items[0].ts <= c.items[b.row].ts;
      }
    } else {
      var a := Note(0, n, c.items[n].ts + c.retime);
      var b := Note(1, 0, c.items[0].ts + c.retime + span);
      assert Placed(c, span, a) && Placed(c, span, b) && a.cycle < b.cycle && a.stamp >= b.stamp;
    }
  }

  /** A complete first pass over a capture that takes any time at all measures enough. */
  lemma CompletePassMeasuresEnough(c: Capture, p: Pass)
    requires Valid(c) && c.items != [] && !IsCut(c, p) && c.last != 0
    requires c.ok > 1 ==> c.last - c.first >= c.ok - 1
    ensures SpanAfter(c, Start(), p) > Extent(c) && Forward(c, SpanAfter(c, Start(), p))
  {
    var length := c.last - c.first;
    if c.ok > 1 {
      DividesToOne(length, c.ok - 1);
    }
    ForwardExactly(c, Measured(c, p));
  }

  lemma DividesToOne(a: int, b: int)
    requires a >= b >= 1
    ensures a / b >= 1
  {
  }

  /**
   * So, after such a first pass, looping and restarting at any frame of any later pass never run time
   * backwards.
   */
  lemma {:induction false} RunsForward(c: Capture, first: Pass, ps: seq<Pass>, i: nat, j: nat)
    requires Valid(c) && c.items != [] && !IsCut(c, first) && c.last != 0
    requires c.ok > 1 ==> c.last - c.first >= c.ok - 1
    requires var ns := Notes(c, Start(), [first] + ps); i < |ns| && j < |ns| && ns[i].cycle < ns[j].cycle
    ensures var ns := Notes(c, Start(), [first] + ps); ns[i].stamp < ns[j].stamp
  {
    var ns := Notes(c, Start(), [first] + ps);
    hide Notes, Forward, SpanAfter, Placed;
    CompletePassMeasuresEnough(c, first);
    SpanNotZero(c, first);
    FirstPassDecides(c, first, ps);
    assert ns[i] in ns && ns[j] in ns;
    UseForward(c, SpanAfter(c, Start(), first), ns[i], ns[j]);
  }

  lemma SpanNotZero(c: Capture, p: Pass)
    requires Valid(c) && c.items != [] && SpanAfter(c, Start(), p) > Extent(c)
    ensures SpanAfter(c, Start(), p) != 0
  {
    assert c.items[0].ts <= c.items[|c.items| - 1].ts;
  }

  lemma UseForward(c: Capture, span: int, m: Note, n: Note)
    requires Forward(c, span) && Placed(c, span, m) && Placed(c, span, n) && m.cycle < n.cycle
    ensures m.stamp < n.stamp
  {
  }

  /** Three frames half a second apart. */
  function HalfSeconds(): Capture {
    var h := 500_000_000;
    Capture([Item(h, h, 1), Item(2 * h, 2 * h, 2), Item(3 * h, 3 * h, 3)], h, 3 * h, 3, 0)
  }

  lemma {:induction false} PassOfThree(c: Capture, f: Feeder)
    requires |c.items| == 3
    ensures PassNotes(c, f, 0, 3) == [Note(f.cycle, 0, c.items[0].ts + (c.retime + f.offset)),
                                      Note(f.cycle, 1, c.items[1].ts + (c.retime + f.offset)),
                                      Note(f.cycle, 2, c.items[2].ts + (c.retime + f.offset))]
  {
    assert PassNotes(c, f, 3, 3) == [];
    assert PassNotes(c, f, 2, 3) == [Note(f.cycle, 2, c.items[2].ts + (c.retime + f.offset))];
  }

  /**
   * A restart on the first frame of all freezes one default interval as the length of every cycle: of the
   * two passes that follow, the second starts before the first one's last frame.
   */
  lemma {:induction false} CutPassMeasuresTooLittle()
    ensures var c, cut, whole := HalfSeconds(), Pass(Some(0), true), Pass(None, true);
            var ns := Notes(c, Start(), [cut, whole, whole]);
            && Valid(c) && SpanAfter(c, Start(), cut) == DEFAULT_INTERVAL
            && |ns| == 6 && ns[2].cycle < ns[3].cycle && ns[3].stamp < ns[2].stamp
  {
    var c, cut, whole := HalfSeconds(), Pass(Some(0), true), Pass(None, true);
    var f := AfterPass(c, Start(), cut);
    assert f == Feeder(1, DEFAULT_INTERVAL, DEFAULT_INTERVAL, false, false);
    var g := AfterPass(c, f, whole);
    assert g == Feeder(2, 2 * DEFAULT_INTERVAL, DEFAULT_INTERVAL, false, false);
    var ps := [cut, whole, whole];
    assert ps[1..] == [whole, whole] && ps[1..][1..] == [whole] && [whole][1..] == [];
    PassOfThree(c, f);
    PassOfThree(c, g);
    assert PassNotes(c, Start(), 0, 0) == [];
    hide PassNotes;
    assert Notes(c, AfterPass(c, g, whole), []) == [];
    assert Notes(c, g, [whole]) == PassNotes(c, g, 0, 3);
    assert Notes(c, f, [whole, whole]) == PassNotes(c, f, 0, 3) + PassNotes(c, g, 0, 3);
    assert Notes(c, Start(), ps) == PassNotes(c, f, 0, 3) + PassNotes(c, g, 0, 3);
  }

  /** Whatever passes follow, the frames of a later cycle are later. */
  ghost predicate AllForward(c: Capture, first: Pass) {
    forall ps, i, j :: 0 <= i < |Notes(c, Start(), [first] + ps)| && 0 <= j < |Notes(c, Start(), [first] + ps)|
                       && Notes(c, Start(), [first] + ps)[i].cycle < Notes(c, Start(), [first] + ps)[j].cycle
      ==> Notes(c, Start(), [first] + ps)[i].stamp < Notes(c, Start(), [first] + ps)[j].stamp
  }

  const UNCUT := Pass(None, true)

  lemma {:induction false} PassAt(c: Capture, f: Feeder, i: nat, n: nat, k: nat)
    requires i <= n <= |c.items| && k < n - i
    ensures |PassNotes(c, f, i, n)| == n - i
    ensures PassNotes(c, f, i, n)[k] == Note(f.cycle, i + k, c.items[i + k].ts + (c.retime + f.offset))
    decreases n - i
  {
    if k > 0 {
      PassAt(c, f, i + 1, n, k - 1);
    } else if i + 1 < n {
      PassAt(c, f, i + 1, n, 0);
    }
  }

  /** A first pass that ends neither in failure nor for good, and two whole passes after it. */
  lemma {:induction false} TwoWholePasses(c: Capture, first: Pass) returns (i: nat, j: nat)
    requires c.items != [] && !AfterPass(c, Start(), first).failed && !AfterPass(c, Start(), first).done
    requires SpanAfter(c, Start(), first) != 0
    ensures var ns := Notes(c, Start(), [first] + [UNCUT, UNCUT]);
            && i < |ns| && j < |ns| && ns[i].cycle < ns[j].cycle
            && ns[j].stamp - ns[i].stamp == SpanAfter(c, Start(), first) - Extent(c)
  {
    var n := |c.items|;
    var f := AfterPass(c, Start(), first);
    var g := AfterPass(c, f, UNCUT);
    assert Length(c, UNCUT) == n && f.span == SpanAfter(c, Start(), first) && g.span == f.span;
    assert g.cycle == 2 && g.offset == 2 * f.span && f.offset == f.span && !g.failed && !g.done;
    PassAt(c, f, 0, n, n - 1);
    PassAt(c, g, 0, n, 0);
    ThreePasses(c, first, UNCUT, UNCUT);
    var before := |PassNotes(c, Start(), 0, Length(c, first))|;
    i, j := before + n - 1, before + n;
  }

  lemma {:induction false} ThreePasses(c: Capture, first: Pass, p: Pass, q: Pass)
    requires var f := AfterPass(c, Start(), first);
             !f.failed && !f.done && !AfterPass(c, f, p).failed && !AfterPass(c, f, p).done
    ensures var f := AfterPass(c, Start(), first);
            Notes(c, Start(), [first] + [p, q])
            == PassNotes(c, Start(), 0, Length(c, first))
               + (PassNotes(c, f, 0, Length(c, p)) + PassNotes(c, AfterPass(c, f, p), 0, Length(c, q)))
  {
    hide PassNotes, AfterPass;
    var f := AfterPass(c, Start(), first);
    var g := AfterPass(c, f, p);
    assert ([first] + [p, q])[1..] == [p, q] && [p, q][1..] == [q] && [q][1..] == [];
    assert Notes(c, AfterPass(c, g, q), []) == [];
    assert Notes(c, g, [q]) == PassNotes(c, g, 0, Length(c, q)) + [];
    assert Notes(c, f, [p, q]) == PassNotes(c, f, 0, Length(c, p)) + Notes(c, g, [q]);
  }

  /**
   * Over runs: after a first pass that measured any length and did not end the playback, loops and
   * restarts at any frame of any later pass never run time backwards, if and only if that length is more
   * than the frames of the capture are apart.
   */
  lemma {:induction false} RunsForwardExactly(c: Capture, first: Pass)
    requires Valid(c) && c.items != [] && SpanAfter(c, Start(), first) != 0
    requires !AfterPass(c, Start(), first).failed && !AfterPass(c, Start(), first).done
    ensures AllForward(c, first) <==> SpanAfter(c, Start(), first) > Extent(c)
  {
    hide Notes, Placed, AfterPass, SpanAfter, Valid;
    if SpanAfter(c, Start(), first) > Extent(c) {
      forall ps, i, j | 0 <= i < |Notes(c, Start(), [first] + ps)| && 0 <= j < |Notes(c, Start(), [first] + ps)|
                        && Notes(c, Start(), [first] + ps)[i].cycle < Notes(c, Start(), [first] + ps)[j].cycle
        ensures Notes(c, Start(), [first] + ps)[i].stamp < Notes(c, Start(), [first] + ps)[j].stamp
      {
        var ns := Notes(c, Start(), [first] + ps);
        FirstPassDecides(c, first, ps);
        assert ns[i] in ns && ns[j] in ns;
        ForwardExactly(c, SpanAfter(c, Start(), first));
        UseForward(c, SpanAfter(c, Start(), first), ns[i], ns[j]);
      }
    } else {
      var i, j := TwoWholePasses(c, first);
    }
  }

  /** So a cut first pass is enough exactly when what it had read, and one interval, outlast the frames. */
  lemma {:induction false} CutPassExactly(c: Capture, p: Pass)
    requires Valid(c) && IsCut(c, p) && c.items[p.cut.value].seen != 0
    ensures var it := c.items[p.cut.value];
            var span := it.seen - c.first + Interval(it.seen - c.first, it.ok);
            && (Forward(c, SpanAfter(c, Start(), p)) <==> span > Extent(c))
            && (span != 0 ==> (AllForward(c, p) <==> span > Extent(c)))
  {
    hide Forward, AllForward;
    ForwardExactly(c, SpanAfter(c, Start(), p));
    if SpanAfter(c, Start(), p) != 0 { RunsForwardExactly(c, p); }
  }
}
