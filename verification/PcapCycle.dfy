/** What a pass over a USB capture comes to: core-driver/cam_driver/sources/pcapsrc.py, _feed_loop. */
module PcapCycle {
  import opened Common
  import opened PcapFeed

  /**
   * A pass is followed by the next cycle if a restart cut it, or if playback loops and something came out
   * of it; a complete pass without frames fails, and one without a loop is the end.
   */
  lemma PassEndsExactly(c: Capture, f: Feeder, p: Pass)
    requires !f.failed && !f.done
    ensures var t := AfterPass(c, f, p);
            var restarted := p.cut.Some? && p.cut.value < |c.items|;
            && (t.failed <==> !restarted && c.items == [])
            && (t.done <==> !restarted && c.items != [] && !p.loop)
            && (t.cycle == f.cycle + 1 <==> restarted || (p.loop && c.items != []))
            && (t.cycle == f.cycle + 1 ==> t.offset == (f.cycle + 1) * t.span)
            && (t.cycle != f.cycle + 1 ==> t.cycle == f.cycle && t.offset == f.offset)
  {
  }

  /** Frames all d apart, the transfers beginning with the first and ending with the last. */
  ghost predicate Even(c: Capture, d: int) {
    && c.items != [] && d > 0 && c.ok == |c.items| && c.last != 0
    && c.first == c.items[0].ts && c.last == c.items[|c.items| - 1].ts
    && forall i :: 0 <= i < |c.items| ==> c.items[i].ts == c.first + i * d
  }

  lemma Divides(n: nat, d: int)
    requires n > 0
    ensures n * d / n == d
  {
    assert n * d == d * n;
    assert d * n / n == d by { Whole(d, n); }
  }

  lemma Whole(d: int, n: nat)
    requires n > 0
    ensures d * n / n == d
  {
    var q := d * n / n;
    assert q * n <= d * n < q * n + n;
    if q < d { Grows(q + 1, d, n); Distributes(q, 1, n); }
    if q > d { Grows(d + 1, q, n); Distributes(d, 1, n); }
  }

  /**
   * A capture with an even frame rate loops at that rate: a cycle lasts as many intervals as it has
   * frames, and the first frame of the next one comes one interval after the last. A single frame lasts
   * one thirtieth of a second.
   */
  lemma {:induction false} EvenRhythm(c: Capture, d: int)
    requires Even(c, d)
    ensures var n := |c.items|;
            var f := AfterPass(c, Start(), Pass(None, true));
            var one, two := PassNotes(c, Start(), 0, n), PassNotes(c, f, 0, n);
            && f.cycle == 1 && f.offset == f.span == (if n > 1 then n * d else 33_333_333)
            && |one| == n && |two| == n
            && two[0].stamp - one[n - 1].stamp == (if n > 1 then d else 33_333_333)
  {
    var n := |c.items|;
    var f := AfterPass(c, Start(), Pass(None, true));
    assert c.last - c.first == (n - 1) * d;
    if n > 1 {
      Divides(n - 1, d);
      Distributes(n - 1, 1, d);
    }
    PassAt(c, Start(), 0, n, n - 1);
    PassAt(c, f, 0, n, 0);
  }
}
