/**
 * The per-frame rows of a recording: core-driver/cam_driver/sidecar.py. The feeder offers rows, a
 * writer thread takes them off a bounded queue, and stop() sends it home.
 */
module Sidecar {
  import opened Common
  import opened ReplayTimeline

  const QUEUE_ROWS: nat := 20000

  /** An element of the queue: a row, or the sentinel. */
  datatype Item = Row(stamp: Stamp) | Sentinel

  datatype Writer = Writing | Draining | Ended

  datatype State = State(
    failed: bool, dropped: nat, queue: seq<Item>,
    pending: Option<Stamp>,     // of an add() past its check
    writer: Writer,
    stopping: bool,             // the sentinel has been offered
    written: seq<Stamp>,
    offered: seq<Stamp>)        // every row add() was called with

  datatype Move =
    | Add(stamp: Stamp)         // add() is called: is there still a consumer?
    | Put                       // ... and puts its row
    | Take(ok: bool)            // the writer takes an item; ok: the disk did
    | DrainOne
    | Stop                      // the session is closed: the sentinel, if there is room in time

  function Start(): State { State(false, 0, [], None, Writing, false, [], []) }

  function Call(s: State, stamp: Stamp): State {
    s.(pending := if s.failed then None else Some(stamp), offered := s.offered + [stamp])
  }

  function PutRow(s: State): State
    requires s.pending.Some?
  {
    var room := |s.queue| < QUEUE_ROWS;
    s.(pending := None, queue := if room then s.queue + [Row(s.pending.value)] else s.queue,
       dropped := if room then s.dropped else s.dropped + 1)
  }

  function TakeItem(s: State, ok: bool): State
    requires s.queue != []
  {
    var row := s.queue[0].Row?;
    s.(queue := s.queue[1..], written := if row && ok then s.written + [s.queue[0].stamp] else s.written,
       failed := s.failed || (row && !ok), writer := if !row then Ended else if ok then Writing else Draining)
  }

  function OfferSentinel(s: State): State {
    s.(stopping := true, queue := if |s.queue| < QUEUE_ROWS then s.queue + [Sentinel] else s.queue)
  }

  /** A step that is not possible leaves the state as it is. push() runs under the session lock, so adds do not overlap. */
  function Step(s: State, m: Move): State {
    match m
    case Add(stamp) => if s.pending.None? && !s.stopping then Call(s, stamp) else s
    case Put => if s.pending.Some? then PutRow(s) else s
    case Take(ok) => if s.writer.Writing? && s.queue != [] then TakeItem(s, ok) else s
    case DrainOne =>
      if !s.writer.Draining? then s
      else if s.queue == [] then s.(writer := Ended)
      else s.(queue := s.queue[1..])
    case Stop => if s.pending.None? && !s.stopping then OfferSentinel(s) else s
  }

  function Run(s: State, ms: seq<Move>): State
    decreases |ms|
  {
    if ms == [] then s else Run(Step(s, ms[0]), ms[1..])
  }

  class SidecarWriter {
    var failed: bool
    var dropped: nat
    var queue: seq<Item>
    var writer: Writer
    var stopping: bool
    var written: seq<Stamp>
    ghost var offered: seq<Stamp>

    constructor ()
      ensures View() == Start()
    {
      failed, dropped, queue, writer, stopping, written, offered := false, 0, [], Writing, false, [], [];
    }

    ghost function View(): State
      reads this
    {
      State(failed, dropped, queue, None, writer, stopping, written, offered)
    }

    /** One row, the writer not coming in between. */
    method Add(stamp: Stamp)
      requires !stopping
      modifies this`queue, this`dropped, this`offered
      ensures View() == Step(Step(old(View()), Move.Add(stamp)), Put)
    {
      offered := offered + [stamp];
      if failed {
        return;
      }
      if |queue| < QUEUE_ROWS {
        queue := queue + [Row(stamp)];
      } else {
        dropped := dropped + 1;
      }
    }

    /** One turn of the writer's loop. */
    method WriteNext(ok: bool)
      requires writer.Writing? && queue != []
      modifies this`queue, this`written, this`failed, this`writer
      ensures View() == Step(old(View()), Take(ok))
    {
      var item := queue[0];
      queue := queue[1..];
      if item.Sentinel? {
        writer := Ended;
        return;
      }
      if ok {
        written := written + [item.stamp];
      } else {
        failed := true;
        writer := Draining;
      }
    }

    /** After a failure: empty the queue, so that nobody waits for it. */
    method Drain()
      requires writer.Draining?
      modifies this`queue, this`writer
      ensures queue == [] && writer == Ended
    {
      while queue != []
        decreases |queue|
        modifies this`queue
      {
        queue := queue[1..];
      }
      writer := Ended;
    }

    method Stop()
      requires !stopping
      modifies this`queue, this`stopping
      ensures View() == Step(old(View()), Move.Stop)
    {
      stopping := true;
      if |queue| < QUEUE_ROWS {
        queue := queue + [Sentinel];
      }
    }
  }

  // ---- the invariant -------------------------------------------------------------------

  function Stamps(queue: seq<Item>): seq<Stamp> {
    if queue == [] then []
    else (if queue[0].Row? then [queue[0].stamp] else []) + Stamps(queue[1..])
  }

  lemma {:induction false} StampsAppend(a: seq<Item>, b: seq<Item>)
    ensures Stamps(a + b) == Stamps(a) + Stamps(b)
    decreases |a|
  {
    if a == [] {
      assert a + b == b;
    } else {
      assert (a + b)[0] == a[0] && (a + b)[1..] == a[1..] + b;
      StampsAppend(a[1..], b);
    }
  }

  /** The rows that made it onto the queue, written or not yet. */
  function Kept(s: State): seq<Stamp> { s.written + Stamps(s.queue) }

  /** Rows offered whose fate is settled. */
  function Settled(s: State): seq<Stamp> {
    if s.pending.Some? && s.offered != [] then s.offered[..|s.offered| - 1] else s.offered
  }

  predicate NoSentinel(queue: seq<Item>) { forall i :: 0 <= i < |queue| ==> queue[i].Row? }

  /** A sentinel is the last thing in the queue, and the writer ends on it alone. */
  predicate SentinelLast(s: State) {
    && (!s.stopping ==> NoSentinel(s.queue))
    && (s.queue != [] ==> NoSentinel(s.queue[..|s.queue| - 1]))
    && (s.stopping ==> s.pending.None?)
    && (s.writer.Ended? && !s.failed ==> s.queue == [] && s.stopping)
    && (s.writer.Draining? ==> s.failed)
  }

  ghost predicate Inv(s: State) {
    && (s.pending.Some? ==> s.offered != [] && s.offered[|s.offered| - 1] == s.pending.value)
    && SentinelLast(s)
    && (s.failed ==> !s.writer.Writing?)
    && Subsequence(s.written, s.offered)
    && (!s.failed ==> Subsequence(Kept(s), Settled(s)) && |Kept(s)| + s.dropped == |Settled(s)|)
  }

  lemma CallKeeps(s: State, stamp: Stamp)
    requires Inv(s) && s.pending.None? && !s.stopping
    ensures Inv(Call(s, stamp))
  {
    SubsequenceSkip(s.written, s.offered, stamp);
    assert (s.offered + [stamp])[..|s.offered|] == s.offered;
  }

  lemma KeptOneMore(s: State, x: Stamp)
    requires Inv(s) && s.pending == Some(x)
    ensures Kept(PutRow(s)) == if |s.queue| < QUEUE_ROWS then Kept(s) + [x] else Kept(s)
    ensures Settled(PutRow(s)) == Settled(s) + [x]
  {
    hide Subsequence, SentinelLast;
    StampsAppend(s.queue, [Row(x)]);
    assert Stamps([Row(x)]) == [x] by { assert [Row(x)][1..] == []; }
    Associative(s.written, Stamps(s.queue), [x]);
    assert s.offered == Settled(s) + [x];
  }

  lemma PutRows(s: State)
    requires Inv(s) && s.pending.Some? && !s.failed
    ensures var t := PutRow(s); Subsequence(Kept(t), Settled(t)) && |Kept(t)| + t.dropped == |Settled(t)|
  {
    hide Subsequence, SentinelLast;
    var x := s.pending.value;
    KeptOneMore(s, x);
    SubsequenceSkip(Kept(s), Settled(s), x);
    SubsequenceTake(Kept(s), Settled(s), x);
    hide Kept, Stamps;
  }

  lemma PutQueue(s: State)
    requires SentinelLast(s) && s.pending.Some?
    ensures SentinelLast(PutRow(s))
  {
    var x := s.pending.value;
    assert (s.queue + [Row(x)])[..|s.queue|] == s.queue;
  }

  lemma PutKeeps(s: State)
    requires Inv(s) && s.pending.Some?
    ensures Inv(PutRow(s))
  {
    hide Subsequence, SentinelLast, Kept, Settled;
    PutQueue(s);
    if !s.failed { PutRows(s); }
  }

  lemma TakeQueue(s: State, ok: bool)
    requires SentinelLast(s) && s.writer.Writing? && s.queue != []
    ensures SentinelLast(TakeItem(s, ok))
  {
    if |s.queue| > 1 {
      assert s.queue[1..][..|s.queue| - 2] == s.queue[..|s.queue| - 1][1..];
      assert s.queue[..|s.queue| - 1][0] == s.queue[0];
    }
  }

  lemma TakeRows(s: State, ok: bool)
    requires Inv(s) && s.writer.Writing? && s.queue != []
    ensures var t := TakeItem(s, ok);
            Subsequence(t.written, t.offered) && (!t.failed ==> Kept(t) == Kept(s) && Settled(t) == Settled(s))
  {
    hide Subsequence, SentinelLast;
    var t := TakeItem(s, ok);
    assert [] + Stamps(s.queue[1..]) == Stamps(s.queue[1..]);
    if s.queue[0].Row? && ok {
      Associative(s.written, [s.queue[0].stamp], Stamps(s.queue[1..]));
      KeptWritten(t.written, Stamps(t.queue), Settled(s));
      SettledWithin(s, t.written);
    }
  }

  lemma TakeKeeps(s: State, ok: bool)
    requires Inv(s) && s.writer.Writing? && s.queue != []
    ensures Inv(TakeItem(s, ok))
  {
    hide Subsequence, SentinelLast, Kept, Settled;
    TakeQueue(s, ok);
    TakeRows(s, ok);
  }

  /** What is left of a subsequence after cutting its end is one too. */
  lemma {:induction false} KeptWritten(a: seq<Stamp>, more: seq<Stamp>, b: seq<Stamp>)
    requires Subsequence(a + more, b)
    ensures Subsequence(a, b)
    decreases |b|, |more|
  {
    if more == [] {
      assert a + more == a;
    } else {
      var c := a + more;
      assert c[..|c| - 1] == a + more[..|more| - 1];
      var shorter := b[..|b| - 1];
      if Subsequence(c, shorter) {
        KeptWritten(a, more, shorter);
      } else {
        KeptWritten(a, more[..|more| - 1], shorter);
      }
    }
  }

  lemma {:induction false} SettledWithin(s: State, a: seq<Stamp>)
    requires Inv(s) && Subsequence(a, Settled(s))
    ensures Subsequence(a, s.offered)
  {
    if s.pending.Some? {
      assert s.offered == Settled(s) + [s.pending.value];
      SubsequenceSkip(a, Settled(s), s.pending.value);
    }
  }

  lemma StopKeeps(s: State)
    requires Inv(s) && s.pending.None? && !s.stopping
    ensures Inv(OfferSentinel(s))
  {
    StampsAppend(s.queue, [Sentinel]);
    assert Stamps([Sentinel]) == [] by { assert [Sentinel][1..] == []; }
    assert Stamps(s.queue) + [] == Stamps(s.queue);
    assert Kept(OfferSentinel(s)) == Kept(s);
    assert (s.queue + [Sentinel])[..|s.queue|] == s.queue;
  }

  lemma DrainKeeps(s: State)
    requires Inv(s) && s.writer.Draining? && s.queue != []
    ensures Inv(s.(queue := s.queue[1..]))
  {
    if |s.queue| > 1 {
      assert s.queue[1..][..|s.queue| - 2] == s.queue[..|s.queue| - 1][1..];
    }
  }

  lemma StepKeeps(s: State, m: Move)
    requires Inv(s)
    ensures Inv(Step(s, m))
  {
    match m
    case Add(stamp) => if s.pending.None? && !s.stopping { CallKeeps(s, stamp); }
    case Put => if s.pending.Some? { PutKeeps(s); }
    case Take(ok) => if s.writer.Writing? && s.queue != [] { TakeKeeps(s, ok); }
    case DrainOne => if s.writer.Draining? && s.queue != [] { DrainKeeps(s); }
    case Stop => if s.pending.None? && !s.stopping { StopKeeps(s); }
  }

  lemma {:induction false} RunKeeps(s: State, ms: seq<Move>)
    requires Inv(s)
    ensures Inv(Run(s, ms))
    decreases |ms|
  {
    hide Inv, Step;
    if ms != [] {
      StepKeeps(s, ms[0]);
      RunKeeps(Step(s, ms[0]), ms[1..]);
    }
  }

  // ---- results -------------------------------------------------------------------------

  /**
   * In every interleaving of feeder, writer and stop: the file's rows are the offered ones in order
   * with some left out; and once the writer has ended without a failure, exactly the counted ones are.
   */
  lemma {:induction false} RowsAreSubsequence(ms: seq<Move>)
    ensures var s := Run(Start(), ms);
            && Subsequence(s.written, s.offered)
            && (s.writer.Ended? && !s.failed ==> |s.written| + s.dropped == |s.offered|)
            && (s.writer.Ended? && !s.failed && s.dropped == 0 ==> s.written == s.offered)
  {
    hide Run;
    RunKeeps(Start(), ms);
    var s := Run(Start(), ms);
    if s.writer.Ended? && !s.failed {
      assert Kept(s) == s.written by { assert s.written + [] == s.written; }
      SubsequenceLength(s.written, s.offered);
    }
  }

  // ---- the end of the writer ---------------------------------------------------------------

  /** The writer alone, its disk working, n turns on. */
  function Alone(s: State, n: nat): State
    decreases n
  {
    if n == 0 then s else Alone(Step(s, if s.writer.Draining? then DrainOne else Take(true)), n - 1)
  }

  predicate SentHome(s: State) { s.queue != [] && s.queue[|s.queue| - 1].Sentinel? }

  lemma {:induction false} StaysPut(s: State, n: nat)
    requires s.writer.Ended? || (s.writer.Writing? && s.queue == [])
    ensures Alone(s, n) == s
    decreases n
  {
    if n > 0 { StaysPut(s, n - 1); }
  }

  lemma {:induction false} AloneEnds(s: State)
    requires Inv(s) && s.stopping
    ensures Alone(s, |s.queue| + 1).writer.Ended? <==> s.writer.Ended? || s.failed || SentHome(s)
    decreases |s.queue|
  {
    hide Subsequence, Kept, Settled;
    var t := Step(s, if s.writer.Draining? then DrainOne else Take(true));
    if s.writer.Ended? || s.queue == [] {
      StaysPut(t, |s.queue|);
    } else {
      AloneTurn(s);
      AloneEnds(t);
    }
  }

  lemma AloneTurn(s: State)
    requires Inv(s) && s.stopping && !s.writer.Ended? && s.queue != []
    ensures var t := Step(s, if s.writer.Draining? then DrainOne else Take(true));
            && Inv(t) && t.stopping && |t.queue| == |s.queue| - 1
            && (t.writer.Ended? || t.failed || SentHome(t) <==> s.failed || SentHome(s))
  {
    hide Subsequence, Kept, Settled, SentinelLast;
    FrontIsRow(s);
    if s.writer.Draining? {
      DrainKeeps(s);
    } else {
      TakeKeeps(s, true);
      if |s.queue| > 1 { assert s.queue[1..][|s.queue| - 2] == s.queue[|s.queue| - 1]; }
    }
  }

  lemma FrontIsRow(s: State)
    requires SentinelLast(s) && s.queue != []
    ensures |s.queue| > 1 ==> s.queue[0].Row?
    ensures s.writer.Draining? ==> s.failed
  {
    if |s.queue| > 1 { assert s.queue[..|s.queue| - 1][0].Row?; }
  }

  lemma StartInv() ensures Inv(Start()) {}

  /**
   * stop() gets the writer to end, whatever went before and with a disk that works from then on, exactly
   * if there was room for its sentinel or the writer had failed; else the writer empties the queue and
   * waits for more.
   */
  lemma {:induction false} StopEndsWriterExactly(ms: seq<Move>)
    requires var s := Run(Start(), ms); s.pending.None? && !s.stopping
    ensures var s := Run(Start(), ms);
            var t := Step(s, Stop);
            Alone(t, |t.queue| + 1).writer.Ended? <==> s.failed || |s.queue| < 20_000
  {
    hide Subsequence, Kept, Settled, Run;
    var s := Run(Start(), ms);
    StartInv();
    RunKeeps(Start(), ms);
    StopKeeps(s);
    AloneEnds(Step(s, Stop));
    if |s.queue| >= QUEUE_ROWS { assert s.queue[|s.queue| - 1].Row?; }
  }

  // ---- the queue keeps to its bound --------------------------------------------------------

  lemma StepBounded(s: State, m: Move)
    requires |s.queue| <= 20_000
    ensures |Step(s, m).queue| <= 20_000
  {
  }

  /** However slow the disk, no more than 20 000 items wait for it. */
  lemma {:induction false} QueueBounded(s: State, ms: seq<Move>)
    requires |s.queue| <= 20_000
    ensures |Run(s, ms).queue| <= 20_000
    decreases |ms|
  {
    hide Step;
    if ms != [] {
      StepBounded(s, ms[0]);
      QueueBounded(Step(s, ms[0]), ms[1..]);
    }
  }

  /**
   * A row is kept unless 20 000 items wait, or the writer has failed: it goes behind them, or is counted,
   * or nobody would read it any more.
   */
  lemma {:induction false} RowDroppedExactly(ms: seq<Move>, stamp: Stamp)
    requires var s := Run(Start(), ms); s.pending.None? && !s.stopping
    ensures var s := Run(Start(), ms);
            var t := Step(Step(s, Move.Add(stamp)), Put);
            && t.pending.None? && t.offered == s.offered + [stamp] && t.written == s.written
            && t.queue == (if s.failed || |s.queue| == 20_000 then s.queue else s.queue + [Row(stamp)])
            && t.dropped == (if !s.failed && |s.queue| == 20_000 then s.dropped + 1 else s.dropped)
  {
    hide Run;
    QueueBounded(Start(), ms);
  }

  lemma HealthyStep(s: State, m: Move)
    requires !s.failed && !s.stopping && s.writer.Writing? && NoSentinel(s.queue)
    requires m != Take(false) && !m.Stop?
    ensures var t := Step(s, m); !t.failed && !t.stopping && t.writer.Writing? && NoSentinel(t.queue)
  {
  }

  lemma {:induction false} HealthyRun(s: State, ms: seq<Move>)
    requires !s.failed && !s.stopping && s.writer.Writing? && NoSentinel(s.queue)
    requires forall i :: 0 <= i < |ms| ==> ms[i] != Take(false) && !ms[i].Stop?
    ensures var t := Run(s, ms); !t.failed && !t.stopping && t.writer.Writing?
    decreases |ms|
  {
    hide Step, NoSentinel;
    if ms != [] {
      HealthyStep(s, ms[0]);
      HealthyRun(Step(s, ms[0]), ms[1..]);
    }
  }

  /** Until a write fails or the session is closed, the writer takes rows. */
  lemma {:induction false} WritesUntilStopped(ms: seq<Move>)
    requires forall i :: 0 <= i < |ms| ==> ms[i] != Take(false) && !ms[i].Stop?
    ensures var s := Run(Start(), ms); !s.failed && !s.stopping && s.writer.Writing?
  {
    HealthyRun(Start(), ms);
  }
}
