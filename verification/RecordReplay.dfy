/**
 * From a recording to its replay: core-driver/cam_driver/sidecar.py writes row after row,
 * core-driver/cam_driver/sources/replay.py gives frame N of the recording row N.
 */
module RecordReplay {
  import opened Common
  import opened ReplayTimeline
  import opened Replay
  import Sidecar

  /** A sidecar whose writer has ended without a failure. */
  ghost predicate Recorded(ms: seq<Sidecar.Move>, s: Sidecar.State) {
    s == Sidecar.Run(Sidecar.Start(), ms) && s.writer.Ended? && !s.failed
  }

  /** The reader is at the start of the session that was recorded so, the whole of it inside the window. */
  ghost predicate Replays(p: Plan, r: Reader, s: Sidecar.State) {
    && Valid(p) && OnTimeline(p, r) && r.idx == 0 && !r.failed && !r.finished
    && p.sessions[r.session] == s.written
    && AllInside(p, s.written)
  }

  /**
   * Replaying every recorded frame of a session fails exactly if the sidecar lost a row of it: a
   * replay that reaches the end unfailed has a row for every frame.
   */
  lemma {:induction false} ReplayFailsIffRowLost(ms: seq<Sidecar.Move>, s: Sidecar.State, p: Plan, r: Reader)
    requires Recorded(ms, s) && Replays(p, r, s)
    ensures RunAll(p, r, SessionEvents(|s.offered|, true)).failed <==> s.dropped > 0
    ensures s.dropped == 0 ==> s.written == s.offered
  {
    hide Sidecar.Run;
    Sidecar.RowsAreSubsequence(ms);
    SessionCounts(p, r, |s.offered|);
  }

  /** Then frame i is given the stamp it was recorded with, moved to the cycle, in every cycle. */
  lemma {:induction false} FrameGetsItsOwnStamp(ms: seq<Sidecar.Move>, s: Sidecar.State, p: Plan, r: Reader, i: nat)
    requires Recorded(ms, s) && Replays(p, r, s)
    requires !RunAll(p, r, SessionEvents(|s.offered|, true)).failed
    requires i < |s.offered| && !BeforeWindow(p, s.offered[i].ts)
    ensures var t := RunAll(p, r, Buffers(i));
            && OnTimeline(p, t) && Handed(p, t).Some?
            && Handed(p, t).value.stamp == Shift(s.offered[i], p.retime + r.cycle * Span(p))
            && Handed(p, t).value.row == i
  {
    hide Sidecar.Run, Span, SessionEvents;
    ReplayFailsIffRowLost(ms, s, p, r);
    NthFrame(p, r, i);
    OnTimelineAfter(p, r, Buffers(i));
    ShiftTs(s.offered[i], r.offset);
  }

  lemma {:induction false} OnTimelineAfter(p: Plan, r: Reader, es: seq<Event>)
    requires Valid(p) && OnTimeline(p, r)
    ensures OnTimeline(p, RunAll(p, r, es))
    decreases |es|
  {
    hide AfterBuffer, AfterEos, Again;
    if es != [] {
      StepOnTimeline(p, r, es[0]);
      OnTimelineAfter(p, Step(p, r, es[0]), es[1..]);
    }
  }
}
