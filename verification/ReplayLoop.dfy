/** How a cycle of a replay begins and what comes after it: core-driver/cam_driver/sources/replay.py. */
module ReplayLoop {
  import opened Common
  import opened ReplayTimeline
  import opened Replay

  /** Cycle n is about to begin: at the first row of the first session the window reaches, nothing skipped yet. */
  predicate AtStart(p: Plan, r: Reader, n: nat)
    requires Valid(p)
  {
    && r.cycle == n && r.session == Begin(p) && r.idx == 0 && r.skipped == 0
    && r.offset == p.retime + n * Span(p) && !r.finished && !r.failed
  }

  /** So begins a replay, and so a restart from any state. */
  lemma StartsOver(p: Plan, r: Reader)
    requires Valid(p) && OnTimeline(p, r)
    ensures AtStart(p, Start(p), 0) && AtStart(p, Step(p, r, Restart), r.cycle + 1)
  {
    hide Begin, Span;
  }

  /** Row i of session k lies behind the window. */
  predicate CutsOff(p: Plan, k: nat, i: nat)
    requires Valid(p) && k < |p.sessions| && i < |p.sessions[k]|
  {
    !BeforeWindow(p, p.sessions[k][i].ts) && PastWindow(p, p.sessions[k][i].ts)
  }

  /** Some row of the session from i on does. */
  predicate CutShort(p: Plan, k: nat, i: nat)
    requires Valid(p) && k < |p.sessions| && i <= |p.sessions[k]|
    decreases |p.sessions[k]| - i
  {
    i < |p.sessions[k]| && (CutsOff(p, k, i) || CutShort(p, k, i + 1))
  }

  lemma {:induction false} CutShortAt(p: Plan, k: nat, i: nat)
    requires Valid(p) && k < |p.sessions| && i <= |p.sessions[k]|
    ensures CutShort(p, k, i) <==> exists j :: i <= j < |p.sessions[k]| && CutsOff(p, k, j)
    decreases |p.sessions[k]| - i
  {
    if i < |p.sessions[k]| { CutShortAt(p, k, i + 1); }
  }

  lemma BufferStep(p: Plan, r: Reader)
    requires Valid(p) && OnTimeline(p, r) && r.idx < |p.sessions[r.session]|
    ensures Step(p, r, Buffer) == r.(idx := r.idx + 1, finished := r.finished || CutsOff(p, r.session, r.idx))
  {
  }

  lemma NextSession(p: Plan, r: Reader)
    requires Valid(p) && Ordered(p) && OnTimeline(p, r) && r.session < Final(p) && !r.finished && !r.failed
    requires r.idx == |p.sessions[r.session]|
    ensures var t := Step(p, r, Eos(false));
            t.session == r.session + 1 && t.idx == 0 && t.cycle == r.cycle && !t.finished && !t.failed
  {
    hide Excess;
    BeforeFinalInside(p, r.session, 0);
  }

  /** A reader that delivers every frame gets to the end of the last session the window reaches. */
  lemma {:induction false} GetsToTheEnd(p: Plan, r: Reader)
    requires Valid(p) && Ordered(p) && OnTimeline(p, r) && !r.failed
    requires r.idx <= |p.sessions[r.session]| && (r.session < Final(p) ==> !r.finished)
    ensures var t := RunAll(p, r, CycleEvents(p, r.session, r.idx));
            && OnTimeline(p, t) && t.session == Final(p) && t.idx == |p.sessions[t.session]|
            && t.cycle == r.cycle && !t.failed
            && (t.finished <==> r.finished || CutShort(p, Final(p), if r.session == Final(p) then r.idx else 0))
    decreases |p.sessions| - r.session, |p.sessions[r.session]| - r.idx
  {
    hide Step, RunAll, OnTimeline, Ordered, PastWindow, BeforeWindow, Final, Begin, CutsOff;
    var k, i := r.session, r.idx;
    Reaches(p, r);
    if i < |p.sessions[k]| {
      BufferStep(p, r);
      StepOnTimeline(p, r, Buffer);
      if k < Final(p) { NoneCutsOff(p, k, i); }
      GetsToTheEnd(p, Step(p, r, Buffer));
      RunAllCons(p, r, Buffer, CycleEvents(p, k, i + 1));
    } else if k < Final(p) {
      NextSession(p, r);
      StepOnTimeline(p, r, Eos(false));
      GetsToTheEnd(p, Step(p, r, Eos(false)));
      RunAllCons(p, r, Eos(false), CycleEvents(p, k + 1, 0));
    } else {
      RunAllNothing(p, r);
    }
  }

  lemma Reaches(p: Plan, r: Reader) requires Valid(p) && OnTimeline(p, r) ensures Begin(p) <= r.session <= Final(p) < |p.sessions| {}

  lemma NoneCutsOff(p: Plan, k: nat, i: nat)
    requires Valid(p) && Ordered(p) && Begin(p) <= k < Final(p) && i < |p.sessions[k]|
    ensures !CutsOff(p, k, i)
  {
    BeforeFinalInside(p, k, i);
  }

  lemma {:induction false} RunAllCons(p: Plan, r: Reader, e: Event, es: seq<Event>)
    requires Valid(p) && OnTimeline(p, r)
    ensures OnTimeline(p, Step(p, r, e)) && RunAll(p, r, [e] + es) == RunAll(p, Step(p, r, e), es)
  {
    hide Step;
    StepOnTimeline(p, r, e);
    assert ([e] + es)[1..] == es;
  }

  lemma {:induction false} RunAllNothing(p: Plan, r: Reader)
    requires Valid(p) && OnTimeline(p, r)
    ensures RunAll(p, r, []) == r
  {
  }

  /**
   * What comes after a complete cycle. A window that ends before the last row of the last session it
   * reaches ends the playback, loop or no loop. Any other goes on with the next cycle exactly if it loops.
   * Neither is a failure.
   */
  lemma {:induction false} LoopsExactly(p: Plan, r: Reader, loop: bool)
    requires Valid(p) && Ordered(p) && AtStart(p, r, r.cycle)
    ensures OnTimeline(p, r)
    ensures var e := RunAll(p, r, CycleEvents(p, Begin(p), 0));
            OnTimeline(p, e) &&
            var t := Step(p, e, Eos(loop));
            if loop && !(exists i :: 0 <= i < |p.sessions[Final(p)]| && CutsOff(p, Final(p), i)) then
              AtStart(p, t, r.cycle + 1)
            else t.finished && !t.failed && t.cycle == r.cycle
  {
    hide RunAll, Ordered, CutsOff;
    assert OnTimeline(p, r) by { StartOnTimeline(p, r); }
    GetsToTheEnd(p, r);
    CutShortAt(p, Final(p), 0);
    var e := RunAll(p, r, CycleEvents(p, Begin(p), 0));
    AtTheEnd(p, e, loop);
  }

  lemma StartOnTimeline(p: Plan, r: Reader)
    requires Valid(p) && AtStart(p, r, r.cycle)
    ensures OnTimeline(p, r)
  {
    hide Span;
  }

  lemma AtTheEnd(p: Plan, r: Reader, loop: bool)
    requires Valid(p) && OnTimeline(p, r) && r.session == Final(p) && r.idx == |p.sessions[r.session]| && !r.failed
    ensures var t := Step(p, r, Eos(loop));
            if loop && !r.finished then AtStart(p, t, r.cycle + 1) else t.finished && !t.failed && t.cycle == r.cycle
  {
    hide Span, Excess;
    LastIsLast(p, Begin(p));
  }

  lemma {:induction false} LastIsLast(p: Plan, k: nat)
    requires Valid(p) && k < |p.sessions|
    ensures var f := LastSession(p, k); f + 1 < |p.sessions| ==> PastWindow(p, p.sessions[f + 1][0].ts)
    decreases |p.sessions| - k
  {
    if k + 1 < |p.sessions| && !PastWindow(p, p.sessions[k + 1][0].ts) { LastIsLast(p, k + 1); }
  }

  predicate OverIfFailed(r: Reader) { r.failed ==> r.finished }

  lemma StepOver(p: Plan, r: Reader, e: Event)
    requires Valid(p) && OnTimeline(p, r) && OverIfFailed(r)
    ensures OverIfFailed(Step(p, r, e))
    ensures r.failed ==> Handed(p, r).None? && (e.Restart? || Step(p, r, e).failed)
  {
    hide Span, Excess, Shift;
  }

  /** A replay that has failed is over: it hands on nothing more and stays so until a restart, whatever the reader does. */
  lemma {:induction false} FailedIsOver(p: Plan, r: Reader, es: seq<Event>)
    requires Valid(p) && OnTimeline(p, r) && r.failed && r.finished
    requires forall i :: 0 <= i < |es| ==> !es[i].Restart?
    ensures var t := RunAll(p, r, es); t.failed && t.finished
    ensures Notes(p, r, es) == []
    decreases |es|
  {
    hide Step, Handed;
    if es != [] {
      StepOnTimeline(p, r, es[0]);
      StepOver(p, r, es[0]);
      FailedIsOver(p, Step(p, r, es[0]), es[1..]);
    }
  }

  /** And so is every failure there is. */
  lemma {:induction false} FailuresFinish(p: Plan, r: Reader, es: seq<Event>)
    requires Valid(p) && OnTimeline(p, r) && OverIfFailed(r)
    ensures OverIfFailed(RunAll(p, r, es))
    decreases |es|
  {
    hide Step, OverIfFailed;
    if es != [] {
      StepOnTimeline(p, r, es[0]);
      StepOver(p, r, es[0]);
      FailuresFinish(p, Step(p, r, es[0]), es[1..]);
    }
  }
}
