/**
 * Reconnecting a source while the process may be stopping: core-driver/cam_driver/pipeline.py,
 * _watchdog, _reconnect, _reconnect_loop, _join_reconnect and the end of shutdown.
 * The main thread and one worker, as interleaved steps.
 */
module Reconnect {

  /** `initial`, `cap`: the configured backoff in seconds. `releases`: close() gives the device back. */
  datatype Setup = Setup(initial: real, cap: real, releases: bool)

  datatype Main =
    | Watching    // the main loop runs
    | Spawning    // the watchdog has seen a disconnect; the worker's thread is not started yet
    | Joining     // shutdown waits for the worker
    | Closing     // the wait is over; the source is closed next
    | Gone

  datatype Worker =
    | Absent
    | Dropping    // stops the dead acquisition
    | Looping     // looks at the stop flag
    | Reopening
    | Checking    // reopened; looks at the stop flag again
    | Releasing   // hands the device straight back
    | Arming      // starts the feeder
    | Waiting     // backs off
    | Leaving     // in `finally`

  datatype State = State(
    main: Main, worker: Worker,
    stopping: bool, event: bool, reconnecting: bool,
    held: bool,               // the process holds the device
    joined: bool,             // the worker was gone when shutdown stopped waiting
    backoff: real,
    births: nat, attempts: nat,
    waits: seq<real>)         // of the current worker

  datatype Outcome = Opened | Failed | Changed

  /** `keeps`: a reopen that fails does so with the device in hand. `stops`: the source's stop() does not raise. */
  datatype Choice = Choice(outcome: Outcome, keeps: bool, starts: bool, stops: bool)

  datatype Move =
    | Tick(disconnected: bool)
    | Spawn
    | StopFlag
    | StopEvent
    | Shutdown
    | Join(timedOut: bool)
    | Close
    | WorkerMove(choice: Choice)

  function Start(c: Setup): State { State(Watching, Absent, false, false, false, true, false, c.initial, 0, 0, []) }

  function Min(a: real, b: real): real { if a <= b then a else b }

  function Reopen(s: State, ch: Choice): State {
    s.(worker := if ch.outcome.Opened? then Checking else if ch.outcome.Failed? then Waiting else Leaving,
       held := ch.outcome.Opened? || ch.keeps)
  }

  function Wait(c: Setup, s: State): State {
    s.(worker := if s.event then Leaving else Looping, waits := s.waits + [s.backoff],
       backoff := if s.event then s.backoff else Min(s.backoff * 2.0, c.cap))
  }

  function WorkerStep(c: Setup, s: State, ch: Choice): State {
    match s.worker
    case Absent => s
    case Dropping => s.(worker := if ch.stops then Looping else Leaving)
    case Looping =>
      s.(worker := if s.stopping then Leaving else Reopening, attempts := if s.stopping then s.attempts else s.attempts + 1)
    case Reopening => Reopen(s, ch)
    case Checking => s.(worker := if s.stopping then Releasing else Arming)
    case Releasing => s.(worker := Leaving, held := s.held && !(ch.stops && c.releases))
    case Arming => s.(worker := if ch.starts then Leaving else Waiting)
    case Waiting => Wait(c, s)
    case Leaving => s.(worker := Absent, reconnecting := false)
  }

  function Step(c: Setup, s: State, m: Move): State {
    match m
    case Tick(disconnected) =>
      var go := s.main.Watching? && !s.stopping && !s.reconnecting && disconnected;
      s.(main := if go then Spawning else s.main, reconnecting := s.reconnecting || go)
    case Spawn =>
      if s.main.Spawning?
      then s.(main := Watching, worker := Dropping, backoff := c.initial, waits := [], births := s.births + 1)
      else s
    case StopFlag => s.(stopping := true)
    case StopEvent => s.(event := s.event || s.stopping)
    case Shutdown => if s.main.Watching? then s.(main := Joining, stopping := true, event := true) else s
    case Join(timedOut) =>
      var over := s.main.Joining? && (s.worker.Absent? || timedOut);
      s.(main := if over then Closing else s.main, joined := if over then s.worker.Absent? else s.joined)
    case Close => if s.main.Closing? then s.(main := Gone, held := s.held && !c.releases) else s
    case WorkerMove(ch) => WorkerStep(c, s, ch)
  }

  function Run(c: Setup, s: State, ms: seq<Move>): State
    decreases |ms|
  {
    if ms == [] then s else Run(c, Step(c, s, ms[0]), ms[1..])
  }

  lemma {:induction false} RunAppend(c: Setup, s: State, a: seq<Move>, b: seq<Move>)
    ensures Run(c, s, a + b) == Run(c, Run(c, s, a), b)
    decreases |a|
  {
    hide Step;
    if a == [] {
      assert a + b == b;
    } else {
      assert (a + b)[0] == a[0] && (a + b)[1..] == a[1..] + b;
      RunAppend(c, Step(c, s, a[0]), a[1..], b);
    }
  }

  lemma {:induction false} RunOne(c: Setup, s: State, m: Move)
    ensures Run(c, s, [m]) == Step(c, s, m)
  {
    hide Step;
    assert [m][1..] == [];
    assert Run(c, Step(c, s, m), []) == Step(c, s, m);
  }

  // ---- the invariant -------------------------------------------------------------------

  predicate AfterJoin(s: State) { s.main.Closing? || s.main.Gone? }

  predicate Inv(c: Setup, s: State) {
    && (s.reconnecting <==> !s.worker.Absent? || s.main.Spawning?)
    && (s.main.Spawning? ==> s.worker.Absent?)
    && (s.event ==> s.stopping)
    && (s.main.Joining? || AfterJoin(s) ==> s.stopping && s.event)
    && (AfterJoin(s) && s.joined ==> s.worker.Absent?)
    && (s.main.Gone? && s.joined && c.releases ==> !s.held)
  }

  lemma StepKeeps(c: Setup, s: State, m: Move)
    requires Inv(c, s)
    ensures Inv(c, Step(c, s, m))
  {
  }

  lemma {:induction false} RunKeeps(c: Setup, s: State, ms: seq<Move>)
    requires Inv(c, s)
    ensures Inv(c, Run(c, s, ms))
    decreases |ms|
  {
    hide Inv, Step;
    if ms != [] {
      StepKeeps(c, s, ms[0]);
      RunKeeps(c, Step(c, s, ms[0]), ms[1..]);
    }
  }

  /**
   * The flag the watchdog gates on is up exactly while a worker lives or is about to, however the
   * worker ends; so there is never a second one, and the next disconnect is seen.
   */
  lemma {:induction false} FlagMeansWorker(c: Setup, ms: seq<Move>)
    ensures var s := Run(c, Start(c), ms);
            && (s.reconnecting <==> !s.worker.Absent? || s.main.Spawning?)
            && (s.main.Spawning? ==> s.worker.Absent?)
            && (s.main.Watching? && !s.stopping && s.worker.Absent? ==> Step(c, s, Tick(true)).main.Spawning?)
  {
    RunKeeps(c, Start(c), ms);
  }

  // ---- after a stop --------------------------------------------------------------------

  lemma StoppingStep(c: Setup, s: State, m: Move)
    requires s.stopping
    ensures var t := Step(c, s, m);
            t.stopping && t.attempts == s.attempts
            && (!s.main.Spawning? ==> t.births == s.births && !t.main.Spawning?)
  {
    hide WorkerStep;
    if m.WorkerMove? { StoppingWorker(c, s, m.choice); }
  }

  lemma StoppingWorker(c: Setup, s: State, ch: Choice)
    requires s.stopping
    ensures var t := WorkerStep(c, s, ch);
            t.stopping && t.attempts == s.attempts && t.births == s.births && t.main == s.main
  {
  }

  /** Once a stop has begun no reopen is begun any more, by a worker old or new. */
  lemma {:induction false} NoReopenAfterStop(c: Setup, s: State, ms: seq<Move>)
    requires s.stopping
    ensures Run(c, s, ms).attempts == s.attempts && Run(c, s, ms).stopping
    decreases |ms|
  {
    hide Step;
    if ms != [] {
      StoppingStep(c, s, ms[0]);
      NoReopenAfterStop(c, Step(c, s, ms[0]), ms[1..]);
    }
  }

  lemma {:induction false} NoBirths(c: Setup, s: State, ms: seq<Move>)
    requires s.stopping && !s.main.Spawning?
    ensures Run(c, s, ms).births == s.births
    decreases |ms|
  {
    hide Step;
    if ms != [] {
      StoppingStep(c, s, ms[0]);
      NoBirths(c, Step(c, s, ms[0]), ms[1..]);
    }
  }

  /** No worker is started after a stop, exactly unless the stop fell into the watchdog's tick. */
  lemma NoWorkerAfterStop(c: Setup, s: State)
    requires s.stopping
    ensures (forall more :: Run(c, s, more).births == s.births) <==> !s.main.Spawning?
  {
    if s.main.Spawning? {
      RunOne(c, s, Spawn);
      assert Run(c, s, [Spawn]).births != s.births;
    } else {
      forall more ensures Run(c, s, more).births == s.births { NoBirths(c, s, more); }
    }
  }

  /** How many of its own steps a worker can still take once the stop flag and event are set. */
  function Rank(w: Worker): nat {
    match w
    case Absent => 0
    case Leaving => 1
    case Looping => 2
    case Waiting => 2
    case Releasing => 2
    case Arming => 3
    case Dropping => 3
    case Checking => 4
    case Reopening => 5
  }

  /** No backoff keeps a stopping process waiting: every step of the worker brings it nearer to its end. */
  lemma StoppedWorkerLeaves(c: Setup, s: State, ch: Choice)
    requires s.stopping && s.event && !s.worker.Absent?
    ensures Rank(WorkerStep(c, s, ch).worker) < Rank(s.worker)
  {
  }

  // ---- the device ----------------------------------------------------------------------

  /**
   * If the join succeeded, a source whose close() releases its device ends released, and nothing
   * takes the device again.
   */
  lemma {:induction false} JoinedEndsReleased(c: Setup, ms: seq<Move>, more: seq<Move>)
    requires c.releases
    requires var s := Run(c, Start(c), ms); s.main.Gone? && s.joined
    ensures !Run(c, Start(c), ms + more).held
  {
    RunKeeps(c, Start(c), ms);
    RunAppend(c, Start(c), ms, more);
    GoneStaysReleased(c, Run(c, Start(c), ms), more);
  }

  lemma {:induction false} GoneStaysReleased(c: Setup, s: State, ms: seq<Move>)
    requires Inv(c, s) && c.releases && s.main.Gone? && s.joined
    ensures !Run(c, s, ms).held
    decreases |ms|
  {
    hide Inv, Step;
    if ms != [] {
      StepKeeps(c, s, ms[0]);
      GoneJoinedStep(c, s, ms[0]);
      GoneStaysReleased(c, Step(c, s, ms[0]), ms[1..]);
    } else {
      GoneReleased(c, s);
    }
  }

  lemma GoneReleased(c: Setup, s: State)
    requires Inv(c, s) && c.releases && s.main.Gone? && s.joined
    ensures !s.held
  {
  }

  lemma GoneJoinedStep(c: Setup, s: State, m: Move)
    requires Inv(c, s) && s.main.Gone? && s.joined
    ensures Step(c, s, m).main.Gone? && Step(c, s, m).joined
  {
  }

  /**
   * Past shutdown, a step after which the worker goes without giving the device back: its reopen fails
   * with the device in hand, or stopping the source it reopened raises and close() is skipped.
   */
  predicate Leaks(s: State, m: Move) {
    && s.main.Gone? && m.WorkerMove?
    && ((s.worker.Reopening? && !m.choice.outcome.Opened? && m.choice.keeps)
        || (s.worker.Releasing? && s.held && !m.choice.stops))
  }

  predicate SomeLeak(c: Setup, s: State, ms: seq<Move>)
    decreases |ms|
  {
    ms != [] && (Leaks(s, ms[0]) || SomeLeak(c, Step(c, s, ms[0]), ms[1..]))
  }

  /** Past shutdown the device is held for good once leaked, and else only by a worker that is about to give it back. */
  predicate HeldIf(s: State, leaked: bool) {
    && (leaked ==> s.main.Gone? && s.held && (s.worker.Waiting? || s.worker.Leaving? || s.worker.Absent?))
    && (s.main.Gone? && s.held && !leaked ==> s.worker.Checking? || s.worker.Releasing?)
  }

  lemma LateStep(c: Setup, s: State, m: Move, leaked: bool)
    requires Inv(c, s) && c.releases && HeldIf(s, leaked)
    ensures HeldIf(Step(c, s, m), leaked || Leaks(s, m))
  {
  }

  lemma {:induction false} LateRun(c: Setup, s: State, ms: seq<Move>, leaked: bool)
    requires Inv(c, s) && c.releases && HeldIf(s, leaked)
    ensures HeldIf(Run(c, s, ms), leaked || SomeLeak(c, s, ms))
    decreases |ms|
  {
    hide Inv, Step, HeldIf, Leaks;
    if ms != [] {
      LateStep(c, s, ms[0], leaked);
      StepKeeps(c, s, ms[0]);
      LateRun(c, Step(c, s, ms[0]), ms[1..], leaked || Leaks(s, ms[0]));
    }
  }

  /**
   * However the join ended: once shutdown is over and the worker has ended too, a source whose close()
   * releases its device still holds it exactly if, after that close(), a reopen failed with the device in
   * hand or the stop before handing a reopened one back raised.
   */
  lemma {:induction false} HeldAtTheEndExactly(c: Setup, ms: seq<Move>)
    requires c.releases
    ensures var s := Run(c, Start(c), ms);
            s.main.Gone? && s.worker.Absent? ==> (s.held <==> SomeLeak(c, Start(c), ms))
  {
    LateRun(c, Start(c), ms, false);
  }

  /** A worker just about to reopen when the join times out. */
  function LateReopen(): seq<Move> {
    var w := WorkerMove(Choice(Failed, true, true, true));
    [Tick(true), Spawn, w, w, Shutdown, Join(true)]
  }

  lemma {:induction false} RunCons(c: Setup, s: State, m: Move, ms: seq<Move>)
    ensures Run(c, s, [m] + ms) == Run(c, Step(c, s, m), ms)
  {
    hide Step;
    assert ([m] + ms)[1..] == ms;
  }

  lemma {:induction false} LateReopenRuns(c: Setup)
    ensures var s := Run(c, Start(c), LateReopen()); Inv(c, s) && s.main.Closing? && s.worker.Reopening?
  {
    var w := WorkerMove(Choice(Failed, true, true, true));
    RunKeeps(c, Start(c), LateReopen());
    var s2 := Step(c, Step(c, Start(c), Tick(true)), Spawn);
    var s4 := Step(c, Step(c, s2, w), w);
    assert s4.worker.Reopening? && s4.main.Watching?;
    hide Step;
    assert LateReopen() == [Tick(true)] + ([Spawn] + ([w] + ([w] + ([Shutdown] + [Join(true)]))));
    RunCons(c, Start(c), Tick(true), [Spawn] + ([w] + ([w] + ([Shutdown] + [Join(true)]))));
    RunCons(c, Step(c, Start(c), Tick(true)), Spawn, [w] + ([w] + ([Shutdown] + [Join(true)])));
    RunCons(c, s2, w, [w] + ([Shutdown] + [Join(true)]));
    RunCons(c, Step(c, s2, w), w, [Shutdown] + [Join(true)]);
    RunCons(c, s4, Shutdown, [Join(true)]);
    RunOne(c, Step(c, s4, Shutdown), Join(true));
    TimedOut(c, s4);
  }

  lemma TimedOut(c: Setup, s: State)
    requires s.main.Watching? && s.worker.Reopening?
    ensures var t := Step(c, Step(c, s, Shutdown), Join(true)); t.main.Closing? && t.worker.Reopening?
  {
  }

  /** A reopen can be that late, and fail so: the aborted-reopen path closes only a source that did reopen. */
  lemma {:induction false} LateFailedReopenKeepsDevice(c: Setup)
    ensures var w := WorkerMove(Choice(Failed, true, true, true));
            var t := Run(c, Start(c), LateReopen() + [Close, w, w, w]);
            t.main.Gone? && t.worker.Absent? && t.held
  {
    var w := WorkerMove(Choice(Failed, true, true, true));
    var s := Run(c, Start(c), LateReopen());
    hide Run, LateReopen;
    LateReopenRuns(c);
    RunAppend(c, Start(c), LateReopen(), [Close, w, w, w]);
    var s1 := Step(c, s, Close);
    var s2 := Step(c, s1, w);
    var s3 := Step(c, s2, w);
    assert s2.worker.Waiting? && s2.held && s2.main.Gone? && s2.event;
    assert s3.worker.Leaving? && s3.held && s3.main.Gone?;
    FourSteps(c, s, Close, w);
  }

  lemma {:induction false} FourSteps(c: Setup, s: State, a: Move, m: Move)
    ensures Run(c, s, [a, m, m, m]) == Step(c, Step(c, Step(c, Step(c, s, a), m), m), m)
  {
    hide Step;
    assert [a, m, m, m] == [a] + ([m] + ([m] + [m]));
    RunAppend(c, s, [a], [m] + ([m] + [m]));
    RunOne(c, s, a);
    RunAppend(c, Step(c, s, a), [m], [m] + [m]);
    RunOne(c, Step(c, s, a), m);
    RunAppend(c, Step(c, Step(c, s, a), m), [m], [m]);
    RunOne(c, Step(c, Step(c, s, a), m), m);
    RunOne(c, Step(c, Step(c, Step(c, s, a), m), m), m);
  }

  // ---- the backoff ---------------------------------------------------------------------

  function Power(k: nat): real { if k == 0 then 1.0 else 2.0 * Power(k - 1) }

  /** The k-th wait: doubled every time, and capped from the second on. */
  function NthWait(c: Setup, k: nat): real {
    if k == 0 then c.initial else Min(c.initial * Power(k), c.cap)
  }

  predicate Backoffs(c: Setup, s: State) {
    && (!s.worker.Absent? && !s.worker.Leaving? ==> s.backoff == NthWait(c, |s.waits|))
    && forall k :: 0 <= k < |s.waits| ==> s.waits[k] == NthWait(c, k)
  }

  lemma Doubles(c: Setup, k: nat)
    requires c.cap >= 0.0
    ensures Min(NthWait(c, k) * 2.0, c.cap) == NthWait(c, k + 1)
  {
    assert Power(k + 1) == 2.0 * Power(k);
    var x := c.initial * Power(k);
    assert c.initial * Power(k + 1) == x * 2.0;
  }

  lemma StepBackoffs(c: Setup, s: State, m: Move)
    requires Inv(c, s) && Backoffs(c, s) && c.cap >= 0.0
    ensures Backoffs(c, Step(c, s, m))
  {
    hide NthWait;
    Doubles(c, |s.waits|);
    assert NthWait(c, 0) == c.initial by { First(c); }
  }

  lemma First(c: Setup) ensures NthWait(c, 0) == c.initial {}

  lemma {:induction false} RunBackoffs(c: Setup, s: State, ms: seq<Move>)
    requires Inv(c, s) && Backoffs(c, s) && c.cap >= 0.0
    ensures Backoffs(c, Run(c, s, ms))
    decreases |ms|
  {
    hide Inv, Step, Backoffs;
    if ms != [] {
      StepBackoffs(c, s, ms[0]);
      StepKeeps(c, s, ms[0]);
      RunBackoffs(c, Step(c, s, ms[0]), ms[1..]);
    }
  }

  /** The waits of a worker, in closed form, whatever interleaves with it. */
  lemma {:induction false} WaitsAreCappedPowers(c: Setup, ms: seq<Move>, k: nat)
    requires c.cap >= 0.0
    requires k < |Run(c, Start(c), ms).waits|
    ensures Run(c, Start(c), ms).waits[k] == NthWait(c, k)
    ensures k > 0 ==> Run(c, Start(c), ms).waits[k] <= c.cap
  {
    hide Run;
    RunBackoffs(c, Start(c), ms);
    assert Backoffs(c, Run(c, Start(c), ms));
  }

  /** A worker that backs off at all stays within the cap exactly when the first wait, never capped itself, does. */
  lemma {:induction false} CapHoldsExactly(c: Setup, ms: seq<Move>)
    requires c.cap >= 0.0
    ensures var ws := Run(c, Start(c), ms).waits;
            ws != [] ==> ((forall k :: 0 <= k < |ws| ==> ws[k] <= c.cap) <==> c.initial <= c.cap)
  {
    var ws := Run(c, Start(c), ms).waits;
    forall k | 0 <= k < |ws| ensures k > 0 ==> ws[k] <= c.cap { WaitsAreCappedPowers(c, ms, k); }
    if ws != [] { WaitsAreCappedPowers(c, ms, 0); }
  }
}
