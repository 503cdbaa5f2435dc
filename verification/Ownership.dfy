/**
 * Who owns the recording session: core-driver/cam_driver/pipeline.py (activate, deactivate,
 * request_stop, shutdown, configure_recording, the watchdog) and core-driver/cam_driver/lifecycle.py.
 * Everything runs on the main thread, but the stop signal's handler runs between any two
 * instructions of it, so a transition is several steps and a stop may fall between them.
 */
module Ownership {
  import opened Common

  datatype Setup = Setup(enabled: bool, resume: bool, initialActive: bool, hold: bool, errorFatal: bool)

  datatype Phase = Inactive | Activating | Active | Deactivating

  /** Where the main thread is inside a transition. */
  datatype Pc =
    | Rest
    | Called       // let through by the policy; the pipeline's own checks are next
    | Opening      // the session is being built and started
    | Published    // it is published; the phase is next
    | Read         // deactivate has looked the session up
    | Marked       // ... and set the phase; taking the session down is next
    | Closing      // taken down; being drained and attested
    | Telling      // done; what to remember is next
    | Noting       // known; writing it is next

  datatype Cause = Boot | Activation | Deactivation | RecorderError | PlaybackEnd

  /** A session started or finalised, and the settings revision at that moment. */
  datatype Event = Open(index: nat, revision: nat) | Final(index: nat, revision: nat)

  datatype State = State(
    pc: Pc, cause: Cause, cur: nat, note: bool,   // the transition in progress
    phase: Phase, session: Option<nat>, seqNo: nat, log: seq<Event>,
    stopping: bool, fatal: bool, held: bool, booted: bool, down: bool,
    revision: nat,
    memory: Option<bool>)             // the remembered state: active or not

  datatype Move =
    | BootMove
    | Activate
    | Deactivate
    | Go(ok: bool, writes: bool)          // the transition in progress takes its next step
    | SessionError(index: nat)            // the recorder of a session posted an error
    | Finished(failed: bool)              // the watchdog sees a playback at its end
    | Restarted                           // ... and sees it running again
    | StopSignal(writes: bool)
    | StopIdle                            // the reconnect worker found a changed source
    | Shutdown
    | Configure(accepted: bool, changes: bool)

  function Start(memory: Option<bool>): State {
    State(Rest, Boot, 0, false, Inactive, None, 0, [], false, false, false, false, false, 0, memory)
  }

  predicate ToOpen(cause: Cause) { cause.Boot? || cause.Activation? }

  /** Ends of sessions that the lifecycle only hears of: it remembers them whatever came of them. */
  predicate Hooked(cause: Cause) { cause.RecorderError? || cause.PlaybackEnd? }

  // ---- the steps of a transition: pipeline.py, then lifecycle.py -----------------------------

  function Call(s: State, cause: Cause): State { s.(pc := Called, cause := cause) }

  predicate CanOpen(c: Setup, s: State) { c.enabled && !s.stopping && s.session.None? }

  /** The refusals of activate and deactivate. A boot that is refused ends the process. */
  function Enter(c: Setup, s: State): (t: State)
    ensures t.log == s.log && t.session == s.session && (s.stopping ==> t.stopping && !t.pc.Opening?)
    ensures t.pc.Opening? || t.pc.Read? || t.pc.Telling? || t.pc.Rest?
  {
    var opens := ToOpen(s.cause) && CanOpen(c, s);
    var closes := !ToOpen(s.cause) && s.session.Some?;
    var fails := s.cause.Boot? && !opens;
    s.(pc := if opens then Opening else if closes then Read else if Hooked(s.cause) then Telling else Rest,
       cur := if closes then s.session.value else s.cur,
       seqNo := if opens then s.seqNo + 1 else s.seqNo, phase := if opens then Activating else s.phase,
       fatal := s.fatal || fails, stopping := s.stopping || fails, down := s.down || fails)
  }

  function Publish(s: State): (t: State)
    ensures t.pc.Published? && t.log == s.log + [Open(s.seqNo, s.revision)]
  {
    s.(pc := Published, session := Some(s.seqNo), log := s.log + [Open(s.seqNo, s.revision)])
  }

  /** The session would not start; its number is used up. At boot that ends the process. */
  function NotOpened(s: State): (t: State)
    ensures t.pc.Rest? && t.log == s.log
  {
    var boot := s.cause.Boot?;
    s.(pc := Rest, phase := Inactive, fatal := s.fatal || boot, stopping := s.stopping || boot, down := s.down || boot)
  }

  function SetActive(s: State): (t: State)
    ensures t.log == s.log && t.stopping == s.stopping && t.pc.Telling?
  {
    s.(pc := Telling, phase := Active)
  }

  function Mark(s: State): (t: State)
    ensures t.log == s.log && t.stopping == s.stopping && t.pc.Marked?
  {
    s.(pc := Marked, phase := Deactivating)
  }

  function TakeDown(s: State): (t: State)
    ensures t.log == s.log && t.stopping == s.stopping && t.pc.Closing?
  {
    s.(pc := Closing, session := None)
  }

  function Close(s: State): (t: State)
    ensures t.log == s.log + [Final(s.cur, s.revision)] && t.stopping == s.stopping && t.pc.Telling?
  {
    s.(pc := Telling, phase := Inactive, log := s.log + [Final(s.cur, s.revision)])
  }

  function Tell(s: State): (t: State)
    ensures t.log == s.log && t.stopping == s.stopping && t.pc.Noting?
  {
    s.(pc := Noting, note := !Hooked(s.cause) && s.phase.Active?)
  }

  function Note(c: Setup, s: State, writes: bool): (t: State)
    ensures t.log == s.log && t.stopping == s.stopping && t.pc.Rest?
  {
    s.(pc := Rest, memory := if c.resume && writes then Some(s.note) else s.memory,
       fatal := s.fatal || (s.cause.RecorderError? && c.errorFatal))
  }

  function GoOn(c: Setup, s: State, ok: bool, writes: bool): State {
    match s.pc
    case Rest => s
    case Called => Enter(c, s)
    case Opening => if ok then Publish(s) else NotOpened(s)
    case Published => SetActive(s)
    case Read => Mark(s)
    case Marked => TakeDown(s)
    case Closing => Close(s)
    case Telling => Tell(s)
    case Noting => Note(c, s, writes)
  }

  // ---- what needs no steps of its own --------------------------------------------------------

  /** request_stop(): ends the published session, if any, on its first call. */
  function RequestStop(s: State): State {
    var close := !s.stopping && s.session.Some?;
    s.(stopping := true, session := if close then None else s.session, phase := if close then Inactive else s.phase,
       log := if close then s.log + [Final(s.session.value, s.revision)] else s.log)
  }

  /** The handler of the stop signal: the remembered state goes first. */
  function Signal(c: Setup, s: State, writes: bool): State {
    RequestStop(s.(memory := if c.resume && writes then None else s.memory))
  }

  /** shutdown(): ends the session that is still published, stop or no stop. */
  function ShutDown(s: State): State {
    var close := s.session.Some?;
    s.(stopping := true, down := true, session := None, phase := if close then Inactive else s.phase,
       log := if close then s.log + [Final(s.session.value, s.revision)] else s.log)
  }

  predicate SettingsLocked(c: Setup, s: State) {
    !c.enabled || s.stopping || s.phase != Inactive || s.session.Some?
  }

  /** resolve_boot_state(). */
  predicate BootsActive(c: Setup, s: State) {
    c.enabled && (if c.resume && s.memory.Some? then s.memory.value else c.initialActive)
  }

  function BootUp(c: Setup, s: State): State {
    s.(booted := true, pc := if BootsActive(c, s) then Called else Rest, cause := Boot)
  }

  /** The main loop is running and not inside a transition. */
  predicate Idle(s: State) { s.pc.Rest? && s.booted && !s.down }

  function Step(c: Setup, s: State, m: Move): State {
    match m
    case BootMove => if s.booted || s.down then s else BootUp(c, s)
    case Activate => if Idle(s) && s.phase.Inactive? && c.enabled then Call(s, Activation) else s
    case Deactivate => if Idle(s) && s.phase.Active? then Call(s, Deactivation) else s
    case Go(ok, writes) => GoOn(c, s, ok, writes)
    case SessionError(i) => if Idle(s) && s.session == Some(i) && !s.stopping then Call(s, RecorderError) else s
    case Finished(failed) => if Idle(s) && !s.stopping then AtEnd(c, s, failed) else s
    case Restarted => if Idle(s) then s.(held := false) else s
    case StopSignal(writes) => Signal(c, s, writes)
    case StopIdle => if Idle(s) then RequestStop(s.(fatal := true)) else s
    case Shutdown => if Idle(s) then ShutDown(s) else s
    case Configure(accepted, changes) =>
      if Idle(s) && !SettingsLocked(c, s) && accepted && changes then s.(revision := s.revision + 1) else s
  }

  /** A playback at its end: exit, or finalise the recording once and hold. */
  function AtEnd(c: Setup, s: State, failed: bool): State {
    if failed then RequestStop(s.(fatal := true))
    else if !c.hold then RequestStop(s)
    else if s.held || s.session.None? then s.(held := true)
    else Call(s.(held := true), PlaybackEnd)
  }

  function Run(c: Setup, s: State, ms: seq<Move>): State
    decreases |ms|
  {
    if ms == [] then s else Run(c, Step(c, s, ms[0]), ms[1..])
  }

  lemma {:induction false} RunAppend(c: Setup, s: State, a: seq<Move>, b: seq<Move>)
    ensures Run(c, s, a + b) == Run(c, Run(c, s, a), b)
    decreases |a|
  {
    hide Step;
    if a == [] {
      assert a + b == b;
    } else {
      assert (a + b)[0] == a[0] && (a + b)[1..] == a[1..] + b;
      RunAppend(c, Step(c, s, a[0]), a[1..], b);
    }
  }

  // ---- every run -------------------------------------------------------------------------

  /** A phase that is no transition's. */
  predicate Settled(p: Phase) { p.Active? || p.Inactive? }

  /** A first stop has taken the session away from under the transition. */
  predicate Robbed(s: State) { s.stopping && s.session.None? && s.phase.Inactive? }

  /** The session published, and the phase that goes with it. */
  predicate Matches(s: State) { if s.session.Some? then s.phase.Active? else s.phase.Inactive? || s.stopping }

  predicate Inv(s: State) {
    && (match s.pc
        case Rest => Settled(s.phase) && Matches(s)
        case Called => Settled(s.phase) && Matches(s)
        case Opening => s.session.None? && s.phase.Activating?
        case Published => Robbed(s) || (s.session == Some(s.seqNo) && s.phase.Activating?)
        case Read => Robbed(s) || (s.session == Some(s.cur) && s.phase.Active?)
        case Marked =>
          (s.stopping && s.session.None? && Marking(s.phase)) || (s.session == Some(s.cur) && s.phase.Deactivating?)
        case Closing => s.session.None? && Marking(s.phase)
        case Telling => Settled(s.phase) && Matches(s)
        case Noting => Settled(s.phase) && Matches(s))
    && (s.pc.Called? && s.cause.Boot? ==> s.session.None?)
    && (s.pc.Opening? || s.pc.Published? ==> ToOpen(s.cause))
    && (s.pc.Read? || s.pc.Marked? || s.pc.Closing? ==> !ToOpen(s.cause))
    && (s.down ==> s.pc.Rest? && s.session.None? && s.stopping)
    && (!s.booted ==> s.pc.Rest? && s.session.None? && s.phase.Inactive?)
  }

  predicate Marking(p: Phase) { p.Deactivating? || p.Inactive? }

  lemma EnterKeeps(c: Setup, s: State) requires Inv(s) && s.pc.Called? ensures Inv(Enter(c, s)) {}

  lemma PublishKeeps(s: State) requires Inv(s) && s.pc.Opening? ensures Inv(Publish(s)) && Inv(NotOpened(s)) {}

  lemma SetActiveKeeps(s: State) requires Inv(s) && s.pc.Published? ensures Inv(SetActive(s)) {}

  lemma MarkKeeps(s: State) requires Inv(s) && s.pc.Read? ensures Inv(Mark(s)) {}

  lemma TakeDownKeeps(s: State) requires Inv(s) && s.pc.Marked? ensures Inv(TakeDown(s)) {}

  lemma CloseKeeps(s: State) requires Inv(s) && s.pc.Closing? ensures Inv(Close(s)) {}

  lemma TellKeeps(s: State) requires Inv(s) && s.pc.Telling? ensures Inv(Tell(s)) {}

  lemma NoteKeeps(c: Setup, s: State, w: bool) requires Inv(s) && s.pc.Noting? ensures Inv(Note(c, s, w)) {}

  lemma SignalKeeps(c: Setup, s: State, w: bool) requires Inv(s) ensures Inv(Signal(c, s, w)) {}

  lemma StopKeeps(s: State) requires Inv(s) ensures Inv(RequestStop(s)) && Inv(RequestStop(s.(fatal := true))) {}

  lemma GoKeeps(c: Setup, s: State, ok: bool, writes: bool)
    requires Inv(s)
    ensures Inv(GoOn(c, s, ok, writes))
  {
    hide Inv, Enter, Publish, NotOpened, SetActive, Mark, TakeDown, Close, Tell, Note;
    match s.pc
    case Rest =>
    case Called => EnterKeeps(c, s);
    case Opening => PublishKeeps(s);
    case Published => SetActiveKeeps(s);
    case Read => MarkKeeps(s);
    case Marked => TakeDownKeeps(s);
    case Closing => CloseKeeps(s);
    case Telling => TellKeeps(s);
    case Noting => NoteKeeps(c, s, writes);
  }

  lemma StepKeeps(c: Setup, s: State, m: Move)
    requires Inv(s)
    ensures Inv(Step(c, s, m))
  {
    hide GoOn, Signal, RequestStop;
    match m
    case Go(ok, writes) => GoKeeps(c, s, ok, writes);
    case StopSignal(writes) => SignalKeeps(c, s, writes);
    case StopIdle => StopKeeps(s);
    case Finished(_) => StopKeeps(s);
    case _ =>
  }

  lemma {:induction false} RunKeeps(c: Setup, s: State, ms: seq<Move>)
    requires Inv(s)
    ensures Inv(Run(c, s, ms))
    decreases |ms|
  {
    hide Inv, Step;
    if ms != [] {
      StepKeeps(c, s, ms[0]);
      RunKeeps(c, Step(c, s, ms[0]), ms[1..]);
    }
  }

  // ---- active means recording ----------------------------------------------------------------

  /** A first stop that falls between publishing a session and setting the phase. */
  predicate Strands(s: State, m: Move) { m.StopSignal? && s.pc.Published? && !s.stopping }

  predicate NeverStranded(c: Setup, s: State, ms: seq<Move>)
    decreases |ms|
  {
    ms == [] || (!Strands(s, ms[0]) && NeverStranded(c, Step(c, s, ms[0]), ms[1..]))
  }

  predicate Truthful(s: State) { (s.phase.Active? ==> s.session.Some?) && (s.pc.Published? ==> s.session.Some?) }

  lemma GoTruthful(c: Setup, s: State, ok: bool, writes: bool)
    requires Inv(s) && Truthful(s)
    ensures Truthful(GoOn(c, s, ok, writes))
  {
    hide Truthful, Inv, Enter, Publish, NotOpened, SetActive, Mark, TakeDown, Close, Tell, Note;
    OpeningTruthful(c, s);
    ClosingTruthful(c, s, writes);
  }

  lemma OpeningTruthful(c: Setup, s: State)
    requires Inv(s) && Truthful(s)
    ensures s.pc.Called? ==> Truthful(Enter(c, s))
    ensures s.pc.Opening? ==> Truthful(Publish(s)) && Truthful(NotOpened(s))
    ensures s.pc.Published? ==> Truthful(SetActive(s))
  {
  }

  lemma ClosingTruthful(c: Setup, s: State, writes: bool)
    requires Inv(s) && Truthful(s)
    ensures s.pc.Read? ==> Truthful(Mark(s))
    ensures s.pc.Marked? ==> Truthful(TakeDown(s))
    ensures s.pc.Closing? ==> Truthful(Close(s))
    ensures s.pc.Telling? ==> Truthful(Tell(s))
    ensures s.pc.Noting? ==> Truthful(Note(c, s, writes))
  {
  }

  lemma StepTruthful(c: Setup, s: State, m: Move)
    requires Inv(s) && Truthful(s) && !Strands(s, m)
    ensures Truthful(Step(c, s, m))
  {
    hide GoOn;
    if m.Go? { GoTruthful(c, s, m.ok, m.writes); }
  }

  /** The phase says active, or is about to, and nothing is recorded any more. */
  predicate Stranded(s: State) {
    && s.stopping && s.session.None? && s.booted
    && (s.pc.Published? || (s.phase.Active? && (s.pc.Rest? || s.pc.Called? || s.pc.Telling? || s.pc.Noting?)))
  }

  lemma StrandsStrands(c: Setup, s: State, m: Move)
    requires Inv(s) && Truthful(s) && Strands(s, m)
    ensures Stranded(Step(c, s, m))
  {
  }

  lemma GoStranded(c: Setup, s: State, ok: bool, writes: bool)
    requires Inv(s) && Stranded(s)
    ensures Stranded(GoOn(c, s, ok, writes))
  {
  }

  lemma StepStranded(c: Setup, s: State, m: Move)
    requires Inv(s) && Stranded(s)
    ensures Stranded(Step(c, s, m))
  {
    hide GoOn;
    if m.Go? { GoStranded(c, s, m.ok, m.writes); }
  }

  lemma {:induction false} StaysStranded(c: Setup, s: State, ms: seq<Move>)
    requires Inv(s) && Stranded(s)
    ensures Stranded(Run(c, s, ms))
    decreases |ms|
  {
    hide Inv, Step, Stranded;
    if ms != [] {
      StepStranded(c, s, ms[0]);
      StepKeeps(c, s, ms[0]);
      StaysStranded(c, Step(c, s, ms[0]), ms[1..]);
    }
  }

  lemma {:induction false} RunTruthful(c: Setup, s: State, ms: seq<Move>)
    requires Inv(s) && Truthful(s)
    ensures if NeverStranded(c, s, ms) then Truthful(Run(c, s, ms)) else Stranded(Run(c, s, ms))
    decreases |ms|
  {
    hide Inv, Step, Stranded, Strands, Truthful;
    if ms != [] {
      StepKeeps(c, s, ms[0]);
      if Strands(s, ms[0]) {
        StrandsStrands(c, s, ms[0]);
        StaysStranded(c, Step(c, s, ms[0]), ms[1..]);
      } else {
        StepTruthful(c, s, ms[0]);
        RunTruthful(c, Step(c, s, ms[0]), ms[1..]);
      }
    }
  }

  /**
   * At rest the phase is active exactly when a session is published, stops between any two steps of a
   * transition included, if and only if no first stop has fallen between publishing a session and
   * setting the phase. Such a stop leaves the phase active for good.
   */
  lemma {:induction false} ActiveIffRecordingExactly(c: Setup, memory: Option<bool>, ms: seq<Move>)
    ensures var s := Run(c, Start(memory), ms);
            s.pc.Rest? ==> ((s.phase.Active? <==> s.session.Some?) <==> NeverStranded(c, Start(memory), ms))
    ensures var s := Run(c, Start(memory), ms);
            s.pc.Rest? ==> (s.phase.Active? || s.phase.Inactive?) && (s.session.Some? ==> s.phase.Active?)
    ensures Run(c, Start(memory), ms).down ==> Run(c, Start(memory), ms).session.None?
  {
    hide Step, Run, NeverStranded;
    RunKeeps(c, Start(memory), ms);
    RunTruthful(c, Start(memory), ms);
  }

  /** What such a stop does: the session is finalised, and the phase and the remembered state say active. */
  lemma {:induction false} StrandingStop(c: Setup, s: State)
    requires Inv(s) && s.pc.Published? && s.session.Some? && !s.stopping && c.resume
    ensures var go := Go(true, true);
            var t := Run(c, s, [StopSignal(true), go, go, go]);
            && t.pc.Rest? && t.phase.Active? && t.session.None?
            && t.memory == Some(true)
            && EndsClosed(t.log)
  {
    var go := Go(true, true);
    var s1 := Step(c, s, StopSignal(true));
    var s2 := Step(c, s1, go);
    assert s2.pc.Telling? && s2.phase.Active? && s2.session.None? && EndsClosed(s2.log);
    var s3 := Step(c, s2, go);
    assert s3.pc.Noting? && (Hooked(s3.cause) || s3.note);
    FourSteps(c, s, StopSignal(true), go, go, go);
  }

  /** A run that reaches it: booted inactive, a command, and the stop right after the session is published. */
  lemma {:induction false} StrandingRun(c: Setup)
    requires c.enabled && c.resume && !c.initialActive
    ensures var go := Go(true, true);
            var t := Run(c, Start(None), [BootMove, Activate, go, go] + [StopSignal(true), go, go, go]);
            t.pc.Rest? && t.phase.Active? && t.session.None? && t.memory == Some(true) && EndsClosed(t.log)
  {
    var go := Go(true, true);
    RunKeeps(c, Start(None), [BootMove, Activate, go, go]);
    RunAppend(c, Start(None), [BootMove, Activate, go, go], [StopSignal(true), go, go, go]);
    ReachesPublished(c);
    FourSteps(c, Start(None), BootMove, Activate, go, go);
    hide Step, Inv;
    StrandingStop(c, Run(c, Start(None), [BootMove, Activate, go, go]));
  }

  lemma ReachesPublished(c: Setup)
    requires c.enabled && c.resume && !c.initialActive
    ensures var go := Go(true, true);
            var s := Step(c, Step(c, Step(c, Step(c, Start(None), BootMove), Activate), go), go);
            s.pc.Published? && s.session.Some? && !s.stopping && s.cause.Activation?
  {
    var s1 := Step(c, Start(None), BootMove);
    assert Idle(s1) && s1.phase.Inactive? && s1.session.None? && !s1.stopping;
    var s2 := Step(c, s1, Activate);
    assert s2.pc.Called? && s2.cause.Activation? && s2.session.None? && !s2.stopping;
    var s3 := Step(c, s2, Go(true, true));
    assert s3.pc.Opening? && s3.cause.Activation? && !s3.stopping;
  }

  predicate EndsClosed(log: seq<Event>) { log != [] && log[|log| - 1].Final? }

  lemma {:induction false} RunCons(c: Setup, s: State, m: Move, ms: seq<Move>)
    ensures Run(c, s, [m] + ms) == Run(c, Step(c, s, m), ms)
  {
    hide Step;
    assert ([m] + ms)[1..] == ms;
  }

  lemma {:induction false} FourSteps(c: Setup, s: State, a: Move, b: Move, d: Move, e: Move)
    ensures Run(c, s, [a, b, d, e]) == Step(c, Step(c, Step(c, Step(c, s, a), b), d), e)
    ensures Run(c, s, [a, b, d]) == Step(c, Step(c, Step(c, s, a), b), d)
    ensures Run(c, s, [a, b]) == Step(c, Step(c, s, a), b)
    ensures Run(c, s, [a]) == Step(c, s, a)
  {
    hide Step;
    var s1 := Step(c, s, a);
    var s2 := Step(c, s1, b);
    var s3 := Step(c, s2, d);
    assert [a, b, d, e] == [a] + ([b] + ([d] + [e])) && [a, b, d] == [a] + ([b] + [d]) && [a, b] == [a] + [b];
    assert [a] == [a] + [] && [b] == [b] + [] && [d] == [d] + [] && [e] == [e] + [];
    RunCons(c, s, a, [b] + ([d] + [e]));
    RunCons(c, s, a, [b] + [d]);
    RunCons(c, s, a, [b]);
    RunCons(c, s, a, []);
    RunCons(c, s1, b, [d] + [e]);
    RunCons(c, s1, b, [d]);
    RunCons(c, s1, b, []);
    RunCons(c, s2, d, [e]);
    RunCons(c, s2, d, []);
    RunCons(c, s3, e, []);
  }

  // ---- one session at a time, each finalised once, under fixed settings -----------------------

  function LastIndex(log: seq<Event>): nat { if log == [] then 0 else log[|log| - 1].index }

  predicate EndsOpen(log: seq<Event>) { log != [] && log[|log| - 1].Open? }

  /** Open, final, open, final ...: higher numbers every time, and each final with its open's settings. */
  predicate Bracketed(log: seq<Event>)
    decreases |log|
  {
    log == [] ||
    (var before := log[..|log| - 1];
     var e := log[|log| - 1];
     && Bracketed(before)
     && (e.Open? ==> !EndsOpen(before) && e.index > LastIndex(before))
     && (e.Final? ==> before != [] && before[|before| - 1] == Open(e.index, e.revision)))
  }

  /** The session that is open: published, or being closed by the transition in progress. */
  function OpenNow(s: State): Option<nat> { if s.pc.Closing? then Some(s.cur) else s.session }

  predicate Orderly(s: State) {
    && Bracketed(s.log)
    && LastIndex(s.log) <= s.seqNo
    && (s.pc.Opening? ==> LastIndex(s.log) < s.seqNo)
    && (EndsOpen(s.log) <==> OpenNow(s).Some?)
    && (OpenNow(s).Some? ==> s.log[|s.log| - 1] == Open(OpenNow(s).value, s.revision))
    && (s.pc.Read? || s.pc.Marked? ==> s.session.Some?)
  }

  /** A first stop that falls between deactivate's look at the session and its taking it down. */
  predicate Tears(s: State, m: Move) { m.StopSignal? && (s.pc.Read? || s.pc.Marked?) && !s.stopping }

  predicate NeverTorn(c: Setup, s: State, ms: seq<Move>)
    decreases |ms|
  {
    ms == [] || (!Tears(s, ms[0]) && NeverTorn(c, Step(c, s, ms[0]), ms[1..]))
  }

  lemma {:induction false} BracketedOpen(log: seq<Event>, i: nat, r: nat)
    requires Bracketed(log) && !EndsOpen(log) && LastIndex(log) < i
    ensures Bracketed(log + [Open(i, r)])
  {
    assert (log + [Open(i, r)])[..|log|] == log;
  }

  lemma {:induction false} BracketedFinal(log: seq<Event>, i: nat, r: nat)
    requires Bracketed(log) && EndsOpen(log) && log[|log| - 1] == Open(i, r)
    ensures Bracketed(log + [Final(i, r)])
  {
    assert (log + [Final(i, r)])[..|log|] == log;
  }

  lemma PublishOrderly(s: State)
    requires Inv(s) && Orderly(s) && s.pc.Opening?
    ensures Orderly(Publish(s)) && Orderly(NotOpened(s))
  {
    hide Bracketed;
    BracketedOpen(s.log, s.seqNo, s.revision);
  }

  lemma CloseOrderly(s: State)
    requires Inv(s) && Orderly(s) && s.pc.Closing?
    ensures Orderly(Close(s))
  {
    hide Bracketed;
    BracketedFinal(s.log, s.cur, s.revision);
  }

  lemma EnterOrderly(c: Setup, s: State)
    requires Inv(s) && Orderly(s) && s.pc.Called?
    ensures Orderly(Enter(c, s))
  {
    hide Bracketed;
  }

  lemma OthersOrderly(c: Setup, s: State, writes: bool)
    requires Inv(s) && Orderly(s)
    ensures s.pc.Published? ==> Orderly(SetActive(s))
    ensures s.pc.Read? ==> Orderly(Mark(s))
    ensures s.pc.Marked? ==> Orderly(TakeDown(s))
    ensures s.pc.Telling? ==> Orderly(Tell(s))
    ensures s.pc.Noting? ==> Orderly(Note(c, s, writes))
  {
    hide Bracketed;
  }

  lemma GoOrderly(c: Setup, s: State, ok: bool, writes: bool)
    requires Inv(s) && Orderly(s)
    ensures Orderly(GoOn(c, s, ok, writes))
  {
    hide Orderly, Inv, Enter, Publish, NotOpened, SetActive, Mark, TakeDown, Close, Tell, Note;
    OthersOrderly(c, s, writes);
    if s.pc.Called? { EnterOrderly(c, s); }
    if s.pc.Opening? { PublishOrderly(s); }
    if s.pc.Closing? { CloseOrderly(s); }
  }

  lemma StopOrderly(s: State)
    requires Inv(s) && Orderly(s) && (s.pc.Read? || s.pc.Marked? ==> s.stopping)
    ensures Orderly(RequestStop(s))
  {
    hide Bracketed;
    if s.session.Some? { BracketedFinal(s.log, s.session.value, s.revision); }
  }

  lemma ShutDownOrderly(s: State)
    requires Inv(s) && Orderly(s) && s.pc.Rest?
    ensures Orderly(ShutDown(s))
  {
    hide Bracketed;
    if s.session.Some? { BracketedFinal(s.log, s.session.value, s.revision); }
  }

  lemma SignalOrderly(c: Setup, s: State, writes: bool)
    requires Inv(s) && Orderly(s) && (s.pc.Read? || s.pc.Marked? ==> s.stopping)
    ensures Orderly(Signal(c, s, writes))
  {
    hide Bracketed, RequestStop;
    StopOrderly(s.(memory := if c.resume && writes then None else s.memory));
  }

  lemma EndOrderly(c: Setup, s: State, failed: bool)
    requires Inv(s) && Orderly(s) && s.pc.Rest?
    ensures Orderly(AtEnd(c, s, failed)) && Orderly(RequestStop(s.(fatal := true)))
  {
    hide Bracketed, RequestStop;
    StopOrderly(s.(fatal := true));
    StopOrderly(s);
  }

  lemma CommandOrderly(c: Setup, s: State, m: Move)
    requires Inv(s) && Orderly(s)
    requires m.BootMove? || m.Activate? || m.Deactivate? || m.SessionError? || m.Restarted? || m.Configure?
    ensures Orderly(Step(c, s, m))
  {
    hide Bracketed, BootsActive;
  }

  lemma StepOrderly(c: Setup, s: State, m: Move)
    requires Inv(s) && Orderly(s) && !Tears(s, m)
    ensures Orderly(Step(c, s, m))
  {
    hide Bracketed, RequestStop, ShutDown, GoOn, Signal, AtEnd, Inv;
    match m
    case Go(ok, writes) => GoOrderly(c, s, ok, writes);
    case StopSignal(writes) => SignalOrderly(c, s, writes);
    case StopIdle => if s.pc.Rest? { EndOrderly(c, s, true); }
    case Finished(failed) => if s.pc.Rest? { EndOrderly(c, s, failed); }
    case Shutdown => if s.pc.Rest? { ShutDownOrderly(s); }
    case _ => CommandOrderly(c, s, m);
  }

  /** Not in brackets any more, or about to be: the session has been finalised once and will be again. */
  predicate Torn(s: State) {
    !Bracketed(s.log)
    || (s.stopping && s.session.None? && !EndsOpen(s.log) && s.log != [] && (s.pc.Read? || s.pc.Marked? || s.pc.Closing?))
  }

  lemma TearsTears(c: Setup, s: State, m: Move)
    requires Inv(s) && Orderly(s) && Tears(s, m)
    ensures Torn(Step(c, s, m))
  {
    hide Bracketed;
  }

  lemma {:induction false} NotBracketedMore(log: seq<Event>, e: Event)
    requires !Bracketed(log) || (!EndsOpen(log) && log != [] && e.Final?)
    ensures !Bracketed(log + [e])
  {
    assert (log + [e])[..|log|] == log;
  }

  lemma GoUnbracketed(c: Setup, s: State, ok: bool, writes: bool)
    requires !Bracketed(s.log)
    ensures !Bracketed(GoOn(c, s, ok, writes).log)
  {
    hide Bracketed, Enter, Publish, NotOpened, SetActive, Mark, TakeDown, Close, Tell, Note;
    NotBracketedMore(s.log, Open(s.seqNo, s.revision));
    NotBracketedMore(s.log, Final(s.cur, s.revision));
  }

  lemma GoTorn(c: Setup, s: State, ok: bool, writes: bool)
    requires Inv(s) && Torn(s)
    ensures Torn(GoOn(c, s, ok, writes))
  {
    hide Bracketed, Inv, Enter, Publish, NotOpened, SetActive, Tell, Note;
    if !Bracketed(s.log) {
      GoUnbracketed(c, s, ok, writes);
    } else {
      NotBracketedMore(s.log, Final(s.cur, s.revision));
    }
  }

  lemma StepTorn(c: Setup, s: State, m: Move)
    requires Inv(s) && Torn(s)
    ensures Torn(Step(c, s, m))
  {
    hide Bracketed, GoOn;
    if m.Go? { GoTorn(c, s, m.ok, m.writes); }
    if !Bracketed(s.log) && s.session.Some? { NotBracketedMore(s.log, Final(s.session.value, s.revision)); }
  }

  lemma {:induction false} StaysTorn(c: Setup, s: State, ms: seq<Move>)
    requires Inv(s) && Torn(s)
    ensures Torn(Run(c, s, ms))
    decreases |ms|
  {
    hide Inv, Step, Torn;
    if ms != [] {
      StepTorn(c, s, ms[0]);
      StepKeeps(c, s, ms[0]);
      StaysTorn(c, Step(c, s, ms[0]), ms[1..]);
    }
  }

  lemma {:induction false} RunOrderly(c: Setup, s: State, ms: seq<Move>)
    requires Inv(s) && Orderly(s)
    ensures if NeverTorn(c, s, ms) then Orderly(Run(c, s, ms)) else Torn(Run(c, s, ms))
    decreases |ms|
  {
    hide Inv, Orderly, Step, Tears, Torn;
    if ms != [] {
      StepKeeps(c, s, ms[0]);
      if Tears(s, ms[0]) {
        TearsTears(c, s, ms[0]);
        StaysTorn(c, Step(c, s, ms[0]), ms[1..]);
      } else {
        StepOrderly(c, s, ms[0]);
        RunOrderly(c, Step(c, s, ms[0]), ms[1..]);
      }
    }
  }

  /**
   * Over every run, seen at rest: one session at a time, numbers only up, every session finalised once
   * at most and under the settings it was opened with, if and only if no first stop has fallen between
   * deactivate's look at the session and its taking it down; one that has makes it finalise twice.
   */
  lemma {:induction false} SessionsAreOrderlyExactly(c: Setup, memory: Option<bool>, ms: seq<Move>)
    ensures var s := Run(c, Start(memory), ms);
            s.pc.Rest? ==> (Bracketed(s.log) <==> NeverTorn(c, Start(memory), ms))
    ensures var s := Run(c, Start(memory), ms);
            NeverTorn(c, Start(memory), ms) ==> Bracketed(s.log) && (s.down ==> !EndsOpen(s.log))
  {
    hide Step, Run, NeverTorn;
    RunKeeps(c, Start(memory), ms);
    RunOrderly(c, Start(memory), ms);
  }

  // ---- after a stop ------------------------------------------------------------------------

  function Opens(log: seq<Event>): nat {
    if log == [] then 0 else Opens(log[..|log| - 1]) + (if log[|log| - 1].Open? then 1 else 0)
  }

  lemma {:induction false} OpensMore(log: seq<Event>, e: Event)
    ensures Opens(log + [e]) == Opens(log) + (if e.Open? then 1 else 0)
  {
    assert (log + [e])[..|log|] == log;
  }

  lemma StoppingGo(c: Setup, s: State, ok: bool, writes: bool)
    requires Inv(s) && s.stopping && !s.pc.Opening?
    ensures var t := GoOn(c, s, ok, writes); t.stopping && !t.pc.Opening? && Opens(t.log) == Opens(s.log)
  {
    hide Opens, Inv, Enter, Publish, NotOpened, SetActive, Mark, TakeDown, Close, Tell, Note;
    OpensMore(s.log, Final(s.cur, s.revision));
  }

  lemma StoppingStep(c: Setup, s: State, m: Move)
    requires Inv(s) && s.stopping && !s.pc.Opening?
    ensures var t := Step(c, s, m); t.stopping && !t.pc.Opening? && Opens(t.log) == Opens(s.log)
  {
    hide Opens, GoOn;
    if m.Go? { StoppingGo(c, s, m.ok, m.writes); }
    if s.session.Some? { OpensMore(s.log, Final(s.session.value, s.revision)); }
  }

  lemma {:induction false} StoppingRun(c: Setup, s: State, ms: seq<Move>)
    requires Inv(s) && s.stopping && !s.pc.Opening?
    ensures Opens(Run(c, s, ms).log) == Opens(s.log)
    decreases |ms|
  {
    hide Inv, Step, Opens;
    if ms != [] {
      StoppingStep(c, s, ms[0]);
      StepKeeps(c, s, ms[0]);
      StoppingRun(c, Step(c, s, ms[0]), ms[1..]);
    }
  }

  /**
   * Nothing opens after a stop, exactly unless the stop fell into the building of a session: activate
   * looks at the stop flag once, on entry.
   */
  lemma {:induction false} NothingOpensAfterStop(c: Setup, memory: Option<bool>, ms: seq<Move>)
    requires Run(c, Start(memory), ms).stopping
    ensures var s := Run(c, Start(memory), ms);
            (forall more :: Opens(Run(c, Start(memory), ms + more).log) == Opens(s.log)) <==> !s.pc.Opening?
  {
    hide Step, Opens;
    var s := Run(c, Start(memory), ms);
    RunKeeps(c, Start(memory), ms);
    if s.pc.Opening? {
      var go := Go(true, true);
      RunAppend(c, Start(memory), ms, [go]);
      OpeningOpens(c, s, go);
      assert Opens(Run(c, Start(memory), ms + [go]).log) != Opens(s.log);
    } else {
      forall more ensures Opens(Run(c, Start(memory), ms + more).log) == Opens(s.log) {
        RunAppend(c, Start(memory), ms, more);
        StoppingRun(c, s, more);
      }
    }
  }

  lemma {:induction false} OpeningOpens(c: Setup, s: State, go: Move)
    requires s.pc.Opening? && go.Go? && go.ok
    ensures Opens(Run(c, s, [go]).log) == Opens(s.log) + 1
  {
    hide Opens;
    FourSteps(c, s, go, go, go, go);
    OpensMore(s.log, Open(s.seqNo, s.revision));
  }

  // ---- the remembered state ----------------------------------------------------------------

  /** Every write of the state file succeeds. */
  predicate Writes(ms: seq<Move>)
    decreases |ms|
  {
    ms == [] || ((ms[0].Go? || ms[0].StopSignal? ==> ms[0].writes) && Writes(ms[1..]))
  }

  /** Booted, no stop begun: true at rest, and wherever a transition may still come to nothing. */
  predicate Honest(s: State) {
    s.booted && !s.stopping ==>
      && (s.memory.Some? && (s.pc.Rest? || (s.pc.Called? && !s.cause.Boot?)) ==> s.memory.value == s.phase.Active?)
      && (s.memory.Some? && s.pc.Opening? && !s.cause.Boot? ==> !s.memory.value)
      && (s.pc.Called? ==> if ToOpen(s.cause) then s.phase.Inactive? else s.session.Some?)
      && (s.pc.Telling? && Hooked(s.cause) ==> s.phase.Inactive?)
      && (s.pc.Noting? ==> s.note == s.phase.Active?)
  }

  lemma GoHonest(c: Setup, s: State, ok: bool)
    requires Inv(s) && Honest(s) && c.enabled && c.resume
    ensures Honest(GoOn(c, s, ok, true))
  {
    hide Honest, Inv, Enter, Publish, NotOpened, SetActive, Mark, TakeDown, Close, Tell, Note;
    OpeningHonest(c, s);
    ClosingHonest(c, s);
  }

  lemma OpeningHonest(c: Setup, s: State)
    requires Inv(s) && Honest(s) && c.enabled && c.resume
    ensures s.pc.Called? ==> Honest(Enter(c, s))
    ensures s.pc.Opening? ==> Honest(Publish(s)) && Honest(NotOpened(s))
    ensures s.pc.Published? ==> Honest(SetActive(s))
  {
  }

  lemma ClosingHonest(c: Setup, s: State)
    requires Inv(s) && Honest(s) && c.enabled && c.resume
    ensures s.pc.Read? ==> Honest(Mark(s))
    ensures s.pc.Marked? ==> Honest(TakeDown(s))
    ensures s.pc.Closing? ==> Honest(Close(s))
    ensures s.pc.Telling? ==> Honest(Tell(s))
    ensures s.pc.Noting? ==> Honest(Note(c, s, true))
  {
  }

  lemma StepHonest(c: Setup, s: State, m: Move)
    requires Inv(s) && Honest(s) && c.enabled && c.resume && (m.Go? ==> m.writes)
    ensures Honest(Step(c, s, m))
  {
    hide GoOn;
    if m.Go? { GoHonest(c, s, m.ok); }
  }

  lemma {:induction false} RunHonest(c: Setup, s: State, ms: seq<Move>)
    requires Inv(s) && Honest(s) && c.enabled && c.resume && Writes(ms)
    ensures Honest(Run(c, s, ms))
    decreases |ms|
  {
    hide Inv, Honest, Step;
    if ms != [] {
      StepHonest(c, s, ms[0]);
      StepKeeps(c, s, ms[0]);
      RunHonest(c, Step(c, s, ms[0]), ms[1..]);
    }
  }

  /** After boot and before a stop, at rest, what a crash restart would read is absent or the real state. */
  lemma {:induction false} MemoryIsHonest(c: Setup, memory: Option<bool>, ms: seq<Move>)
    requires c.enabled && c.resume && Writes(ms)
    ensures var s := Run(c, Start(memory), ms);
            s.booted && !s.stopping && s.pc.Rest? && s.memory.Some? ==> s.memory.value == s.phase.Active?
  {
    RunHonest(c, Start(memory), ms);
  }

  /** A transition that may still write: all but a command the pipeline has not looked at yet. */
  predicate WillRemember(s: State) { !s.pc.Rest? && (s.pc.Called? ==> Hooked(s.cause)) }

  /** Stopped, nothing recorded, nothing remembered, and nothing that would be. */
  predicate Forgotten(s: State) {
    s.stopping && s.session.None? && s.phase.Inactive? && s.memory.None? && !WillRemember(s)
  }

  lemma GoForgotten(c: Setup, s: State, ok: bool, writes: bool)
    requires Inv(s) && Forgotten(s)
    ensures Forgotten(GoOn(c, s, ok, writes))
  {
    hide Publish, NotOpened, SetActive, Mark, TakeDown, Close, Tell, Note;
  }

  lemma StepForgotten(c: Setup, s: State, m: Move)
    requires Inv(s) && Forgotten(s)
    ensures Forgotten(Step(c, s, m))
  {
    hide GoOn;
    if m.Go? { GoForgotten(c, s, m.ok, m.writes); }
  }

  lemma {:induction false} RunForgotten(c: Setup, s: State, ms: seq<Move>)
    requires Inv(s) && Forgotten(s)
    ensures Forgotten(Run(c, s, ms))
    decreases |ms|
  {
    hide Inv, Forgotten, Step;
    if ms != [] {
      StepForgotten(c, s, ms[0]);
      StepKeeps(c, s, ms[0]);
      RunForgotten(c, Step(c, s, ms[0]), ms[1..]);
    }
  }

  /** The transition in progress, n steps on. */
  function Goes(n: nat, ok: bool, writes: bool): seq<Move> { if n == 0 then [] else [Go(ok, writes)] + Goes(n - 1, ok, writes) }

  function Rank(s: State): nat {
    match s.pc
    case Rest => 0
    case Noting => 1
    case Telling => 2
    case Closing => 3
    case Published => 3
    case Marked => 4
    case Opening => 4
    case Read => 5
    case Called => 6
  }

  lemma RankDrops(c: Setup, s: State, ok: bool, writes: bool)
    requires !s.pc.Rest?
    ensures Rank(GoOn(c, s, ok, writes)) < Rank(s)
  {
    hide Enter, Publish, NotOpened, SetActive, Mark, TakeDown, Close, Tell, Note;
  }

  lemma StopForgets(c: Setup, s: State)
    requires Inv(s) && c.resume && !s.stopping && !WillRemember(s)
    ensures Forgotten(Step(c, s, StopSignal(true)))
  {
  }

  lemma GoNearer(c: Setup, s: State)
    requires WillRemember(s) && (s.pc.Called? ==> s.stopping && s.session.None?)
    ensures var t := GoOn(c, s, true, true);
            Rank(t) < Rank(s) && (s.pc.Noting? || (WillRemember(t) && !t.pc.Called?))
    ensures c.resume && s.pc.Noting? ==> GoOn(c, s, true, true).memory.Some?
  {
    hide Publish, SetActive, Mark, TakeDown, Close, Tell;
  }

  lemma {:induction false} TransitionRemembers(c: Setup, s: State)
    requires c.resume && WillRemember(s) && (s.pc.Called? ==> s.stopping && s.session.None?)
    ensures exists n :: Run(c, s, Goes(n, true, true)).memory.Some?
    decreases Rank(s)
  {
    hide GoOn, WillRemember;
    var t := GoOn(c, s, true, true);
    GoNearer(c, s);
    if s.pc.Noting? {
      RunCons(c, s, Go(true, true), Goes(0, true, true));
      assert Goes(1, true, true) == [Go(true, true)] + Goes(0, true, true);
      assert Run(c, s, Goes(1, true, true)).memory.Some?;
    } else {
      TransitionRemembers(c, t);
      var n: nat :| Run(c, t, Goes(n, true, true)).memory.Some?;
      RunCons(c, s, Go(true, true), Goes(n, true, true));
      assert Goes(n + 1, true, true) == [Go(true, true)] + Goes(n, true, true);
      assert Run(c, s, Goes(n + 1, true, true)).memory.Some?;
    }
  }

  lemma SignalStops(c: Setup, s: State)
    requires Inv(s) && !s.stopping && WillRemember(s)
    ensures var t := Step(c, s, StopSignal(true)); WillRemember(t) && (t.pc.Called? ==> t.stopping && t.session.None?)
  {
  }

  /**
   * A deliberate stop makes the next boot follow the configuration, exactly when it arrives at rest or
   * before the pipeline has looked at a command: every other transition it interrupts, refused or not,
   * still writes its outcome afterwards.
   */
  lemma {:induction false} StopForgetsExactly(c: Setup, memory: Option<bool>, ms: seq<Move>)
    requires c.resume && !Run(c, Start(memory), ms).stopping
    ensures var s := Run(c, Start(memory), ms);
            (forall more :: Run(c, Start(memory), ms + [StopSignal(true)] + more).memory.None?) <==> !WillRemember(s)
  {
    hide Run, Step, WillRemember;
    var s := Run(c, Start(memory), ms);
    var t := Step(c, s, StopSignal(true));
    RunKeeps(c, Start(memory), ms);
    StepKeeps(c, s, StopSignal(true));
    RunAppend(c, Start(memory), ms, [StopSignal(true)]);
    FourSteps(c, s, StopSignal(true), StopSignal(true), StopSignal(true), StopSignal(true));
    if WillRemember(s) {
      SignalStops(c, s);
      TransitionRemembers(c, t);
      var n: nat :| Run(c, t, Goes(n, true, true)).memory.Some?;
      RunAppend(c, Start(memory), ms + [StopSignal(true)], Goes(n, true, true));
      assert Run(c, Start(memory), ms + [StopSignal(true)] + Goes(n, true, true)).memory.Some?;
    } else {
      StopForgets(c, s);
      forall more ensures Run(c, Start(memory), ms + [StopSignal(true)] + more).memory.None? {
        RunAppend(c, Start(memory), ms + [StopSignal(true)], more);
        RunForgotten(c, t, more);
      }
    }
  }
}
