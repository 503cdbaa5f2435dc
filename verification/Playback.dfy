/** Controlling a playback at run time: core-driver/cam_driver/playback.py, PlaybackState. */
module Playback {
  import opened Common

  datatype Phase = PLAYING | PAUSED | FINISHED

  datatype Op = Pause | Resume | Restart

  datatype Verdict = STOP | RESTART | RESUME

  /**
   * How far the main loop is with a restart request: the flag is up and the source's hook running with
   * no lock held; the hook returned and the reply waits; the hook raised.
   */
  datatype Stage = Idle | Asking | Returned | Raised

  /** What has become of the restarts asked for, and of the requests. */
  datatype Ledger = Ledger(asked: nat, coalesced: nat, taken: nat, dropped: nat, granted: nat, refused: nat)

  datatype State = State(phase: Phase, pending: bool, preroll: bool, stage: Stage, ledger: Ledger)

  datatype Move =
    | Request(op: Op)          // main loop: the first locked part of a request
    | HookEnds(raises: bool)   // main loop; at once if the source has no hook
    | Reply                    // main loop: the flag was taken, or the wait for that timed out
    | Take                     // the source's hook, or its feeder between frames
    | WaitIfPaused(cancel: bool)
    | Preroll
    | Finish

  function Start(paused: bool): State {
    State(if paused then PAUSED else PLAYING, false, paused, Idle, Ledger(0, 0, 0, 0, 0, 0))
  }

  /** Every request but those a finished playback cannot serve. */
  predicate Serves(restartable: bool, s: State, op: Op) { s.phase.FINISHED? ==> op.Restart? && restartable }

  function Ask(s: State): State {
    s.(phase := if s.phase.FINISHED? then PLAYING else s.phase, pending := true, stage := Asking,
       ledger := s.ledger.(asked := s.ledger.asked + 1,
                           coalesced := s.ledger.coalesced + if s.pending then 1 else 0))
  }

  function AfterRequest(restartable: bool, s: State, op: Op): State {
    if !Serves(restartable, s, op) then s
    else
      match op
      case Pause => s.(phase := PAUSED)
      case Resume => s.(phase := PLAYING)
      case Restart => Ask(s)
  }

  function Answered(s: State): State {
    if s.stage.Returned? then s.(stage := Idle, ledger := s.ledger.(granted := s.ledger.granted + 1))
    else s.(stage := Idle, pending := false,
            ledger := s.ledger.(refused := s.ledger.refused + 1,
                                dropped := s.ledger.dropped + if s.pending then 1 else 0))
  }

  /** The feeder is held. */
  predicate Held(s: State, cancel: bool) { s.phase.PAUSED? && !cancel && !s.pending }

  function Taken(s: State): State {
    s.(pending := false, ledger := s.ledger.(taken := s.ledger.taken + if s.pending then 1 else 0))
  }

  /** A move takes the flag. */
  predicate Takes(s: State, m: Move) { s.pending && (m.Take? || (m.WaitIfPaused? && !m.cancel)) }

  /** The main loop makes one move at a time, and none of another request while one is on its way. */
  function Step(restartable: bool, s: State, m: Move): State {
    match m
    case Request(op) => if s.stage.Idle? then AfterRequest(restartable, s, op) else s
    case HookEnds(raises) => if s.stage.Asking? then s.(stage := if raises then Raised else Returned) else s
    case Reply => if s.stage.Returned? || s.stage.Raised? then Answered(s) else s
    case Take => Taken(s)
    case WaitIfPaused(cancel) => if cancel || Held(s, cancel) then s else Taken(s)
    case Preroll => s.(preroll := false)
    case Finish => s.(phase := FINISHED)
  }

  function Run(restartable: bool, s: State, ms: seq<Move>): State
    decreases |ms|
  {
    if ms == [] then s else Run(restartable, Step(restartable, s, ms[0]), ms[1..])
  }

  class PlaybackState {
    const restartable: bool
    var phase: Phase
    var pending: bool
    var preroll: bool
    ghost var stage: Stage
    ghost var ledger: Ledger

    constructor (paused: bool, restartable: bool)
      ensures this.restartable == restartable && View() == Start(paused)
    {
      this.restartable := restartable;
      phase, pending, preroll := if paused then PAUSED else PLAYING, false, paused;
      stage, ledger := Idle, Ledger(0, 0, 0, 0, 0, 0);
    }

    ghost function View(): State
      reads this
    {
      State(phase, pending, preroll, stage, ledger)
    }

    method TakeRestart() returns (r: bool)
      modifies this`pending, this`ledger
      ensures View() == Taken(old(View())) && r == old(pending)
    {
      r := pending;
      pending := false;
      if r {
        ledger := ledger.(taken := ledger.taken + 1);
      }
    }

    /** True for one frame: the first, if playback boots paused. */
    method TakePreroll() returns (r: bool)
      modifies this`preroll
      ensures View() == Step(restartable, old(View()), Preroll) && r == old(preroll)
    {
      r := preroll;
      preroll := false;
    }

    /** The feeder's pacing point, once it is not held there any more. */
    method WaitIfPaused(cancel: bool) returns (v: Verdict)
      requires !Held(View(), cancel)
      modifies this`pending, this`ledger
      ensures View() == Step(restartable, old(View()), Move.WaitIfPaused(cancel))
      ensures v == if cancel then STOP else if old(pending) then RESTART else RESUME
    {
      if cancel {
        return STOP;
      }
      var r := TakeRestart();
      return if r then RESTART else RESUME;
    }

    method MarkFinished()
      modifies this`phase
      ensures View() == Step(restartable, old(View()), Finish)
    {
      phase := FINISHED;
    }

    /** A request up to where the lock is released; a restart has its hook and its reply to come. */
    method Request(op: Op) returns (ok: bool)
      requires stage.Idle?
      modifies this
      ensures View() == Step(restartable, old(View()), Move.Request(op))
      ensures ok <==> Serves(restartable, old(View()), op)
    {
      if phase.FINISHED? {
        if !(op.Restart? && restartable) {
          return false;
        }
        phase := PLAYING;
      }
      match op {
        case Pause => phase := PAUSED;
        case Resume => phase := PLAYING;
        case Restart =>
          ledger := ledger.(asked := ledger.asked + 1, coalesced := ledger.coalesced + if pending then 1 else 0);
          stage := Asking;
          pending := true;
      }
      return true;
    }

    /** The rest of a restart request: refused if the hook raised, else granted, still pending or taken. */
    method Answer(raised: bool) returns (ok: bool, stillPending: bool)
      requires if raised then stage.Raised? else stage.Returned?
      modifies this
      ensures View() == Step(restartable, old(View()), Reply)
      ensures ok == !raised && stillPending == (ok && old(pending))
    {
      ok := !raised;
      if raised {
        ledger := ledger.(refused := ledger.refused + 1, dropped := ledger.dropped + if pending then 1 else 0);
        pending := false;
      } else {
        ledger := ledger.(granted := ledger.granted + 1);
      }
      stage := Idle;
      stillPending := pending;
    }
  }

  // ---- results -------------------------------------------------------------------------

  /** Each restart asked for is accounted for once, and so is each request. */
  predicate Balanced(s: State) {
    && s.ledger.asked == s.ledger.coalesced + s.ledger.taken + s.ledger.dropped + (if s.pending then 1 else 0)
    && s.ledger.asked == s.ledger.granted + s.ledger.refused + (if s.stage.Idle? then 0 else 1)
  }

  lemma StepBalanced(restartable: bool, s: State, m: Move)
    requires Balanced(s)
    ensures Balanced(Step(restartable, s, m))
  {
  }

  lemma {:induction false} RunBalanced(restartable: bool, s: State, ms: seq<Move>)
    requires Balanced(s)
    ensures Balanced(Run(restartable, s, ms))
    decreases |ms|
  {
    hide Step, Balanced;
    if ms != [] {
      StepBalanced(restartable, s, ms[0]);
      RunBalanced(restartable, Step(restartable, s, ms[0]), ms[1..]);
    }
  }

  /**
   * In every interleaving of a request's parts with the feeder and the source, each restart asked for
   * joined one already pending, was honoured by exactly one taker, was given up by a request whose hook
   * raised, or is still pending; and each request was granted, refused or is on its way.
   */
  lemma {:induction false} EachRestartTakenOnce(restartable: bool, paused: bool, ms: seq<Move>)
    ensures Balanced(Run(restartable, Start(paused), ms))
  {
    RunBalanced(restartable, Start(paused), ms);
  }

  predicate SomeTakes(restartable: bool, s: State, ms: seq<Move>)
    decreases |ms|
  {
    ms != [] && (Takes(s, ms[0]) || SomeTakes(restartable, Step(restartable, s, ms[0]), ms[1..]))
  }

  predicate NoReply(ms: seq<Move>) { forall i :: 0 <= i < |ms| ==> !ms[i].Reply? }

  lemma StaysTaken(restartable: bool, s: State, m: Move)
    requires !s.stage.Idle? && !m.Reply?
    ensures !Step(restartable, s, m).stage.Idle?
    ensures Step(restartable, s, m).pending <==> s.pending && !Takes(s, m)
  {
  }

  lemma {:induction false} PendingUnlessTaken(restartable: bool, s: State, ms: seq<Move>)
    requires !s.stage.Idle? && NoReply(ms)
    ensures Run(restartable, s, ms).pending <==> s.pending && !SomeTakes(restartable, s, ms)
    ensures !Run(restartable, s, ms).stage.Idle?
    decreases |ms|
  {
    hide Step, Takes;
    if ms != [] {
      StaysTaken(restartable, s, ms[0]);
      PendingUnlessTaken(restartable, Step(restartable, s, ms[0]), ms[1..]);
      if !s.pending { NothingToTake(restartable, s, ms); }
    }
  }

  lemma NothingToTake(restartable: bool, s: State, ms: seq<Move>)
    requires ms != [] && !s.pending
    ensures !Takes(s, ms[0])
  {
  }

  /**
   * What the reply to a restart says against what became of the restart, in every interleaving from the
   * moment the flag went up to the reply. A granted one says pending exactly when nobody has taken the
   * flag. A refused one has given the restart up exactly when nobody has; else the restart was honoured
   * though the reply says it failed.
   */
  lemma {:induction false} ReplyTellsExactly(restartable: bool, s: State, ms: seq<Move>)
    requires s.stage.Idle? && Serves(restartable, s, Restart) && NoReply(ms)
    requires !Run(restartable, Ask(s), ms).stage.Asking?
    ensures var t := Run(restartable, Ask(s), ms);
            var u := Step(restartable, t, Reply);
            && u.stage.Idle?
            && (t.stage.Returned? ==>
                  && u.ledger == t.ledger.(granted := t.ledger.granted + 1)
                  && (u.pending <==> !SomeTakes(restartable, Ask(s), ms)))
            && (t.stage.Raised? ==>
                  && !u.pending && u.ledger.refused == t.ledger.refused + 1
                  && (u.ledger.dropped == t.ledger.dropped + 1 <==> !SomeTakes(restartable, Ask(s), ms))
                  && (u.ledger.dropped == t.ledger.dropped <==> SomeTakes(restartable, Ask(s), ms)))
  {
    PendingUnlessTaken(restartable, Ask(s), ms);
  }

  /** A feeder between two frames takes the flag before the hook gets to raise: it restarts, the reply says failed. */
  lemma {:induction false} RefusedYetHonoured(s: State)
    requires s == Start(false)
    ensures var t := Run(true, s, [Request(Restart), Move.WaitIfPaused(false), HookEnds(true), Reply]);
            t.ledger == Ledger(1, 0, 1, 0, 0, 1)
  {
    var s1 := Step(true, s, Request(Restart));
    var s2 := Step(true, s1, Move.WaitIfPaused(false));
    var s3 := Step(true, s2, HookEnds(true));
    assert Run(true, s3, [Reply]) == Step(true, s3, Reply);
    assert Run(true, s2, [HookEnds(true), Reply]) == Run(true, s3, [Reply]);
    assert Run(true, s1, [Move.WaitIfPaused(false), HookEnds(true), Reply]) == Run(true, s2, [HookEnds(true), Reply]);
  }

  /** A pending restart always gets a held feeder going, and stays until somebody takes it or its request gives it up. */
  lemma PendingWakes(restartable: bool, s: State, m: Move)
    requires s.pending
    ensures !Held(s, false)
    ensures Step(restartable, s, m).pending <==> !Takes(s, m) && !(m.Reply? && s.stage.Raised?)
  {
  }

  lemma KeepsPhase(restartable: bool, s: State, m: Move)
    requires !s.stage.Idle? && !m.Reply? && !m.Finish?
    ensures Step(restartable, s, m).phase == s.phase && !Step(restartable, s, m).stage.Idle?
  {
  }

  lemma {:induction false} RunKeepsPhase(restartable: bool, s: State, ms: seq<Move>)
    requires !s.stage.Idle? && NoReply(ms) && (forall i :: 0 <= i < |ms| ==> !ms[i].Finish?)
    ensures Run(restartable, s, ms).phase == s.phase
    decreases |ms|
  {
    hide Step;
    if ms != [] {
      KeepsPhase(restartable, s, ms[0]);
      RunKeepsPhase(restartable, Step(restartable, s, ms[0]), ms[1..]);
    }
  }

  /**
   * A refused request leaves the playback's phase and flag as they were, exactly unless it is a restart
   * whose source raised from the end of the playback, or with an earlier restart still pending: the one
   * has already declared the playback to be playing again, the other gives the earlier restart up too. So
   * with the feeder and the source doing whatever they do meanwhile, short of reaching the end.
   */
  lemma {:induction false} RefusalChangesNothingExactly(restartable: bool, s: State, op: Op, ms: seq<Move>)
    requires s.stage.Idle? && NoReply(ms) && (forall i :: 0 <= i < |ms| ==> !ms[i].Finish?)
    requires Serves(restartable, s, op) ==> op.Restart? && Run(restartable, Ask(s), ms).stage.Raised?
    ensures var t := if Serves(restartable, s, op)
                     then Step(restartable, Run(restartable, Ask(s), ms), Reply)
                     else Step(restartable, s, Request(op));
            (t.phase == s.phase && t.pending == s.pending) <==>
              (op.Restart? && Serves(restartable, s, op) ==> !s.phase.FINISHED? && !s.pending)
  {
    if Serves(restartable, s, op) { RunKeepsPhase(restartable, Ask(s), ms); }
  }

  // ---- what pause, resume and restart do to the feeder -----------------------------------------

  /** A move after which a held feeder may go on: a resume or a restart let through, or the end of the playback. */
  predicate LetsGo(s: State, m: Move) {
    m.Finish? || (s.stage.Idle? && (m == Request(Resume) || m == Request(Restart)))
  }

  predicate NoneLetsGo(restartable: bool, s: State, ms: seq<Move>)
    decreases |ms|
  {
    ms != [] ==> !LetsGo(s, ms[0]) && NoneLetsGo(restartable, Step(restartable, s, ms[0]), ms[1..])
  }

  /** Whatever the feeder, the source and the main loop do, a hold ends at such a move and at no other. */
  lemma HoldEndsExactly(restartable: bool, s: State, m: Move)
    requires Held(s, false)
    ensures Held(Step(restartable, s, m), false) <==> !LetsGo(s, m)
  {
  }

  lemma {:induction false} StaysHeld(restartable: bool, s: State, ms: seq<Move>)
    requires Held(s, false) && NoneLetsGo(restartable, s, ms)
    ensures Held(Run(restartable, s, ms), false)
    decreases |ms|
  {
    hide Step, Held, LetsGo;
    if ms != [] {
      HoldEndsExactly(restartable, s, ms[0]);
      StaysHeld(restartable, Step(restartable, s, ms[0]), ms[1..]);
    }
  }

  /**
   * A pause holds the feeder: with no restart pending, from the moment it is served and over every run of
   * moves none of which lets the feeder go. Only a cancelled wait returns.
   */
  lemma {:induction false} PauseHolds(restartable: bool, s: State, ms: seq<Move>)
    requires s.stage.Idle? && !s.phase.FINISHED? && !s.pending
    requires NoneLetsGo(restartable, Step(restartable, s, Request(Pause)), ms)
    ensures var t := Run(restartable, Step(restartable, s, Request(Pause)), ms);
            t.phase == PAUSED && !t.pending && Held(t, false) && !Held(t, true)
  {
    hide Run, NoneLetsGo;
    StaysHeld(restartable, Step(restartable, s, Request(Pause)), ms);
  }

  /** A playback that boots paused is held from the start. */
  lemma {:induction false} BootsHeld(restartable: bool, ms: seq<Move>)
    requires NoneLetsGo(restartable, Start(true), ms)
    ensures Held(Run(restartable, Start(true), ms), false)
  {
    StaysHeld(restartable, Start(true), ms);
  }

  predicate NoPause(ms: seq<Move>) { forall i :: 0 <= i < |ms| ==> ms[i] != Request(Pause) }

  lemma StaysFreeOnce(restartable: bool, s: State, m: Move)
    requires !s.phase.PAUSED? && m != Request(Pause)
    ensures !Step(restartable, s, m).phase.PAUSED?
  {
  }

  lemma {:induction false} StaysFree(restartable: bool, s: State, ms: seq<Move>)
    requires !s.phase.PAUSED? && NoPause(ms)
    ensures !Run(restartable, s, ms).phase.PAUSED?
    decreases |ms|
  {
    hide Step;
    if ms != [] {
      StaysFreeOnce(restartable, s, ms[0]);
      StaysFree(restartable, Step(restartable, s, ms[0]), ms[1..]);
    }
  }

  /** A resume lets it go: from the moment it is served and until another pause, it is never held. */
  lemma {:induction false} ResumeFrees(restartable: bool, s: State, ms: seq<Move>, cancel: bool)
    requires s.stage.Idle? && !s.phase.FINISHED? && NoPause(ms)
    ensures Step(restartable, s, Request(Resume)).phase == PLAYING
    ensures !Held(Run(restartable, Step(restartable, s, Request(Resume)), ms), cancel)
  {
    hide Run;
    StaysFree(restartable, Step(restartable, s, Request(Resume)), ms);
  }

  /** Pausing and resuming have to do with nothing but the hold; twice is the same as once, and the last one counts. */
  lemma PauseAndResume(restartable: bool, s: State, op: Op, after: Op)
    requires s.stage.Idle? && !op.Restart? && !after.Restart?
    ensures var t := Step(restartable, s, Request(op));
            && t.pending == s.pending && t.preroll == s.preroll && t.stage == s.stage && t.ledger == s.ledger
            && Step(restartable, t, Request(op)) == t
            && Step(restartable, t, Request(after)) == Step(restartable, s, Request(after))
            && (s.phase.FINISHED? ==> t == s)
  {
  }

  /** A restart keeps a pause and ends a finish: the flag is up, and a finished playback plays again. */
  lemma RestartKeepsPause(restartable: bool, s: State)
    requires s.stage.Idle?
    ensures var t := Step(restartable, s, Request(Restart));
            if s.phase.FINISHED? && !restartable then t == s
            else t.pending && t.phase == (if s.phase.PAUSED? then PAUSED else PLAYING)
  {
  }

  predicate NoRestart(ms: seq<Move>) { forall i :: 0 <= i < |ms| ==> ms[i] != Request(Restart) }

  lemma StaysFinishedOnce(restartable: bool, s: State, m: Move)
    requires s.phase.FINISHED? && (!restartable || m != Request(Restart))
    ensures Step(restartable, s, m).phase.FINISHED?
  {
  }

  /** An ended playback stays ended, short of a restart of one that can be restarted. */
  lemma {:induction false} StaysFinished(restartable: bool, s: State, ms: seq<Move>)
    requires !restartable || NoRestart(ms)
    ensures Run(restartable, Step(restartable, s, Finish), ms).phase.FINISHED?
    decreases |ms|
  {
    var t := Step(restartable, s, Finish);
    FinishedOn(restartable, t, ms);
  }

  lemma {:induction false} FinishedOn(restartable: bool, s: State, ms: seq<Move>)
    requires s.phase.FINISHED? && (!restartable || NoRestart(ms))
    ensures Run(restartable, s, ms).phase.FINISHED?
    decreases |ms|
  {
    hide Step;
    if ms != [] {
      StaysFinishedOnce(restartable, s, ms[0]);
      FinishedOn(restartable, Step(restartable, s, ms[0]), ms[1..]);
    }
  }

  lemma PrerollStep(restartable: bool, s: State, m: Move)
    ensures Step(restartable, s, m).preroll <==> s.preroll && !m.Preroll?
  {
  }

  lemma {:induction false} PrerollLasts(restartable: bool, s: State, ms: seq<Move>)
    ensures Run(restartable, s, ms).preroll <==> s.preroll && forall i :: 0 <= i < |ms| ==> !ms[i].Preroll?
    decreases |ms|
  {
    hide Step;
    if ms != [] {
      PrerollStep(restartable, s, ms[0]);
      PrerollLasts(restartable, Step(restartable, s, ms[0]), ms[1..]);
      assert forall i :: 0 <= i < |ms| - 1 ==> ms[1..][i] == ms[i + 1];
      assert (exists i :: 0 <= i < |ms| - 1 && ms[1..][i].Preroll?) ==> exists i :: 0 <= i < |ms| && ms[i].Preroll?;
      assert forall i :: 0 < i < |ms| ==> ms[i] == ms[1..][i - 1];
    }
  }

  /** A playback that boots paused shows one frame all the same, and one that does not never jumps a hold. */
  lemma {:induction false} FirstFrameShownOnce(restartable: bool, paused: bool, ms: seq<Move>)
    ensures Run(restartable, Start(paused), ms).preroll <==> paused && forall i :: 0 <= i < |ms| ==> !ms[i].Preroll?
  {
    PrerollLasts(restartable, Start(paused), ms);
  }
}
