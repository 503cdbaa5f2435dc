/** The capture pipeline object: each operation, uninterrupted, is the run of its steps. */
module Pipeline {
  import opened Common
  import opened Ownership

  /** The transition in progress, uninterrupted, to its end. */
  function Through(c: Setup, s: State, ok: bool, writes: bool): (t: State)
    ensures t.pc.Rest?
    decreases Rank(s)
  {
    if s.pc.Rest? then s
    else
      RankDrops(c, s, ok, writes);
      Through(c, GoOn(c, s, ok, writes), ok, writes)
  }

  /** At rest nothing of the last transition matters any more. */
  function Tidy(s: State): State { s.(cause := Deactivation, cur := 0, note := false) }

  /** An operation without interruption. */
  function Whole(c: Setup, s: State, m: Move, ok: bool, writes: bool): State {
    Tidy(Through(c, Step(c, s, m), ok, writes))
  }

  lemma {:induction false} ThroughIsRun(c: Setup, s: State, ok: bool, writes: bool) returns (n: nat)
    requires Inv(s)
    ensures Through(c, s, ok, writes) == Run(c, s, Goes(n, ok, writes))
    ensures NeverTorn(c, s, Goes(n, ok, writes)) && NeverStranded(c, s, Goes(n, ok, writes))
    ensures Inv(Through(c, s, ok, writes))
    decreases Rank(s)
  {
    hide GoOn, Inv;
    if s.pc.Rest? {
      n := 0;
    } else {
      RankDrops(c, s, ok, writes);
      GoKeeps(c, s, ok, writes);
      var k := ThroughIsRun(c, GoOn(c, s, ok, writes), ok, writes);
      n := k + 1;
      var more := Goes(k, ok, writes);
      assert Goes(n, ok, writes) == [Go(ok, writes)] + more;
      assert ([Go(ok, writes)] + more)[1..] == more;
    }
  }

  /** So what holds over every run of steps holds over every run of whole operations. */
  lemma {:induction false} WholeIsRun(c: Setup, s: State, m: Move, ok: bool, writes: bool) returns (n: nat)
    requires Inv(s) && s.pc.Rest?
    ensures var ms := [m] + Goes(n, ok, writes);
            && Whole(c, s, m, ok, writes) == Tidy(Run(c, s, ms))
            && NeverTorn(c, s, ms) && NeverStranded(c, s, ms)
    ensures Inv(Whole(c, s, m, ok, writes)) && Whole(c, s, m, ok, writes).pc.Rest?
  {
    hide Step, Inv;
    StepKeeps(c, s, m);
    n := ThroughIsRun(c, Step(c, s, m), ok, writes);
    RunCons(c, s, m, Goes(n, ok, writes));
    assert ([m] + Goes(n, ok, writes))[1..] == Goes(n, ok, writes);
    TidyKeeps(Through(c, Step(c, s, m), ok, writes));
  }

  lemma TidyKeeps(s: State) requires Inv(s) && s.pc.Rest? ensures Inv(Tidy(s)) {}

  // ---- transitions in one piece ----------------------------------------------------------------

  function Remembered(c: Setup, s: State, active: bool, writes: bool): Option<bool> {
    if c.resume && writes then Some(active) else s.memory
  }

  /** A session under the next number. */
  function Opened(c: Setup, s: State, writes: bool): State {
    Tidy(s.(pc := Rest, phase := Active, session := Some(s.seqNo + 1), seqNo := s.seqNo + 1,
            log := s.log + [Open(s.seqNo + 1, s.revision)], memory := Remembered(c, s, true, writes)))
  }

  function Refused(s: State): State { Tidy(s.(pc := Rest, phase := Inactive, seqNo := s.seqNo + 1)) }

  /** No session any more; a recorder's error may be fatal. */
  function Finalised(c: Setup, s: State, cause: Cause, writes: bool): State
    requires s.session.Some?
  {
    Tidy(s.(pc := Rest, phase := Inactive, session := None, log := s.log + [Final(s.session.value, s.revision)],
            fatal := s.fatal || (cause.RecorderError? && c.errorFatal), memory := Remembered(c, s, false, writes)))
  }

  lemma {:induction false} Onward(c: Setup, s: State, ok: bool, writes: bool)
    requires !s.pc.Rest?
    ensures Through(c, s, ok, writes) == Through(c, GoOn(c, s, ok, writes), ok, writes)
  {
    hide GoOn;
  }

  lemma {:induction false} TellAndNote(c: Setup, s: State, ok: bool, writes: bool)
    requires s.pc.Telling?
    ensures Through(c, s, ok, writes) == Note(c, Tell(s), writes)
  {
    hide Through, Tell, Note;
    Onward(c, s, ok, writes);
    Onward(c, Tell(s), ok, writes);
    AtRest(c, Note(c, Tell(s), writes), ok, writes);
  }

  lemma {:induction false} AtRest(c: Setup, s: State, ok: bool, writes: bool)
    requires s.pc.Rest?
    ensures Through(c, s, ok, writes) == s
  {
  }

  lemma {:induction false} OpenChain(c: Setup, s: State, ok: bool, writes: bool)
    requires s.pc.Opening?
    ensures Through(c, s, ok, writes) == if ok then Note(c, Tell(SetActive(Publish(s))), writes) else NotOpened(s)
  {
    hide Through, Tell, Note, SetActive, Publish, NotOpened;
    Onward(c, s, ok, writes);
    if ok {
      Onward(c, Publish(s), ok, writes);
      TellAndNote(c, SetActive(Publish(s)), ok, writes);
    } else {
      AtRest(c, NotOpened(s), ok, writes);
    }
  }

  lemma {:induction false} CloseChain(c: Setup, s: State, ok: bool, writes: bool)
    requires s.pc.Read?
    ensures Through(c, s, ok, writes) == Note(c, Tell(Close(TakeDown(Mark(s)))), writes)
  {
    hide Through, Tell, Note, Mark, TakeDown, Close;
    Onward(c, s, ok, writes);
    Onward(c, Mark(s), ok, writes);
    Onward(c, TakeDown(Mark(s)), ok, writes);
    TellAndNote(c, Close(TakeDown(Mark(s))), ok, writes);
  }

  lemma {:induction false} OpenRuns(c: Setup, s: State, cause: Cause, ok: bool, writes: bool)
    requires s.pc.Rest? && ToOpen(cause) && CanOpen(c, s)
    ensures var t := Tidy(Through(c, Call(s, cause), ok, writes));
            t == if ok then Opened(c, s, writes)
                 else if cause.Boot? then Refused(s).(fatal := true, stopping := true, down := true)
                 else Refused(s)
  {
    hide Through, Opened, Refused, Enter, Publish, NotOpened, SetActive, Tell, Note, Tidy;
    var s1 := Call(s, cause);
    Onward(c, s1, ok, writes);
    EnterOpens(c, s1);
    OpenChain(c, Enter(c, s1), ok, writes);
    if ok { OpenedIs(c, s, cause, writes); } else { RefusedIs(c, s, cause); }
  }

  lemma EnterOpens(c: Setup, s: State) requires ToOpen(s.cause) && CanOpen(c, s) ensures Enter(c, s).pc.Opening? {}

  lemma OpenedIs(c: Setup, s: State, cause: Cause, writes: bool)
    requires ToOpen(cause) && CanOpen(c, s)
    ensures Tidy(Note(c, Tell(SetActive(Publish(Enter(c, Call(s, cause))))), writes)) == Opened(c, s, writes)
  {
  }

  lemma RefusedIs(c: Setup, s: State, cause: Cause)
    requires ToOpen(cause) && CanOpen(c, s)
    ensures Tidy(NotOpened(Enter(c, Call(s, cause))))
         == if cause.Boot? then Refused(s).(fatal := true, stopping := true, down := true) else Refused(s)
  {
  }

  lemma {:induction false} CloseRuns(c: Setup, s: State, cause: Cause, writes: bool)
    requires s.pc.Rest? && !ToOpen(cause) && s.session.Some?
    ensures Tidy(Through(c, Call(s, cause), true, writes)) == Finalised(c, s, cause, writes)
  {
    hide Through;
    var s1 := Call(s, cause);
    Onward(c, s1, true, writes);
    CloseChain(c, Enter(c, s1), true, writes);
  }

  lemma {:induction false} OpenRefused(c: Setup, s: State, cause: Cause, ok: bool, writes: bool)
    requires s.pc.Rest? && ToOpen(cause) && !CanOpen(c, s)
    ensures Tidy(Through(c, Call(s, cause), ok, writes))
         == if cause.Boot? then Tidy(s.(fatal := true, stopping := true, down := true)) else Tidy(s)
  {
    hide Through;
    var s1 := Call(s, cause);
    Onward(c, s1, ok, writes);
    AtRest(c, Enter(c, s1), ok, writes);
  }

  lemma BootSteps(c: Setup, s: State)
    requires !s.booted && !s.down && s.pc.Rest?
    ensures Step(c, s, BootMove)
         == if BootsActive(c, s) then Call(s.(booted := true), Cause.Boot) else s.(booted := true, cause := Cause.Boot)
  {
  }

  /** A boot in one piece. */
  lemma BootWhole(c: Setup, s: State, starts: bool, writes: bool)
    requires Inv(s) && !s.booted && !s.down
    ensures var t := s.(booted := true);
            Whole(c, s, BootMove, starts, writes)
            == if !BootsActive(c, s) then Tidy(t)
               else if s.stopping then Tidy(t).(fatal := true, down := true)
               else if starts then Opened(c, t, writes)
               else Refused(t).(fatal := true, stopping := true, down := true)
  {
    hide Through, Opened, Refused, Step;
    var t := s.(booted := true);
    BootSteps(c, s);
    if !BootsActive(c, s) {
      AtRest(c, t.(cause := Cause.Boot), starts, writes);
    } else if s.stopping {
      OpenRefused(c, t, Cause.Boot, starts, writes);
    } else {
      OpenRuns(c, t, Cause.Boot, starts, writes);
    }
  }

  /** A boot went through and left a session recording, or none. */
  predicate Booted(t: State, active: bool) {
    && t.booted && !t.down && !t.stopping && !t.fatal
    && t.session == (if active then Some(1) else None)
    && t.phase == (if active then Active else Inactive)
    && t.log == (if active then [Open(1, 0)] else [])
  }

  /**
   * What a process boots into, whatever is remembered. With recording disabled: idle. With resuming on and
   * a state remembered: that state. In every other case: what the configuration says. So the first
   * recording is under way before the first frame exactly in these cases; a recorder that cannot start
   * then ends the process instead.
   */
  lemma {:induction false} BootsInto(c: Setup, memory: Option<bool>, starts: bool, writes: bool) returns (n: nat)
    ensures var t := Run(c, Start(memory), [BootMove] + Goes(n, starts, writes));
            && t.pc.Rest?
            && (!c.enabled ==> Booted(t, false))
            && (c.enabled && !c.resume && starts ==> Booted(t, c.initialActive))
            && (c.enabled && c.resume && memory == None && starts ==> Booted(t, c.initialActive))
            && (c.enabled && c.resume && memory == Some(true) && starts ==> Booted(t, true))
            && (c.enabled && c.resume && memory == Some(false) ==> Booted(t, false))
            && (!starts ==> t.session.None? && t.phase.Inactive? && t.log == [])
            && (!starts ==> (t.down <==> c.enabled && if c.resume && memory.Some? then memory.value else c.initialActive))
  {
    hide Step, Whole, Run, Goes;
    n := WholeIsRun(c, Start(memory), BootMove, starts, writes);
    BootWhole(c, Start(memory), starts, writes);
  }

  class CapturePipeline {
    const setup: Setup

    var phase: Phase
    var session: Option<nat>
    var seqNo: nat
    var stopping: bool
    var fatal: bool
    var held: bool
    var booted: bool
    var down: bool
    var revision: nat
    var memory: Option<bool>
    ghost var log: seq<Event>

    constructor (c: Setup, remembered: Option<bool>)
      ensures setup == c && View() == Tidy(Start(remembered))
    {
      setup := c;
      phase, session, seqNo, stopping, fatal, held, booted, down := Inactive, None, 0, false, false, false, false, false;
      revision, memory, log := 0, remembered, [];
    }

    ghost function View(): State
      reads this
    {
      State(Rest, Deactivation, 0, false, phase, session, seqNo, log, stopping, fatal, held, booted, down, revision, memory)
    }

    /** Nothing has stranded the phase: what every uninterrupted operation keeps. */
    ghost predicate Valid()
      reads this
    {
      Inv(View()) && Truthful(View())
    }

    method Remember(active: bool, writes: bool)
      modifies this`memory
      ensures memory == Remembered(setup, old(View()), active, writes)
    {
      if setup.resume && writes {
        memory := Some(active);
      }
    }

    /** Before the first frame: the remembered or configured state. A recorder that cannot start ends the process. */
    method Boot(starts: bool, writes: bool) returns (ok: bool)
      requires Valid() && !booted && !down
      modifies this`phase, this`session, this`seqNo, this`log, this`memory, this`booted, this`fatal, this`stopping, this`down
      ensures View() == Whole(setup, old(View()), BootMove, starts, writes)
      ensures ok <==> !down
      ensures ok ==> (session.Some? <==>
                setup.enabled && (if setup.resume && old(memory.Some?) then old(memory.value) else setup.initialActive))
    {
      hide Whole, Opened, Refused;
      BootWhole(setup, View(), starts, writes);
      var wanted := setup.enabled && (if setup.resume && memory.Some? then memory.value else setup.initialActive);
      booted := true;
      if !wanted || stopping {
        ok := !wanted;
        fatal, down := fatal || !ok, !ok;
        return;
      }
      ok := OpenSession(starts, writes);
      if !ok {
        fatal, stopping, down := true, true, true;
      }
    }

    /** The `activate` request: refusals first, then a session under the next number. */
    method Activate(starts: bool, writes: bool) returns (ok: bool)
      requires Valid() && booted && !down
      modifies this`phase, this`session, this`seqNo, this`log, this`memory
      ensures View() == Whole(setup, old(View()), Move.Activate, starts, writes)
      ensures ok <==> session.Some?
    {
      hide Through, Opened, Refused;
      if phase.Active? {
        AtRest(setup, View(), starts, writes);
        return true;
      }
      if !setup.enabled {
        AtRest(setup, View(), starts, writes);
        return false;
      }
      if stopping || session.Some? {
        OpenRefused(setup, View(), Activation, starts, writes);
        return false;
      }
      OpenRuns(setup, View(), Activation, starts, writes);
      ok := OpenSession(starts, writes);
    }

    /** Past the refusals: a failed start leaves the pipeline inactive, with the number used up. */
    method OpenSession(starts: bool, writes: bool) returns (ok: bool)
      requires session.None?
      modifies this`phase, this`session, this`seqNo, this`log, this`memory
      ensures View() == if starts then Opened(setup, old(View()), writes) else Refused(old(View()))
      ensures ok == starts == session.Some?
    {
      phase := Activating;
      seqNo := seqNo + 1;
      if starts {
        log := log + [Open(seqNo, revision)];
        session := Some(seqNo);
        phase := Active;
        Remember(true, writes);
      } else {
        phase := Inactive;
      }
      return starts;
    }

    /** Close the published session, whoever asked for it. */
    method FinaliseFor(cause: Cause, writes: bool)
      requires session.Some?
      modifies this`phase, this`session, this`log, this`memory, this`fatal
      ensures View() == Finalised(setup, old(View()), cause, writes)
      ensures session.None? && (!cause.RecorderError? ==> fatal == old(fatal))
    {
      var closing := session.value;
      phase := Deactivating;
      session := None;
      log := log + [Final(closing, revision)];
      phase := Inactive;
      Remember(false, writes);
      if cause.RecorderError? && setup.errorFatal {
        fatal := true;
      }
    }

    method Deactivate(writes: bool) returns (ok: bool)
      requires Valid() && booted && !down
      modifies this`phase, this`session, this`log, this`memory, this`fatal
      ensures View() == Whole(setup, old(View()), Move.Deactivate, true, writes)
      ensures ok && session.None?
    {
      hide Through, Finalised;
      if phase.Inactive? {
        AtRest(setup, View(), true, writes);
        return true;
      }
      CloseRuns(setup, View(), Deactivation, writes);
      FinaliseFor(Deactivation, writes);
      return true;
    }

    method OnSessionError(failed: nat, writes: bool)
      requires Valid() && booted && !down
      modifies this`phase, this`session, this`log, this`memory, this`fatal
      ensures View() == Whole(setup, old(View()), SessionError(failed), true, writes)
    {
      hide Through, Finalised;
      if session != Some(failed) || stopping {
        AtRest(setup, View(), true, writes);
        return;
      }
      CloseRuns(setup, View(), RecorderError, writes);
      FinaliseFor(RecorderError, writes);
    }

    method RequestStop()
      modifies this`phase, this`session, this`log, this`stopping
      ensures View() == Ownership.RequestStop(old(View()))
    {
      if stopping {
        return;
      }
      stopping := true;
      if session.Some? {
        log := log + [Final(session.value, revision)];
        session := None;
        phase := Inactive;
      }
    }

    method Shutdown()
      modifies this`phase, this`session, this`log, this`stopping, this`down
      ensures View() == ShutDown(old(View()))
    {
      stopping := true;
      down := true;
      if session.Some? {
        log := log + [Final(session.value, revision)];
        session := None;
        phase := Inactive;
      }
    }

    /** The once-a-second look at a playback that has reached its end. */
    method WatchEnd(failed: bool, writes: bool)
      requires Valid() && booted && !down
      modifies this`phase, this`session, this`log, this`memory, this`fatal, this`held, this`stopping
      ensures View() == Whole(setup, old(View()), Finished(failed), true, writes)
    {
      hide Inv, Truthful, Through;
      if stopping {
        AtRest(setup, View(), true, writes);
        return;
      }
      if failed {
        fatal := true;
        RequestStop();
        AtRest(setup, View(), true, writes);
      } else if !setup.hold {
        RequestStop();
        AtRest(setup, View(), true, writes);
      } else {
        Hold(writes);
      }
    }

    /** The first look at the end finalises the recording; the later ones wait for a restart. */
    method Hold(writes: bool)
      requires booted && !down && !stopping && setup.hold
      modifies this`phase, this`session, this`log, this`memory, this`held, this`fatal
      ensures View() == Whole(setup, old(View()), Finished(false), true, writes)
    {
      hide Through, Finalised;
      if held || session.None? {
        held := true;
        AtRest(setup, View(), true, writes);
      } else {
        held := true;
        CloseRuns(setup, View(), PlaybackEnd, writes);
        FinaliseFor(PlaybackEnd, writes);
      }
    }

    method Configure(accepted: bool, changes: bool) returns (ok: bool)
      requires Valid() && booted && !down
      modifies this`revision
      ensures View() == Step(setup, old(View()), Move.Configure(accepted, changes))
      ensures revision != old(revision) ==> ok && session.None? && !stopping
    {
      if !setup.enabled || stopping || phase != Inactive || session.Some? || !accepted {
        return false;
      }
      if changes {
        revision := revision + 1;
      }
      return true;
    }
  }
}
