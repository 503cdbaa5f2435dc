/**
 * What each operation of the capture pipeline comes to when nothing interrupts it, from any state it can
 * be called in: core-driver/cam_driver/pipeline.py and core-driver/cam_driver/lifecycle.py.
 */
module Operations {
  import opened Common
  import opened Ownership
  import opened Pipeline

  /** The main loop between two operations, nothing stranded. */
  predicate Ready(s: State) { Inv(s) && Truthful(s) && s.pc.Rest? && s.booted && !s.down }

  /** What is written of a state that is entered, if it is to be resumed. */
  predicate Recorded(c: Setup, writes: bool, was: Option<bool>, active: bool, now: Option<bool>) {
    now == if c.resume && writes then Some(active) else was
  }

  predicate SameSession(s: State, t: State) {
    t.session == s.session && t.phase == s.phase && t.log == s.log && t.seqNo == s.seqNo && t.memory == s.memory
  }

  /** Neither the settings nor what the process is up to changes. */
  predicate SameProcess(s: State, t: State) {
    t.stopping == s.stopping && t.fatal == s.fatal && t.held == s.held && t.revision == s.revision
    && t.booted == s.booted && t.down == s.down
  }

  /** The session there was has been finalised, and is on the log under the settings of the day. */
  predicate Ends(s: State, t: State) {
    s.session.Some? && t.session.None? && t.phase.Inactive? && t.seqNo == s.seqNo
    && t.log == s.log + [Final(s.session.value, s.revision)]
  }

  lemma ReadyMeans(s: State)
    requires Ready(s)
    ensures s.session.Some? <==> s.phase.Active?
    ensures s.session.None? <==> s.phase.Inactive?
  {
  }

  /** What an activation that is let through comes to. */
  predicate Activated(c: Setup, s: State, starts: bool, writes: bool, t: State) {
    && t.seqNo == s.seqNo + 1
    && (if starts then
          t.session == Some(t.seqNo) && t.phase.Active? && t.log == s.log + [Open(t.seqNo, s.revision)]
          && Recorded(c, writes, s.memory, true, t.memory)
        else t.session.None? && t.phase.Inactive? && t.log == s.log && t.memory == s.memory)
  }

  lemma OpenedShows(c: Setup, s: State, writes: bool)
    ensures SameProcess(s, Opened(c, s, writes)) && Activated(c, s, true, writes, Opened(c, s, writes))
  {
  }

  lemma RefusedShows(c: Setup, s: State, writes: bool)
    requires s.session.None?
    ensures SameProcess(s, Refused(s)) && Activated(c, s, false, writes, Refused(s))
  {
  }

  lemma TidyShows(s: State) ensures SameProcess(s, Tidy(s)) && SameSession(s, Tidy(s)) {}

  /**
   * An activation opens a session exactly if recording is enabled, none is open, no stop has begun and the
   * recorder starts: the next number, published and active. A recorder that does not start costs a number
   * and nothing else; a refusal costs nothing.
   */
  lemma {:induction false} ActivateExactly(c: Setup, s: State, starts: bool, writes: bool)
    requires Ready(s)
    ensures var t := Whole(c, s, Activate, starts, writes);
            && SameProcess(s, t)
            && if !c.enabled || s.session.Some? || s.stopping then SameSession(s, t) else Activated(c, s, starts, writes, t)
  {
    hide Through, Whole, Opened, Refused, Activated, SameProcess, SameSession, Inv, Truthful, Tidy;
    WholeIs(c, s, Activate, starts, writes);
    ReadyMeans(s);
    if s.phase.Inactive? && c.enabled {
      if s.stopping {
        OpenRefused(c, s, Activation, starts, writes);
        TidyShows(s);
      } else {
        OpenRuns(c, s, Activation, starts, writes);
        OpenedShows(c, s, writes);
        RefusedShows(c, s, writes);
      }
    } else {
      AtRest(c, s, starts, writes);
      TidyShows(s);
    }
  }

  lemma {:induction false} WholeIs(c: Setup, s: State, m: Move, ok: bool, writes: bool)
    ensures Whole(c, s, m, ok, writes) == Tidy(Through(c, Step(c, s, m), ok, writes))
  {
  }

  /** A deactivation ends the session there is; without one it changes nothing. */
  lemma {:induction false} DeactivateExactly(c: Setup, s: State, writes: bool)
    requires Ready(s)
    ensures var t := Whole(c, s, Deactivate, true, writes);
            && SameProcess(s, t)
            && if s.session.Some? then Ends(s, t) && Recorded(c, writes, s.memory, false, t.memory) else SameSession(s, t)
  {
    hide Through, Whole;
    WholeIs(c, s, Deactivate, true, writes);
    if s.phase.Active? {
      CloseRuns(c, s, Deactivation, writes);
    } else {
      AtRest(c, s, true, writes);
    }
  }

  /** A recorder's error ends its own session and no other, unless a stop sees to that; it can be fatal. */
  lemma {:induction false} ErrorExactly(c: Setup, s: State, failed: nat, writes: bool)
    requires Ready(s)
    ensures var t := Whole(c, s, SessionError(failed), true, writes);
            if s.session == Some(failed) && !s.stopping then
              && Ends(s, t) && Recorded(c, writes, s.memory, false, t.memory)
              && t.fatal == (s.fatal || c.errorFatal) && SameProcess(s, t.(fatal := s.fatal))
            else SameSession(s, t) && SameProcess(s, t)
  {
    hide Through, Whole;
    WholeIs(c, s, SessionError(failed), true, writes);
    if s.session == Some(failed) && !s.stopping {
      CloseRuns(c, s, RecorderError, writes);
    } else {
      AtRest(c, s, true, writes);
    }
  }

  /**
   * The end of a playback. A failed one stops the process as fatal, and one that is not to be held stops it
   * cleanly; either ends the session. One that is held ends it the first time it is seen, and only then.
   */
  lemma {:induction false} PlaybackEndExactly(c: Setup, s: State, failed: bool, writes: bool)
    requires Ready(s)
    ensures var t := Whole(c, s, Finished(failed), true, writes);
            && t.stopping == (s.stopping || failed || !c.hold)
            && t.fatal == (s.fatal || (failed && !s.stopping))
            && t.held == (s.held || (!failed && c.hold && !s.stopping))
            && t.revision == s.revision && !t.down
            && if s.session.Some? && !s.stopping && (failed || !c.hold || !s.held) then
                 Ends(s, t) && (if failed || !c.hold then t.memory == s.memory
                                else Recorded(c, writes, s.memory, false, t.memory))
               else SameSession(s, t)
  {
    hide Through, Whole;
    WholeIs(c, s, Finished(failed), true, writes);
    var u := s.(held := true);
    if !s.stopping && !failed && c.hold && !s.held && s.session.Some? {
      CloseRuns(c, u, PlaybackEnd, writes);
    } else {
      AtRest(c, Step(c, s, Finished(failed)), true, writes);
    }
  }

  /** A stop ends the session there is, the first time; a signal forgets the remembered state before that. */
  lemma StopExactly(c: Setup, s: State, writes: bool)
    requires Ready(s)
    ensures var t := Step(c, s, StopSignal(writes));
            && t.stopping && t.fatal == s.fatal && !t.down
            && t.memory == (if c.resume && writes then None else s.memory)
            && if s.session.Some? && !s.stopping then Ends(s, t) else SameSession(s, t.(memory := s.memory))
    ensures Step(c, Step(c, s, StopSignal(writes)), StopSignal(writes)) == Step(c, s, StopSignal(writes))
    ensures Step(c, s, StopIdle) == Step(c, s, StopSignal(false)).(fatal := true)
  {
  }

  /** Shutting down ends what is still there, stopped before or not, and is the last thing to do so. */
  lemma ShutdownExactly(c: Setup, s: State)
    requires Ready(s)
    ensures var t := Step(c, s, Shutdown);
            && t.down && t.stopping && t.fatal == s.fatal && t.memory == s.memory
            && if s.session.Some? then Ends(s, t) else t.session.None? && t.log == s.log
  {
  }

  /** New settings are taken exactly if they would be, no session is open and no stop has begun. */
  lemma ConfigureExactly(c: Setup, s: State, accepted: bool, changes: bool)
    requires Ready(s)
    ensures var t := Step(c, s, Configure(accepted, changes));
            && SameSession(s, t)
            && t.revision == s.revision
                 + if c.enabled && !s.stopping && s.session.None? && accepted && changes then 1 else 0
  {
  }
}
