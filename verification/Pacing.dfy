/**
 * Pacing a playback against its own timestamps: core-driver/cam_driver/playback.py, Pacer, and what
 * PlaybackState and a feeder do with it. Times and timestamps are real numbers of nanoseconds; the
 * clock is a parameter.
 */
module Pacing {
  import opened Common

  /** Data time `src` is due at wall time `wall`. */
  datatype Base = Base(src: real, wall: real)

  datatype Pace = Pace(speed: real, anchor: Option<real>, base: Option<Base>, last: Option<real>)

  function Max(a: real, b: real): real { if a >= b then a else b }

  function Due(b: Base, speed: real, ts: real): real
    requires speed > 0.0
  {
    b.wall + (ts - b.src) / speed
  }

  /** The baseline a wait uses: the first one makes it. */
  function BaseFor(p: Pace, ts: real, now: real): Base {
    if p.base.Some? then p.base.value else Base(if p.anchor.Some? then p.anchor.value else ts, now)
  }

  function AfterWait(p: Pace, ts: real, now: real): Pace {
    p.(last := Some(ts), base := if p.speed <= 0.0 then p.base else Some(BaseFor(p, ts, now)))
  }

  /** When a wait that nobody cancels lets its frame go. */
  function Release(p: Pace, ts: real, now: real): real {
    if p.speed <= 0.0 || (p.base.None? && p.anchor.None?) then now else Max(now, Due(BaseFor(p, ts, now), p.speed, ts))
  }

  function Rebased(p: Pace, now: real): Pace {
    p.(base := if p.last.Some? then Some(Base(p.last.value, now)) else p.base)
  }

  class Pacer {
    var speed: real
    var anchor: Option<real>
    var base: Option<Base>
    var last: Option<real>

    constructor (speed: real, anchor: Option<real>)
      ensures View() == Pace(speed, anchor, None, None)
    {
      this.speed, this.anchor, base, last := speed, anchor, None, None;
    }

    function View(): Pace
      reads this
    {
      Pace(speed, anchor, base, last)
    }

    /** The wall time to sleep to. */
    method Wait(ts: real, now: real) returns (until: real)
      modifies this`base, this`last
      ensures View() == AfterWait(old(View()), ts, now)
      ensures until == Release(old(View()), ts, now)
    {
      last := Some(ts);
      if speed <= 0.0 {
        return now;
      }
      if base.None? {
        base := Some(Base(if anchor.Some? then anchor.value else ts, now));
        if anchor.None? {
          return now;
        }
      }
      var target := base.value.wall + (ts - base.value.src) / speed;
      return if target > now then target else now;
    }

    /** A new baseline here and now: a resume after a pause. */
    method Rebase(now: real)
      modifies this`base
      ensures View() == Rebased(old(View()), now)
    {
      if last.Some? {
        base := Some(Base(last.value, now));
      }
    }

    method SetSpeed(v: real, now: real)
      modifies this`speed, this`base
      ensures View() == Rebased(old(View()).(speed := v), now)
    {
      speed := v;
      Rebase(now);
    }

    /** A restart: the next wait makes the baseline. */
    method Reset(zero: Option<real>)
      modifies this
      ensures View() == Pace(old(speed), zero, None, None)
    {
      anchor, base, last := zero, None, None;
    }

    /** The release of a boot hold. */
    method ReleaseAt(now: real)
      requires anchor.Some?
      modifies this
      ensures View() == Released(old(View()), now)
    {
      Reset(anchor);
      AnchorNow(now);
    }

    /** The timeline starts now at its zero. */
    method AnchorNow(now: real)
      modifies this`base
      ensures View() == old(View()).(base := if anchor.Some? then Some(Base(anchor.value, now)) else old(base))
    {
      if anchor.Some? {
        base := Some(Base(anchor.value, now));
      }
    }
  }

  // ---- a feeder on a virtual clock -----------------------------------------------------------

  datatype Feeder =
    | Ready
    | Sleeping(ts: real, until: real)
    | Stale(until: real)     // asleep over a frame of a cycle that a restart has ended

  /**
   * `credit` at time `since`, at `speed` from then on while not paused: how much data time the time
   * spent playing pays for. `overdrawn`: some frame has gone out beyond that.
   */
  datatype State = State(p: Pace, now: real, feeder: Feeder, paused: bool, frames: nat,
                         credit: real, since: real, overdrawn: bool)

  datatype Move =
    | Pass(d: real)             // time passes
    | Frame(ts: real)           // the feeder comes to its pacing point and is not held there
    | Wake                      // the sleep is over and the feeder not held: the frame goes out
    | Preroll                   // the first frame of a playback that boots paused goes out unpaced
    | Pause
    | Resume
    | Speed(v: real)
    | Restart(zero: Option<real>)

  /** Data time that passes in a stretch of time. */
  function Data(speed: real, d: real): real { speed * d }

  function Paid(s: State): real { if s.paused then s.credit else s.credit + Data(s.p.speed, s.now - s.since) }

  function Come(s: State, ts: real): State {
    var new0 := s.p.base.None?;
    var b := BaseFor(s.p, ts, s.now);
    s.(p := AfterWait(s.p, ts, s.now), feeder := Sleeping(ts, Release(s.p, ts, s.now)),
       credit := if new0 then b.src else s.credit, since := if new0 then s.now else s.since)
  }

  function GoOut(s: State): State {
    s.(feeder := Ready, frames := s.frames + 1, overdrawn := s.overdrawn || (s.feeder.Sleeping? && s.feeder.ts > Paid(s)))
  }

  predicate Asleep(s: State) { !s.feeder.Ready? && s.now < s.feeder.until }

  /** A resume with nothing played yet starts the timeline at its zero; any other rebases it. */
  predicate Releases(s: State) { s.frames == 0 && s.p.anchor.Some? }

  function Released(p: Pace, now: real): Pace
    requires p.anchor.Some?
  {
    Pace(p.speed, p.anchor, Some(Base(p.anchor.value, now)), None)
  }

  function Resumed(s: State): State {
    if Releases(s)
    then s.(paused := false, p := Released(s.p, s.now), credit := s.p.anchor.value, since := s.now)
    else s.(paused := false, p := Rebased(s.p, s.now), since := s.now)
  }

  function Sped(s: State, v: real): State {
    s.(p := Rebased(s.p.(speed := v), s.now), credit := Paid(s), since := s.now)
  }

  function Restarted(s: State, zero: Option<real>): State {
    s.(p := Pace(s.p.speed, zero, None, None), frames := 0, feeder := if s.feeder.Ready? then Ready else Stale(s.feeder.until))
  }

  function Step(s: State, m: Move): State {
    match m
    case Pass(d) => if d >= 0.0 then s.(now := s.now + d) else s
    case Frame(ts) => if s.feeder.Ready? && !s.paused then Come(s, ts) else s
    case Wake => if !s.feeder.Ready? && s.now >= s.feeder.until && !s.paused then GoOut(s) else s
    case Preroll => if s.feeder.Ready? then s.(frames := s.frames + 1) else s
    case Pause => s.(paused := true, credit := Paid(s))
    case Resume => if s.paused then Resumed(s) else s
    case Speed(v) => if v > 0.0 && v != s.p.speed then Sped(s, v) else s
    case Restart(zero) => Restarted(s, zero)
  }

  function Run(s: State, ms: seq<Move>): State
    decreases |ms|
  {
    if ms == [] then s else Run(Step(s, ms[0]), ms[1..])
  }

  function Start(speed: real, anchor: Option<real>, paused: bool): State {
    State(Pace(speed, anchor, None, None), 0.0, Ready, paused, 0, 0.0, 0.0, false)
  }

  /** What a baseline allows at a time. */
  function Line(b: Base, speed: real, now: real): real { b.src + Data(speed, now - b.wall) }

  /**
   * A move that sets a baseline, or a speed for it, that is ahead of what has been paid for: by what it
   * allows right now, or by the frame that is asleep under it.
   */
  predicate Ahead(t: State) {
    && !t.paused
    && ((t.p.base.Some? && Line(t.p.base.value, t.p.speed, t.now) > Paid(t))
        || (t.feeder.Sleeping? && t.feeder.ts > Paid(t) + Data(t.p.speed, Max(t.feeder.until, t.now) - t.now)))
  }

  predicate Rebases(s: State, m: Move) { (m.Resume? && s.paused) || (m.Speed? && m.v > 0.0 && m.v != s.p.speed) }

  predicate Unpaid(s: State, m: Move) { Rebases(s, m) && Ahead(Step(s, m)) }

  predicate NeverUnpaid(s: State, ms: seq<Move>)
    decreases |ms|
  {
    ms == [] || (!Unpaid(s, ms[0]) && NeverUnpaid(Step(s, ms[0]), ms[1..]))
  }

  /** Whenever time runs, the baseline is within what has been paid for, and so is whatever is asleep. */
  predicate Inv(s: State) {
    && s.p.speed > 0.0 && !s.overdrawn
    && (s.p.last.Some? ==> s.p.base.Some?)
    && (s.p.last.Some? && s.feeder.Ready? ==> s.p.last.value <= Paid(s))
    && (s.p.last.Some? && s.feeder.Sleeping? ==> s.p.last.value == s.feeder.ts)
    && (s.feeder.Stale? ==> s.p.last.None?)
    && (s.feeder.Sleeping? ==> s.p.base.Some?)
    && !Ahead(s)
  }

  lemma DueIs(b: Base, speed: real, ts: real)
    requires speed > 0.0
    ensures Data(speed, Due(b, speed, ts) - b.wall) == ts - b.src
  {
    var q := (ts - b.src) / speed;
    assert q * speed == ts - b.src;
  }

  lemma Faster(speed: real, a: real, b: real)
    requires speed > 0.0
    ensures a <= b <==> Data(speed, a) <= Data(speed, b)
  {
    if a > b { assert speed * (a - b) > 0.0; }
    if a < b { assert speed * (b - a) > 0.0; }
  }

  lemma Spread(speed: real, a: real, b: real) ensures Data(speed, a + b) == Data(speed, a) + Data(speed, b) {}

  lemma Nothing(speed: real) ensures Data(speed, 0.0) == 0.0 {}

  /** Data time per time: the line and the paid time rise together. */
  lemma PassAdds(s: State, d: real)
    ensures !s.paused ==> Paid(s.(now := s.now + d)) == Paid(s) + Data(s.p.speed, d)
    ensures s.p.base.Some? ==>
              Line(s.p.base.value, s.p.speed, s.now + d) == Line(s.p.base.value, s.p.speed, s.now) + Data(s.p.speed, d)
  {
    hide Data;
    Spread(s.p.speed, s.now - s.since, d);
    assert s.now + d - s.since == s.now - s.since + d;
    if s.p.base.Some? {
      Spread(s.p.speed, s.now - s.p.base.value.wall, d);
      assert s.now + d - s.p.base.value.wall == s.now - s.p.base.value.wall + d;
    }
  }

  lemma PassKeeps(s: State, d: real)
    requires Inv(s) && d >= 0.0
    ensures Inv(s.(now := s.now + d))
  {
    hide Line, Data, Paid;
    PassAdds(s, d);
    Nothing(s.p.speed);
    Faster(s.p.speed, 0.0, d);
    PausedPaid(s, d);
    if s.feeder.Sleeping? {
      var x, y := Max(s.feeder.until, s.now) - s.now, Max(s.feeder.until, s.now + d) - (s.now + d);
      Spread(s.p.speed, d, y);
      Faster(s.p.speed, x, d + y);
    }
  }

  lemma PausedPaid(s: State, d: real) ensures s.paused ==> Paid(s.(now := s.now + d)) == Paid(s) {}

  lemma ComeKeeps(s: State, ts: real)
    requires Inv(s) && s.feeder.Ready? && !s.paused
    ensures Inv(Come(s, ts))
  {
    hide Data;
    var b := BaseFor(s.p, ts, s.now);
    var until := Release(s.p, ts, s.now);
    Nothing(s.p.speed);
    DueIs(b, s.p.speed, ts);
    NotBeforeDue(s.p, ts, s.now);
    Spread(s.p.speed, s.now - b.wall, until - s.now);
    assert until - b.wall == s.now - b.wall + (until - s.now);
    assert ts <= Line(b, s.p.speed, s.now) + Data(s.p.speed, until - s.now);
  }

  lemma GoOutKeeps(s: State)
    requires Inv(s) && !s.feeder.Ready? && s.now >= s.feeder.until && !s.paused
    ensures Inv(GoOut(s))
  {
    hide Data;
    Nothing(s.p.speed);
  }

  lemma PauseKeeps(s: State)
    requires Inv(s)
    ensures Inv(Step(s, Pause))
  {
  }

  lemma RebaseKeeps(s: State, m: Move)
    requires Inv(s) && Rebases(s, m) && !Unpaid(s, m)
    ensures Inv(Step(s, m))
  {
    hide Data, Ahead;
    Nothing(s.p.speed);
    Nothing(Step(s, m).p.speed);
    if Step(s, m).paused { PausedIsNotAhead(Step(s, m)); }
  }

  lemma PausedIsNotAhead(s: State) requires s.paused ensures !Ahead(s) {}

  lemma RestartKeeps(s: State, zero: Option<real>)
    requires Inv(s)
    ensures Inv(Restarted(s, zero))
  {
  }

  lemma StepKeeps(s: State, m: Move)
    requires Inv(s) && !Unpaid(s, m)
    ensures Inv(Step(s, m))
  {
    hide Come, GoOut, Resumed, Sped, Restarted, Ahead, Paid;
    match m
    case Pass(d) => if d >= 0.0 { PassKeeps(s, d); }
    case Frame(ts) => if s.feeder.Ready? && !s.paused { ComeKeeps(s, ts); }
    case Wake => if !s.feeder.Ready? && s.now >= s.feeder.until && !s.paused { GoOutKeeps(s); }
    case Preroll => PrerollKeeps(s);
    case Pause => PauseKeeps(s);
    case Restart(zero) => RestartKeeps(s, zero);
    case _ => if Rebases(s, m) { RebaseKeeps(s, m); }
  }

  lemma PrerollKeeps(s: State) requires Inv(s) ensures Inv(Step(s, Preroll)) {}

  lemma {:induction false} RunKeeps(s: State, ms: seq<Move>)
    requires Inv(s) && NeverUnpaid(s, ms)
    ensures Inv(Run(s, ms))
    decreases |ms|
  {
    hide Inv, Step, Unpaid;
    if ms != [] {
      StepKeeps(s, ms[0]);
      RunKeeps(Step(s, ms[0]), ms[1..]);
    }
  }

  // ---- results -------------------------------------------------------------------------

  /** A wait lets its frame go no earlier than its distance from the current baseline, at the current speed. */
  lemma NotBeforeDue(p: Pace, ts: real, now: real)
    requires p.speed > 0.0
    ensures var b := BaseFor(p, ts, now);
            Release(p, ts, now) >= now && Data(p.speed, Release(p, ts, now) - b.wall) >= ts - b.src
  {
    hide Data;
    var b := BaseFor(p, ts, now);
    DueIs(b, p.speed, ts);
    Nothing(p.speed);
    if p.base.Some? || p.anchor.Some? {
      Faster(p.speed, Due(b, p.speed, ts) - b.wall, Release(p, ts, now) - b.wall);
    }
  }

  /** Any time that is needed to have nobody asleep any more. */
  function Rest(s: State): real { if Asleep(s) then s.feeder.until - s.now else 0.0 }

  /** Wait for the sleeper, let it go, and offer a frame right at what the baseline allows. */
  function Overdraw(s: State): seq<Move>
    requires s.p.base.Some?
  {
    [Pass(Rest(s)), Wake, Frame(Line(s.p.base.value, s.p.speed, s.now + Rest(s))), Wake]
  }

  lemma {:induction false} RunCons(s: State, m: Move, ms: seq<Move>)
    ensures Run(s, [m] + ms) == Run(Step(s, m), ms)
  {
    hide Step;
    assert ([m] + ms)[1..] == ms;
  }

  lemma {:induction false} RunAppend(s: State, a: seq<Move>, b: seq<Move>)
    ensures Run(s, a + b) == Run(Run(s, a), b)
    decreases |a|
  {
    hide Step;
    if a == [] {
      assert a + b == b;
    } else {
      assert (a + b)[0] == a[0] && (a + b)[1..] == a[1..] + b;
      RunAppend(Step(s, a[0]), a[1..], b);
    }
  }

  lemma {:induction false} FourMoves(s: State, a: Move, b: Move, d: Move, e: Move)
    ensures Run(s, [a, b, d, e]) == Step(Step(Step(Step(s, a), b), d), e)
    ensures Run(s, [a, b]) == Step(Step(s, a), b)
  {
    hide Step;
    assert [a, b, d, e] == [a] + ([b] + ([d] + [e])) && [a, b] == [a] + [b];
    assert [b] == [b] + [] && [e] == [e] + [];
    RunCons(s, a, [b] + ([d] + [e]));
    RunCons(s, a, [b]);
    RunCons(Step(s, a), b, [d] + [e]);
    RunCons(Step(s, a), b, []);
    RunCons(Step(Step(s, a), b), d, [e]);
    RunCons(Step(Step(Step(s, a), b), d), e, []);
  }

  lemma DueOfLine(b: Base, speed: real, at: real)
    requires speed > 0.0
    ensures Due(b, speed, Line(b, speed, at)) == at
  {
    var x := at - b.wall;
    assert Data(speed, x) / speed == x;
  }

  lemma StaysOverdrawn(s: State, m: Move) requires s.overdrawn ensures Step(s, m).overdrawn {}

  /** The sleeper lets its frame go, paid for or not. */
  lemma SleeperOut(t: State)
    requires t.p.speed > 0.0 && !t.paused && t.p.base.Some?
    ensures var u := Step(Step(t, Pass(Rest(t))), Wake);
            && u.feeder.Ready? && !u.paused && u.p == t.p && u.now == t.now + Rest(t)
            && Paid(u) == Paid(t) + Data(t.p.speed, Rest(t))
            && (t.feeder.Sleeping? && t.feeder.ts > Paid(u) ==> u.overdrawn)
  {
    hide Data;
    PassAdds(t, Rest(t));
  }

  lemma FrameAtLine(u: State)
    requires u.p.speed > 0.0 && !u.paused && u.p.base.Some? && u.feeder.Ready?
    requires Line(u.p.base.value, u.p.speed, u.now) > Paid(u)
    ensures Step(Step(u, Frame(Line(u.p.base.value, u.p.speed, u.now))), Wake).overdrawn
  {
    hide Data, Line;
    DueOfLine(u.p.base.value, u.p.speed, u.now);
  }

  /** Ahead by the baseline, or by the sleeper: either way, with everybody awake, it shows. */
  lemma AheadShows(t: State)
    requires t.p.speed > 0.0 && Ahead(t) && t.p.base.Some?
    ensures var u := Step(Step(t, Pass(Rest(t))), Wake);
            u.overdrawn || Line(u.p.base.value, u.p.speed, u.now) > Paid(u)
  {
    hide Data, Line, Paid, Step;
    SleeperOut(t);
    PassAdds(t, Rest(t));
    if t.feeder.Sleeping? { assert Max(t.feeder.until, t.now) - t.now == Rest(t); }
  }

  lemma {:induction false} AheadOverdraws(t: State)
    requires t.p.speed > 0.0 && Ahead(t) && t.p.base.Some?
    ensures Run(t, Overdraw(t)).overdrawn && NeverUnpaid(t, Overdraw(t))
  {
    hide Line, Paid, Step, Ahead;
    var d := Rest(t);
    var ts := Line(t.p.base.value, t.p.speed, t.now + d);
    var u := Step(Step(t, Pass(d)), Wake);
    AheadIsPlaying(t);
    SleeperOut(t);
    AheadShows(t);
    FourMoves(t, Pass(d), Wake, Frame(ts), Wake);
    OverdrawSettles(t);
    if u.overdrawn {
      StaysOverdrawn(u, Frame(ts));
      StaysOverdrawn(Step(u, Frame(ts)), Wake);
    } else {
      FrameAtLine(u);
    }
  }

  lemma AheadIsPlaying(t: State) requires Ahead(t) ensures !t.paused {}

  lemma {:induction false} OverdrawSettles(t: State)
    requires t.p.base.Some?
    ensures NeverUnpaid(t, Overdraw(t))
  {
    hide Step, Ahead, Line;
    var ms := Overdraw(t);
    assert ms[1..][1..][1..][1..] == [];
    assert !ms[1..][1..][1..][0].Resume? && !ms[1..][1..][1..][0].Speed?;
    var s3 := Step(Step(Step(t, ms[0]), ms[1]), ms[2]);
    assert NeverUnpaid(s3, ms[1..][1..][1..]);
    assert NeverUnpaid(Step(Step(t, ms[0]), ms[1]), ms[1..][1..]);
  }

  lemma StepHasBase(s: State, m: Move)
    requires Inv(s) && Unpaid(s, m)
    ensures Step(s, m).p.base.Some? && Step(s, m).p.speed > 0.0
  {
  }

  /**
   * Time spent paused is not caught up, exactly: in every run of frames, pauses, resumes, releases,
   * speed changes and restarts in which no new baseline is ahead of what has been paid for, no frame
   * goes out beyond the data time that the time spent playing pays for. And after any such run, one
   * move more keeps it so for everything that may follow if and only if it is no such baseline.
   */
  lemma {:induction false} PausesAreNotCaughtUpExactly(speed: real, anchor: Option<real>, paused: bool, ms: seq<Move>, m: Move)
    requires speed > 0.0 && NeverUnpaid(Start(speed, anchor, paused), ms)
    ensures var s := Run(Start(speed, anchor, paused), ms);
            && !s.overdrawn
            && (!Unpaid(s, m) <==> forall more :: NeverUnpaid(Step(s, m), more) ==> !Run(Step(s, m), more).overdrawn)
  {
    hide Step, Unpaid, Inv, Overdraw, NeverUnpaid, Run;
    assert Inv(Start(speed, anchor, paused)) by { StartInv(speed, anchor, paused); }
    RunKeeps(Start(speed, anchor, paused), ms);
    var s := Run(Start(speed, anchor, paused), ms);
    var t := Step(s, m);
    InvNotOverdrawn(s);
    if Unpaid(s, m) {
      StepHasBase(s, m);
      assert Ahead(t) by { UnpaidIsAhead(s, m); }
      AheadOverdraws(t);
    } else {
      StepKeeps(s, m);
      forall more | NeverUnpaid(t, more) ensures !Run(t, more).overdrawn {
        RunKeeps(t, more);
        InvNotOverdrawn(Run(t, more));
      }
    }
  }

  lemma StartInv(speed: real, anchor: Option<real>, paused: bool)
    requires speed > 0.0
    ensures Inv(Start(speed, anchor, paused))
  {
  }

  lemma InvNotOverdrawn(s: State) requires Inv(s) ensures !s.overdrawn {}

  lemma UnpaidIsAhead(s: State, m: Move) requires Unpaid(s, m) ensures Ahead(Step(s, m)) {}

  /**
   * For a resume that rebases, or a new speed while playing, that condition is one comparison: the
   * newest frame the feeder has come to has been paid for. It always has if the feeder is not asleep.
   */
  lemma UnpaidIsNewestUnpaid(s: State, m: Move)
    requires Inv(s) && Rebases(s, m) && s.p.last.Some?
    requires if m.Resume? then !Releases(s) else !s.paused
    ensures Unpaid(s, m) <==> s.p.last.value > Paid(s)
    ensures s.feeder.Ready? ==> !Unpaid(s, m)
  {
    hide Data;
    var t := Step(s, m);
    Nothing(s.p.speed);
    Nothing(t.p.speed);
    assert t.p.base == Some(Base(s.p.last.value, s.now));
    assert Paid(t) == Paid(s);
    assert Line(t.p.base.value, t.p.speed, t.now) == s.p.last.value;
    Faster(t.p.speed, 0.0, if s.feeder.Sleeping? then Max(s.feeder.until, s.now) - s.now else 0.0);
  }

  lemma FirstFrameOut(s0: State)
    requires s0 == Start(1.0, None, false)
    ensures Step(Step(s0, Frame(0.0)), Wake) ==
              s0.(p := Pace(1.0, None, Some(Base(0.0, 0.0)), Some(0.0)), frames := 1)
  {
  }

  lemma TenFromZero() ensures Due(Base(0.0, 0.0), 1.0, 10.0) == 10.0 {}

  lemma SecondFrameAsleep(s: State)
    requires s.p == Pace(1.0, None, Some(Base(0.0, 0.0)), Some(0.0)) && s.now == 0.0 && s.feeder.Ready? && !s.paused
    ensures Step(s, Frame(10.0)) == s.(p := s.p.(last := Some(10.0)), feeder := Sleeping(10.0, 10.0))
  {
    hide Due, Data, Paid, Resumed, Sped, Restarted;
    TenFromZero();
    var c := Come(s, 10.0);
    assert c.p == s.p.(last := Some(10.0));
    assert c.feeder == Sleeping(10.0, 10.0);
    assert c == s.(p := c.p, feeder := c.feeder);
  }

  lemma OneSecondPaid(s: State)
    requires !s.paused && s.credit == 0.0 && s.since == 0.0 && s.now == 0.0 && s.p.speed == 1.0
    ensures Step(s, Pass(1.0)) == s.(now := 1.0) && Paid(s.(now := 1.0)) == 1.0
  {
  }

  /** A frame now, one ten later, and a tenfold speed while that one is asleep. */
  lemma SpeedIntoSleep()
    ensures var s0 := Start(1.0, None, false);
            var ms := [Frame(0.0), Wake, Frame(10.0), Pass(1.0)];
            && NeverUnpaid(s0, ms) && Unpaid(Run(s0, ms), Speed(10.0))
  {
    hide Step, Unpaid, Paid, NeverUnpaid, Run;
    var s0 := Start(1.0, None, false);
    var s2 := Step(Step(s0, Frame(0.0)), Wake);
    FirstFrameOut(s0);
    SecondFrameAsleep(s2);
    OneSecondPaid(Step(s2, Frame(10.0)));
    SpeedIsUnpaid(Step(Step(s2, Frame(10.0)), Pass(1.0)));
    FourMoves(s0, Frame(0.0), Wake, Frame(10.0), Pass(1.0));
    NeverRebases(s0, [Frame(0.0), Wake, Frame(10.0), Pass(1.0)]);
  }

  lemma SpeedIsUnpaid(s: State)
    requires s.p.last == Some(10.0) && Paid(s) == 1.0 && !s.paused && s.p.speed == 1.0
    ensures Unpaid(s, Speed(10.0))
  {
    hide Paid, Data;
    Nothing(10.0);
    var t := Step(s, Speed(10.0));
    assert t.p.base == Some(Base(10.0, s.now)) && Line(Base(10.0, s.now), 10.0, s.now) == 10.0;
    assert Paid(t) == 1.0 by { SpedPaid(s, 10.0); }
  }

  lemma SpedPaid(s: State, v: real) requires !s.paused ensures Paid(Sped(s, v)) == Paid(s) {}

  lemma {:induction false} NeverRebases(s: State, ms: seq<Move>)
    requires forall i :: 0 <= i < |ms| ==> !ms[i].Resume? && !ms[i].Speed?
    ensures NeverUnpaid(s, ms)
    decreases |ms|
  {
    hide Step;
    if ms != [] { NeverRebases(Step(s, ms[0]), ms[1..]); }
  }

  /**
   * What is caught up when the speed changes under a sleeping frame: after it, exactly the frames no
   * further on than the rest of that sleep, at the new speed, go out with no wait at all.
   */
  lemma RestOfSleepIsCaughtUp(s: State, v: real, ts: real)
    requires Inv(s) && s.feeder.Sleeping? && s.now < s.feeder.until && !s.paused && s.p.last.Some?
    requires v > 0.0 && v != s.p.speed
    ensures var u := Step(Step(Step(s, Speed(v)), Pass(Rest(s))), Wake);
            && u.feeder.Ready? && u.now == s.feeder.until
            && (Release(u.p, ts, u.now) == u.now <==> ts <= s.p.last.value + Data(v, s.feeder.until - s.now))
  {
    var d := s.feeder.until - s.now;
    var b := Base(s.p.last.value, s.now);
    hide Data;
    DueIs(b, v, ts);
    Faster(v, Due(b, v, ts) - s.now, d);
  }

  /**
   * Players released together play together: whatever each did before, from one release at one zero and
   * speed on they let frames with the same timestamp go at the same moment, if they come to them in time.
   */
  lemma ReleasedTogether(p: Pace, q: Pace, now: real, ts: real, t1: real, t2: real)
    requires p.speed == q.speed > 0.0 && p.anchor == q.anchor && p.anchor.Some?
    requires t1 <= now + (ts - p.anchor.value) / p.speed && t2 <= now + (ts - p.anchor.value) / p.speed
    ensures Release(Released(p, now), ts, t1) == Release(Released(q, now), ts, t2)
         == now + (ts - p.anchor.value) / p.speed
  {
  }
}
