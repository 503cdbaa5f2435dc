/** When a paced playback lets its frames go, move by move: core-driver/cam_driver/playback.py. */
module PacingTimes {
  import opened Common
  import opened Pacing

  /** The later of two times. */
  predicate Later(t: real, a: real, b: real) { t >= a && t >= b && (t == a || t == b) }

  /** A frame that comes now goes out `ahead` of data time after `from`, at this speed, but not before it comes. */
  predicate GoesOut(f: Feeder, ts: real, now: real, from: real, ahead: real, speed: real)
    requires speed > 0.0
  {
    f.Sleeping? && f.ts == ts && Later(f.until, now, from + ahead / speed)
  }

  /**
   * After a resume: the first frames of a playback go out as far after the resume as they are from its
   * zero, any others as far as they are from the last one before the pause. The pause costs nothing and
   * earns nothing.
   */
  lemma {:induction false} AfterResume(s: State, d: real, ts: real)
    requires s.paused && s.feeder.Ready? && s.p.speed > 0.0 && d >= 0.0
    requires (s.frames == 0 && s.p.anchor.Some?) || s.p.last.Some?
    ensures var zero := if s.frames == 0 && s.p.anchor.Some? then s.p.anchor.value else s.p.last.value;
            var u := Step(Step(Step(s, Resume), Pass(d)), Frame(ts));
            !u.paused && GoesOut(u.feeder, ts, s.now + d, s.now, ts - zero, s.p.speed)
  {
  }

  /** After a change of speed, as far as they are from the last one before it, at the new speed. */
  lemma {:induction false} AfterSpeed(s: State, v: real, d: real, ts: real)
    requires !s.paused && s.feeder.Ready? && s.p.last.Some? && v > 0.0 && v != s.p.speed && d >= 0.0
    ensures var u := Step(Step(Step(s, Speed(v)), Pass(d)), Frame(ts));
            u.p.speed == v && GoesOut(u.feeder, ts, s.now + d, s.now, ts - s.p.last.value, v)
  {
  }

  /** After a restart, as far after the first frame comes as it is from the zero; without a zero, at once. */
  lemma {:induction false} AfterRestart(s: State, zero: Option<real>, d: real, ts: real)
    requires !s.paused && s.feeder.Ready? && s.p.speed > 0.0 && d >= 0.0
    ensures var u := Step(Step(Step(s, Restart(zero)), Pass(d)), Frame(ts));
            && u.frames == 0
            && GoesOut(u.feeder, ts, s.now + d, s.now + d, if zero.Some? then ts - zero.value else 0.0, s.p.speed)
  {
    assert 0.0 / s.p.speed == 0.0;
  }

  /** Moves that leave the pace alone. */
  predicate Steady(ms: seq<Move>) {
    forall i :: 0 <= i < |ms| ==> !ms[i].Resume? && !ms[i].Speed? && !ms[i].Restart?
  }

  lemma SteadyStep(s: State, m: Move)
    requires s.p.base.Some? && !m.Resume? && !m.Speed? && !m.Restart?
    ensures Step(s, m).p.base == s.p.base && Step(s, m).p.speed == s.p.speed
  {
  }

  lemma {:induction false} SteadyRun(s: State, ms: seq<Move>)
    requires s.p.base.Some? && Steady(ms)
    ensures Run(s, ms).p.base == s.p.base && Run(s, ms).p.speed == s.p.speed
    decreases |ms|
  {
    hide Step;
    if ms != [] {
      SteadyStep(s, ms[0]);
      SteadyRun(Step(s, ms[0]), ms[1..]);
    }
  }

  lemma Apart(a: real, b: real, c: real, speed: real)
    requires speed > 0.0
    ensures (b - c) / speed - (a - c) / speed == (b - a) / speed
  {
    assert (b - c) / speed == (b - a) / speed + (a - c) / speed by {
      assert (b - c) == (b - a) + (a - c);
    }
  }

  lemma FrameWaits(s: State, ts: real)
    requires s.feeder.Ready? && !s.paused && s.p.speed > 0.0 && s.p.base.Some?
    ensures var u := Step(s, Frame(ts));
            && GoesOut(u.feeder, ts, s.now, s.p.base.value.wall, ts - s.p.base.value.src, s.p.speed)
            && u.p.base == s.p.base && u.p.speed == s.p.speed
  {
  }

  /**
   * While nobody resumes, restarts or changes the speed, two frames that both wait go out as far apart as
   * their timestamps are at that speed, however many came between them and however late those were.
   */
  lemma {:induction false} SteadyPace(s: State, t1: real, ms: seq<Move>, t2: real)
    requires s.feeder.Ready? && !s.paused && s.p.speed > 0.0 && s.p.base.Some? && Steady(ms)
    requires var b := Run(Step(s, Frame(t1)), ms); b.feeder.Ready? && !b.paused
    ensures var a := Step(s, Frame(t1));
            var b := Run(a, ms);
            var c := Step(b, Frame(t2));
            && a.feeder.Sleeping? && c.feeder.Sleeping? && a.feeder.until >= s.now && c.feeder.until >= b.now
            && (a.feeder.until > s.now && c.feeder.until > b.now ==>
                  c.feeder.until - a.feeder.until == (t2 - t1) / s.p.speed)
  {
    hide Run, Step;
    var a := Step(s, Frame(t1));
    FrameWaits(s, t1);
    SteadyRun(a, ms);
    FrameWaits(Run(a, ms), t2);
    Apart(t1, t2, s.p.base.value.src, s.p.speed);
  }

  /** While it is paused no frame comes and none goes out, but for the one a boot shows. */
  lemma PausedStep(s: State, m: Move)
    requires s.paused && !m.Resume? && !m.Restart?
    ensures var t := Step(s, m); t.paused && t.feeder == s.feeder && t.overdrawn == s.overdrawn
    ensures Step(s, m).frames == s.frames + if m.Preroll? && s.feeder.Ready? then 1 else 0
  {
  }

  lemma {:induction false} PausedRun(s: State, ms: seq<Move>)
    requires s.paused && forall i :: 0 <= i < |ms| ==> !ms[i].Resume? && !ms[i].Restart? && !ms[i].Preroll?
    ensures var t := Run(s, ms); t.paused && t.feeder == s.feeder && t.frames == s.frames
    decreases |ms|
  {
    hide Step;
    if ms != [] {
      PausedStep(s, ms[0]);
      PausedRun(Step(s, ms[0]), ms[1..]);
    }
  }

  /** At speed 0 a frame goes out as it comes, and sets no baseline for those after it. */
  lemma Unpaced(p: Pace, ts: real, now: real)
    requires p.speed == 0.0
    ensures Release(p, ts, now) == now && AfterWait(p, ts, now) == p.(last := Some(ts))
  {
  }

  /**
   * What the time spent playing pays for, move by move: time that passes pays at the speed, but not while
   * paused; the first frame starts at the zero, or at itself, and so does a release from the boot hold; no
   * other move pays for anything or costs anything.
   */
  lemma {:induction false} PaidFor(s: State, m: Move)
    requires s.p.speed > 0.0
    ensures var t := Step(s, m);
            match m
            case Pass(d) => d >= 0.0 ==> Paid(t) == Paid(s) + if s.paused then 0.0 else s.p.speed * d
            case Frame(ts) =>
              s.feeder.Ready? && !s.paused ==>
                Paid(t) == if s.p.base.Some? then Paid(s) else if s.p.anchor.Some? then s.p.anchor.value else ts
            case Resume =>
              Paid(t) == if s.paused && s.frames == 0 && s.p.anchor.Some? then s.p.anchor.value else Paid(s)
            case _ => Paid(t) == Paid(s)
  {
    match m
    case Pass(d) => Linear(s.p.speed, s.now - s.since, d);
    case _ => OthersPay(s, m);
  }

  lemma OthersPay(s: State, m: Move)
    requires s.p.speed > 0.0 && !m.Pass?
    ensures var t := Step(s, m);
            Paid(t) ==
              if m.Frame? && s.feeder.Ready? && !s.paused && s.p.base.None? then
                if s.p.anchor.Some? then s.p.anchor.value else m.ts
              else if m.Resume? && s.paused && s.frames == 0 && s.p.anchor.Some? then s.p.anchor.value
              else Paid(s)
  {
    hide Data;
    Nothing(s.p.speed);
    Nothing(Step(s, m).p.speed);
  }

  lemma Linear(speed: real, a: real, b: real) ensures speed * (a + b) == speed * a + speed * b {}
}
