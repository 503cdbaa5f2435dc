/** A replay as it runs: core-driver/cam_driver/sources/replay.py, _new_stamp, _deliverable, _on_eos, _restart. */
module Replay {
  import opened Common
  import opened ReplayTimeline

  /** The reader: which row the next frame is given, on which cycle. */
  datatype Reader = Reader(session: nat, idx: nat, cycle: nat, offset: int, skipped: int, finished: bool, failed: bool)

  /** A frame handed on: where it came from, the stamp it was given, the position noted for it. */
  datatype Note = Note(cycle: nat, session: nat, row: nat, stamp: Stamp, position: int)

  datatype Event = Buffer | Eos(loop: bool) | Restart

  function Start(p: Plan): Reader
    requires Valid(p)
  {
    Reader(Begin(p), 0, 0, p.retime, 0, false, false)
  }

  function Position(p: Plan, r: Reader, stamp: Stamp): int
    requires Valid(p)
  {
    var at := stamp.ts - (Zero(p) + r.offset + r.skipped);
    if at < 0 then 0 else at
  }

  /** What a frame off the reader leaves behind; it is handed on if it is inside the window. */
  function Handed(p: Plan, r: Reader): Option<Note>
    requires Valid(p) && r.session < |p.sessions|
  {
    var rows := p.sessions[r.session];
    if r.idx >= |rows| || r.failed then None
    else
      var st := Shift(rows[r.idx], r.offset);
      var raw := st.ts - r.offset;
      if BeforeWindow(p, raw) || PastWindow(p, raw) then None
      else Some(Note(r.cycle, r.session, r.idx, st, Position(p, r, st)))
  }

  function AfterBuffer(p: Plan, r: Reader): Reader
    requires Valid(p) && r.session < |p.sessions|
  {
    var rows := p.sessions[r.session];
    if r.idx >= |rows| then r.(idx := r.idx + 1, failed := true, finished := true)
    else r.(idx := r.idx + 1, finished := r.finished || (!BeforeWindow(p, rows[r.idx].ts) && PastWindow(p, rows[r.idx].ts)))
  }

  function Again(p: Plan, r: Reader): Reader
    requires Valid(p)
  {
    Reader(Begin(p), 0, r.cycle + 1, p.retime + (r.cycle + 1) * Span(p), 0, false, false)
  }

  function AfterEos(p: Plan, r: Reader, loop: bool): Reader
    requires Valid(p) && r.session < |p.sessions|
  {
    if r.finished then r
    else if r.idx != |p.sessions[r.session]| then r.(failed := true, finished := true)
    else if r.session + 1 < |p.sessions| && !PastWindow(p, p.sessions[r.session + 1][0].ts)
    then r.(session := r.session + 1, idx := 0, skipped := r.skipped + Excess(p, r.session))
    else if loop then Again(p, r)
    else r.(finished := true)
  }

  function Step(p: Plan, r: Reader, e: Event): Reader
    requires Valid(p) && r.session < |p.sessions|
  {
    match e
    case Buffer => AfterBuffer(p, r)
    case Eos(loop) => AfterEos(p, r, loop)
    case Restart => Again(p, r)
  }

  class ReplaySource {
    const plan: Plan
    var session: nat
    var idx: nat
    var cycle: nat
    var offset: int
    var skipped: int
    var finished: bool
    var failed: bool

    constructor (p: Plan)
      requires Valid(p)
      ensures plan == p && View() == Start(p)
    {
      plan := p;
      session, idx, cycle, offset, skipped, finished, failed := Begin(p), 0, 0, p.retime, 0, false, false;
    }

    function View(): Reader
      reads this
    {
      Reader(session, idx, cycle, offset, skipped, finished, failed)
    }

    /** A frame comes off the reader and is given the next row. */
    method OnBuffer() returns (handed: Option<Note>)
      requires Valid(plan) && session < |plan.sessions|
      modifies this`idx, this`failed, this`finished
      ensures View() == AfterBuffer(plan, old(View()))
      ensures handed == Handed(plan, old(View()))
    {
      var i := idx;
      idx := idx + 1;
      if i >= |plan.sessions[session]| {
        failed := true;
        finished := true;
        return None;
      }
      var st := Shift(plan.sessions[session][i], offset);
      var raw := st.ts - offset;
      if BeforeWindow(plan, raw) {
        return None;
      }
      if PastWindow(plan, raw) {
        finished := true;
        return None;
      }
      if failed {
        return None;
      }
      return Some(Note(cycle, session, i, st, Position(plan, View(), st)));
    }

    method OnEos(loop: bool)
      requires Valid(plan) && session < |plan.sessions|
      modifies this
      ensures View() == AfterEos(plan, old(View()), loop)
    {
      if finished {
        return;
      }
      if idx != |plan.sessions[session]| {
        failed := true;
        finished := true;
        return;
      }
      var next := session + 1;
      if next < |plan.sessions| && !PastWindow(plan, plan.sessions[next][0].ts) {
        var gap := plan.sessions[next][0].ts - LastOf(plan.sessions[session]);
        if 0 < Cap(plan) < gap {
          skipped := skipped + (gap - Cap(plan));
        }
        session := next;
        idx := 0;
        return;
      }
      if !loop {
        finished := true;
        return;
      }
      StartOver();
    }

    /** A loop wrap, or an operator's restart: from any state, `finished` included. */
    method StartOver()
      requires Valid(plan)
      modifies this
      ensures View() == Again(plan, old(View()))
    {
      cycle := cycle + 1;
      offset := plan.retime + cycle * Span(plan);
      skipped := 0;
      finished := false;
      failed := false;
      session := Begin(plan);
      idx := 0;
    }
  }

  // ---- whole runs ----------------------------------------------------------------------

  /** What is known of a reader whatever has happened to it. */
  predicate OnTimeline(p: Plan, r: Reader)
    requires Valid(p)
  {
    && Begin(p) <= r.session <= Final(p)
    && r.offset == p.retime + r.cycle * Span(p)
    && r.skipped == Skipped(p, Begin(p), r.session)
  }

  /** What is known of a frame handed on: which row it got, and effective time, not before zero. */
  predicate Placed(p: Plan, n: Note)
    requires Valid(p)
  {
    && InWindow(p, n.session, n.row)
    && n.stamp == Shift(p.sessions[n.session][n.row], p.retime + n.cycle * Span(p))
    && n.position == (if EffectiveAt(p, n.session, n.row) < 0 then 0 else EffectiveAt(p, n.session, n.row))
  }

  lemma {:induction false} FinalStep(p: Plan, k: nat, from: nat)
    requires Valid(p) && from <= k && k + 1 < |p.sessions| && k <= LastSession(p, from)
    requires !PastWindow(p, p.sessions[k + 1][0].ts)
    ensures k + 1 <= LastSession(p, from)
    decreases k - from
  {
    if from < k { FinalStep(p, k, from + 1); }
  }

  lemma StepOnTimeline(p: Plan, r: Reader, e: Event)
    requires Valid(p) && OnTimeline(p, r)
    ensures OnTimeline(p, Step(p, r, e))
  {
    var k := r.session;
    if e.Eos? && k + 1 < |p.sessions| && !PastWindow(p, p.sessions[k + 1][0].ts) {
      FinalStep(p, k, Begin(p));
    }
  }

  lemma ShiftTs(s: Stamp, d: int) ensures Shift(s, d).ts == s.ts + d {}

  lemma HandedPlaced(p: Plan, r: Reader)
    requires Valid(p) && OnTimeline(p, r) && Handed(p, r).Some?
    ensures Placed(p, Handed(p, r).value)
  {
    hide Shift;
    var row := p.sessions[r.session][r.idx];
    ShiftTs(row, r.offset);
    EffectiveIsSkipped(p, r.session);
  }

  /** Everything handed on over a run, in order. */
  function Notes(p: Plan, r: Reader, es: seq<Event>): seq<Note>
    requires Valid(p) && OnTimeline(p, r)
    decreases |es|
  {
    if es == [] then []
    else
      StepOnTimeline(p, r, es[0]);
      var h := if es[0].Buffer? then Handed(p, r) else None;
      (if h.Some? then [h.value] else []) + Notes(p, Step(p, r, es[0]), es[1..])
  }

  /**
   * On every run, whatever the reader delivers and whoever restarts it: each frame handed on is one
   * row of a session the window reaches, shifted to its cycle, at the effective time of that row.
   */
  lemma {:induction false} EveryNotePlaced(p: Plan, r: Reader, es: seq<Event>)
    requires Valid(p) && OnTimeline(p, r)
    ensures forall i :: 0 <= i < |Notes(p, r, es)| ==> Placed(p, Notes(p, r, es)[i]) && Notes(p, r, es)[i].cycle >= r.cycle
    decreases |es|
  {
    hide Placed, Handed, AfterBuffer, AfterEos, Again;
    if es != [] {
      StepOnTimeline(p, r, es[0]);
      EveryNotePlaced(p, Step(p, r, es[0]), es[1..]);
      CycleGrows(p, r, es[0]);
      if es[0].Buffer? && Handed(p, r).Some? {
        HandedPlaced(p, r);
      }
    }
  }

  lemma CycleGrows(p: Plan, r: Reader, e: Event)
    requires Valid(p) && OnTimeline(p, r)
    ensures Step(p, r, e).cycle >= r.cycle
    ensures Handed(p, r).Some? ==> Handed(p, r).value.cycle == r.cycle
  {
  }

  /** The notes of an earlier cycle come before those of a later one. */
  lemma {:induction false} CyclesAscend(p: Plan, r: Reader, es: seq<Event>, i: nat, j: nat)
    requires Valid(p) && OnTimeline(p, r) && i < j < |Notes(p, r, es)|
    ensures Notes(p, r, es)[i].cycle <= Notes(p, r, es)[j].cycle
    decreases |es|
  {
    hide Placed, Handed, AfterBuffer, AfterEos, Again;
    StepOnTimeline(p, r, es[0]);
    CycleGrows(p, r, es[0]);
    var next := Step(p, r, es[0]);
    EveryNotePlaced(p, next, es[1..]);
    if es[0].Buffer? && Handed(p, r).Some? {
      if i > 0 { CyclesAscend(p, next, es[1..], i - 1, j - 1); }
    } else {
      CyclesAscend(p, next, es[1..], i, j);
    }
  }

  /** A frame of a later cycle is stamped after every frame of an earlier one. */
  lemma LaterCycleLater(p: Plan, a: Note, b: Note)
    requires Valid(p) && Ordered(p) && Placed(p, a) && Placed(p, b) && a.cycle < b.cycle
    ensures a.stamp.ts < b.stamp.ts
  {
    hide Shift;
    WithinRun(p, a.session, a.row);
    WithinRun(p, b.session, b.row);
    ShiftTs(p.sessions[a.session][a.row], p.retime + a.cycle * Span(p));
    ShiftTs(p.sessions[b.session][b.row], p.retime + b.cycle * Span(p));
    WithinRun(p, 0, 0);
    CyclesApart(a.cycle, b.cycle, Span(p));
  }

  /**
   * Looping and restarting never run time backwards: over any run, if the recorded rows are in order,
   * no frame of a later cycle carries a stamp that an earlier cycle has reached.
   */
  lemma {:induction false} RestartsMoveForward(p: Plan, es: seq<Event>, i: nat, j: nat)
    requires Valid(p) && Ordered(p) && i < j < |Notes(p, Start(p), es)|
    ensures var ns := Notes(p, Start(p), es);
            ns[i].cycle <= ns[j].cycle && (ns[i].cycle < ns[j].cycle ==> ns[i].stamp.ts < ns[j].stamp.ts)
  {
    hide Placed, Ordered;
    var ns := Notes(p, Start(p), es);
    CyclesAscend(p, Start(p), es, i, j);
    EveryNotePlaced(p, Start(p), es);
    if ns[i].cycle < ns[j].cycle { LaterCycleLater(p, ns[i], ns[j]); }
  }

  /** Two frames of one cycle are as far apart in every time field as their rows. */
  lemma ShiftKeepsDifferences(p: Plan, a: Note, b: Note)
    requires Valid(p) && Placed(p, a) && Placed(p, b) && a.cycle == b.cycle
    ensures var x, y := p.sessions[a.session][a.row], p.sessions[b.session][b.row];
            && b.stamp.ts - a.stamp.ts == y.ts - x.ts
            && b.stamp.system - a.stamp.system == y.system - x.system
            && b.stamp.camera - a.stamp.camera == y.camera - x.camera
            && a.stamp.camera - a.stamp.ts == x.camera - x.ts
            && (a.stamp.chunk.Some? <==> x.chunk.Some?)
            && (x.chunk.Some? ==> a.stamp.chunk.value - a.stamp.ts == x.chunk.value - x.ts)
            && a.stamp.id == x.id
  {
  }

  // ---- a reader that delivers every recorded frame -------------------------------------------

  /** The events of one session whose recording holds `frames` frames. */
  function SessionEvents(frames: nat, loop: bool): seq<Event> {
    if frames == 0 then [Eos(loop)] else [Buffer] + SessionEvents(frames - 1, loop)
  }

  predicate AllInside(p: Plan, rows: seq<Stamp>)
    requires Valid(p)
  {
    forall i :: 0 <= i < |rows| ==> !PastWindow(p, rows[i].ts)
  }

  /**
   * A session ends unfailed and unfinished, moving on to the next session or cycle, exactly if the
   * reader delivered as many frames as the session has rows.
   */
  lemma {:induction false} SessionCounts(p: Plan, r: Reader, frames: nat)
    requires Valid(p) && OnTimeline(p, r) && !r.finished && !r.failed
    requires r.idx <= |p.sessions[r.session]| && AllInside(p, p.sessions[r.session])
    ensures var t := RunAll(p, r, SessionEvents(frames, true)); t.failed <==> r.idx + frames != |p.sessions[r.session]|
    decreases frames
  {
    hide Excess;
    if frames == 0 {
      assert SessionEvents(0, true) == [Eos(true)] && [Eos(true)][1..] == [];
      StepOnTimeline(p, r, Eos(true));
      assert RunAll(p, r, SessionEvents(0, true)) == Step(p, r, Eos(true));
    } else {
      assert SessionEvents(frames, true)[1..] == SessionEvents(frames - 1, true);
      StepOnTimeline(p, r, Buffer);
      if r.idx < |p.sessions[r.session]| {
        SessionCounts(p, Step(p, r, Buffer), frames - 1);
      } else {
        FailedStays(p, Step(p, r, Buffer), frames - 1);
      }
    }
  }

  function RunAll(p: Plan, r: Reader, es: seq<Event>): Reader
    requires Valid(p) && OnTimeline(p, r)
    decreases |es|
  {
    if es == [] then r
    else
      StepOnTimeline(p, r, es[0]);
      RunAll(p, Step(p, r, es[0]), es[1..])
  }

  lemma {:induction false} FailedStays(p: Plan, r: Reader, frames: nat)
    requires Valid(p) && OnTimeline(p, r) && r.failed && r.finished
    ensures RunAll(p, r, SessionEvents(frames, true)).failed
    decreases frames
  {
    StepOnTimeline(p, r, Buffer);
    StepOnTimeline(p, r, Eos(true));
    if frames == 0 {
      assert SessionEvents(0, true)[1..] == [];
    } else {
      assert SessionEvents(frames, true)[1..] == SessionEvents(frames - 1, true);
      FailedStays(p, Step(p, r, Buffer), frames - 1);
    }
  }

  function Buffers(n: nat): seq<Event> { if n == 0 then [] else [Buffer] + Buffers(n - 1) }

  /** Frame i of a session is given row i of it, in every cycle. */
  lemma {:induction false} NthFrame(p: Plan, r: Reader, i: nat)
    requires Valid(p) && OnTimeline(p, r) && !r.failed && r.idx + i <= |p.sessions[r.session]|
    ensures var t := RunAll(p, r, Buffers(i));
            t.idx == r.idx + i && t.session == r.session && t.offset == r.offset && t.cycle == r.cycle && !t.failed
    decreases i
  {
    if i > 0 {
      assert Buffers(i)[1..] == Buffers(i - 1);
      StepOnTimeline(p, r, Buffer);
      NthFrame(p, Step(p, r, Buffer), i - 1);
    }
  }

  /**
   * A restart sets the row counter back before the reader is flushed, so frames of the old cycle still
   * on their way take rows of the new one: with any such frame, frame i is given a later row than its
   * own, and the session fails at its end -- exactly then.
   */
  lemma {:induction false} LateFramesAreDetected(p: Plan, r: Reader, late: nat, i: nat)
    requires Valid(p) && OnTimeline(p, r) && !r.failed && !r.finished && r.idx == 0
    requires AllInside(p, p.sessions[r.session]) && late + i <= |p.sessions[r.session]|
    ensures RunAll(p, r, Buffers(late + i)).idx == late + i
    ensures RunAll(p, r, SessionEvents(late + |p.sessions[r.session]|, true)).failed <==> late > 0
  {
    hide Buffers, SessionEvents;
    NthFrame(p, r, late + i);
    SessionCounts(p, r, late + |p.sessions[r.session]|);
  }

  /** One cycle from row i of session k on: every frame of every session the window reaches, then its EOS. */
  function CycleEvents(p: Plan, k: nat, i: nat): seq<Event>
    requires Valid(p) && k < |p.sessions|
    decreases |p.sessions| - k, if i < |p.sessions[k]| then |p.sessions[k]| - i else 0
  {
    if i < |p.sessions[k]| then [Buffer] + CycleEvents(p, k, i + 1)
    else if k < Final(p) then [Eos(false)] + CycleEvents(p, k + 1, 0)
    else []
  }

  /** The note that row i of session k should leave. */
  function NoteOf(p: Plan, cycle: nat, k: nat, i: nat): Note
    requires Valid(p) && Begin(p) <= k < |p.sessions| && i < |p.sessions[k]|
  {
    Note(cycle, k, i, Shift(p.sessions[k][i], p.retime + cycle * Span(p)),
         if EffectiveAt(p, k, i) < 0 then 0 else EffectiveAt(p, k, i))
  }

  /** The rows inside the window, from row i of session k on, each once and in order. */
  function WindowNotes(p: Plan, cycle: nat, k: nat, i: nat): seq<Note>
    requires Valid(p) && Begin(p) <= k < |p.sessions|
    decreases |p.sessions| - k, if i < |p.sessions[k]| then |p.sessions[k]| - i else 0
  {
    if i < |p.sessions[k]| then
      (if InWindow(p, k, i) then [NoteOf(p, cycle, k, i)] else []) + WindowNotes(p, cycle, k, i + 1)
    else if k < Final(p) then WindowNotes(p, cycle, k + 1, 0)
    else []
  }

  lemma HandedIsNote(p: Plan, r: Reader)
    requires Valid(p) && OnTimeline(p, r) && !r.failed && r.idx < |p.sessions[r.session]|
    ensures Handed(p, r) == if InWindow(p, r.session, r.idx) then Some(NoteOf(p, r.cycle, r.session, r.idx)) else None
  {
    hide Shift;
    ShiftTs(p.sessions[r.session][r.idx], r.offset);
    EffectiveIsSkipped(p, r.session);
  }

  lemma {:induction false} BeforeFinalInside(p: Plan, k: nat, i: nat)
    requires Valid(p) && Ordered(p) && Begin(p) <= k < Final(p) && i < |p.sessions[k]|
    ensures !PastWindow(p, p.sessions[k][i].ts) && !PastWindow(p, p.sessions[k + 1][0].ts)
  {
    LastSessionInWindow(p, Begin(p));
    SessionsAscend(p, k, k + 1);
    RowsAscend(p, k, i, |p.sessions[k]| - 1);
    SessionsAscend(p, k + 1, Final(p));
  }

  lemma {:induction false} NotesCons(p: Plan, r: Reader, e: Event, es: seq<Event>)
    requires Valid(p) && OnTimeline(p, r)
    ensures OnTimeline(p, Step(p, r, e))
    ensures Notes(p, r, [e] + es)
         == (if e.Buffer? && Handed(p, r).Some? then [Handed(p, r).value] else []) + Notes(p, Step(p, r, e), es)
  {
    hide Handed, AfterBuffer, AfterEos, Again;
    StepOnTimeline(p, r, e);
    assert ([e] + es)[1..] == es;
  }

  /**
   * A reader that delivers every recorded frame plays exactly the window: each row inside it once, in
   * order, shifted to the cycle and placed at its effective time, and no other.
   */
  lemma {:induction false} CyclePlaysWindow(p: Plan, r: Reader)
    requires Valid(p) && Ordered(p) && OnTimeline(p, r) && !r.failed
    requires r.idx <= |p.sessions[r.session]| && (r.session < Final(p) ==> !r.finished)
    ensures Notes(p, r, CycleEvents(p, r.session, r.idx)) == WindowNotes(p, r.cycle, r.session, r.idx)
    decreases |p.sessions| - r.session, |p.sessions[r.session]| - r.idx
  {
    hide Handed, Notes, InWindow, NoteOf, Ordered, PastWindow, BeforeWindow;
    var k, i := r.session, r.idx;
    if i < |p.sessions[k]| {
      HandedIsNote(p, r);
      NotesCons(p, r, Buffer, CycleEvents(p, k, i + 1));
      if k < Final(p) { BeforeFinalInside(p, k, i); }
      CyclePlaysWindow(p, Step(p, r, Buffer));
    } else if k < Final(p) {
      BeforeFinalInside(p, k, 0);
      NotesCons(p, r, Eos(false), CycleEvents(p, k + 1, 0));
      CyclePlaysWindow(p, Step(p, r, Eos(false)));
    } else {
      NotesNothing(p, r);
    }
  }

  lemma {:induction false} NotesNothing(p: Plan, r: Reader)
    requires Valid(p) && OnTimeline(p, r)
    ensures Notes(p, r, []) == []
  {
  }

  // ---- the duration against the notes ----------------------------------------------------------

  /** A position is what was asked of it: nothing of the window lies before zero. */
  predicate FromZero(p: Plan) { p.epoch.Some? && p.from.Some? ==> p.from.value >= 0 }

  /** A note of the window: the row it stands for, and its effective time. */
  predicate NoteInWindow(p: Plan, n: Note)
    requires Valid(p)
  {
    InWindow(p, n.session, n.row) && n.position == EffectiveAt(p, n.session, n.row)
  }

  /** Rows of the window from row i of session k on, down to the last row of the window. */
  ghost predicate EndsLast(p: Plan, ns: seq<Note>, k: nat, i: nat)
    requires Valid(p)
  {
    && (forall n :: n in ns ==> NoteInWindow(p, n))
    && (k < Final(p) ==> ns != [])
    && (ns != [] ==> ns[|ns| - 1].session == Final(p) && LastRow(p, ns[|ns| - 1].row))
    && (ns == [] && k < |p.sessions| ==> forall j :: i <= j < |p.sessions[k]| ==> !InWindow(p, k, j))
  }

  lemma SkippedRow(p: Plan, ns: seq<Note>, k: nat, i: nat)
    requires Valid(p) && k <= Final(p) && i < |p.sessions[k]| && EndsLast(p, ns, k, i + 1) && !InWindow(p, k, i)
    ensures EndsLast(p, ns, k, i)
  {
    hide InWindow, LastRow, NoteInWindow, Final;
  }

  lemma AddedRow(p: Plan, ns: seq<Note>, n: Note, k: nat, i: nat)
    requires Valid(p) && Ordered(p) && k <= Final(p) && k < |p.sessions| && i < |p.sessions[k]| && EndsLast(p, ns, k, i + 1)
    requires InWindow(p, k, i) && NoteInWindow(p, n) && n.session == k && n.row == i
    ensures EndsLast(p, [n] + ns, k, i)
  {
    hide InWindow, NoteInWindow, Final, Ordered, PastWindow;
    var all := [n] + ns;
    if ns == [] {
      if i + 1 < |p.sessions[k]| { NextIsPast(p, k, i); }
    } else {
      assert all[|all| - 1] == ns[|ns| - 1];
    }
  }

  /** The window notes from here on are rows of the window, and the last of them is its last row. */
  lemma {:induction false} NotesEndLast(p: Plan, cycle: nat, k: nat, i: nat)
    requires Valid(p) && Ordered(p) && FromZero(p) && Begin(p) <= k <= Final(p) && i <= |p.sessions[k]|
    ensures EndsLast(p, WindowNotes(p, cycle, k, i), k, i)
    decreases |p.sessions| - k, |p.sessions[k]| - i
  {
    hide NoteOf, EffectiveAt, InWindow, Ordered;
    if i < |p.sessions[k]| {
      NotesEndLast(p, cycle, k, i + 1);
      var ns := WindowNotes(p, cycle, k, i + 1);
      if InWindow(p, k, i) {
        NoteIsInWindow(p, cycle, k, i);
        AddedRow(p, ns, NoteOf(p, cycle, k, i), k, i);
      } else {
        SkippedRow(p, ns, k, i);
        assert [] + ns == ns;
      }
    } else if k < Final(p) {
      NotesEndLast(p, cycle, k + 1, 0);
      if k + 1 == Final(p) { FinalHasRow(p); }
    }
  }

  lemma NoteIsInWindow(p: Plan, cycle: nat, k: nat, i: nat)
    requires Valid(p) && Ordered(p) && FromZero(p) && InWindow(p, k, i)
    ensures var n := NoteOf(p, cycle, k, i); NoteInWindow(p, n) && n.session == k && n.row == i
  {
    NotBeforeZero(p, k, i);
  }

  lemma NextIsPast(p: Plan, k: nat, i: nat)
    requires Valid(p) && Ordered(p) && InWindow(p, k, i) && i + 1 < |p.sessions[k]| && !InWindow(p, k, i + 1)
    ensures PastWindow(p, p.sessions[k][i + 1].ts)
  {
    RowsAscend(p, k, i, i + 1);
  }

  /** A last session that is not the first has a row inside the window: its first. */
  lemma FinalHasRow(p: Plan)
    requires Valid(p) && Ordered(p) && Begin(p) < Final(p)
    ensures InWindow(p, Final(p), 0)
  {
    LastSessionInWindow(p, Begin(p));
    SessionsAscend(p, Begin(p), Final(p));
  }

  /**
   * The advertised duration against the frames of a cycle, for every window: it is the position noted
   * for the last of them, plus the silence from there to the end of the window, less the capped silence
   * outside it. Every frame is noted before the duration exactly if the former exceeds the latter.
   */
  lemma {:induction false} DurationAgainstNotes(p: Plan, cycle: nat)
    requires Valid(p) && Ordered(p) && FromZero(p) && WindowNotes(p, cycle, Begin(p), 0) != []
    ensures var ns := WindowNotes(p, cycle, Begin(p), 0);
            var last := ns[|ns| - 1];
            && last.session == Final(p) && LastRow(p, last.row)
            && Advertised(p) == last.position + Silence(p, last.row) - Outside(p)
            && ((forall n :: n in ns ==> n.position < Advertised(p)) <==> Outside(p) < Silence(p, last.row))
            && (last.position < Advertised(p) <= last.position + p.median
                <==> Outside(p) < Silence(p, last.row) <= Outside(p) + p.median)
  {
    hide EffectiveAt, Silence, Outside, Advertised, LastRow, InWindow, WindowNotes, Ordered, Begin, Final;
    FinalAtLeast(p);
    NotesEndLast(p, cycle, Begin(p), 0);
    var ns := WindowNotes(p, cycle, Begin(p), 0);
    var last := ns[|ns| - 1];
    assert last in ns;
    DurationExactly(p, last.row);
  }

  lemma FinalAtLeast(p: Plan) requires Valid(p) ensures Begin(p) <= Final(p) < |p.sessions| {}
}
