/** The recording session object, and what its keyframe gate does and does not promise. */
module Session {
  import opened Common
  import opened SessionProtocol

  /** Run the push in progress until it has given the lock back or is blocked. */
  function Complete(c: Setup, s: State, ch: Choice): State
    decreases FeederRank(s.feeder)
  {
    if !InPush(s.feeder) || FeederBlocked(c, s) then s
    else
      RankDrops(c, s, ch);
      Complete(c, FeederStep(c, s, ch), ch)
  }

  /** A push that has just taken the lock. */
  function Opened(s: State, img: Image): State { s.(lock := FeederThread, feeder := Entered, img := img) }

  /** A whole push, nobody else running: the steps one after the other, up to the first refusal. */
  function Pushed(c: Setup, s: State, ch: Choice): State {
    var s1 := CheckClosing(s);
    if s1.feeder.Leaving? then GiveLock(s1)
    else
      var s2 := CheckGate(s1);
      if s2.feeder.Leaving? then GiveLock(s2) else Enqueued(c, s2, ch)
  }

  /** From the queue bound on. */
  function Enqueued(c: Setup, s: State, ch: Choice): State {
    var s3 := CheckBound(c, s);
    if s3.feeder.Leaving? then GiveLock(s3)
    else
      var s4 := WriteHeader(s3, ch);
      if s4.feeder.Leaving? then GiveLock(s4)
      else
        var s5 := EmitBuffer(c, s4, ch);
        if s5.feeder.Leaving? then GiveLock(s5) else GiveLock(AddRow(CountFrame(s5)))
  }

  /** The answer to a frame, from the state its push finds: the checks of push(), in their order. */
  function Verdict(c: Setup, s: State, img: Image, ch: Choice): PushResult {
    if s.closing || s.closed || s.failed then SKIPPED
    else if s.awaitKey && !img.sync then SKIPPED
    else if Full(c, s.level, img) then DROPPED
    else if !s.headed && ch.headerFails then DROPPED
    else if s.eos > 0 then DROPPED
    else if ch.flushing then DROPPED
    else OK
  }

  predicate Full(c: Setup, level: nat, img: Image) { !c.block && 0 < c.maxBytes < level + img.bytes }

  /** Whether a push gets past the closing check, and past the keyframe gate. */
  predicate Listens(s: State) { !s.closing && !s.closed && !s.failed }
  predicate Passes(s: State, img: Image) { Listens(s) && (s.awaitKey ==> img.sync) }

  /** How a whole push changes the books: one frame everywhere, or nowhere. */
  predicate Books(s: State, img: Image, v: PushResult, t: State) {
    && t.accepted == s.accepted + (if v == OK then [img] else [])
    && t.rows == s.rows + (if v == OK then [img] else [])
    && t.frames == s.frames + (if v == OK then 1 else 0)
    && t.level == s.level + (if v == OK then img.bytes else 0)
    && t.eos == s.eos
  }

  /** How a whole push changes the flags. */
  predicate Flags(c: Setup, s: State, img: Image, ch: Choice, t: State) {
    var reached := Passes(s, img) && !Full(c, s.level, img);
    && t.closing == s.closing && t.closed == s.closed
    && t.failed == (s.failed || (reached && !s.headed && ch.headerFails))
    && t.headed == (s.headed || reached)
    && t.awaitKey == (s.awaitKey && !Passes(s, img))
    && t.skippedAwaitingKey == s.skippedAwaitingKey + (if Listens(s) && !Passes(s, img) then 1 else 0)
  }

  lemma EnqueuedBooks(c: Setup, s: State, img: Image, ch: Choice, t: State)
    requires s.feeder.AtBound? && Listens(s) && !s.awaitKey && s.img == img && (s.eos > 0 || !QueueBlocks(c, s))
    requires t == Enqueued(c, s, ch)
    ensures Books(s, img, Verdict(c, s, img, ch), t) && t.result == Verdict(c, s, img, ch)
  {
  }

  lemma EnqueuedFlags(c: Setup, s: State, img: Image, ch: Choice, t: State)
    requires s.feeder.AtBound? && Listens(s) && !s.awaitKey && s.img == img
    requires t == Enqueued(c, s, ch)
    ensures Flags(c, s, img, ch, t)
  {
  }

  lemma {:induction false} OneMore(c: Setup, s: State, ch: Choice, t: State)
    requires InPush(s.feeder) && !FeederBlocked(c, s) && t == FeederStep(c, s, ch)
    ensures Complete(c, s, ch) == Complete(c, t, ch)
  {
    hide FeederStep;
  }

  lemma {:induction false} LastStep(c: Setup, s: State, ch: Choice)
    requires s.feeder.Leaving?
    ensures Complete(c, s, ch) == GiveLock(s)
  {
    hide CheckClosing, CheckGate, CheckBound, WriteHeader, EmitBuffer, CountFrame, AddRow;
    OneMore(c, s, ch, GiveLock(s));
  }

  lemma {:induction false} AfterEmit(c: Setup, s: State, ch: Choice)
    requires s.feeder.Leaving? || s.feeder.Counting?
    ensures Complete(c, s, ch) == if s.feeder.Leaving? then GiveLock(s) else GiveLock(AddRow(CountFrame(s)))
  {
    hide Complete, CheckClosing, CheckGate, CheckBound, WriteHeader, EmitBuffer, CountFrame, AddRow, GiveLock;
    if s.feeder.Leaving? {
      LastStep(c, s, ch);
    } else {
      OneMore(c, s, ch, CountFrame(s));
      OneMore(c, CountFrame(s), ch, AddRow(CountFrame(s)));
      LastStep(c, AddRow(CountFrame(s)), ch);
    }
  }

  /** The sequential reading of push() is the run of its atomic steps, unless the appsrc makes it wait. */
  lemma {:induction false} PushedIsComplete(c: Setup, s: State, ch: Choice)
    requires s.feeder.Entered?
    requires var s4 := WriteHeader(CheckBound(c, CheckGate(CheckClosing(s))), ch); s4.feeder.Pushing? ==> !FeederBlocked(c, s4)
    ensures Complete(c, s, ch) == Pushed(c, s, ch)
  {
    hide Complete, CheckClosing, CheckGate, CheckBound, WriteHeader, EmitBuffer, CountFrame, AddRow, GiveLock;
    var s1 := CheckClosing(s);
    OneMore(c, s, ch, s1);
    if s1.feeder.Leaving? {
      LastStep(c, s1, ch);
      return;
    }
    var s2 := CheckGate(s1);
    OneMore(c, s1, ch, s2);
    if s2.feeder.Leaving? {
      LastStep(c, s2, ch);
      return;
    }
    var s3 := CheckBound(c, s2);
    OneMore(c, s2, ch, s3);
    if s3.feeder.Leaving? {
      LastStep(c, s3, ch);
      return;
    }
    var s4 := WriteHeader(s3, ch);
    OneMore(c, s3, ch, s4);
    if s4.feeder.Leaving? {
      LastStep(c, s4, ch);
      return;
    }
    OneMore(c, s4, ch, EmitBuffer(c, s4, ch));
    AfterEmit(c, EmitBuffer(c, s4, ch), ch);
  }

  lemma PushedMeetsVerdict(c: Setup, s: State, ch: Choice)
    requires s.feeder.Entered? && (s.eos > 0 || !QueueBlocks(c, s))
    ensures Pushed(c, s, ch).result == Verdict(c, s, s.img, ch)
    ensures Books(s, s.img, Verdict(c, s, s.img, ch), Pushed(c, s, ch))
    ensures Flags(c, s, s.img, ch, Pushed(c, s, ch))
  {
    hide Enqueued, CheckBound, WriteHeader, EmitBuffer, CountFrame, AddRow;
    var s1 := CheckClosing(s);
    var s2 := CheckGate(s1);
    if s1.feeder.AtGate? && s2.feeder.AtBound? {
      EnqueuedBooks(c, s2, s.img, ch, Enqueued(c, s2, ch));
      EnqueuedFlags(c, s2, s.img, ch, Enqueued(c, s2, ch));
    }
  }

  /**
   * What one call of push() does, read off the run of its atomic steps: the answer, one frame in
   * every book or in none, and the flags.
   */
  lemma {:induction false} PushRun(c: Setup, s: State, ch: Choice)
    requires s.feeder.Entered? && (s.eos > 0 || !QueueBlocks(c, s))
    ensures var t := Complete(c, s, ch);
            && t.result == Verdict(c, s, s.img, ch)
            && Books(s, s.img, t.result, t)
            && Flags(c, s, s.img, ch, t)
  {
    hide Complete, Pushed, Verdict, Books, Flags;
    PushedMeetsVerdict(c, s, ch);
    assert Complete(c, s, ch) == Pushed(c, s, ch) by { NotBlocked(c, s, ch); PushedIsComplete(c, s, ch); }
  }

  lemma NotBlocked(c: Setup, s: State, ch: Choice)
    requires s.feeder.Entered? && (s.eos > 0 || !QueueBlocks(c, s))
    ensures !FeederBlocked(c, WriteHeader(CheckBound(c, CheckGate(CheckClosing(s))), ch))
         || !WriteHeader(CheckBound(c, CheckGate(CheckClosing(s))), ch).feeder.Pushing?
  {
  }

  /**
   * A frame past the gate is refused for want of room exactly if it would not fit: with nothing else in
   * its way, a live session takes one that fits to the byte and drops one a byte longer, and neither an
   * unbounded nor a waiting queue refuses any. A dropped one changes no book.
   */
  lemma {:induction false} RefusedForRoomExactly(c: Setup, s: State, ch: Choice)
    requires s.feeder.Entered? && !s.closing && !s.closed && !s.failed && (s.awaitKey ==> s.img.sync)
    requires s.eos == 0 && !ch.flushing && (s.headed || !ch.headerFails)
    requires c.block && c.maxBytes > 0 ==> s.level < c.maxBytes
    ensures var t := Complete(c, s, ch);
            if c.block || c.maxBytes == 0 || s.level + s.img.bytes <= c.maxBytes then
              t.result == OK && t.accepted == s.accepted + [s.img] && t.rows == s.rows + [s.img]
              && t.frames == s.frames + 1 && t.level == s.level + s.img.bytes
            else
              t.result == DROPPED && t.accepted == s.accepted && t.rows == s.rows
              && t.frames == s.frames && t.level == s.level
  {
    hide Complete;
    PushRun(c, s, ch);
  }

  class RecordingSession {
    const setup: Setup

    var closing: bool
    var closed: bool
    var failed: bool
    var awaitKey: bool
    var headed: bool
    var frames: nat
    var skippedAwaitingKey: nat
    // the appsrc and the sidecar
    var eos: nat
    var accepted: seq<Image>
    var level: nat
    var rows: seq<Image>

    constructor (c: Setup)
      ensures setup == c && View() == Start(c)
    {
      setup := c;
      closing, closed, failed, awaitKey, headed := false, false, false, c.encoded, false;
      frames, skippedAwaitingKey, eos, accepted, level, rows := 0, 0, 0, [], 0, [];
    }

    /** The protocol state with no push and no close in progress. */
    function View(): State
      reads this
    {
      State(Nobody, Idle, Outside, Image(0, 0, false), SKIPPED, false, closing, closed, failed, awaitKey, headed,
            frames, skippedAwaitingKey, eos, accepted, level, rows)
    }

    method Push(img: Image, ch: Choice) returns (r: PushResult)
      requires !(eos == 0 && setup.block && 0 < setup.maxBytes <= level)   // else it waits for the environment
      modifies this
      ensures r == Verdict(setup, old(View()), img, ch)
      ensures Books(old(View()), img, r, View())
      ensures Flags(setup, old(View()), img, ch, View())
    {
      if closing || closed || failed {
        return SKIPPED;
      }
      if awaitKey {
        if !img.sync {
          skippedAwaitingKey := skippedAwaitingKey + 1;
          return SKIPPED;
        }
        awaitKey := false;
      }
      if !setup.block && 0 < setup.maxBytes < level + img.bytes {
        return DROPPED;
      }
      var first := !headed;
      headed := true;
      if first && ch.headerFails {
        failed := true;
        return DROPPED;
      }
      r := Emit(img, ch);
    }

    /** push-buffer and the accounting of an accepted frame. */
    method Emit(img: Image, ch: Choice) returns (r: PushResult)
      requires eos > 0 || !(setup.block && 0 < setup.maxBytes <= level)
      modifies this`accepted, this`level, this`frames, this`rows
      ensures r == if eos > 0 then (if closing then SKIPPED else DROPPED) else if ch.flushing then DROPPED else OK
      ensures accepted == old(accepted) + (if r == OK then [img] else [])
      ensures rows == old(rows) + (if r == OK then [img] else [])
      ensures frames == old(frames) + (if r == OK then 1 else 0)
      ensures level == old(level) + (if r == OK then img.bytes else 0)
    {
      if eos > 0 {
        return if closing then SKIPPED else DROPPED;
      }
      if ch.flushing {
        return DROPPED;
      }
      accepted := accepted + [img];
      level := level + img.bytes;
      frames := frames + 1;
      rows := rows + [img];
      return OK;
    }

    /** Nobody pushing: stop accepting frames and end the stream if anything is in it. */
    method BeginClose()
      modifies this`closing, this`closed, this`eos
      ensures closed && closing == old(closing || !closed)
      ensures eos == old(if !closed && frames > 0 then eos + 1 else eos)
    {
      if closed {
        return;
      }
      closing := true;
      var eosSent := frames > 0 && setup.block;
      if eosSent {
        eos := eos + 1;
      }
      closed := true;
      if frames > 0 && !eosSent {
        eos := eos + 1;
      }
    }
  }

  // ---- the keyframe gate -------------------------------------------------------------------

  /** One offered frame, what the environment does to it, and the bytes still queued when it gets there. */
  datatype Offer = Offer(img: Image, ch: Choice, left: nat)

  /** The muxer drains the queue; a push that would block waits until there is room. */
  function Drained(c: Setup, s: State, left: nat): (t: State)
    ensures !QueueBlocks(c, t)
  {
    var level := if left < s.level then left else s.level;
    s.(level := if c.block && 0 < c.maxBytes <= level then c.maxBytes - 1 else level)
  }

  /** One frame after the other, each push run to its end. */
  function PushAll(c: Setup, s: State, os: seq<Offer>): State
    decreases |os|
  {
    if os == [] then s
    else PushAll(c, Complete(c, Opened(Drained(c, s, os[0].left), os[0].img), os[0].ch), os[1..])
  }

  lemma {:induction false} PushAllAppend(c: Setup, s: State, a: seq<Offer>, b: seq<Offer>)
    ensures PushAll(c, s, a + b) == PushAll(c, PushAll(c, s, a), b)
    decreases |a|
  {
    hide Complete;
    if a == [] {
      assert a + b == b;
    } else {
      assert (a + b)[0] == a[0] && (a + b)[1..] == a[1..] + b;
      PushAllAppend(c, Complete(c, Opened(Drained(c, s, a[0].left), a[0].img), a[0].ch), a[1..], b);
    }
  }

  predicate NoSync(os: seq<Offer>)
    decreases |os|
  {
    os == [] || (!os[0].img.sync && NoSync(os[1..]))
  }

  /** An encoded session that has met no sync point yet. */
  predicate Untouched(s: State) {
    Listens(s) && s.awaitKey && !s.headed && s.accepted == [] && s.level == 0 && s.eos == 0
  }

  lemma {:induction false} StaysUntouched(c: Setup, s: State, os: seq<Offer>)
    requires Untouched(s) && NoSync(os)
    ensures Untouched(PushAll(c, s, os))
    decreases |os|
  {
    hide Complete;
    if os != [] {
      PushRun(c, Opened(Drained(c, s, os[0].left), os[0].img), os[0].ch);
      StaysUntouched(c, Complete(c, Opened(Drained(c, s, os[0].left), os[0].img), os[0].ch), os[1..]);
    }
  }

  /** What is in the muxer stays at its front. */
  lemma {:induction false} FirstStays(c: Setup, s: State, os: seq<Offer>)
    requires s.accepted != []
    ensures PushAll(c, s, os).accepted != [] && PushAll(c, s, os).accepted[0] == s.accepted[0]
    decreases |os|
  {
    hide Complete;
    if os != [] {
      PushRun(c, Opened(Drained(c, s, os[0].left), os[0].img), os[0].ch);
      FirstStays(c, Complete(c, Opened(Drained(c, s, os[0].left), os[0].img), os[0].ch), os[1..]);
    }
  }

  lemma {:induction false} FailedTakesNothing(c: Setup, s: State, os: seq<Offer>)
    requires s.failed
    ensures PushAll(c, s, os).accepted == s.accepted
    decreases |os|
  {
    hide Complete;
    if os != [] {
      PushRun(c, Opened(Drained(c, s, os[0].left), os[0].img), os[0].ch);
      FailedTakesNothing(c, Complete(c, Opened(Drained(c, s, os[0].left), os[0].img), os[0].ch), os[1..]);
    }
  }

  predicate StartsOnSync(images: seq<Image>) { images == [] || images[0].sync }

  /** The first sync point itself is refused without stopping the session: it opens the gate for nothing. */
  predicate OpensForNothing(c: Setup, k: Offer) {
    Full(c, 0, k.img) || (!k.ch.headerFails && k.ch.flushing)
  }

  /** A frame no recording can start on, and a muxer that would take it. */
  function Straggler(): Offer { Offer(Image(0, 0, false), Choice(Image(0, 0, false), false, false), 0) }

  /** Where the first sync point leaves the session. */
  lemma {:induction false} FirstSync(c: Setup, s: State, k: Offer)
    requires Untouched(s) && k.img.sync
    ensures var t := PushAll(c, s, [k]);
            if OpensForNothing(c, k) then Listens(t) && !t.awaitKey && t.accepted == [] && t.level == 0 && t.eos == 0
            else t.accepted == [k.img] || (t.accepted == [] && t.failed)
  {
    hide Complete;
    PushRun(c, Opened(Drained(c, s, k.left), k.img), k.ch);
    assert PushAll(c, s, [k]) == Complete(c, Opened(Drained(c, s, k.left), k.img), k.ch);
  }

  lemma {:induction false} StragglerGetsIn(c: Setup, s: State)
    requires Listens(s) && !s.awaitKey && s.accepted == [] && s.level == 0 && s.eos == 0
    ensures PushAll(c, s, [Straggler()]).accepted == [Straggler().img]
  {
    hide Complete;
    var k := Straggler();
    PushRun(c, Opened(Drained(c, s, k.left), k.img), k.ch);
    assert PushAll(c, s, [k]) == Complete(c, Opened(Drained(c, s, k.left), k.img), k.ch);
  }

  /**
   * Exactly when the keyframe gate works. However long the wait for the first sync point k, every
   * recording begins on a sync point if and only if k is not lost to the queue bound or to a
   * flushing appsrc: the gate opens on k before it is known whether k is accepted.
   */
  lemma {:induction false} GateWorksExactly(c: Setup, before: seq<Offer>, k: Offer)
    requires c.encoded && NoSync(before) && k.img.sync
    ensures (forall after :: StartsOnSync(PushAll(c, Start(c), before + [k] + after).accepted))
            <==> !OpensForNothing(c, k)
  {
    hide PushAll, OpensForNothing, Straggler;
    var s := PushAll(c, Start(c), before);
    var t := PushAll(c, s, [k]);
    StaysUntouched(c, Start(c), before);
    FirstSync(c, s, k);
    PushAllAppend(c, Start(c), before, [k]);
    if OpensForNothing(c, k) {
      StragglerGetsIn(c, t);
      PushAllAppend(c, Start(c), before + [k], [Straggler()]);
      assert !Straggler().img.sync by { StragglerIsNoSync(); }
      assert !StartsOnSync(PushAll(c, Start(c), before + [k] + [Straggler()]).accepted);
    } else {
      forall after ensures StartsOnSync(PushAll(c, Start(c), before + [k] + after).accepted) {
        PushAllAppend(c, Start(c), before + [k], after);
        if t.accepted == [] { FailedTakesNothing(c, t, after); } else { FirstStays(c, t, after); }
      }
    }
  }

  lemma StragglerIsNoSync() ensures !Straggler().img.sync {}

  lemma {:induction false} SkipsEach(c: Setup, s: State, os: seq<Offer>)
    requires Untouched(s) && NoSync(os)
    ensures PushAll(c, s, os).skippedAwaitingKey == s.skippedAwaitingKey + |os|
    decreases |os|
  {
    hide Complete;
    if os != [] {
      var t := Opened(Drained(c, s, os[0].left), os[0].img);
      PushRun(c, t, os[0].ch);
      SkipsEach(c, Complete(c, t, os[0].ch), os[1..]);
    }
  }

  lemma {:induction false} SkipsNoMore(c: Setup, s: State, os: seq<Offer>)
    requires !s.awaitKey
    ensures PushAll(c, s, os).skippedAwaitingKey == s.skippedAwaitingKey && !PushAll(c, s, os).awaitKey
    decreases |os|
  {
    hide Complete;
    if os != [] {
      var t := Opened(Drained(c, s, os[0].left), os[0].img);
      PushRun(c, t, os[0].ch);
      SkipsNoMore(c, Complete(c, t, os[0].ch), os[1..]);
    }
  }

  /** The frames counted as skipped are exactly those before the first sync point, and of a raw recording none. */
  lemma {:induction false} SkippedAreCounted(c: Setup, before: seq<Offer>, k: Offer, after: seq<Offer>)
    requires NoSync(before) && k.img.sync
    ensures PushAll(c, Start(c), before + [k] + after).skippedAwaitingKey == if c.encoded then |before| else 0
  {
    hide Complete, PushAll;
    if c.encoded {
      var s := PushAll(c, Start(c), before);
      SkipsEach(c, Start(c), before);
      StaysUntouched(c, Start(c), before);
      PushAllAppend(c, Start(c), before, [k] + after);
      PushAllAppend(c, s, [k], after);
      var t := Opened(Drained(c, s, k.left), k.img);
      PushRun(c, t, k.ch);
      PushOne(c, s, k);
      SkipsNoMore(c, Complete(c, t, k.ch), after);
      assert before + [k] + after == before + ([k] + after);
    } else {
      SkipsNoMore(c, Start(c), before + [k] + after);
    }
  }

  lemma {:induction false} PushOne(c: Setup, s: State, k: Offer)
    ensures PushAll(c, s, [k]) == Complete(c, Opened(Drained(c, s, k.left), k.img), k.ch)
  {
    hide Complete;
    assert [k][1..] == [];
  }
}
