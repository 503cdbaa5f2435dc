/**
 * Closing a recording session while its feeder may be blocked: core-driver/cam_driver/session.py.
 * Two threads and the appsrc between them, as interleaved atomic steps.
 */
module SessionProtocol {
  import opened Common

  /** A frame offered to the recorder: its size, and whether a recording can start on it. */
  datatype Image = Image(id: nat, bytes: nat, sync: bool)

  /** `block`: push-buffer waits for room instead of queueing past the bound. maxBytes == 0: unbounded. */
  datatype Setup = Setup(encoded: bool, block: bool, maxBytes: nat)

  datatype Owner = Nobody | FeederThread | CloserThread
  datatype PushResult = OK | DROPPED | SKIPPED

  /** Where the feeder is inside push(). */
  datatype FeederAt =
    | Idle
    | Wanting      // waits for the session lock
    | Entered      // holds it; the closing / error check is next
    | AtGate       // the keyframe gate is next
    | AtBound      // the queue bound is next
    | AtHeader     // the sidecar header is next
    | Pushing      // push-buffer is next, or blocked in it
    | Counting     // accepted; `frames` is next
    | AddingRow    // the sidecar row is next
    | Leaving      // the result is known; the lock is given back next

  /** Where the closer is inside begin_close(). */
  datatype CloserAt =
    | Outside
    | Marked       // _closing is set
    | Decided      // it is settled whether EOS goes out before taking the lock
    | Waiting      // waits for the session lock
    | Holding
    | Releasing

  datatype State = State(
    lock: Owner, feeder: FeederAt, closer: CloserAt,
    img: Image, result: PushResult,   // of the push in progress
    early: bool,                      // eos_sent, of the close in progress
    closing: bool, closed: bool, failed: bool, awaitKey: bool, headed: bool,
    frames: nat, skippedAwaitingKey: nat, eos: nat,
    accepted: seq<Image>,      // every buffer the appsrc took, in order
    level: nat,                // bytes of those not drained yet
    rows: seq<Image>)          // every sidecar row

  /** What the environment decides at a step. */
  datatype Choice = Choice(offer: Image, headerFails: bool, flushing: bool)

  datatype Move = Feeder(choice: Choice) | Closer | Drain(bytes: nat) | BusError

  function Start(c: Setup): State {
    State(Nobody, Idle, Outside, Image(0, 0, false), SKIPPED, false,
          false, false, false, c.encoded, false, 0, 0, 0, [], 0, [])
  }

  predicate QueueBlocks(c: Setup, s: State) { c.block && 0 < c.maxBytes <= s.level }

  /** A thread that cannot step is blocked. */
  predicate FeederBlocked(c: Setup, s: State) {
    || (s.feeder.Wanting? && s.lock != Nobody)
    || (s.feeder.Pushing? && s.eos == 0 && QueueBlocks(c, s))
  }

  predicate CloserBlocked(s: State) { s.closer.Waiting? && s.lock != Nobody }

  /** What push-buffer answers. */
  datatype Flow = Taken | Blocked | Eos | Flushing

  function PushBuffer(c: Setup, s: State, ch: Choice): Flow {
    if s.eos > 0 then Eos
    else if ch.flushing then Flushing
    else if QueueBlocks(c, s) then Blocked
    else Taken
  }

  // The steps of push(), in order.

  function Call(s: State, ch: Choice): (t: State)
    ensures t.accepted == s.accepted && t.eos == s.eos
  {
    s.(feeder := Wanting, img := ch.offer)
  }

  function TakeLock(s: State): (t: State)
    ensures t.accepted == s.accepted && t.eos == s.eos
  {
    var free := s.lock == Nobody;
    s.(lock := if free then FeederThread else s.lock, feeder := if free then Entered else Wanting)
  }

  function CheckClosing(s: State): (t: State)
    ensures t.accepted == s.accepted && t.eos == s.eos
    ensures t.feeder.Leaving? || t.feeder.AtGate?
  {
    var stop := s.closing || s.closed || s.failed;
    s.(feeder := if stop then Leaving else AtGate, result := if stop then SKIPPED else s.result)
  }

  function CheckGate(s: State): (t: State)
    ensures t.accepted == s.accepted && t.eos == s.eos
    ensures t.feeder.Leaving? || t.feeder.AtBound?
  {
    var skip := s.awaitKey && !s.img.sync;
    s.(feeder := if skip then Leaving else AtBound, result := if skip then SKIPPED else s.result,
       skippedAwaitingKey := if skip then s.skippedAwaitingKey + 1 else s.skippedAwaitingKey, awaitKey := skip)
  }

  function CheckBound(c: Setup, s: State): (t: State)
    ensures t.accepted == s.accepted && t.eos == s.eos
    ensures t.feeder.Leaving? || t.feeder.AtHeader?
  {
    var full := !c.block && 0 < c.maxBytes < s.level + s.img.bytes;
    s.(feeder := if full then Leaving else AtHeader, result := if full then DROPPED else s.result)
  }

  function WriteHeader(s: State, ch: Choice): (t: State)
    ensures t.accepted == s.accepted && t.eos == s.eos
    ensures t.feeder.Leaving? || t.feeder.Pushing?
  {
    var bad := !s.headed && ch.headerFails;
    s.(feeder := if bad then Leaving else Pushing, result := if bad then DROPPED else s.result,
       headed := true, failed := s.failed || bad)
  }

  function EmitBuffer(c: Setup, s: State, ch: Choice): (t: State)
    ensures s.eos > 0 || !QueueBlocks(c, s) ==> t.feeder.Leaving? || t.feeder.Counting?
  {
    var flow := PushBuffer(c, s, ch);
    s.(feeder := if flow.Taken? then Counting else if flow.Blocked? then Pushing else Leaving,
       result := if flow.Eos? && s.closing then SKIPPED else if flow.Eos? || flow.Flushing? then DROPPED else s.result,
       accepted := if flow.Taken? then s.accepted + [s.img] else s.accepted,
       level := if flow.Taken? then s.level + s.img.bytes else s.level)
  }

  function CountFrame(s: State): (t: State)
    ensures t.accepted == s.accepted && t.eos == s.eos
    ensures t.feeder.AddingRow?
  {
    s.(feeder := AddingRow, frames := s.frames + 1)
  }

  function AddRow(s: State): (t: State)
    ensures t.accepted == s.accepted && t.eos == s.eos
    ensures t.feeder.Leaving?
  {
    s.(feeder := Leaving, result := OK, rows := s.rows + [s.img])
  }

  function GiveLock(s: State): (t: State)
    ensures t.accepted == s.accepted && t.eos == s.eos
    ensures t.feeder.Idle?
  {
    s.(feeder := Idle, lock := Nobody)
  }

  function FeederStep(c: Setup, s: State, ch: Choice): State {
    match s.feeder
    case Idle => Call(s, ch)
    case Wanting => TakeLock(s)
    case Entered => CheckClosing(s)
    case AtGate => CheckGate(s)
    case AtBound => CheckBound(c, s)
    case AtHeader => WriteHeader(s, ch)
    case Pushing => EmitBuffer(c, s, ch)
    case Counting => CountFrame(s)
    case AddingRow => AddRow(s)
    case Leaving => GiveLock(s)
  }

  // The steps of begin_close(), in order.

  function MarkClosing(s: State): (t: State)
    ensures t.accepted == s.accepted && t.eos >= s.eos
  {
    if s.closed then s else s.(closer := Marked, closing := true)
  }

  function Decide(c: Setup, s: State): (t: State)
    ensures t.accepted == s.accepted && t.eos >= s.eos
  {
    s.(closer := Decided, early := c.block && s.frames > 0)
  }

  function EarlyEos(s: State): (t: State)
    ensures t.accepted == s.accepted && t.eos >= s.eos
  {
    s.(closer := Waiting, eos := if s.early then s.eos + 1 else s.eos)
  }

  function JoinPush(s: State): (t: State)
    ensures t.accepted == s.accepted && t.eos >= s.eos
  {
    var free := s.lock == Nobody;
    s.(lock := if free then CloserThread else s.lock, closer := if free then Holding else Waiting)
  }

  function MarkClosed(s: State): (t: State)
    ensures t.accepted == s.accepted && t.eos >= s.eos
  {
    s.(closer := Releasing, closed := true, eos := if s.frames > 0 && !s.early then s.eos + 1 else s.eos)
  }

  function Return(s: State): (t: State)
    ensures t.accepted == s.accepted && t.eos >= s.eos
  {
    s.(closer := Outside, lock := Nobody)
  }

  function CloserStep(c: Setup, s: State): State {
    match s.closer
    case Outside => MarkClosing(s)
    case Marked => Decide(c, s)
    case Decided => EarlyEos(s)
    case Waiting => JoinPush(s)
    case Holding => MarkClosed(s)
    case Releasing => Return(s)
  }

  function Step(c: Setup, s: State, m: Move): State {
    match m
    case Feeder(ch) => FeederStep(c, s, ch)
    case Closer => CloserStep(c, s)
    case Drain(n) => s.(level := if n <= s.level then s.level - n else 0)
    case BusError => s.(failed := true)
  }

  function Run(c: Setup, s: State, ms: seq<Move>): State
    decreases |ms|
  {
    if ms == [] then s else Run(c, Step(c, s, ms[0]), ms[1..])
  }

  // ---- the invariant -------------------------------------------------------------------

  predicate InPush(f: FeederAt) { !f.Idle? && !f.Wanting? }

  /** Past the closing check, not yet in the appsrc. */
  predicate BeforeAppsrc(f: FeederAt) { f.AtGate? || f.AtBound? || f.AtHeader? || f.Pushing? }

  predicate LockMatches(s: State) {
    && (s.lock == FeederThread <==> InPush(s.feeder))
    && (s.lock == CloserThread <==> s.closer.Holding? || s.closer.Releasing?)
  }

  /** Accepted buffers, `frames` and sidecar rows are one sequence, up to the push in progress. */
  predicate BooksMatch(s: State) {
    && |s.accepted| == s.frames + (if s.feeder.Counting? then 1 else 0)
    && s.accepted == s.rows + (if s.feeder.Counting? || s.feeder.AddingRow? then [s.img] else [])
    && (s.accepted == [] ==> s.level == 0)
  }

  predicate EosMatches(c: Setup, s: State) {
    && (s.closing <==> s.closed || !s.closer.Outside?)
    && (s.closed ==> s.closer.Outside? || s.closer.Releasing?)
    && (s.closer.Releasing? ==> s.closed)
    && (s.closer.Decided? || s.closer.Waiting? || s.closer.Holding? ==> (s.early ==> s.frames > 0))
    && s.eos == (if s.closer.Waiting? || s.closer.Holding? then if s.early then 1 else 0
                 else if s.closed && s.frames > 0 then 1 else 0)
    && (s.closed ==> !BeforeAppsrc(s.feeder) && !s.feeder.Counting? && !s.feeder.AddingRow?)
  }

  /** When the closer goes for the lock without EOS, the feeder it waits for cannot be blocked. */
  predicate NoEarlyEosIsSafe(c: Setup, s: State) {
    (s.closer.Decided? || s.closer.Waiting?) && !s.early && c.block && BeforeAppsrc(s.feeder)
    ==> s.accepted == []
  }

  predicate Inv(c: Setup, s: State) {
    LockMatches(s) && BooksMatch(s) && EosMatches(c, s) && NoEarlyEosIsSafe(c, s)
  }

  // Each step keeps the invariant.

  lemma CallKeeps(c: Setup, s: State, ch: Choice) requires Inv(c, s) && s.feeder.Idle? ensures Inv(c, Call(s, ch)) {}

  lemma TakeLockKeeps(c: Setup, s: State) requires Inv(c, s) && s.feeder.Wanting? ensures Inv(c, TakeLock(s)) {}

  lemma CheckClosingKeeps(c: Setup, s: State) requires Inv(c, s) && s.feeder.Entered? ensures Inv(c, CheckClosing(s)) {}

  lemma CheckGateKeeps(c: Setup, s: State) requires Inv(c, s) && s.feeder.AtGate? ensures Inv(c, CheckGate(s)) {}

  lemma CheckBoundKeeps(c: Setup, s: State) requires Inv(c, s) && s.feeder.AtBound? ensures Inv(c, CheckBound(c, s)) {}

  lemma WriteHeaderKeeps(c: Setup, s: State, ch: Choice) requires Inv(c, s) && s.feeder.AtHeader? ensures Inv(c, WriteHeader(s, ch)) {}

  lemma EmitBufferKeeps(c: Setup, s: State, ch: Choice) requires Inv(c, s) && s.feeder.Pushing? ensures Inv(c, EmitBuffer(c, s, ch)) {}

  lemma CountFrameKeeps(c: Setup, s: State) requires Inv(c, s) && s.feeder.Counting? ensures Inv(c, CountFrame(s)) {}

  lemma AddRowKeeps(c: Setup, s: State) requires Inv(c, s) && s.feeder.AddingRow? ensures Inv(c, AddRow(s)) {}

  lemma GiveLockKeeps(c: Setup, s: State) requires Inv(c, s) && s.feeder.Leaving? ensures Inv(c, GiveLock(s)) {}

  lemma MarkClosingKeeps(c: Setup, s: State) requires Inv(c, s) && s.closer.Outside? ensures Inv(c, MarkClosing(s)) {}

  lemma DecideKeeps(c: Setup, s: State) requires Inv(c, s) && s.closer.Marked? ensures Inv(c, Decide(c, s)) {}

  lemma EarlyEosKeeps(c: Setup, s: State) requires Inv(c, s) && s.closer.Decided? ensures Inv(c, EarlyEos(s)) {}

  lemma JoinPushKeeps(c: Setup, s: State) requires Inv(c, s) && s.closer.Waiting? ensures Inv(c, JoinPush(s)) {}

  lemma MarkClosedKeeps(c: Setup, s: State) requires Inv(c, s) && s.closer.Holding? ensures Inv(c, MarkClosed(s)) {}

  lemma ReturnKeeps(c: Setup, s: State) requires Inv(c, s) && s.closer.Releasing? ensures Inv(c, Return(s)) {}

  lemma FeederKeeps(c: Setup, s: State, ch: Choice)
    requires Inv(c, s)
    ensures Inv(c, FeederStep(c, s, ch))
  {
    hide Inv, Call, TakeLock, CheckClosing, CheckGate, CheckBound, WriteHeader, EmitBuffer, CountFrame, AddRow, GiveLock;
    match s.feeder
    case Idle => CallKeeps(c, s, ch);
    case Wanting => TakeLockKeeps(c, s);
    case Entered => CheckClosingKeeps(c, s);
    case AtGate => CheckGateKeeps(c, s);
    case AtBound => CheckBoundKeeps(c, s);
    case AtHeader => WriteHeaderKeeps(c, s, ch);
    case Pushing => EmitBufferKeeps(c, s, ch);
    case Counting => CountFrameKeeps(c, s);
    case AddingRow => AddRowKeeps(c, s);
    case Leaving => GiveLockKeeps(c, s);
  }

  lemma StepKeepsInv(c: Setup, s: State, m: Move)
    requires Inv(c, s)
    ensures Inv(c, Step(c, s, m))
  {
    hide FeederStep, MarkClosing, Decide, EarlyEos, JoinPush, MarkClosed, Return;
    match m
    case Feeder(ch) => FeederKeeps(c, s, ch);
    case Closer =>
      hide Inv;
      match s.closer {
        case Outside => MarkClosingKeeps(c, s);
        case Marked => DecideKeeps(c, s);
        case Decided => EarlyEosKeeps(c, s);
        case Waiting => JoinPushKeeps(c, s);
        case Holding => MarkClosedKeeps(c, s);
        case Releasing => ReturnKeeps(c, s);
      }
    case Drain(_) =>
    case BusError =>
  }

  lemma {:induction false} InvHolds(c: Setup, s: State, ms: seq<Move>)
    requires Inv(c, s)
    ensures Inv(c, Run(c, s, ms))
    decreases |ms|
  {
    hide Inv, Step;
    if ms != [] {
      StepKeepsInv(c, s, ms[0]);
      InvHolds(c, Step(c, s, ms[0]), ms[1..]);
    }
  }

  lemma {:induction false} RunAppend(c: Setup, s: State, ms: seq<Move>, ns: seq<Move>)
    ensures Run(c, s, ms + ns) == Run(c, Run(c, s, ms), ns)
    decreases |ms|
  {
    hide Step;
    if ms == [] {
      assert ms + ns == ns;
    } else {
      assert (ms + ns)[0] == ms[0] && (ms + ns)[1..] == ms[1..] + ns;
      RunAppend(c, Step(c, s, ms[0]), ms[1..], ns);
    }
  }

  // ---- results over every interleaving ---------------------------------------------------

  /** Whenever no push is in progress, the muxer, the counter and the sidecar agree frame by frame. */
  lemma {:induction false} BooksAgree(c: Setup, ms: seq<Move>)
    ensures var s := Run(c, Start(c), ms);
            s.lock != FeederThread ==> s.rows == s.accepted && s.frames == |s.accepted|
  {
    InvHolds(c, Start(c), ms);
  }

  /** At most one EOS; none before a close has begun; after the close, one if and only if a frame was accepted. */
  lemma {:induction false} EosExactlyOnce(c: Setup, ms: seq<Move>)
    ensures var s := Run(c, Start(c), ms);
            && s.eos <= 1
            && (s.eos == 1 ==> s.closing && s.accepted != [])
            && (s.closed ==> (s.eos == 1 <==> s.accepted != []))
  {
    InvHolds(c, Start(c), ms);
  }

  predicate SameRecording(s: State, t: State) {
    t.accepted == s.accepted && t.rows == s.rows && t.frames == s.frames && t.eos == s.eos && t.closed
  }

  /** What the feeder can still do after a close, and what it can never do then. */
  lemma FeederAfterClose(c: Setup, s: State, ch: Choice)
    requires Inv(c, s) && s.closed
    ensures SameRecording(s, FeederStep(c, s, ch))
  {
    hide CheckGate, CheckBound, WriteHeader, EmitBuffer, CountFrame, AddRow;
  }

  lemma CloserAfterClose(c: Setup, s: State)
    requires Inv(c, s) && s.closed
    ensures SameRecording(s, CloserStep(c, s))
  {
    hide Decide, EarlyEos, JoinPush, MarkClosed;
  }

  lemma {:induction false} ClosedStaysClosed(c: Setup, s: State, ms: seq<Move>)
    requires Inv(c, s) && s.closed
    ensures SameRecording(s, Run(c, s, ms))
    decreases |ms|
  {
    hide Inv, FeederStep, CloserStep;
    if ms != [] {
      StepKeepsInv(c, s, ms[0]);
      match ms[0] {
        case Feeder(ch) => FeederAfterClose(c, s, ch);
        case Closer => CloserAfterClose(c, s);
        case Drain(_) =>
        case BusError =>
      }
      ClosedStaysClosed(c, Step(c, s, ms[0]), ms[1..]);
    }
  }

  /** Once begin_close has returned, nothing is accepted, counted or recorded any more, whatever runs. */
  lemma {:induction false} NothingAfterClose(c: Setup, ms: seq<Move>, more: seq<Move>)
    requires Run(c, Start(c), ms).closed
    ensures SameRecording(Run(c, Start(c), ms), Run(c, Start(c), ms + more))
  {
    InvHolds(c, Start(c), ms);
    RunAppend(c, Start(c), ms, more);
    ClosedStaysClosed(c, Run(c, Start(c), ms), more);
  }

  /** How many steps the feeder has left before it gives the lock back. */
  function FeederRank(f: FeederAt): nat {
    match f
    case Idle => 0
    case Wanting => 0
    case Entered => 8
    case AtGate => 7
    case AtBound => 6
    case AtHeader => 5
    case Pushing => 4
    case Counting => 3
    case AddingRow => 2
    case Leaving => 1
  }

  lemma RankDrops(c: Setup, s: State, ch: Choice)
    requires InPush(s.feeder) && !FeederBlocked(c, s)
    ensures FeederRank(FeederStep(c, s, ch).feeder) < FeederRank(s.feeder)
  {
    hide CheckClosing, CheckGate, CheckBound, WriteHeader, EmitBuffer, CountFrame, AddRow, GiveLock;
  }

  /**
   * No deadlock. Once a close has begun, the closer can step, or it waits for a feeder that can step
   * and, whatever the environment does to it, comes one step nearer to releasing the lock -- even
   * when the queue is full and never drains.
   */
  lemma {:induction false} NoDeadlock(c: Setup, ms: seq<Move>, ch: Choice)
    ensures var s := Run(c, Start(c), ms);
            CloserBlocked(s) ==>
              && s.lock == FeederThread
              && !FeederBlocked(c, s)
              && FeederRank(FeederStep(c, s, ch).feeder) < FeederRank(s.feeder)
  {
    InvHolds(c, Start(c), ms);
    var s := Run(c, Start(c), ms);
    hide FeederStep, FeederRank, Run;
    if CloserBlocked(s) {
      if s.feeder.Pushing? && s.eos == 0 && c.block {
        assert s.accepted == [] && s.level == 0;
      }
      RankDrops(c, s, ch);
    }
  }

  /** Why EOS must not wait for the lock: a feeder blocked on a full queue holds it, and a frame is accepted. */
  lemma {:induction false} BlockedPushHoldsTheLock(c: Setup, ms: seq<Move>)
    ensures var s := Run(c, Start(c), ms);
            s.feeder.Pushing? && FeederBlocked(c, s) ==> CloserBlocked(s.(closer := Waiting)) && s.frames > 0
  {
    InvHolds(c, Start(c), ms);
    var s := Run(c, Start(c), ms);
    if s.feeder.Pushing? && FeederBlocked(c, s) {
      assert s.level > 0;
    }
  }

  // ---- the queue keeps to its bound ----------------------------------------------------------

  predicate LetThrough(s: State) { s.feeder.AtHeader? || s.feeder.Pushing? }

  /** Nothing comes into the queue, nor is a frame let through to it. */
  predicate Quiet(s: State, t: State) {
    t.level <= s.level && t.accepted == s.accepted && (LetThrough(t) ==> LetThrough(s) && t.img == s.img)
  }

  lemma CallQuiet(s: State, ch: Choice) ensures Quiet(s, Call(s, ch)) {}
  lemma TakeLockQuiet(s: State) ensures Quiet(s, TakeLock(s)) {}
  lemma CheckClosingQuiet(s: State) ensures Quiet(s, CheckClosing(s)) {}
  lemma CheckGateQuiet(s: State) ensures Quiet(s, CheckGate(s)) {}
  lemma WriteHeaderQuiet(s: State, ch: Choice) requires s.feeder.AtHeader? ensures Quiet(s, WriteHeader(s, ch)) {}
  lemma CountFrameQuiet(s: State) ensures Quiet(s, CountFrame(s)) {}
  lemma AddRowQuiet(s: State) ensures Quiet(s, AddRow(s)) {}
  lemma GiveLockQuiet(s: State) ensures Quiet(s, GiveLock(s)) {}

  lemma MarkClosingQuiet(s: State) ensures Quiet(s, MarkClosing(s)) {}
  lemma DecideQuiet(c: Setup, s: State) ensures Quiet(s, Decide(c, s)) {}
  lemma EarlyEosQuiet(s: State) ensures Quiet(s, EarlyEos(s)) {}
  lemma JoinPushQuiet(s: State) ensures Quiet(s, JoinPush(s)) {}
  lemma MarkClosedQuiet(s: State) ensures Quiet(s, MarkClosed(s)) {}
  lemma ReturnQuiet(s: State) ensures Quiet(s, Return(s)) {}

  lemma CloserQuiet(c: Setup, s: State)
    ensures Quiet(s, CloserStep(c, s))
  {
    hide Quiet, MarkClosing, Decide, EarlyEos, JoinPush, MarkClosed, Return;
    match s.closer
    case Outside => MarkClosingQuiet(s);
    case Marked => DecideQuiet(c, s);
    case Decided => EarlyEosQuiet(s);
    case Waiting => JoinPushQuiet(s);
    case Holding => MarkClosedQuiet(s);
    case Releasing => ReturnQuiet(s);
  }

  /** Only two steps have to do with the queue: the check, and the appsrc taking the frame. */
  lemma FeederQuiet(c: Setup, s: State, ch: Choice)
    requires !s.feeder.AtBound? && !s.feeder.Pushing?
    ensures Quiet(s, FeederStep(c, s, ch))
  {
    hide Quiet, Call, TakeLock, CheckClosing, CheckGate, CheckBound, WriteHeader, EmitBuffer, CountFrame, AddRow, GiveLock;
    match s.feeder
    case Idle => CallQuiet(s, ch);
    case Wanting => TakeLockQuiet(s);
    case Entered => CheckClosingQuiet(s);
    case AtGate => CheckGateQuiet(s);
    case AtHeader => WriteHeaderQuiet(s, ch);
    case Counting => CountFrameQuiet(s);
    case AddingRow => AddRowQuiet(s);
    case Leaving => GiveLockQuiet(s);
  }

  lemma StepQuiet(c: Setup, s: State, m: Move)
    requires m.Feeder? ==> !s.feeder.AtBound? && !s.feeder.Pushing?
    ensures Quiet(s, Step(c, s, m))
  {
    hide FeederStep, CloserStep;
    match m
    case Feeder(ch) => FeederQuiet(c, s, ch);
    case Closer => CloserQuiet(c, s);
    case Drain(_) =>
    case BusError =>
  }

  /** What is queued fits, and so does a frame let through to the appsrc. */
  predicate Room(c: Setup, s: State) { s.level + (if LetThrough(s) then s.img.bytes else 0) <= c.maxBytes }

  lemma CheckBoundKeepsRoom(c: Setup, s: State)
    requires !c.block && c.maxBytes > 0 && Room(c, s)
    ensures Room(c, CheckBound(c, s))
  {
  }

  lemma EmitBufferKeepsRoom(c: Setup, s: State, ch: Choice)
    requires s.feeder.Pushing? && Room(c, s)
    ensures Room(c, EmitBuffer(c, s, ch))
  {
  }

  lemma {:induction false} RunKeepsRoom(c: Setup, s: State, ms: seq<Move>)
    requires !c.block && c.maxBytes > 0 && Room(c, s)
    ensures Room(c, Run(c, s, ms))
    decreases |ms|
  {
    if ms != [] {
      assert Room(c, Step(c, s, ms[0])) by {
        hide CheckBound, EmitBuffer, Run;
        if ms[0].Feeder? && s.feeder.AtBound? {
          CheckBoundKeepsRoom(c, s);
        } else if ms[0].Feeder? && s.feeder.Pushing? {
          EmitBufferKeepsRoom(c, s, ms[0].choice);
        } else {
          hide Step;
          StepQuiet(c, s, ms[0]);
        }
      }
      hide Step, Room;
      RunKeepsRoom(c, Step(c, s, ms[0]), ms[1..]);
    }
  }

  /** A live camera's queue never holds more than its bound, however slow the encoder and whoever interferes. */
  lemma {:induction false} QueueStaysBounded(c: Setup, ms: seq<Move>)
    requires !c.block && c.maxBytes > 0
    ensures Run(c, Start(c), ms).level <= c.maxBytes
  {
    hide Run;
    RunKeepsRoom(c, Start(c), ms);
  }

  /** What is queued exceeds the bound by less than the last frame. */
  predicate LastFits(c: Setup, s: State) {
    if s.accepted == [] then s.level == 0 else s.level < c.maxBytes + s.accepted[|s.accepted| - 1].bytes
  }

  lemma CheckBoundKeepsLast(c: Setup, s: State) requires LastFits(c, s) ensures LastFits(c, CheckBound(c, s)) {}

  lemma EmitBufferKeepsLast(c: Setup, s: State, ch: Choice)
    requires c.block && c.maxBytes > 0 && s.feeder.Pushing? && LastFits(c, s)
    ensures LastFits(c, EmitBuffer(c, s, ch))
  {
  }

  lemma {:induction false} RunKeepsLast(c: Setup, s: State, ms: seq<Move>)
    requires c.block && c.maxBytes > 0 && LastFits(c, s)
    ensures LastFits(c, Run(c, s, ms))
    decreases |ms|
  {
    if ms != [] {
      assert LastFits(c, Step(c, s, ms[0])) by {
        hide CheckBound, EmitBuffer, Run;
        if ms[0].Feeder? && s.feeder.AtBound? {
          CheckBoundKeepsLast(c, s);
        } else if ms[0].Feeder? && s.feeder.Pushing? {
          EmitBufferKeepsLast(c, s, ms[0].choice);
        } else {
          hide Step;
          StepQuiet(c, s, ms[0]);
        }
      }
      hide Step, LastFits;
      RunKeepsLast(c, Step(c, s, ms[0]), ms[1..]);
    }
  }

  /** Nor does a playback's queue, whose pushes wait: it is below the bound but for its newest frame, over every run. */
  lemma {:induction false} BlockingQueueStaysBounded(c: Setup, ms: seq<Move>)
    requires c.block && c.maxBytes > 0
    ensures var s := Run(c, Start(c), ms);
            s.level == 0 || (s.accepted != [] && s.level - s.accepted[|s.accepted| - 1].bytes < c.maxBytes)
  {
    hide Run;
    RunKeepsLast(c, Start(c), ms);
  }
}
