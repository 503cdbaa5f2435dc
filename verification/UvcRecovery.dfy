/** With nothing lost, the assembler returns exactly the frames that were sent (USB Video Class 1.5, section 2.4.3.3). */
module UvcRecovery {
  import opened Common
  import opened UvcAssembler

  /** One payload on the wire and the timestamp of the URB that brought it. */
  datatype Packet = Packet(bytes: seq<byte>, ts: int)

  /** A sent frame: its payloads, then header-only keepalives that may follow its end-of-frame payload. */
  datatype SentFrame = SentFrame(fid: nat, body: seq<Packet>, tail: seq<Packet>)
  {
    /** The image bytes. */
    function Image(): seq<byte> { PacketData(body) }

    /** The timestamp of the first payload. */
    function Ts(): int { if body == [] then 0 else body[0].ts }

    predicate EndsWithEof() { LastIsEof(body) }
  }

  function PacketData(ps: seq<Packet>): seq<byte> {
    if ps == [] then [] else Data(ps[0].bytes) + PacketData(ps[1..])
  }

  predicate LastIsEof(ps: seq<Packet>) {
    ps != [] && (if |ps| == 1 then Eof(ps[0].bytes) else LastIsEof(ps[1..]))
  }

  /** A payload of the frame with this FID, error-free. */
  predicate Sound(c: Config, fid: nat, p: seq<byte>) { Parses(c, p) && Fid(p) == fid && !Err(p) }

  /** Header-only, any other flags. */
  predicate Keepalive(c: Config, fid: nat, p: seq<byte>) { Parses(c, p) && Fid(p) == fid && Data(p) == [] }

  /** Sound payloads, none but the last flagged end-of-frame. */
  predicate SoundBody(c: Config, fid: nat, ps: seq<Packet>) {
    && ps != []
    && Sound(c, fid, ps[0].bytes)
    && (|ps| > 1 ==> !Eof(ps[0].bytes) && SoundBody(c, fid, ps[1..]))
  }

  predicate AllKeepalives(c: Config, fid: nat, ps: seq<Packet>) {
    ps != [] ==> Keepalive(c, fid, ps[0].bytes) && AllKeepalives(c, fid, ps[1..])
  }

  predicate ValidFrame(c: Config, f: SentFrame) {
    && SoundBody(c, f.fid, f.body)
    && (f.tail != [] ==> f.EndsWithEof())
    && AllKeepalives(c, f.fid, f.tail)
  }

  /** `g` may follow `f`: its FID toggles, or `f` was ended explicitly and `g` opens with data. */
  predicate Follows(f: SentFrame, g: SentFrame) {
    g.fid != f.fid || (f.EndsWithEof() && g.body != [] && Data(g.body[0].bytes) != [])
  }

  predicate ValidStream(c: Config, fs: seq<SentFrame>) {
    fs != [] ==> ValidFrame(c, fs[0]) && (|fs| > 1 ==> Follows(fs[0], fs[1])) && ValidStream(c, fs[1..])
  }

  function PacketEvents(ps: seq<Packet>): seq<Event> {
    if ps == [] then [] else [Payload(ps[0].bytes, ps[0].ts)] + PacketEvents(ps[1..])
  }

  function Wire(fs: seq<SentFrame>): seq<Event> {
    if fs == [] then [] else PacketEvents(fs[0].body) + PacketEvents(fs[0].tail) + Wire(fs[1..])
  }

  /** What a receiver should make of one sent frame: the frame itself if it passes validation. */
  function Outcome(c: Config, f: SentFrame): seq<Frame> {
    match Accept(c, f.Image())
    case Some(image) => [Frame(f.Ts(), image)]
    case None => []
  }

  function Expected(c: Config, fs: seq<SentFrame>): seq<Frame> {
    if fs == [] then [] else Outcome(c, fs[0]) + Expected(c, fs[1..])
  }

  function TailLengths(fs: seq<SentFrame>): nat { if fs == [] then 0 else |fs[0].tail| + TailLengths(fs[1..]) }

  // ---- one frame -----------------------------------------------------------------------

  /** The first payload of `f` will be taken as the start of a frame. */
  predicate Ready(a: Asm, f: SentFrame) {
    a.fid != Some(f.fid) || (a.mode == Await && f.body != [] && Data(f.body[0].bytes) != [])
  }

  /** Close the frame still being accumulated, as the next FID toggle would. */
  function Flush(c: Config, a: Asm): Asm { if a.mode == Accum then Finalize(c, a) else a }

  /** The state once `ps` has been added to the frame in progress. */
  function Grown(c: Config, a: Asm, ps: seq<Packet>): Asm {
    var b := a.(buf := a.buf + PacketData(ps));
    if LastIsEof(ps) then Finalize(c, b).(mode := Await) else b
  }

  lemma StepSound(c: Config, a: Asm, fid: nat, p: Packet)
    requires a.mode == Accum && a.fid == Some(fid) && Sound(c, fid, p.bytes)
    ensures Step(c, a, Payload(p.bytes, p.ts)) == Append(c, a, p.bytes)
  {
    hide Append, Finalize;
  }

  lemma {:induction false} RunBody(c: Config, a: Asm, fid: nat, ps: seq<Packet>)
    requires a.mode == Accum && a.fid == Some(fid)
    requires SoundBody(c, fid, ps)
    ensures Run(c, a, PacketEvents(ps)) == Grown(c, a, ps)
    decreases |ps|
  {
    hide Finalize, Run, Step, Sound, Data;
    var p := ps[0];
    StepSound(c, a, fid, p);
    RunCons(c, a, Payload(p.bytes, p.ts), PacketEvents(ps[1..]));
    var b := Append(c, a, p.bytes);
    if |ps| == 1 {
      assert ps[1..] == [];
      RunNothing(c, b);
      assert PacketData(ps) == Data(p.bytes);
    } else {
      RunBody(c, b, fid, ps[1..]);
      assert a.buf + Data(p.bytes) + PacketData(ps[1..]) == a.buf + PacketData(ps);
    }
  }

  lemma {:induction false} RunTail(c: Config, a: Asm, fid: nat, ps: seq<Packet>)
    requires a.mode == Await && a.fid == Some(fid)
    requires AllKeepalives(c, fid, ps)
    ensures Run(c, a, PacketEvents(ps)) == a.(stats := a.stats.(trailing := a.stats.trailing + |ps|))
    decreases |ps|
  {
    if ps != [] {
      var e := Payload(ps[0].bytes, ps[0].ts);
      RunCons(c, a, e, PacketEvents(ps[1..]));
      RunTail(c, Step(c, a, e), fid, ps[1..]);
    }
  }

  /** The state after a whole frame, given one in which it could start. */
  function AfterFrame(c: Config, a: Asm, f: SentFrame): Asm {
    var b := Grown(c, Begin(Flush(c, a), f.fid, f.Ts()), f.body);
    b.(stats := b.stats.(trailing := b.stats.trailing + |f.tail|))
  }

  /** A first payload is treated as if its frame had just been opened. */
  lemma {:induction false} RunFromStart(c: Config, a: Asm, f: SentFrame)
    requires ValidFrame(c, f) && Ready(a, f)
    ensures Run(c, a, PacketEvents(f.body)) == Run(c, Begin(Flush(c, a), f.fid, f.Ts()), PacketEvents(f.body))
  {
    hide Finalize, Append;
    var p := f.body[0];
    var e := Payload(p.bytes, p.ts);
    var started := Begin(Flush(c, a), f.fid, p.ts);
    RunCons(c, a, e, PacketEvents(f.body[1..]));
    RunCons(c, started, e, PacketEvents(f.body[1..]));
    assert Step(c, a, e) == Append(c, started, p.bytes);
    assert Step(c, started, e) == Append(c, started, p.bytes);
  }

  lemma {:induction false} RunFrame(c: Config, a: Asm, f: SentFrame)
    requires ValidFrame(c, f) && Ready(a, f)
    ensures Run(c, a, PacketEvents(f.body) + PacketEvents(f.tail)) == AfterFrame(c, a, f)
  {
    hide Run, SoundBody, AllKeepalives, Finalize, PacketData;
    RunFromStart(c, a, f);
    var started := Begin(Flush(c, a), f.fid, f.Ts());
    RunBody(c, started, f.fid, f.body);
    RunAppend(c, a, PacketEvents(f.body), PacketEvents(f.tail));
    if f.tail != [] {
      FinalizeKeepsFid(c, started.(buf := started.buf + PacketData(f.body)));
      RunTail(c, Grown(c, started, f.body), f.fid, f.tail);
    } else {
      RunNothing(c, Grown(c, started, f.body));
      assert PacketEvents(f.tail) == [];
    }
  }

  lemma FinalizeKeepsFid(c: Config, a: Asm)
    ensures Finalize(c, a).fid == a.fid && Finalize(c, a).mode == a.mode
  {
  }

  // ---- the whole stream ----------------------------------------------------------------

  /** `s` after `sent` more frames, of which `ok` were valid, and `keepalives` ignored payloads. */
  ghost predicate Counted(s: Stats, t: Stats, ok: nat, sent: nat, keepalives: nat) {
    && t.framesOk == s.framesOk + ok
    && t.sizeDrops == s.sizeDrops + sent - ok
    && t.trailing == s.trailing + keepalives
    && t.badHeader == s.badHeader && t.errFrames == s.errFrames && t.truncated == s.truncated
  }

  /** From `a` to `b`, exactly the frames `fs` have been taken in, the one in progress included. */
  ghost predicate Progress(c: Config, a: Asm, b: Asm, fs: seq<SentFrame>) {
    && Flush(c, b).out == Flush(c, a).out + Expected(c, fs)
    && Counted(Flush(c, a).stats, Flush(c, b).stats, |Expected(c, fs)|, |fs|, TailLengths(fs))
  }

  lemma OneFrame(c: Config, a: Asm, f: SentFrame) returns (b: Asm)
    requires ValidFrame(c, f) && Ready(a, f)
    ensures b == Run(c, a, PacketEvents(f.body) + PacketEvents(f.tail))
    ensures Progress(c, a, b, [f])
    ensures b.fid == Some(f.fid) && (f.EndsWithEof() <==> b.mode == Await)
  {
    RunFrame(c, a, f);
    b := AfterFrame(c, a, f);
    assert [] + f.Image() == f.Image();
    assert Expected(c, [f]) == Outcome(c, f) && TailLengths([f]) == |f.tail| by {
      assert [f][1..] == [];
    }
  }

  lemma ProgressNothing(c: Config, a: Asm)
    ensures Progress(c, a, a, [])
  {
    assert Flush(c, a).out + [] == Flush(c, a).out;
  }

  lemma ProgressCompose(c: Config, a: Asm, b: Asm, d: Asm, fs: seq<SentFrame>)
    requires fs != [] && Progress(c, a, b, [fs[0]]) && Progress(c, b, d, fs[1..])
    ensures Progress(c, a, d, fs)
  {
    hide Flush, Outcome;
    assert [fs[0]][1..] == [];
    assert Expected(c, [fs[0]]) == Outcome(c, fs[0]);
    var first, rest := Expected(c, [fs[0]]), Expected(c, fs[1..]);
    assert Expected(c, fs) == first + rest;
    assert TailLengths(fs) == TailLengths([fs[0]]) + TailLengths(fs[1..]);
    assert Flush(c, a).out + first + rest == Flush(c, a).out + (first + rest);
  }

  lemma {:induction false} RunStream(c: Config, a: Asm, fs: seq<SentFrame>)
    requires ValidStream(c, fs)
    requires fs != [] ==> Ready(a, fs[0])
    ensures Progress(c, a, Run(c, a, Wire(fs)), fs)
    ensures fs != [] && fs[|fs| - 1].EndsWithEof() ==> Run(c, a, Wire(fs)).mode == Await
    decreases |fs|
  {
    hide Progress, Run, ValidFrame, LastIsEof;
    if fs == [] {
      RunNothing(c, a);
      ProgressNothing(c, a);
    } else {
      var first := PacketEvents(fs[0].body) + PacketEvents(fs[0].tail);
      var b := OneFrame(c, a, fs[0]);
      RunAppend(c, a, first, Wire(fs[1..]));
      RunStream(c, b, fs[1..]);
      ProgressCompose(c, a, b, Run(c, b, Wire(fs[1..])), fs);
      if |fs| == 1 {
        RunNothing(c, b);
        assert fs[1..] == [];
      } else {
        assert fs[1..][|fs| - 2] == fs[|fs| - 1];
      }
    }
  }

  /**
   * Exact recovery. Any division of the frames into payloads, an EOF flag on every frame or on the
   * last one only, keepalives after an EOF, wholly lost frames in between (so that a FID repeats):
   * the frames that pass validation come out, bit-exact, in order, each with the timestamp of its
   * first payload; nothing is counted but those frames, the rejected ones and the keepalives.
   */
  lemma {:induction false} ExactRecovery(c: Config, fs: seq<SentFrame>)
    requires ValidStream(c, fs) && fs != [] && fs[|fs| - 1].EndsWithEof()
    ensures var r := Run(c, INITIAL, Wire(fs));
            && r.out == Expected(c, fs)
            && Counted(NO_STATS, r.stats, |r.out|, |fs|, TailLengths(fs))
  {
    hide Run, ValidStream, Expected, Wire;
    RunStream(c, INITIAL, fs);
    assert Flush(c, INITIAL).out == [];
    assert [] + Expected(c, fs) == Expected(c, fs);
  }

  predicate AllOfSize(c: Config, fs: seq<SentFrame>) {
    fs != [] ==> c.expected == Some(|fs[0].Image()|) && AllOfSize(c, fs[1..])
  }

  function AsFrame(f: SentFrame): Frame { Frame(f.Ts(), f.Image()) }

  function SentFrames(fs: seq<SentFrame>): seq<Frame> {
    if fs == [] then [] else [AsFrame(fs[0])] + SentFrames(fs[1..])
  }

  /** In particular, raw frames of the configured size all come out. */
  lemma {:induction false} RawFramesAllAccepted(c: Config, fs: seq<SentFrame>)
    requires !c.mjpeg && AllOfSize(c, fs)
    ensures Expected(c, fs) == SentFrames(fs)
    decreases |fs|
  {
    if fs != [] {
      RawFramesAllAccepted(c, fs[1..]);
    }
  }

  /**
   * Recovery after any damage: whatever state the assembler is in, one intact frame resynchronises
   * it, and the intact frame after that comes out exactly.
   */
  lemma {:induction false} ResyncAfterOneIntactFrame(c: Config, a: Asm, f: SentFrame, g: SentFrame)
    requires ValidFrame(c, f) && ValidFrame(c, g) && g.EndsWithEof()
    requires g.fid != f.fid
    ensures exists before: seq<Frame> ::
              a.out <= before && Run(c, a, Wire([f, g])).out == before + Outcome(c, g)
  {
    hide Run, ValidFrame, Outcome;
    var ef := PacketEvents(f.body) + PacketEvents(f.tail);
    var b := Run(c, a, ef);
    FidAfterFrame(c, a, f);
    var d := OneFrame(c, b, g);
    var eg := PacketEvents(g.body) + PacketEvents(g.tail);
    assert Wire([f, g]) == ef + eg by {
      assert [f, g][1..] == [g] && [g][1..] == [];
      assert Wire([g]) == eg + [];
    }
    RunAppend(c, a, ef, eg);
    OutGrows(c, a, ef);
    assert Expected(c, [g]) == Outcome(c, g) by {
      assert [g][1..] == [];
    }
    assert a.out <= Flush(c, b).out;
  }

  /** After the payloads of a frame, taken in any state, the last FID is that of the frame. */
  lemma {:induction false} FidAfterFrame(c: Config, a: Asm, f: SentFrame)
    requires ValidFrame(c, f)
    ensures Run(c, a, PacketEvents(f.body) + PacketEvents(f.tail)).fid == Some(f.fid)
  {
    var e := Payload(f.body[0].bytes, f.body[0].ts);
    var rest := PacketEvents(f.body[1..]) + PacketEvents(f.tail);
    assert PacketEvents(f.body) + PacketEvents(f.tail) == [e] + rest;
    RunCons(c, a, e, rest);
    var b := Step(c, a, e);
    RunAppend(c, b, PacketEvents(f.body[1..]), PacketEvents(f.tail));
    if |f.body| > 1 {
      KeepFidBody(c, b, f.fid, f.body[1..]);
    }
    KeepFidTail(c, Run(c, b, PacketEvents(f.body[1..])), f.fid, f.tail);
  }

  lemma {:induction false} KeepFidBody(c: Config, a: Asm, fid: nat, ps: seq<Packet>)
    requires a.fid == Some(fid) && SoundBody(c, fid, ps)
    ensures Run(c, a, PacketEvents(ps)).fid == Some(fid)
    decreases |ps|
  {
    var e := Payload(ps[0].bytes, ps[0].ts);
    RunCons(c, a, e, PacketEvents(ps[1..]));
    if |ps| > 1 {
      KeepFidBody(c, Step(c, a, e), fid, ps[1..]);
    }
  }

  lemma {:induction false} KeepFidTail(c: Config, a: Asm, fid: nat, ps: seq<Packet>)
    requires a.fid == Some(fid) && AllKeepalives(c, fid, ps)
    ensures Run(c, a, PacketEvents(ps)).fid == Some(fid)
    decreases |ps|
  {
    if ps != [] {
      var e := Payload(ps[0].bytes, ps[0].ts);
      RunCons(c, a, e, PacketEvents(ps[1..]));
      KeepFidTail(c, Step(c, a, e), fid, ps[1..]);
    }
  }

  /** Frames already returned are never taken back. */
  lemma StepOutGrows(c: Config, a: Asm, e: Event)
    ensures a.out <= Step(c, a, e).out
  {
  }

  lemma {:induction false} OutGrows(c: Config, a: Asm, es: seq<Event>)
    ensures a.out <= Run(c, a, es).out
    decreases |es|
  {
    hide Step;
    if es != [] {
      StepOutGrows(c, a, es[0]);
      OutGrows(c, Step(c, a, es[0]), es[1..]);
    }
  }
}
