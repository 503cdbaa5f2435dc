/** The UVC payload header and the frame assembly state machine: core-driver/cam_driver/uvcpcap.py. */
module UvcAssembler {
  import opened Common

  /** What the extractor is configured with. `expected` is None when any frame size is accepted. */
  datatype Config = Config(expected: Option<nat>, mjpeg: bool, strict: bool, maxPayload: nat)

  datatype Header = Header(length: nat, info: byte)

  // bmHeaderInfo: FID is bit 0, EOF bit 1, PTS bit 2, SCR bit 3, ERR bit 6.
  function FidBit(info: byte): nat { info % 2 }
  predicate EofBit(info: byte) { (info / 2) % 2 == 1 }
  predicate PtsBit(info: byte) { (info / 4) % 2 == 1 }
  predicate ScrBit(info: byte) { (info / 8) % 2 == 1 }
  predicate ErrBit(info: byte) { (info / 64) % 2 == 1 }

  function ImpliedLength(info: byte): nat {
    2 + (if PtsBit(info) then 4 else 0) + (if ScrBit(info) then 6 else 0)
  }

  function ParseHeader(payload: seq<byte>, strict: bool): (h: Option<Header>)
    ensures h.Some? ==> 2 <= h.value.length <= |payload|
  {
    if |payload| < 2 then None
    else
      var implied := ImpliedLength(payload[1]);
      if strict && (payload[0] != implied || payload[0] > |payload|) then None
      else if !strict && !(implied <= payload[0] <= |payload|) then None
      else Some(Header(payload[0], payload[1]))
  }

  // ---- what a payload carries, once its header is known to parse -------------------------

  predicate Parses(c: Config, p: seq<byte>) { ParseHeader(p, c.strict).Some? }
  function Info(p: seq<byte>): byte { if |p| >= 2 then p[1] else 0 }
  function Fid(p: seq<byte>): nat { FidBit(Info(p)) }
  predicate Eof(p: seq<byte>) { EofBit(Info(p)) }
  predicate Err(p: seq<byte>) { ErrBit(Info(p)) }
  function Data(p: seq<byte>): seq<byte> { if p != [] && p[0] <= |p| then p[p[0]..] else [] }

  // ---- the state machine ---------------------------------------------------------------

  datatype Frame = Frame(ts: int, bytes: seq<byte>)
  datatype Mode = Accum | Await | Skip
  datatype Stats = Stats(framesOk: nat, errFrames: nat, truncated: nat, badHeader: nat, trailing: nat, sizeDrops: nat)

  /** The assembly part of the extractor: `fid` is the frame id being accumulated, or the last one finished. */
  datatype Asm = Asm(mode: Mode, fid: Option<nat>, buf: seq<byte>, startTs: int, stats: Stats, out: seq<Frame>)

  const NO_STATS := Stats(0, 0, 0, 0, 0, 0)
  const INITIAL := Asm(Await, None, [], 0, NO_STATS, [])

  function StripZeros(b: seq<byte>): seq<byte> {
    if b != [] && b[|b| - 1] == 0 then StripZeros(b[..|b| - 1]) else b
  }

  predicate IsJpeg(b: seq<byte>) {
    |b| >= 2 && b[..2] == [0xFF, 0xD8] && b[|b| - 2..] == [0xFF, 0xD9]
  }

  /** The frame a complete buffer stands for, or None when it fails validation. */
  function Accept(c: Config, b: seq<byte>): Option<seq<byte>> {
    if c.mjpeg then
      if IsJpeg(StripZeros(b)) then Some(StripZeros(b)) else None
    else if c.expected.None? || |b| == c.expected.value then Some(b)
    else None
  }

  function Finalize(c: Config, a: Asm): Asm {
    match Accept(c, a.buf)
    case Some(image) =>
      a.(buf := [], stats := a.stats.(framesOk := a.stats.framesOk + 1), out := a.out + [Frame(a.startTs, image)])
    case None =>
      a.(buf := [], stats := a.stats.(sizeDrops := a.stats.sizeDrops + 1))
  }

  function Begin(a: Asm, fid: nat, ts: int): Asm {
    a.(mode := Accum, fid := Some(fid), startTs := ts, buf := [])
  }

  /** Drop the frame being accumulated, if any: it has a hole. */
  function Poison(a: Asm): Asm {
    if a.mode == Accum then a.(mode := Skip, buf := []) else a
  }

  /** Bytes known to be missing from the capture. */
  function Truncated(a: Asm): Asm {
    Poison(a.(stats := a.stats.(truncated := a.stats.truncated + 1)))
  }

  function Append(c: Config, a: Asm, p: seq<byte>): Asm {
    var b := a.(buf := a.buf + Data(p));
    if Eof(p) then Finalize(c, b).(mode := Await) else b
  }

  /** One payload in the ACCUM state. */
  function Accumulate(c: Config, a: Asm, p: seq<byte>, ts: int): Asm {
    if Err(p) then a.(mode := Skip, buf := [], stats := a.stats.(errFrames := a.stats.errFrames + 1))
    else if a.fid != Some(Fid(p)) then Append(c, Begin(Finalize(c, a), Fid(p), ts), p)
    else Append(c, a, p)
  }

  function Feed(c: Config, a: Asm, p: seq<byte>, ts: int): Asm {
    if !Parses(c, p) then Poison(a.(stats := a.stats.(badHeader := a.stats.badHeader + 1)))
    else
      match a.mode
      case Await =>
        if a.fid == Some(Fid(p)) && Data(p) == [] then a.(stats := a.stats.(trailing := a.stats.trailing + 1))
        else Accumulate(c, Begin(a, Fid(p), ts), p, ts)
      case Skip =>
        if a.fid == Some(Fid(p)) then a else Accumulate(c, Begin(a, Fid(p), ts), p, ts)
      case Accum => Accumulate(c, a, p, ts)
  }

  // ---- runs ----------------------------------------------------------------------------

  /** What the transport layer reports: a whole payload, bytes known to be lost, or a payload given up as too long. */
  datatype Event = Payload(bytes: seq<byte>, ts: int) | Lost | Oversize

  function Step(c: Config, a: Asm, e: Event): Asm {
    match e
    case Payload(p, ts) => Feed(c, a, p, ts)
    case Lost => Truncated(a)
    case Oversize => a.(stats := a.stats.(truncated := a.stats.truncated + 1))
  }

  function Run(c: Config, a: Asm, es: seq<Event>): Asm
    decreases |es|
  {
    if es == [] then a else Run(c, Step(c, a, es[0]), es[1..])
  }

  lemma {:induction false} RunNothing(c: Config, a: Asm)
    ensures Run(c, a, []) == a
  {
  }

  lemma {:induction false} RunCons(c: Config, a: Asm, e: Event, es: seq<Event>)
    ensures Run(c, a, [e] + es) == Run(c, Step(c, a, e), es)
  {
    hide Step;
    assert ([e] + es)[1..] == es;
  }

  lemma {:induction false} RunOne(c: Config, a: Asm, e: Event)
    ensures Run(c, a, [e]) == Step(c, a, e)
  {
    RunCons(c, a, e, []);
    assert [e] + [] == [e];
  }

  lemma {:induction false} RunAppend(c: Config, a: Asm, es: seq<Event>, fs: seq<Event>)
    ensures Run(c, a, es + fs) == Run(c, Run(c, a, es), fs)
    decreases |es|
  {
    hide Step;
    if es == [] {
      assert es + fs == fs;
    } else {
      assert (es + fs)[0] == es[0] && (es + fs)[1..] == es[1..] + fs;
      RunAppend(c, Step(c, a, es[0]), es[1..], fs);
    }
  }
}
