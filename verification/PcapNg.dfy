/**
 * Block-structured capture files: core-driver/cam_driver/pcapio.py, _iter_pcapng, after sections 4.1
 * to 4.3 of draft-ietf-opsawg-pcapng.
 */
module PcapNg {
  import opened Common
  import opened PcapIo
  import PcapClassic

  const MAGIC: seq<byte> := [0x0A, 0x0D, 0x0D, 0x0A]
  const ORDER_LITTLE: seq<byte> := [0x4D, 0x3C, 0x2B, 0x1A]
  const ORDER_BIG: seq<byte> := [0x1A, 0x2B, 0x3C, 0x4D]

  const IDB: nat := 1
  const EPB: nat := 6

  datatype Interface = Interface(link: nat, tsresol: byte)

  // ---- interface options ---------------------------------------------------------------

  /** What scanning the options of an interface comes to. */
  datatype Scan = Resolved(tsresol: byte) | Crash

  /** The options after the first of them. */
  function NextOption(e: Endian, opts: seq<byte>): (rest: seq<byte>)
    requires |opts| >= 4
    ensures |rest| < |opts|
  {
    var n := 4 + (At16(e, opts, 2) + 3) / 4 * 4;
    if n <= |opts| then opts[n..] else []
  }

  predicate EndOption(e: Endian, opts: seq<byte>) requires |opts| >= 4 { At16(e, opts, 0) == 0 }

  /** if_tsresol with a length of at least one. */
  predicate Resolves(e: Endian, opts: seq<byte>) requires |opts| >= 4 { At16(e, opts, 0) == 9 && At16(e, opts, 2) >= 1 }

  function ScanOptions(e: Endian, opts: seq<byte>, tsresol: byte): Scan
    decreases |opts|
  {
    if |opts| < 4 || EndOption(e, opts) then Resolved(tsresol)
    else if Resolves(e, opts) then
      if |opts| < 5 then Crash else ScanOptions(e, NextOption(e, opts), opts[4])
    else ScanOptions(e, NextOption(e, opts), tsresol)
  }

  method ScanOptionsLoop(e: Endian, options: seq<byte>) returns (r: Scan)
    ensures r == ScanOptions(e, options, 6)
  {
    var opts, tsresol := options, 6;
    while |opts| >= 4
      invariant ScanOptions(e, opts, tsresol) == ScanOptions(e, options, 6)
      decreases |opts|
    {
      if EndOption(e, opts) {
        break;
      }
      if Resolves(e, opts) {
        if |opts| < 5 {
          return Crash;
        }
        tsresol := opts[4];
      }
      opts := NextOption(e, opts);
    }
    return Resolved(tsresol);
  }

  /** Where the scan stops, read off the lengths alone: the end mark, or the last header that is there. */
  function LastHeader(e: Endian, opts: seq<byte>): seq<byte>
    decreases |opts|
  {
    if |opts| <= 4 || EndOption(e, opts) then opts else LastHeader(e, NextOption(e, opts))
  }

  /** Reading the options goes wrong exactly when they end on the header of an if_tsresol whose value is missing. */
  lemma {:induction false} CrashExactly(e: Endian, opts: seq<byte>, tsresol: byte)
    ensures ScanOptions(e, opts, tsresol).Crash?
            <==> |LastHeader(e, opts)| == 4 && !EndOption(e, LastHeader(e, opts)) && Resolves(e, LastHeader(e, opts))
    decreases |opts|
  {
    hide At16;
    if |opts| > 4 && !EndOption(e, opts) {
      CrashExactly(e, NextOption(e, opts), if Resolves(e, opts) then opts[4] else tsresol);
    }
  }

  // ---- reading a block -----------------------------------------------------------------

  /** One turn of the reading loop. */
  datatype Turn = Stop | Fail(fault: Fault) | Block(size: nat, endian: Endian, interfaces: seq<Interface>, out: seq<Packet>)

  function SectionTurn(s: seq<byte>): Turn
    requires |s| >= 4
  {
    if |s| < 12 then Stop
    else if s[8..12] != ORDER_LITTLE && s[8..12] != ORDER_BIG then Fail(BadByteOrder)
    else
      var e := if s[8..12] == ORDER_LITTLE then Little else Big;
      var total := At32(e, s, 4);
      if !(12 <= total <= MAX_RECORD) then Fail(BadLength)
      else if |s| < total then Stop
      else Block(total, e, [], [])
  }

  /** What the body of a block other than a section header does. */
  function BodyTurn(size: nat, kind: nat, body: seq<byte>, e: Endian, ifs: seq<Interface>): Turn {
    if kind == IDB then
      if |body| < 8 then Fail(ShortInterface)
      else
        (match ScanOptions(e, body[8..], 6)
         case Crash => Fail(CutOption)
         case Resolved(tsresol) => Block(size, e, ifs + [Interface(At16(e, body, 0), tsresol)], []))
    else if kind == EPB then
      if |body| < 20 then Fail(ShortPacket)
      else if At32(e, body, 0) >= |ifs| then Fail(UnknownInterface)
      else if At32(e, body, 12) > |body| - 20 then Fail(BadCaptureLength)
      else Block(size, e, ifs, [PacketOf(e, ifs[At32(e, body, 0)], body)])
    else Block(size, e, ifs, [])
  }

  function PacketOf(e: Endian, i: Interface, body: seq<byte>): Packet
    requires |body| >= 20 && At32(e, body, 12) <= |body| - 20
  {
    Packet(i.link, ToNs(i.tsresol, At32(e, body, 4) * 0x1_0000_0000 + At32(e, body, 8)),
           body[20..20 + At32(e, body, 12)])
  }

  function BlockTurn(s: seq<byte>, e: Endian, ifs: seq<Interface>): (t: Turn)
    ensures t.Block? ==> 12 <= t.size <= |s|
  {
    if |s| < 4 then Stop
    else if s[..4] == MAGIC then SectionTurn(s)
    else if |s| < 8 then Stop
    else
      var total := At32(e, s, 4);
      if !(12 <= total <= MAX_RECORD) || total % 4 != 0 then Fail(BadLength)
      else if |s| < total then Stop
      else BodyTurn(total, At32(e, s, 0), s[8..total - 4], e, ifs)
  }

  /** From a block boundary to the end of the file. */
  function Blocks(s: seq<byte>, e: Endian, ifs: seq<Interface>): Outcome
    decreases |s|
  {
    match BlockTurn(s, e, ifs)
    case Stop => Outcome([], None)
    case Fail(fault) => Outcome([], Some(fault))
    case Block(size, e', ifs', out) => Then(out, Blocks(s[size..], e', ifs'))
  }

  /** A file from its first byte: the byte order is set by the section header it must begin with. */
  function Read(s: seq<byte>): Outcome {
    if |s| < 4 || s[..4] != MAGIC then Outcome([], Some(BadMagic)) else Blocks(s, Little, [])
  }

  lemma ThenNothing(rest: Outcome)
    ensures Then([], rest) == rest
  {
    assert [] + rest.packets == rest.packets;
  }

  method IterPcapng(s: seq<byte>) returns (r: Outcome)
    ensures r == Read(s)
  {
    hide BlockTurn;
    if |s| < 4 || s[..4] != MAGIC {
      return Outcome([], Some(BadMagic));
    }
    var pos, endian, interfaces: seq<Interface>, packets := 0, Little, [], [];
    assert s[0..] == s;
    ThenNothing(Blocks(s, Little, []));
    while true
      invariant 0 <= pos <= |s|
      invariant Then(packets, Blocks(s[pos..], endian, interfaces)) == Blocks(s, Little, [])
      decreases |s| - pos
    {
      match BlockTurn(s[pos..], endian, interfaces) {
        case Stop => return Outcome(packets, None);
        case Fail(fault) => return Outcome(packets, Some(fault));
        case Block(size, e, ifs, out) =>
          assert s[pos..][size..] == s[pos + size..];
          PcapClassic.ThenAssociative(packets, out, Blocks(s[pos + size..], e, ifs));
          pos, endian, interfaces, packets := pos + size, e, ifs, packets + out;
      }
    }
  }

  // ---- a capture that was cut off ----------------------------------------------------------

  lemma SectionTurnCut(s: seq<byte>, n: nat)
    requires 4 <= n <= |s|
    ensures SectionTurn(s[..n]).Stop? || (SectionTurn(s[..n]) == SectionTurn(s) && (SectionTurn(s).Block? ==> SectionTurn(s).size <= n))
  {
    hide At32;
    if n >= 12 {
      assert s[..n][8..12] == s[8..12];
      AtPrefix(Little, s, n, 4);
      AtPrefix(Big, s, n, 4);
    }
  }

  lemma SlicePrefix(s: seq<byte>, n: nat, i: nat, j: nat)
    requires i <= j <= n <= |s|
    ensures s[..n][i..j] == s[i..j]
  {
  }

  /** A turn over the beginning of what there was is the same turn, or the end. */
  lemma TurnCut(s: seq<byte>, n: nat, e: Endian, ifs: seq<Interface>)
    requires n <= |s|
    ensures var t := BlockTurn(s[..n], e, ifs);
            t.Stop? || (t == BlockTurn(s, e, ifs) && (t.Block? ==> t.size <= n))
  {
    hide At32, At16, BodyTurn, SectionTurn;
    var t := s[..n];
    if n >= 4 {
      assert t[..4] == s[..4];
      SectionTurnCut(s, n);
    }
    if n >= 8 {
      AtPrefix(e, s, n, 0);
      AtPrefix(e, s, n, 4);
      var total := At32(e, s, 4);
      if 12 <= total <= n { SlicePrefix(s, n, 8, total - 4); }
    }
  }

  lemma {:induction false} BlocksCut(s: seq<byte>, n: nat, e: Endian, ifs: seq<Interface>)
    requires n <= |s|
    ensures PcapClassic.CutOf(Blocks(s[..n], e, ifs), Blocks(s, e, ifs))
    decreases |s|
  {
    hide BlockTurn, PcapClassic.CutOf;
    TurnCut(s, n, e, ifs);
    PcapClassic.NothingIsCut(Blocks(s, e, ifs));
    var t := BlockTurn(s[..n], e, ifs);
    if t.Block? {
      BlocksCut(s[t.size..], n - t.size, t.endian, t.interfaces);
      assert s[..n][t.size..] == s[t.size..][..n - t.size];
      PcapClassic.ThenCut(t.out, Blocks(s[..n][t.size..], t.endian, t.interfaces), Blocks(s[t.size..], t.endian, t.interfaces));
    }
  }

  /** Cut anywhere behind its magic, a file gives a prefix of its packets and no new fault. */
  lemma CutFileKeepsPrefix(s: seq<byte>, n: nat)
    requires 4 <= n <= |s|
    ensures PcapClassic.CutOf(Read(s[..n]), Read(s))
  {
    assert s[..n][..4] == s[..4];
    BlocksCut(s, n, Little, []);
  }
}
