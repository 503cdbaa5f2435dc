/** Classic pcap files: core-driver/cam_driver/pcapio.py, _iter_pcap. */
module PcapClassic {
  import opened Common
  import opened PcapIo

  /** A writer's byte order, and how many nanoseconds its fractions count. */
  datatype Format = Format(endian: Endian, unit: nat)

  const MICROS_LITTLE: seq<byte> := [0xD4, 0xC3, 0xB2, 0xA1]
  const MICROS_BIG: seq<byte> := [0xA1, 0xB2, 0xC3, 0xD4]
  const NANOS_LITTLE: seq<byte> := [0x4D, 0x3C, 0xB2, 0xA1]
  const NANOS_BIG: seq<byte> := [0xA1, 0xB2, 0x3C, 0x4D]

  function FormatOf(magic: seq<byte>): Option<Format> {
    if magic == MICROS_LITTLE then Some(Format(Little, 1000))
    else if magic == MICROS_BIG then Some(Format(Big, 1000))
    else if magic == NANOS_LITTLE then Some(Format(Little, 1))
    else if magic == NANOS_BIG then Some(Format(Big, 1))
    else None
  }

  function TsOf(f: Format, s: seq<byte>): int
    requires |s| >= 16
  {
    At32(f.endian, s, 0) * BILLION + At32(f.endian, s, 4) * f.unit
  }

  /** The records of a file after its global header. */
  function Records(f: Format, link: nat, s: seq<byte>): Outcome
    decreases |s|
  {
    if |s| < 16 then Outcome([], None)
    else
      var length := At32(f.endian, s, 8);
      if length > MAX_RECORD then Outcome([], Some(Oversized))
      else if |s| < 16 + length then Outcome([], None)
      else Then([Packet(link, TsOf(f, s), s[16..16 + length])], Records(f, link, s[16 + length..]))
  }

  /** A classic file from its first byte. */
  function Read(s: seq<byte>): Outcome {
    if |s| < 4 || FormatOf(s[..4]).None? then Outcome([], Some(BadMagic))
    else if |s| < 24 then Outcome([], Some(ShortHeader))
    else
      var f := FormatOf(s[..4]).value;
      Records(f, At32(f.endian, s, 20), s[24..])
  }

  lemma ThenAssociative(a: seq<Packet>, b: seq<Packet>, rest: Outcome)
    ensures Then(a, Then(b, rest)) == Then(a + b, rest)
  {
    Associative(a, b, rest.packets);
  }

  method IterPcap(s: seq<byte>) returns (r: Outcome)
    ensures r == Read(s)
  {
    hide At32, FormatOf, TsOf;
    if |s| < 4 || FormatOf(s[..4]).None? {
      return Outcome([], Some(BadMagic));
    }
    if |s| < 24 {
      return Outcome([], Some(ShortHeader));
    }
    var f := FormatOf(s[..4]).value;
    var link := At32(f.endian, s, 20);
    var packets := [];
    var pos := 24;
    while true
      invariant 24 <= pos <= |s|
      invariant Then(packets, Records(f, link, s[pos..])) == Read(s)
      decreases |s| - pos
    {
      var rest := s[pos..];
      if |rest| < 16 {
        return Outcome(packets, None);
      }
      var length := At32(f.endian, rest, 8);
      if length > MAX_RECORD {
        return Outcome(packets, Some(Oversized));
      }
      if |rest| < 16 + length {
        return Outcome(packets, None);
      }
      var packet := Packet(link, TsOf(f, rest), rest[16..16 + length]);
      assert rest[16 + length..] == s[pos + 16 + length..];
      ThenAssociative(packets, [packet], Records(f, link, rest[16 + length..]));
      packets := packets + [packet];
      pos := pos + 16 + length;
    }
  }

  // ---- a capture that was cut off ----------------------------------------------------------

  /** `a` is what is left of `b` when its file ends early: some packets fewer, and no fault `b` does not have. */
  predicate CutOf(a: Outcome, b: Outcome) { a == b || (a.packets <= b.packets && a.fault.None?) }

  lemma NothingIsCut(b: Outcome)
    ensures CutOf(Outcome([], None), b) && CutOf(b, b)
  {
  }

  lemma ThenCut(out: seq<Packet>, a: Outcome, b: Outcome)
    requires CutOf(a, b)
    ensures CutOf(Then(out, a), Then(out, b))
  {
  }

  lemma {:induction false} RecordsCut(f: Format, link: nat, s: seq<byte>, n: nat)
    requires n <= |s|
    ensures CutOf(Records(f, link, s[..n]), Records(f, link, s))
    decreases |s|
  {
    hide At32, At16, CutOf;
    var t := s[..n];
    NothingIsCut(Records(f, link, s));
    if n >= 16 {
      var length := At32(f.endian, s, 8);
      AtPrefix(f.endian, s, n, 0);
      AtPrefix(f.endian, s, n, 4);
      AtPrefix(f.endian, s, n, 8);
      if length <= MAX_RECORD && n >= 16 + length {
        RecordsCut(f, link, s[16 + length..], n - 16 - length);
        assert t[16 + length..] == s[16 + length..][..n - 16 - length];
        assert t[16..16 + length] == s[16..16 + length];
        ThenCut([Packet(link, TsOf(f, s), s[16..16 + length])], Records(f, link, t[16 + length..]), Records(f, link, s[16 + length..]));
      }
    }
  }

  /** Cut anywhere behind its global header, a file gives a prefix of its packets and no new fault. */
  lemma CutFileKeepsPrefix(s: seq<byte>, n: nat)
    requires 24 <= n <= |s|
    ensures CutOf(Read(s[..n]), Read(s))
  {
    var t := s[..n];
    assert t[..4] == s[..4] && t[20..24] == s[20..24];
    if FormatOf(s[..4]).Some? {
      var f := FormatOf(s[..4]).value;
      RecordsCut(f, At32(f.endian, s, 20), s[24..], n - 24);
      assert t[24..] == s[24..][..n - 24];
    }
  }

  // ---- writing -------------------------------------------------------------------------

  datatype Record = Record(sec: nat, fraction: nat, data: seq<byte>)

  predicate Fits(r: Record) { r.sec < 0x1_0000_0000 && r.fraction < 0x1_0000_0000 && |r.data| <= MAX_RECORD }

  predicate AllFit(rs: seq<Record>)
    decreases |rs|
  {
    rs == [] || (Fits(rs[0]) && AllFit(rs[1..]))
  }

  function RecordBytes(e: Endian, r: Record): seq<byte>
    requires Fits(r)
  {
    Put32(e, r.sec) + Put32(e, r.fraction) + Put32(e, |r.data|) + Put32(e, |r.data|) + r.data
  }

  function RecordsBytes(e: Endian, rs: seq<Record>): seq<byte>
    requires AllFit(rs)
    decreases |rs|
  {
    if rs == [] then [] else RecordBytes(e, rs[0]) + RecordsBytes(e, rs[1..])
  }

  function Magic(f: Format): seq<byte> {
    if f.endian.Little? then (if f.unit == 1 then NANOS_LITTLE else MICROS_LITTLE)
    else (if f.unit == 1 then NANOS_BIG else MICROS_BIG)
  }

  /** `middle`: version, zone, significant figures and snap length, which the reader does not act on. */
  function FileBytes(f: Format, middle: seq<byte>, link: nat, rs: seq<Record>): seq<byte>
    requires link < 0x1_0000_0000 && AllFit(rs)
  {
    Magic(f) + middle + Put32(f.endian, link) + RecordsBytes(f.endian, rs)
  }

  function Packets(f: Format, link: nat, rs: seq<Record>): seq<Packet>
    decreases |rs|
  {
    if rs == [] then []
    else [Packet(link, rs[0].sec * BILLION + rs[0].fraction * f.unit, rs[0].data)] + Packets(f, link, rs[1..])
  }

  lemma RecordFields(e: Endian, r: Record, more: seq<byte>)
    requires Fits(r)
    ensures var s := RecordBytes(e, r) + more;
            && |RecordBytes(e, r)| == 16 + |r.data|
            && At32(e, s, 0) == r.sec && At32(e, s, 4) == r.fraction && At32(e, s, 8) == |r.data|
            && s[16..16 + |r.data|] == r.data && s[16 + |r.data|..] == more
  {
    hide Put32, Get32;
    var s := RecordBytes(e, r) + more;
    assert s[0..4] == Put32(e, r.sec) && s[4..8] == Put32(e, r.fraction) && s[8..12] == Put32(e, |r.data|);
  }

  lemma {:induction false} RecordsReadBack(f: Format, link: nat, rs: seq<Record>)
    requires AllFit(rs)
    ensures Records(f, link, RecordsBytes(f.endian, rs)) == Outcome(Packets(f, link, rs), None)
    decreases |rs|
  {
    hide RecordBytes, At32;
    if rs != [] {
      RecordFields(f.endian, rs[0], RecordsBytes(f.endian, rs[1..]));
      RecordsReadBack(f, link, rs[1..]);
    }
  }

  /** Any packets, in either byte order and either resolution, read back as they were written. */
  lemma {:induction false} ReadsBack(f: Format, middle: seq<byte>, link: nat, rs: seq<Record>)
    requires f.unit == 1 || f.unit == 1000
    requires |middle| == 16 && link < 0x1_0000_0000 && AllFit(rs)
    ensures Read(FileBytes(f, middle, link, rs)) == Outcome(Packets(f, link, rs), None)
  {
    hide Put32, Get32, RecordsBytes, Records;
    var s := FileBytes(f, middle, link, rs);
    assert s[..4] == Magic(f) && s[20..24] == Put32(f.endian, link) && s[24..] == RecordsBytes(f.endian, rs);
    RecordsReadBack(f, link, rs);
  }
}
