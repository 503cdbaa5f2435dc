/** Capture files byte by byte, as core-driver/cam_driver/pcapio.py takes them. */
module CaptureBytes {
  import opened Common
  import opened PcapIo
  import PcapClassic
  import PcapNg

  /** Four bytes as a number: the lightest first, or last. */
  function Number(little: bool, s: seq<byte>): nat
    requires |s| == 4
  {
    var a: nat, b: nat, c: nat, d: nat := s[0], s[1], s[2], s[3];
    if little then a + 0x100 * b + 0x1_0000 * c + 0x100_0000 * d else 0x100_0000 * a + 0x1_0000 * b + 0x100 * c + d
  }

  function Order(little: bool): Endian { if little then Little else Big }

  lemma NumberIs(little: bool, s: seq<byte>)
    requires |s| == 4
    ensures Get32(Order(little), s) == Number(little, s)
  {
  }

  lemma NumberAt(little: bool, s: seq<byte>, i: nat)
    requires i + 4 <= |s|
    ensures At32(Order(little), s, i) == Number(little, s[i..i + 4])
  {
    hide Get32;
    NumberIs(little, s[i..i + 4]);
  }

  // ---- the clocks ------------------------------------------------------------------------------

  lemma {:induction false} PowerOne(b: nat, n: nat)
    ensures Pow(b, n + 1) == b * Pow(b, n) && Pow(b, 0) == 1
  {
  }

  lemma {:induction false} Powers()
    ensures Pow(10, 3) == 1000 && Pow(10, 9) == 1_000_000_000 && Pow(2, 10) == 1024
  {
    hide Pow;
    PowerOne(10, 0);
    PowerOne(10, 1);
    PowerOne(10, 2);
    PowerOne(10, 3);
    PowerOne(10, 4);
    PowerOne(10, 5);
    PowerOne(10, 6);
    PowerOne(10, 7);
    PowerOne(10, 8);
    PowerOne(2, 0);
    PowerOne(2, 1);
    PowerOne(2, 2);
    PowerOne(2, 3);
    PowerOne(2, 4);
    PowerOne(2, 5);
    PowerOne(2, 6);
    PowerOne(2, 7);
    PowerOne(2, 8);
    PowerOne(2, 9);
  }

  /** Seconds, milliseconds, microseconds, nanoseconds, picoseconds, and 1/1024 of a second. */
  lemma {:induction false} Clocks(ticks: nat)
    ensures ToNs(0, ticks) == ticks * 1_000_000_000
    ensures ToNs(3, ticks) == ticks * 1_000_000
    ensures ToNs(6, ticks) == ticks * 1000
    ensures ToNs(9, ticks) == ticks
    ensures ToNs(12, ticks) == ticks / 1000
    ensures ToNs(0x8A, ticks) == ticks * 1_000_000_000 / 1024
  {
    Powers();
    PowAdds(10, 3, 3);
    PowerOne(10, 0);
    assert Pow(10, 6) == 1_000_000;
    hide Pow;
  }

  // ---- a classic file ----------------------------------------------------------------------

  /** The four magic numbers, by byte order and by what fractions count. */
  function ClassicMagic(little: bool, nanos: bool): seq<byte> {
    if little then [if nanos then 0x4D else 0xD4, if nanos then 0x3C else 0xC3, 0xB2, 0xA1]
    else [0xA1, 0xB2, if nanos then 0x3C else 0xC3, if nanos then 0x4D else 0xD4]
  }

  /** A record as it stands in the file. */
  datatype Raw = Raw(sec: seq<byte>, fraction: seq<byte>, length: seq<byte>, wire: seq<byte>, data: seq<byte>)

  predicate Whole(r: Raw) { |r.sec| == 4 && |r.fraction| == 4 && |r.length| == 4 && |r.wire| == 4 }

  function Bytes(r: Raw): seq<byte> { r.sec + r.fraction + r.length + r.wire + r.data }

  lemma RawFields(little: bool, r: Raw, more: seq<byte>)
    requires Whole(r)
    ensures var s := Bytes(r) + more;
            && |s| >= 16 && s[16..] == r.data + more
            && At32(Order(little), s, 0) == Number(little, r.sec)
            && At32(Order(little), s, 4) == Number(little, r.fraction)
            && At32(Order(little), s, 8) == Number(little, r.length)
  {
    hide Number, At32;
    var s := Bytes(r) + more;
    NumberAt(little, s, 0);
    NumberAt(little, s, 4);
    NumberAt(little, s, 8);
    assert s[0..4] == r.sec && s[4..8] == r.fraction && s[8..12] == r.length;
  }

  /**
   * One record, from its bytes, and the records after it: its length in bytes 8 to 11, up to 256 MiB;
   * its time in seconds and micro- or nanoseconds; and it is given up if there is less of it.
   */
  lemma {:induction false} RecordByBytes(little: bool, nanos: bool, link: nat, r: Raw, more: seq<byte>)
    requires Whole(r)
    ensures var f := PcapClassic.Format(Order(little), if nanos then 1 else 1000);
            var out := PcapClassic.Records(f, link, Bytes(r) + more);
            var n := Number(little, r.length);
            if n > 268_435_456 then out == Outcome([], Some(Oversized))
            else if n > |r.data + more| then out == Outcome([], None)
            else
              out == Then([Packet(link, Number(little, r.sec) * 1_000_000_000
                                        + Number(little, r.fraction) * (if nanos then 1 else 1000), (r.data + more)[..n])],
                          PcapClassic.Records(f, link, (r.data + more)[n..]))
  {
    hide Number, At32, Bytes;
    RawFields(little, r, more);
    var s, n := Bytes(r) + more, Number(little, r.length);
    if n <= |r.data + more| {
      assert s[16..16 + n] == (r.data + more)[..n] && s[16 + n..] == (r.data + more)[n..];
    }
  }

  /** A file, from its bytes: magic number, sixteen bytes that do not matter, link type, records. */
  lemma {:induction false} ClassicByBytes(little: bool, nanos: bool, middle: seq<byte>, link: seq<byte>, rest: seq<byte>)
    requires |middle| == 16 && |link| == 4
    ensures PcapClassic.Read(ClassicMagic(little, nanos) + middle + link + rest)
         == PcapClassic.Records(PcapClassic.Format(Order(little), if nanos then 1 else 1000), Number(little, link), rest)
  {
    hide Number, At32, PcapClassic.Records;
    var s := ClassicMagic(little, nanos) + middle + link + rest;
    NumberAt(little, s, 20);
    assert s[..4] == ClassicMagic(little, nanos) && s[20..24] == link && s[24..] == rest;
    assert PcapClassic.FormatOf(s[..4]) == Some(PcapClassic.Format(Order(little), if nanos then 1 else 1000)) by {
      MagicRead(little, nanos);
    }
  }

  lemma MagicRead(little: bool, nanos: bool)
    ensures PcapClassic.FormatOf(ClassicMagic(little, nanos))
         == Some(PcapClassic.Format(Order(little), if nanos then 1 else 1000))
  {
    var m := ClassicMagic(little, nanos);
    assert m[0] == 0xD4 || m[0] == 0x4D || m[0] == 0xA1;
    assert PcapClassic.MICROS_LITTLE[0] == 0xD4 && PcapClassic.NANOS_LITTLE[0] == 0x4D;
    assert PcapClassic.MICROS_BIG[0] == 0xA1 && PcapClassic.NANOS_BIG[0] == 0xA1;
    assert PcapClassic.MICROS_BIG[3] == 0xD4 && PcapClassic.NANOS_BIG[3] == 0x4D;
  }

  /** A file that ends inside its header, and one that does not begin with a magic number at all. */
  lemma ClassicRefused(s: seq<byte>)
    ensures var known := exists little, nanos :: |s| >= 4 && s[..4] == ClassicMagic(little, nanos);
            PcapClassic.Read(s).fault == Some(BadMagic) <==> !known
    ensures (|s| < 24 && exists little, nanos :: |s| >= 4 && s[..4] == ClassicMagic(little, nanos))
            <==> PcapClassic.Read(s).fault == Some(ShortHeader)
  {
    hide ClassicMagic, PcapClassic.FormatOf, PcapClassic.Records;
    if |s| >= 4 {
      FormatKnown(s[..4]);
      if |s| >= 24 && PcapClassic.FormatOf(s[..4]).Some? {
        var f := PcapClassic.FormatOf(s[..4]).value;
        RecordsFault(f, At32(f.endian, s, 20), s[24..]);
      }
    }
  }

  lemma FormatKnown(m: seq<byte>)
    requires |m| == 4
    ensures PcapClassic.FormatOf(m).Some? <==> exists little, nanos :: m == ClassicMagic(little, nanos)
  {
    MagicRead(true, true);
    MagicRead(true, false);
    MagicRead(false, true);
    MagicRead(false, false);
    assert ClassicMagic(true, true) == PcapClassic.NANOS_LITTLE && ClassicMagic(true, false) == PcapClassic.MICROS_LITTLE;
    assert ClassicMagic(false, true) == PcapClassic.NANOS_BIG && ClassicMagic(false, false) == PcapClassic.MICROS_BIG;
    forall little, nanos | m == ClassicMagic(little, nanos) ensures PcapClassic.FormatOf(m).Some? {
      MagicRead(little, nanos);
    }
  }

  lemma {:induction false} RecordsFault(f: PcapClassic.Format, link: nat, s: seq<byte>)
    ensures var fault := PcapClassic.Records(f, link, s).fault; fault == None || fault == Some(Oversized)
    decreases |s|
  {
    hide At32, PcapClassic.TsOf;
    if |s| >= 16 && At32(f.endian, s, 8) <= MAX_RECORD && |s| >= 16 + At32(f.endian, s, 8) {
      RecordsFault(f, link, s[16 + At32(f.endian, s, 8)..]);
    }
  }

  // ---- a pcapng file ---------------------------------------------------------------------------

  /** A section header of 28 bytes. */
  function Section(little: bool, version: seq<byte>): seq<byte>
    requires |version| == 12
  {
    [0x0A, 0x0D, 0x0D, 0x0A] + (if little then [28, 0, 0, 0] else [0, 0, 0, 28])
    + (if little then [0x4D, 0x3C, 0x2B, 0x1A] else [0x1A, 0x2B, 0x3C, 0x4D]) + version
    + (if little then [28, 0, 0, 0] else [0, 0, 0, 28])
  }

  function Small(little: bool, n: byte): seq<byte> { if little then [n, 0, 0, 0] else [0, 0, 0, n] }
  function Smaller(little: bool, n: byte): seq<byte> { if little then [n, 0] else [0, n] }

  /** An interface (block type 1, 32 bytes) that says in its option 9 how its clock ticks. */
  function Interface(little: bool, link: byte, tsresol: byte): seq<byte> {
    Small(little, 1) + Small(little, 32) + Smaller(little, link) + [0, 0] + [0, 0, 0, 0]
    + Smaller(little, 9) + Smaller(little, 1) + [tsresol, 0, 0, 0] + [0, 0, 0, 0] + Small(little, 32)
  }

  /** A packet of four bytes (block type 6, 36 bytes) from the first interface. */
  function Captured(little: bool, high: seq<byte>, low: seq<byte>, data: seq<byte>): seq<byte> {
    Small(little, 6) + Small(little, 36) + [0, 0, 0, 0] + high + low + Small(little, 4) + Small(little, 4)
    + data + Small(little, 36)
  }

  lemma SectionRead(little: bool, version: seq<byte>, more: seq<byte>, e: Endian, ifs: seq<PcapNg.Interface>)
    requires |version| == 12
    ensures PcapNg.BlockTurn(Section(little, version) + more, e, ifs) == PcapNg.Block(28, Order(little), [], [])
    ensures |Section(little, version)| == 28
  {
    hide At32;
    var s := Section(little, version) + more;
    NumberAt(true, s, 4);
    NumberAt(false, s, 4);
    assert s[..4] == [0x0A, 0x0D, 0x0D, 0x0A];
    assert s[4..8] == Small(little, 28);
    assert s[8..12] == if little then [0x4D, 0x3C, 0x2B, 0x1A] else [0x1A, 0x2B, 0x3C, 0x4D];
    assert PcapNg.ORDER_BIG[0] == 0x1A && PcapNg.ORDER_LITTLE[0] == 0x4D;
  }

  lemma SmallNumber(little: bool, n: byte)
    ensures |Small(little, n)| == 4 && Number(little, Small(little, n)) == n
    ensures |Smaller(little, n)| == 2 && Get16(Order(little), Smaller(little, n)) == n
  {
  }

  /** What an interface block says in its body. */
  lemma {:induction false} OptionsRead(little: bool, tsresol: byte)
    ensures PcapNg.ScanOptions(Order(little), Smaller(little, 9) + Smaller(little, 1) + [tsresol, 0, 0, 0] + [0, 0, 0, 0], 6)
         == PcapNg.Resolved(tsresol)
  {
    hide Get16, Smaller, PcapNg.ScanOptions;
    var e := Order(little);
    var s := Smaller(little, 9) + Smaller(little, 1) + [tsresol, 0, 0, 0] + [0, 0, 0, 0];
    SmallNumber(little, 9);
    SmallNumber(little, 1);
    SmallNumber(little, 0);
    assert s[0..2] == Smaller(little, 9) && s[2..4] == Smaller(little, 1);
    assert s[8..] == [0, 0, 0, 0] && s[4] == tsresol;
    assert PcapNg.NextOption(e, s) == [0, 0, 0, 0];
    Ends(e, tsresol);
    Onward(e, s, 6);
  }

  lemma {:induction false} Ends(e: Endian, tsresol: byte)
    ensures PcapNg.ScanOptions(e, [0, 0, 0, 0], tsresol) == PcapNg.Resolved(tsresol)
  {
    assert [0, 0, 0, 0][0..2] == [0, 0];
  }

  lemma {:induction false} Onward(e: Endian, s: seq<byte>, tsresol: byte)
    requires |s| >= 5 && At16(e, s, 0) == 9 && At16(e, s, 2) >= 1
    ensures PcapNg.ScanOptions(e, s, tsresol) == PcapNg.ScanOptions(e, PcapNg.NextOption(e, s), s[4])
  {
    hide At16;
  }

  lemma InterfaceRead(little: bool, link: byte, tsresol: byte, more: seq<byte>, ifs: seq<PcapNg.Interface>)
    ensures |Interface(little, link, tsresol)| == 32
    ensures PcapNg.BlockTurn(Interface(little, link, tsresol) + more, Order(little), ifs)
         == PcapNg.Block(32, Order(little), ifs + [PcapNg.Interface(link, tsresol)], [])
  {
    hide At32, Get16, Small, Smaller, Number, PcapNg.ScanOptions;
    var s := Interface(little, link, tsresol) + more;
    SmallNumber(little, 1);
    SmallNumber(little, 32);
    SmallNumber(little, link);
    SmallNumber(little, 9);
    NumberAt(little, s, 0);
    NumberAt(little, s, 4);
    OptionsRead(little, tsresol);
    assert s[0..4] == Small(little, 1) && s[4..8] == Small(little, 32);
    NotMagic(little, 1, s);
    InterfaceBody(little, link, Smaller(little, 9) + Smaller(little, 1) + [tsresol, 0, 0, 0] + [0, 0, 0, 0], s[8..28]);
  }

  lemma InterfaceBody(little: bool, link: byte, options: seq<byte>, body: seq<byte>)
    requires |options| == 12 && body == Smaller(little, link) + [0, 0] + [0, 0, 0, 0] + options
    ensures |body| == 20 && At16(Order(little), body, 0) == link && body[8..] == options
  {
    hide Get16, Smaller;
    SmallNumber(little, link);
    assert body[0..2] == Smaller(little, link);
  }

  lemma NotMagic(little: bool, n: byte, s: seq<byte>)
    requires |s| >= 4 && s[0..4] == Small(little, n) && n < 10
    ensures s[..4] != [0x0A, 0x0D, 0x0D, 0x0A]
  {
    assert s[..4][1] == s[0..4][1] == 0;
  }

  lemma CapturedRead(little: bool, high: seq<byte>, low: seq<byte>, data: seq<byte>, more: seq<byte>, i: PcapNg.Interface)
    requires |high| == 4 && |low| == 4 && |data| == 4
    ensures |Captured(little, high, low, data)| == 36
    ensures PcapNg.BlockTurn(Captured(little, high, low, data) + more, Order(little), [i])
         == PcapNg.Block(36, Order(little), [i],
                         [Packet(i.link, ToNs(i.tsresol, Number(little, high) * 0x1_0000_0000 + Number(little, low)), data)])
  {
    hide At32, Small, Number, ToNs;
    var s := Captured(little, high, low, data) + more;
    SmallNumber(little, 6);
    SmallNumber(little, 36);
    SmallNumber(little, 4);
    SmallNumber(little, 0);
    NumberAt(little, s, 0);
    NumberAt(little, s, 4);
    assert s[0..4] == Small(little, 6) && s[4..8] == Small(little, 36);
    NotMagic(little, 6, s);
    var body := s[8..32];
    CapturedFields(little, high, low, data, body);
  }

  lemma CapturedFields(little: bool, high: seq<byte>, low: seq<byte>, data: seq<byte>, body: seq<byte>)
    requires |high| == 4 && |low| == 4 && |data| == 4
    requires body == [0, 0, 0, 0] + high + low + Small(little, 4) + Small(little, 4) + data
    ensures |body| == 24 && At32(Order(little), body, 0) == 0 && At32(Order(little), body, 12) == 4
    ensures At32(Order(little), body, 4) == Number(little, high) && At32(Order(little), body, 8) == Number(little, low)
    ensures body[20..24] == data
  {
    hide At32, Small, Number;
    SmallNumber(little, 4);
    NumberAt(little, body, 0);
    NumberAt(little, body, 4);
    NumberAt(little, body, 8);
    NumberAt(little, body, 12);
    assert body[0..4] == [0, 0, 0, 0] && body[4..8] == high && body[8..12] == low && body[12..16] == Small(little, 4);
    NoNumber(little);
  }

  lemma NoNumber(little: bool) ensures Number(little, [0, 0, 0, 0]) == 0 {}

  lemma {:induction false} NoBlocks(e: Endian, ifs: seq<PcapNg.Interface>)
    ensures PcapNg.Blocks([], e, ifs) == Outcome([], None)
  {
  }

  lemma {:induction false} OneBlock(s: seq<byte>, e: Endian, ifs: seq<PcapNg.Interface>, t: PcapNg.Turn)
    requires PcapNg.BlockTurn(s, e, ifs) == t && t.Block?
    ensures t.size <= |s|
    ensures PcapNg.Blocks(s, e, ifs) == Then(t.out, PcapNg.Blocks(s[t.size..], t.endian, t.interfaces))
  {
    hide PcapNg.BlockTurn;
  }

  /** A whole file, byte by byte, in either byte order: one packet, under its link type, by the clock of its interface. */
  lemma {:induction false} NgByBytes(
    little: bool, version: seq<byte>, link: byte, tsresol: byte, high: seq<byte>, low: seq<byte>, data: seq<byte>)
    requires |version| == 12 && |high| == 4 && |low| == 4 && |data| == 4
    ensures PcapNg.Read(Section(little, version) + Interface(little, link, tsresol) + Captured(little, high, low, data))
         == Outcome([Packet(link, ToNs(tsresol, Number(little, high) * 0x1_0000_0000 + Number(little, low)), data)], None)
  {
    hide PcapNg.Blocks, PcapNg.BlockTurn, Section, Interface, Captured, Number, ToNs;
    var a, b, d := Section(little, version), Interface(little, link, tsresol), Captured(little, high, low, data);
    var e, i := Order(little), PcapNg.Interface(link, tsresol);
    var p := Packet(link, ToNs(tsresol, Number(little, high) * 0x1_0000_0000 + Number(little, low)), data);
    var s := a + b + d;
    assert s == a + (b + d);
    SectionRead(little, version, b + d, Little, []);
    InterfaceRead(little, link, tsresol, d, []);
    CapturedRead(little, high, low, data, [], i);
    assert d + [] == d;
    OneBlock(s, Little, [], PcapNg.Block(28, e, [], []));
    assert s[28..] == b + d;
    OneBlock(b + d, e, [], PcapNg.Block(32, e, [] + [i], []));
    assert [] + [i] == [i] && (b + d)[32..] == d;
    OneBlock(d, e, [i], PcapNg.Block(36, e, [i], [p]));
    assert d[36..] == [];
    NoBlocks(e, [i]);
    assert Then([p], Outcome([], None)) == Outcome([p], None) by { assert [p] + [] == [p]; }
    StartsWithMagic(little, version, b + d);
  }

  lemma StartsWithMagic(little: bool, version: seq<byte>, more: seq<byte>)
    requires |version| == 12
    ensures |Section(little, version) + more| >= 4 && (Section(little, version) + more)[..4] == [0x0A, 0x0D, 0x0D, 0x0A]
  {
  }

  /**
   * How long a block may be: at least twelve bytes and at most 256 MiB, and a multiple of four but for a
   * section header. Anything else ends the reading with a fault, whatever the block's type.
   */
  lemma BlockLengthExactly(little: bool, kind: seq<byte>, length: seq<byte>, more: seq<byte>, ifs: seq<PcapNg.Interface>)
    requires |kind| == 4 && |length| == 4 && kind != [0x0A, 0x0D, 0x0D, 0x0A]
    ensures var n := Number(little, length);
            PcapNg.BlockTurn(kind + length + more, Order(little), ifs) == PcapNg.Fail(BadLength)
            <==> n < 12 || n > 268_435_456 || n % 4 != 0
  {
    hide At32, Number, PcapNg.BodyTurn;
    var s := kind + length + more;
    NumberAt(little, s, 4);
    assert s[..4] == kind && s[4..8] == length;
    var n := Number(little, length);
    if 12 <= n <= |s| { NoBadLength(n, At32(Order(little), s, 0), s[8..n - 4], Order(little), ifs); }
  }

  lemma NoBadLength(size: nat, kind: nat, body: seq<byte>, e: Endian, ifs: seq<PcapNg.Interface>)
    ensures PcapNg.BodyTurn(size, kind, body, e, ifs) != PcapNg.Fail(BadLength)
  {
    hide At32, PcapNg.ScanOptions, PcapNg.PacketOf;
  }

  /** A section header whose byte order is known: refused exactly for its length. */
  lemma SectionLengthExactly(little: bool, length: seq<byte>, more: seq<byte>, e: Endian, ifs: seq<PcapNg.Interface>)
    requires |length| == 4
    ensures var order := if little then [0x4D, 0x3C, 0x2B, 0x1A] else [0x1A, 0x2B, 0x3C, 0x4D];
            var n := Number(little, length);
            PcapNg.BlockTurn([0x0A, 0x0D, 0x0D, 0x0A] + length + order + more, e, ifs)
            == if n < 12 || n > 268_435_456 then PcapNg.Fail(BadLength)
               else if n > 12 + |more| then PcapNg.Stop
               else PcapNg.Block(n, Order(little), [], [])
  {
    hide At32, Number;
    var order := if little then [0x4D, 0x3C, 0x2B, 0x1A] else [0x1A, 0x2B, 0x3C, 0x4D];
    var s := [0x0A, 0x0D, 0x0D, 0x0A] + length + order + more;
    NumberAt(little, s, 4);
    assert s[..4] == [0x0A, 0x0D, 0x0D, 0x0A] && s[4..8] == length && s[8..12] == order;
    assert PcapNg.ORDER_BIG[0] == 0x1A && PcapNg.ORDER_LITTLE[0] == 0x4D;
  }
}
