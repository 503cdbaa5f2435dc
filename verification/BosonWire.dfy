/** The Boson's frames byte by byte, as core-driver/cam_driver/health_boson.py lays them out. */
module BosonWire {
  import opened BosonCrc
  import opened Boson

  /** What a byte becomes between the markers. */
  lemma {:induction false} EscapedAs(b: octet)
    ensures Escape([b]) == if b == 0x8E then [0x9E, 0x81] else if b == 0x9E then [0x9E, 0x91]
                           else if b == 0xAE then [0x9E, 0xA1] else [b]
  {
    assert [b][1..] == [];
    assert Escape([]) == [];
  }

  lemma {:induction false} EscapeAppend(a: seq<octet>, b: seq<octet>)
    ensures Escape(a + b) == Escape(a) + Escape(b)
    decreases |a|
  {
    hide Escaped;
    if a == [] {
      assert a + b == b;
    } else {
      assert (a + b)[0] == a[0] && (a + b)[1..] == a[1..] + b;
      EscapeAppend(a[1..], b);
    }
  }

  /** A number in four bytes, the heaviest first. */
  predicate Spells(v: long, b0: octet, b1: octet, b2: octet, b3: octet) {
    v == (b0 as long) * 0x100_0000 + (b1 as long) * 0x1_0000 + (b2 as long) * 0x100 + (b3 as long)
  }

  lemma LongSpells(b0: octet, b1: octet, b2: octet, b3: octet)
    ensures Spells(Long(b0, b1, b2, b3), b0, b1, b2, b3)
  {
  }

  predicate SpellsWord(v: word, b0: octet, b1: octet) { v == (b0 as word) * 0x100 + (b1 as word) }

  lemma HighLow(v: word) ensures SpellsWord(v, High(v), Low(v)) {}

  /** Channel, sequence number, function, status, payload and CRC, in this order. */
  predicate LaidOut(m: Message, b: seq<octet>) {
    var n := |m.payload|;
    && |b| == 15 + n
    && b[0] == 0
    && Spells(m.seqNo, b[1], b[2], b[3], b[4])
    && Spells(m.fn, b[5], b[6], b[7], b[8])
    && Spells(m.status, b[9], b[10], b[11], b[12])
    && b[13..13 + n] == m.payload
    && SpellsWord(Crc16(b[..13 + n]), b[13 + n], b[14 + n])
  }

  lemma FieldsSpell(m: Message)
    ensures var s := Body(m);
            && |s| == 13 + |m.payload| && s[0] == 0 && s[13..] == m.payload
            && Spells(m.seqNo, s[1], s[2], s[3], s[4]) && Spells(m.fn, s[5], s[6], s[7], s[8])
            && Spells(m.status, s[9], s[10], s[11], s[12])
  {
    hide Spells, Octet, Long;
    HeadAt(m);
    var s := Body(m);
    LongSpells(s[1], s[2], s[3], s[4]);
    LongSpells(s[5], s[6], s[7], s[8]);
    LongSpells(s[9], s[10], s[11], s[12]);
  }

  /** A message on the wire: the markers around its escaped bytes, and those bytes. */
  lemma FrameLaidOut(m: Message) returns (b: seq<octet>)
    ensures LaidOut(m, b) && Encode(m) == [0x8E] + Escape(b) + [0xAE]
  {
    hide Spells, SpellsWord, Body, Crc16, Escape, High, Low;
    b := Checked(Body(m));
    FieldsSpell(m);
    HighLow(Crc16(Body(m)));
    var n := |m.payload|;
    assert b[..13 + n] == Body(m);
    assert b[13..13 + n] == Body(m)[13..];
  }

  /** And such bytes are read as that message: the layout settles both directions. */
  lemma {:induction false} LaidOutReads(m: Message, b: seq<octet>)
    requires LaidOut(m, b)
    ensures Decode([0x8E] + Escape(b) + [0xAE]) == Ok(m)
  {
    hide Spells, SpellsWord, Crc16, Escape, High, Low;
    var n := |m.payload|;
    var body := Body(m);
    FieldsSpell(m);
    SameLong(m.seqNo, b[1], b[2], b[3], b[4], body[1], body[2], body[3], body[4]);
    SameLong(m.fn, b[5], b[6], b[7], b[8], body[5], body[6], body[7], body[8]);
    SameLong(m.status, b[9], b[10], b[11], b[12], body[9], body[10], body[11], body[12]);
    assert body == b[..13 + n] by {
      hide Body;
      assert body[..13] == b[..13];
      assert body == body[..13] + body[13..] && b[..13 + n] == b[..13] + b[13..13 + n];
    }
    hide Body;
    HighLow(Crc16(body));
    SameWord(Crc16(body), b[13 + n], b[14 + n], High(Crc16(body)), Low(Crc16(body)));
    assert b == Checked(body);
    DecodeEncode(m);
  }

  lemma SameLong(v: long, a0: octet, a1: octet, a2: octet, a3: octet, b0: octet, b1: octet, b2: octet, b3: octet)
    requires Spells(v, a0, a1, a2, a3) && Spells(v, b0, b1, b2, b3)
    ensures a0 == b0 && a1 == b1 && a2 == b2 && a3 == b3
  {
  }

  lemma SameWord(v: word, a0: octet, a1: octet, b0: octet, b1: octet)
    requires SpellsWord(v, a0, a1) && SpellsWord(v, b0, b1)
    ensures a0 == b0 && a1 == b1
  {
  }

  lemma {:induction false} CrcOne(crc: word, s: seq<octet>, i: nat, next: word)
    requires i < |s| && Byte(crc, s[i]) == next
    ensures Crc(crc, s[i..]) == Crc(next, s[i + 1..])
  {
    hide Byte;
    assert s[i..][1..] == s[i + 1..];
  }

  /** The register after each of these digits. */
  lemma DigitsA() ensures Byte(0x1D0F, 0x31) == 0xEAEE && Byte(0xEAEE, 0x32) == 0xA475 && Byte(0xA475, 0x33) == 0x865E {}
  lemma DigitsB() ensures Byte(0x865E, 0x34) == 0xD999 && Byte(0xD999, 0x35) == 0xA5A2 && Byte(0xA5A2, 0x36) == 0x11DA {}
  lemma DigitsC() ensures Byte(0x11DA, 0x37) == 0x9EA4 && Byte(0x9EA4, 0x38) == 0x712C && Byte(0x712C, 0x39) == 0xE5CC {}

  /** The check value of CRC-16/AUG-CCITT: that of the digits from 1 to 9. */
  lemma {:induction false} CheckValue()
    ensures Crc16([0x31, 0x32, 0x33, 0x34, 0x35, 0x36, 0x37, 0x38, 0x39]) == 0xE5CC
  {
    hide Crc, Byte;
    DigitsA();
    DigitsB();
    DigitsC();
    var d: seq<octet> := [0x31, 0x32, 0x33, 0x34, 0x35, 0x36, 0x37, 0x38, 0x39];
    CrcOne(0x1D0F, d, 0, 0xEAEE);
    CrcOne(0xEAEE, d, 1, 0xA475);
    CrcOne(0xA475, d, 2, 0x865E);
    CrcOne(0x865E, d, 3, 0xD999);
    CrcOne(0xD999, d, 4, 0xA5A2);
    CrcOne(0xA5A2, d, 5, 0x11DA);
    CrcOne(0x11DA, d, 6, 0x9EA4);
    CrcOne(0x9EA4, d, 7, 0x712C);
    CrcOne(0x712C, d, 8, 0xE5CC);
    assert d[0..] == d && d[9..] == [];
    NoBytes(0xE5CC);
  }

  lemma {:induction false} NoBytes(crc: word) ensures Crc(crc, []) == crc {}
}
