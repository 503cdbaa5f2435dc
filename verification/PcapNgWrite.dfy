/** What a pcapng writer puts down, and that the reader of core-driver/cam_driver/pcapio.py gets it back. */
module PcapNgWrite {
  import opened Common
  import opened PcapIo
  import opened PcapNg

  const SECTION_KIND: nat := 0x0A0D0D0A
  const TWO32: nat := 0x1_0000_0000

  /** An option of an interface. */
  datatype Field = Field(code: nat, value: seq<byte>)

  /** A block as its writer means it. `ended`: the options end with a mark. Other: any kind the reader passes over. */
  datatype Item =
    | Section(endian: Endian)
    | Declare(link: nat, options: seq<Field>, ended: bool)
    | Captured(interface: nat, ticks: nat, data: seq<byte>)
    | Other(kind: nat, body: seq<byte>)

  function Zeros(n: nat): (s: seq<byte>)
    ensures |s| == n
  {
    if n == 0 then [] else [0] + Zeros(n - 1)
  }

  /** Up to the next multiple of four. */
  function Padding(n: nat): (p: nat)
    ensures p < 4 && (n + p) % 4 == 0
  {
    (4 - n % 4) % 4
  }

  predicate FieldsFit(fs: seq<Field>) {
    fs != [] ==> 0 < fs[0].code < 0x10000 && |fs[0].value| < 0x10000 && FieldsFit(fs[1..])
  }

  function FieldSize(f: Field): nat { 4 + |f.value| + Padding(|f.value|) }

  function FieldsSize(fs: seq<Field>): nat { if fs == [] then 0 else FieldSize(fs[0]) + FieldsSize(fs[1..]) }

  /** The clock of an interface: microseconds, unless an if_tsresol says otherwise; the last one counts. */
  function Resolution(fs: seq<Field>, tsresol: byte): byte
    decreases |fs|
  {
    if fs == [] then tsresol
    else Resolution(fs[1..], if fs[0].code == 9 && fs[0].value != [] then fs[0].value[0] else tsresol)
  }

  /** `declared`: the interfaces of the section so far. */
  predicate Fits(i: Item, declared: nat) {
    match i
    case Section(_) => true
    case Declare(link, options, _) => link < 0x10000 && FieldsFit(options) && FieldsSize(options) + 24 <= MAX_RECORD
    case Captured(n, ticks, data) => n < declared && n < TWO32 && ticks < TWO32 * TWO32 && |data| + 64 <= MAX_RECORD
    case Other(kind, body) =>
      kind < TWO32 && kind != IDB && kind != EPB && kind != SECTION_KIND && |body| % 4 == 0 && |body| + 12 <= MAX_RECORD
  }

  function Declared(i: Item, declared: nat): nat {
    match i
    case Section(_) => 0
    case Declare(_, _, _) => declared + 1
    case _ => declared
  }

  predicate AllFit(items: seq<Item>, declared: nat)
    decreases |items|
  {
    items == [] || (Fits(items[0], declared) && AllFit(items[1..], Declared(items[0], declared)))
  }

  function Framed(e: Endian, kind: nat, body: seq<byte>): seq<byte>
    requires kind < TWO32 && |body| + 12 <= MAX_RECORD
  {
    Put32(e, kind) + (Put32(e, |body| + 12) + (body + Put32(e, |body| + 12)))
  }

  function SectionBytes(e: Endian): seq<byte> {
    MAGIC + (Put32(e, 28) + ((if e.Little? then ORDER_LITTLE else ORDER_BIG)
      + ((Put16(e, 1) + Put16(e, 0)) + ([255, 255, 255, 255] + ([255, 255, 255, 255] + Put32(e, 28))))))
  }

  function FieldBytes(e: Endian, f: Field): (s: seq<byte>)
    requires f.code < 0x10000 && |f.value| < 0x10000
    ensures |s| == FieldSize(f)
  {
    Put16(e, f.code) + (Put16(e, |f.value|) + (f.value + Zeros(Padding(|f.value|))))
  }

  function Options(e: Endian, fs: seq<Field>, ended: bool): seq<byte>
    requires FieldsFit(fs)
  {
    if fs == [] then if ended then Put16(e, 0) + Put16(e, 0) else []
    else FieldBytes(e, fs[0]) + Options(e, fs[1..], ended)
  }

  function DeclareBody(e: Endian, link: nat, fs: seq<Field>, ended: bool): seq<byte>
    requires link < 0x10000 && FieldsFit(fs)
  {
    Put16(e, link) + (Put16(e, 0) + (Put32(e, 0) + Options(e, fs, ended)))
  }

  function CapturedBody(e: Endian, n: nat, ticks: nat, data: seq<byte>): seq<byte>
    requires n < TWO32 && ticks < TWO32 * TWO32 && |data| < TWO32
  {
    Put32(e, n) + (Put32(e, ticks / TWO32) + (Put32(e, ticks % TWO32)
      + (Put32(e, |data|) + (Put32(e, |data|) + (data + Zeros(Padding(|data|)))))))
  }

  function ItemBytes(e: Endian, i: Item, declared: nat): seq<byte>
    requires Fits(i, declared)
  {
    match i
    case Section(e') => SectionBytes(e')
    case Declare(link, options, ended) =>
      OptionsSize(e, options, ended);
      DeclareFields(e, link, options, ended);
      Framed(e, IDB, DeclareBody(e, link, options, ended))
    case Captured(n, ticks, data) => Framed(e, EPB, CapturedBody(e, n, ticks, data))
    case Other(kind, body) => Framed(e, kind, body)
  }

  function After(e: Endian, i: Item): Endian { if i.Section? then i.endian else e }

  function FileBytes(e: Endian, items: seq<Item>, declared: nat): seq<byte>
    requires AllFit(items, declared)
    decreases |items|
  {
    if items == [] then []
    else ItemBytes(e, items[0], declared) + FileBytes(After(e, items[0]), items[1..], Declared(items[0], declared))
  }

  /** The interfaces of the section after an item. */
  function Interfaces(i: Item, ifs: seq<Interface>): seq<Interface> {
    match i
    case Section(_) => []
    case Declare(link, options, _) => ifs + [Interface(link, Resolution(options, 6))]
    case _ => ifs
  }

  function PacketsOf(i: Item, ifs: seq<Interface>): seq<Packet>
    requires Fits(i, |ifs|)
  {
    if i.Captured? then [Packet(ifs[i.interface].link, ToNs(ifs[i.interface].tsresol, i.ticks), i.data)] else []
  }

  /** What was captured: each packet under the link type and clock of its interface in its section. */
  function Packets(items: seq<Item>, ifs: seq<Interface>): seq<Packet>
    requires AllFit(items, |ifs|)
    decreases |items|
  {
    if items == [] then []
    else PacketsOf(items[0], ifs) + Packets(items[1..], Interfaces(items[0], ifs))
  }

  // ---- one block -----------------------------------------------------------------------

  lemma KindIsNotMagic(e: Endian, kind: nat)
    requires kind < TWO32 && kind != SECTION_KIND
    ensures Put32(e, kind) != MAGIC
  {
    assert Get32(e, MAGIC) == SECTION_KIND;
  }

  lemma FramedFields(e: Endian, kind: nat, body: seq<byte>, more: seq<byte>)
    requires kind < TWO32 && |body| + 12 <= MAX_RECORD
    ensures var s := Framed(e, kind, body) + more;
            && |Framed(e, kind, body)| == |body| + 12
            && s[..4] == Put32(e, kind) && At32(e, s, 0) == kind && At32(e, s, 4) == |body| + 12
            && s[8..8 + |body|] == body && s[12 + |body|..] == more
  {
    hide Put32, Get32;
    var s := Framed(e, kind, body) + more;
    assert s[0..4] == Put32(e, kind) && s[..4] == Put32(e, kind) && s[4..8] == Put32(e, |body| + 12);
  }

  lemma FramedTurn(e: Endian, kind: nat, body: seq<byte>, more: seq<byte>, ifs: seq<Interface>)
    requires kind < TWO32 && kind != SECTION_KIND && |body| + 12 <= MAX_RECORD && |body| % 4 == 0
    ensures BlockTurn(Framed(e, kind, body) + more, e, ifs) == BodyTurn(|body| + 12, kind, body, e, ifs)
  {
    hide Framed, At32, Put32, BodyTurn;
    FramedFields(e, kind, body, more);
    KindIsNotMagic(e, kind);
  }

  lemma SectionFields(e: Endian, more: seq<byte>)
    ensures var s := SectionBytes(e) + more;
            && |SectionBytes(e)| == 28 && s[..4] == MAGIC
            && s[8..12] == (if e.Little? then ORDER_LITTLE else ORDER_BIG)
            && At32(e, s, 4) == 28
  {
    hide Put32, Get32, Put16;
    var s := SectionBytes(e) + more;
    assert s[4..8] == Put32(e, 28);
  }

  lemma SectionTurnIs(e: Endian, more: seq<byte>, was: Endian, ifs: seq<Interface>)
    ensures BlockTurn(SectionBytes(e) + more, was, ifs) == Block(28, e, [], [])
  {
    hide SectionBytes, At32;
    SectionFields(e, more);
    assert ORDER_LITTLE[0] != ORDER_BIG[0];
  }

  /** An option's length, rounded up as the reader does it. */
  lemma RoundedUp(n: nat)
    ensures 4 + (n + 3) / 4 * 4 == 4 + n + Padding(n)
  {
  }

  lemma FieldFields(e: Endian, f: Field, more: seq<byte>)
    requires f.code < 0x10000 && |f.value| < 0x10000
    ensures var s := FieldBytes(e, f) + more;
            && |s| >= 4 && At16(e, s, 0) == f.code && At16(e, s, 2) == |f.value|
            && (f.value != [] ==> |s| > 4 && s[4] == f.value[0])
            && NextOption(e, s) == more
  {
    hide Put16, Get16, Zeros, Padding;
    var s := FieldBytes(e, f) + more;
    assert s[0..2] == Put16(e, f.code) && s[2..4] == Put16(e, |f.value|);
    RoundedUp(|f.value|);
    assert s[FieldSize(f)..] == more;
  }

  lemma {:induction false} OptionsResolve(e: Endian, fs: seq<Field>, ended: bool, tsresol: byte)
    requires FieldsFit(fs)
    ensures ScanOptions(e, Options(e, fs, ended), tsresol) == Resolved(Resolution(fs, tsresol))
    decreases |fs|
  {
    hide FieldBytes, At16, NextOption;
    if fs == [] {
      EndMark(e);
    } else {
      var more := Options(e, fs[1..], ended);
      FieldFields(e, fs[0], more);
      OptionsResolve(e, fs[1..], ended, if fs[0].code == 9 && fs[0].value != [] then fs[0].value[0] else tsresol);
    }
  }

  lemma EndMark(e: Endian) ensures var s := Put16(e, 0) + Put16(e, 0); |s| == 4 && EndOption(e, s)
  {
    hide Put16, Get16;
    var s := Put16(e, 0) + Put16(e, 0);
    assert s[0..2] == Put16(e, 0);
  }

  lemma {:induction false} OptionsSize(e: Endian, fs: seq<Field>, ended: bool)
    requires FieldsFit(fs)
    ensures |Options(e, fs, ended)| == FieldsSize(fs) + (if ended then 4 else 0)
    ensures FieldsSize(fs) % 4 == 0 && |Options(e, fs, ended)| % 4 == 0
    decreases |fs|
  {
    hide Put16, FieldSize, FieldBytes;
    if fs != [] {
      OptionsSize(e, fs[1..], ended);
      Rounded(fs[0]);
      SumOfMultiples(FieldSize(fs[0]), FieldsSize(fs[1..]));
    }
    SumOfMultiples(FieldsSize(fs), if ended then 4 else 0);
  }

  lemma Rounded(f: Field) ensures FieldSize(f) % 4 == 0 {}

  lemma SumOfMultiples(a: nat, b: nat) requires a % 4 == 0 && b % 4 == 0 ensures (a + b) % 4 == 0 {}

  lemma {:induction false} DeclareFields(e: Endian, link: nat, fs: seq<Field>, ended: bool)
    requires link < 0x10000 && FieldsFit(fs)
    ensures var body := DeclareBody(e, link, fs, ended);
            && |body| == 8 + |Options(e, fs, ended)| && At16(e, body, 0) == link && body[8..] == Options(e, fs, ended)
  {
    hide Put16, Put32, Get16, Options;
    var body := DeclareBody(e, link, fs, ended);
    assert body[0..2] == Put16(e, link);
  }

  lemma DeclareTurn(e: Endian, i: Item, size: nat, ifs: seq<Interface>)
    requires i.Declare? && Fits(i, |ifs|)
    ensures var body := DeclareBody(e, i.link, i.options, i.ended);
            && |body| % 4 == 0 && |body| + 12 <= MAX_RECORD
            && BodyTurn(size, IDB, body, e, ifs) == Block(size, e, Interfaces(i, ifs), [])
  {
    hide DeclareBody, At16, ScanOptions, Options, FieldsSize, FieldsFit, Resolution;
    DeclareFields(e, i.link, i.options, i.ended);
    OptionsResolve(e, i.options, i.ended, 6);
    OptionsSize(e, i.options, i.ended);
  }

  lemma CapturedFields(e: Endian, n: nat, ticks: nat, data: seq<byte>)
    requires n < TWO32 && ticks < TWO32 * TWO32 && |data| < TWO32
    ensures var body := CapturedBody(e, n, ticks, data);
            && |body| == 20 + |data| + Padding(|data|)
            && At32(e, body, 0) == n && At32(e, body, 4) == ticks / TWO32 && At32(e, body, 8) == ticks % TWO32
            && At32(e, body, 12) == |data| && body[20..20 + |data|] == data
  {
    hide Put32, Get32, Zeros, Padding;
    var body := CapturedBody(e, n, ticks, data);
    assert body[0..4] == Put32(e, n) && body[4..8] == Put32(e, ticks / TWO32) && body[8..12] == Put32(e, ticks % TWO32);
    assert body[12..16] == Put32(e, |data|);
  }

  lemma CapturedTurn(e: Endian, i: Item, size: nat, ifs: seq<Interface>)
    requires i.Captured? && Fits(i, |ifs|)
    ensures BodyTurn(size, EPB, CapturedBody(e, i.interface, i.ticks, i.data), e, ifs) == Block(size, e, ifs, PacketsOf(i, ifs))
  {
    hide CapturedBody, At32, ToNs, Padding;
    CapturedFields(e, i.interface, i.ticks, i.data);
    assert i.ticks / TWO32 * 0x1_0000_0000 + i.ticks % TWO32 == i.ticks;
  }

  /** The reader takes `bytes` off the front of a file, and this is what it makes of them. */
  predicate Taken(bytes: seq<byte>, more: seq<byte>, e: Endian, ifs: seq<Interface>, i: Item)
    requires Fits(i, |ifs|)
  {
    && (bytes + more)[|bytes|..] == more
    && BlockTurn(bytes + more, e, ifs) == Block(|bytes|, After(e, i), Interfaces(i, ifs), PacketsOf(i, ifs))
  }

  lemma SectionTaken(e: Endian, i: Item, more: seq<byte>, ifs: seq<Interface>)
    requires i.Section?
    ensures Taken(SectionBytes(i.endian), more, e, ifs, i)
  {
    hide SectionBytes, BlockTurn;
    SectionTurnIs(i.endian, more, e, ifs);
    SectionFields(i.endian, more);
  }

  lemma FramedTaken(e: Endian, kind: nat, body: seq<byte>, more: seq<byte>, ifs: seq<Interface>, i: Item)
    requires Fits(i, |ifs|) && !i.Section?
    requires kind < TWO32 && kind != SECTION_KIND && |body| + 12 <= MAX_RECORD && |body| % 4 == 0
    requires BodyTurn(|body| + 12, kind, body, e, ifs) == Block(|body| + 12, e, Interfaces(i, ifs), PacketsOf(i, ifs))
    ensures Taken(Framed(e, kind, body), more, e, ifs, i)
  {
    hide Framed, BlockTurn, BodyTurn, Interfaces, PacketsOf, Fits;
    FramedTurn(e, kind, body, more, ifs);
    FramedFields(e, kind, body, more);
  }

  lemma DeclareTaken(e: Endian, i: Item, more: seq<byte>, ifs: seq<Interface>)
    requires i.Declare? && Fits(i, |ifs|)
    ensures Taken(ItemBytes(e, i, |ifs|), more, e, ifs, i)
  {
    hide Framed, DeclareBody, BlockTurn, BodyTurn, Taken;
    var body := DeclareBody(e, i.link, i.options, i.ended);
    DeclareTurn(e, i, |body| + 12, ifs);
    FramedTaken(e, IDB, body, more, ifs, i);
  }

  lemma CapturedTaken(e: Endian, i: Item, more: seq<byte>, ifs: seq<Interface>)
    requires i.Captured? && Fits(i, |ifs|)
    ensures Taken(ItemBytes(e, i, |ifs|), more, e, ifs, i)
  {
    hide Framed, CapturedBody, BlockTurn, BodyTurn, Taken, PacketsOf;
    var body := CapturedBody(e, i.interface, i.ticks, i.data);
    CapturedFields(e, i.interface, i.ticks, i.data);
    CapturedTurn(e, i, |body| + 12, ifs);
    FramedTaken(e, EPB, body, more, ifs, i);
  }

  /** The reader takes an item off the front of a file for what it is. */
  lemma ItemTurn(e: Endian, i: Item, more: seq<byte>, ifs: seq<Interface>)
    requires Fits(i, |ifs|)
    ensures Taken(ItemBytes(e, i, |ifs|), more, e, ifs, i)
  {
    hide SectionBytes, Framed, DeclareBody, CapturedBody, BlockTurn, Taken;
    match i
    case Section(_) => SectionTaken(e, i, more, ifs);
    case Declare(_, _, _) => DeclareTaken(e, i, more, ifs);
    case Captured(_, _, _) => CapturedTaken(e, i, more, ifs);
    case Other(kind, body) => FramedTaken(e, kind, body, more, ifs, i);
  }

  // ---- the whole file ------------------------------------------------------------------

  lemma InterfacesCount(i: Item, ifs: seq<Interface>) ensures |Interfaces(i, ifs)| == Declared(i, |ifs|) {}

  lemma {:induction false} BlocksReadBack(e: Endian, items: seq<Item>, ifs: seq<Interface>)
    requires AllFit(items, |ifs|)
    ensures Blocks(FileBytes(e, items, |ifs|), e, ifs) == Outcome(Packets(items, ifs), None)
    decreases |items|
  {
    hide BlockTurn, ItemBytes, PacketsOf, Interfaces, Fits;
    if items == [] {
      NothingIsStop(e, ifs);
    } else {
      var i := items[0];
      InterfacesCount(i, ifs);
      ItemTurn(e, i, FileBytes(After(e, i), items[1..], Declared(i, |ifs|)), ifs);
      BlocksReadBack(After(e, i), items[1..], Interfaces(i, ifs));
    }
  }

  lemma NothingIsStop(e: Endian, ifs: seq<Interface>) ensures BlockTurn([], e, ifs) == Stop {}

  /**
   * Any file of any sections, in any mixture of byte orders, with any interfaces and options, clocks,
   * packets and blocks of other kinds between them, reads back as the packets that were captured.
   */
  lemma {:induction false} ReadsBack(items: seq<Item>)
    requires items != [] && items[0].Section? && AllFit(items, 0)
    ensures Read(FileBytes(Little, items, 0)) == Outcome(Packets(items, []), None)
  {
    hide Blocks, SectionBytes;
    BlocksReadBack(Little, items, []);
    SectionFields(items[0].endian, FileBytes(items[0].endian, items[1..], 0));
  }

  // ---- the missing option value ------------------------------------------------------------

  /** An interface whose options end on an if_tsresol header with no value behind it. */
  function CutOptionFile(): seq<byte> {
    SectionBytes(Little)
    + Framed(Little, IDB,
             Put16(Little, 1) + (Put16(Little, 0) + (Put32(Little, 0) + (Put16(Little, 9) + Put16(Little, 1)))))
  }

  /** Its blocks are whole and of legal lengths, yet reading it does not end in a format error. */
  lemma CutOptionCrashes()
    ensures Read(CutOptionFile()) == Outcome([], Some(CutOption))
  {
    hide SectionBytes, Framed, BlockTurn;
    var opts := Put16(Little, 9) + Put16(Little, 1);
    var body := Put16(Little, 1) + (Put16(Little, 0) + (Put32(Little, 0) + opts));
    var block := Framed(Little, IDB, body);
    SectionTurnIs(Little, block, Little, []);
    SectionFields(Little, block);
    assert (SectionBytes(Little) + block)[28..] == block;
    FramedTurn(Little, IDB, body, [], []);
    assert block + [] == block;
    assert body[8..] == opts && opts[0..2] == Put16(Little, 9) && opts[2..4] == Put16(Little, 1);
    assert BlockTurn(block, Little, []) == Fail(CutOption);
    assert Blocks(block, Little, []) == Outcome([], Some(CutOption));
  }
}
