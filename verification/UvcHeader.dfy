/**
 * The payload header from the sender's side (USB Video Class 1.5, section 2.4.3.3): which payloads
 * core-driver/cam_driver/uvcpcap.py takes, and what it reads from them, stated over the header's fields.
 */
module UvcHeader {
  import opened Common
  import opened UvcAssembler
  import opened UvcRecovery

  /** A header's fields: the three flags that matter here, the three that do not, the clocks and the padding. */
  datatype Fields = Fields(
    fid: bool, eof: bool, err: bool, reserved: bool, still: bool, eoh: bool,
    pts: Option<seq<byte>>, scr: Option<seq<byte>>, padding: seq<byte>)

  function Clock(o: Option<seq<byte>>): seq<byte> { if o.Some? then o.value else [] }

  /** A PTS is 4 bytes and an SCR is 6, and the header's length has to fit its byte. */
  predicate WellFormed(f: Fields) {
    && (f.pts.Some? ==> |f.pts.value| == 4)
    && (f.scr.Some? ==> |f.scr.value| == 6)
    && 2 + |Clock(f.pts)| + |Clock(f.scr)| + |f.padding| < 256
  }

  function Bit(b: bool): (r: nat) ensures r <= 1 { if b then 1 else 0 }

  /** bmHeaderInfo. */
  function Flags(f: Fields): byte {
    0x01 * Bit(f.fid) + 0x02 * Bit(f.eof) + 0x04 * Bit(f.pts.Some?) + 0x08 * Bit(f.scr.Some?)
    + 0x10 * Bit(f.reserved) + 0x20 * Bit(f.still) + 0x40 * Bit(f.err) + 0x80 * Bit(f.eoh)
  }

  /** What comes between the flags and the data. */
  function Clocks(f: Fields): seq<byte> { Clock(f.pts) + Clock(f.scr) }

  function Encode(f: Fields, data: seq<byte>): seq<byte>
    requires WellFormed(f)
  {
    [2 + |Clocks(f)| + |f.padding|, Flags(f)] + Clocks(f) + f.padding + data
  }

  lemma FidRead(info: byte, bit: nat, high: nat)
    requires bit < 2 && info == bit + 2 * high
    ensures FidBit(info) == bit
  {
  }

  lemma EofRead(info: byte, low: nat, bit: nat, high: nat)
    requires low < 2 && bit < 2 && info == low + 2 * bit + 4 * high
    ensures EofBit(info) <==> bit == 1
  {
    assert info / 2 == bit + 2 * high;
  }

  lemma PtsRead(info: byte, low: nat, bit: nat, high: nat)
    requires low < 4 && bit < 2 && info == low + 4 * bit + 8 * high
    ensures PtsBit(info) <==> bit == 1
  {
    assert info / 4 == bit + 2 * high;
  }

  lemma ScrRead(info: byte, low: nat, bit: nat, high: nat)
    requires low < 8 && bit < 2 && info == low + 8 * bit + 16 * high
    ensures ScrBit(info) <==> bit == 1
  {
    assert info / 8 == bit + 2 * high;
  }

  lemma ErrRead(info: byte, low: nat, bit: nat, high: nat)
    requires low < 64 && bit < 2 && info == low + 64 * bit + 128 * high
    ensures ErrBit(info) <==> bit == 1
  {
    assert info / 64 == bit + 2 * high;
  }

  /** Bits in a byte, lowest first. */
  lemma Reads(info: byte, b0: nat, b1: nat, b2: nat, b3: nat, b4: nat, b5: nat, b6: nat, b7: nat)
    requires b0 < 2 && b1 < 2 && b2 < 2 && b3 < 2 && b6 < 2
    requires b4 < 2 && b5 < 2 && info == b0 + 2 * b1 + 4 * b2 + 8 * b3 + 16 * b4 + 32 * b5 + 64 * b6 + 128 * b7
    ensures FidBit(info) == b0 && (EofBit(info) <==> b1 == 1) && (PtsBit(info) <==> b2 == 1)
    ensures (ScrBit(info) <==> b3 == 1) && (ErrBit(info) <==> b6 == 1)
  {
    hide FidBit, EofBit, ErrBit, PtsBit, ScrBit;
    FidRead(info, b0, b1 + 2 * b2 + 4 * b3 + 8 * b4 + 16 * b5 + 32 * b6 + 64 * b7);
    EofRead(info, b0, b1, b2 + 2 * b3 + 4 * b4 + 8 * b5 + 16 * b6 + 32 * b7);
    PtsRead(info, b0 + 2 * b1, b2, b3 + 2 * b4 + 4 * b5 + 8 * b6 + 16 * b7);
    ScrRead(info, b0 + 2 * b1 + 4 * b2, b3, b4 + 2 * b5 + 4 * b6 + 8 * b7);
    ErrRead(info, b0 + 2 * b1 + 4 * b2 + 8 * b3 + 16 * b4 + 32 * b5, b6, b7);
  }

  lemma FlagsRead(f: Fields)
    ensures FidBit(Flags(f)) == Bit(f.fid)
    ensures EofBit(Flags(f)) == f.eof && ErrBit(Flags(f)) == f.err
    ensures PtsBit(Flags(f)) == f.pts.Some? && ScrBit(Flags(f)) == f.scr.Some?
  {
    hide Bit, FidBit, EofBit, ErrBit, PtsBit, ScrBit;
    BitsAre();
    Reads(Flags(f), Bit(f.fid), Bit(f.eof), Bit(f.pts.Some?), Bit(f.scr.Some?),
          Bit(f.reserved), Bit(f.still), Bit(f.err), Bit(f.eoh));
  }

  lemma BitsAre() ensures Bit(true) == 1 && Bit(false) == 0 {}

  /**
   * A payload built from its fields is taken, in the strict reading exactly if it has no padding; and
   * the flags and the data read back are those it was built from.
   */
  lemma FieldsReadBack(c: Config, f: Fields, data: seq<byte>)
    requires WellFormed(f)
    ensures var p := Encode(f, data);
            && (Parses(c, p) <==> (c.strict ==> f.padding == []))
            && Fid(p) == Bit(f.fid) && Eof(p) == f.eof && Err(p) == f.err
            && Data(p) == data
  {
    hide Flags, EofBit, ErrBit, FidBit, PtsBit, ScrBit;
    FlagsRead(f);
    var p := Encode(f, data);
    var h := [2 + |Clocks(f)| + |f.padding|, Flags(f)] + Clocks(f) + f.padding;
    assert p == h + data && |h| == p[0] && p[1] == Flags(f);
  }

  /**
   * Whatever length a header declares and whatever follows its flags: the strict reading takes it exactly
   * if the length is that of its clocks, the tolerant one exactly if it leaves room for them; and both
   * only if the payload is long enough.
   */
  lemma TakenExactly(c: Config, length: byte, f: Fields, rest: seq<byte>)
    ensures Parses(c, [length, Flags(f)] + rest) <==>
              var least := 2 + (if f.pts.Some? then 4 else 0) + (if f.scr.Some? then 6 else 0);
              length <= 2 + |rest| && (if c.strict then length == least else least <= length)
  {
    hide Flags, EofBit, ErrBit, FidBit, PtsBit, ScrBit;
    FlagsRead(f);
    var p := [length, Flags(f)] + rest;
    assert p[0] == length && p[1] == Flags(f);
  }

  // ---- which images are taken ----------------------------------------------------------------

  /** A whole JPEG: from its start marker to its end marker. */
  predicate WholeJpeg(b: seq<byte>) {
    |b| >= 4 && b[0] == 0xFF && b[1] == 0xD8 && b[|b| - 2] == 0xFF && b[|b| - 1] == 0xD9
  }

  /** The buffer that carries an image: the image, and for a JPEG any zero bytes after it. */
  predicate Carries(c: Config, b: seq<byte>, image: seq<byte>) {
    && |image| <= |b| && b[..|image|] == image
    && (if c.mjpeg then WholeJpeg(image) && (forall i :: |image| <= i < |b| ==> b[i] == 0)
        else |b| == |image| && (c.expected.None? || c.expected.value == |image|))
  }

  lemma {:induction false} Stripped(b: seq<byte>)
    ensures var t := StripZeros(b);
            && |t| <= |b| && t == b[..|t|] && (t != [] ==> t[|t| - 1] != 0) && (forall i :: |t| <= i < |b| ==> b[i] == 0)
    decreases |b|
  {
    if b != [] && b[|b| - 1] == 0 {
      Stripped(b[..|b| - 1]);
    }
  }

  lemma JpegMarkers(b: seq<byte>)
    ensures IsJpeg(b) <==> WholeJpeg(b)
  {
    if |b| >= 2 {
      assert b[..2] == [b[0], b[1]] && b[|b| - 2..] == [b[|b| - 2], b[|b| - 1]];
    }
  }

  /** A buffer is taken exactly if it carries an image, and for that image. */
  lemma AcceptedExactly(c: Config, b: seq<byte>, image: seq<byte>)
    ensures Accept(c, b) == Some(image) <==> Carries(c, b, image)
  {
    hide StripZeros, IsJpeg;
    var t := StripZeros(b);
    Stripped(b);
    JpegMarkers(t);
    if c.mjpeg && Carries(c, b, image) {
      assert b[|image| - 1] == image[|image| - 1] != 0;
      assert t != [] ==> b[|t| - 1] == t[|t| - 1];
    }
    if |b| == |image| { assert b[..|image|] == b; }
    assert |b| == |image| && b[..|image|] == image ==> b == image;
    assert b[..|b|] == b;
  }

  // ---- what a camera sends -------------------------------------------------------------------

  /** A piece of an image under a header of its own, and when it is captured. */
  datatype Piece = Piece(header: Fields, data: seq<byte>, ts: int)

  /** The piece's header says which frame it belongs to and whether it is the last; and it is in order. */
  predicate PieceOf(c: Config, fid: bool, last: bool, p: Piece) {
    && WellFormed(p.header) && p.header.fid == fid && p.header.eof == last && !p.header.err
    && (c.strict ==> p.header.padding == [])
  }

  predicate CutUp(c: Config, fid: bool, ps: seq<Piece>) {
    ps != [] && PieceOf(c, fid, |ps| == 1, ps[0]) && (|ps| > 1 ==> CutUp(c, fid, ps[1..]))
  }

  function Joined(ps: seq<Piece>): seq<byte> { if ps == [] then [] else ps[0].data + Joined(ps[1..]) }

  datatype Shot = Shot(image: seq<byte>, pieces: seq<Piece>)

  /** Images one after the other, each cut up in any way, the FID toggling between them. */
  predicate Sends(c: Config, fid: bool, fs: seq<Shot>)
    decreases |fs|
  {
    fs != [] ==>
      CutUp(c, fid, fs[0].pieces) && Carries(c, Joined(fs[0].pieces), fs[0].image) && Sends(c, !fid, fs[1..])
  }

  function PieceEvents(ps: seq<Piece>): seq<Event> {
    if ps == [] || !WellFormed(ps[0].header) then []
    else [Payload(Encode(ps[0].header, ps[0].data), ps[0].ts)] + PieceEvents(ps[1..])
  }

  function Sent(fs: seq<Shot>): seq<Event> { if fs == [] then [] else PieceEvents(fs[0].pieces) + Sent(fs[1..]) }

  /** The images, each under the time of its first piece. */
  function Images(fs: seq<Shot>): seq<Frame> {
    if fs == [] then []
    else [Frame(if fs[0].pieces == [] then 0 else fs[0].pieces[0].ts, fs[0].image)] + Images(fs[1..])
  }

  function Packets(ps: seq<Piece>): seq<Packet> {
    if ps == [] || !WellFormed(ps[0].header) then []
    else [Packet(Encode(ps[0].header, ps[0].data), ps[0].ts)] + Packets(ps[1..])
  }

  function AsSent(fid: bool, fs: seq<Shot>): seq<SentFrame>
    decreases |fs|
  {
    if fs == [] then [] else [SentFrame(Bit(fid), Packets(fs[0].pieces), [])] + AsSent(!fid, fs[1..])
  }

  lemma {:induction false} PacketsAre(c: Config, fid: bool, ps: seq<Piece>)
    requires CutUp(c, fid, ps)
    ensures var qs := Packets(ps);
            && qs != [] && SoundBody(c, Bit(fid), qs) && LastIsEof(qs) && qs[0].ts == ps[0].ts
            && PacketData(qs) == Joined(ps) && PacketEvents(qs) == PieceEvents(ps)
    decreases |ps|
  {
    hide Encode, Parses, Fid, Eof, Err, Data, WellFormed;
    var q := Packet(Encode(ps[0].header, ps[0].data), ps[0].ts);
    FieldsReadBack(c, ps[0].header, ps[0].data);
    assert Packets(ps) == [q] + Packets(ps[1..]);
    assert Packets(ps)[1..] == Packets(ps[1..]);
    if |ps| == 1 {
      assert ps[1..] == [];
      assert Packets(ps) == [q];
      assert PacketData([q]) == Data(q.bytes) + [] by { assert [q][1..] == []; }
    } else {
      PacketsAre(c, fid, ps[1..]);
    }
  }

  lemma {:induction false} OneIs(c: Config, fid: bool, shot: Shot)
    requires CutUp(c, fid, shot.pieces) && Carries(c, Joined(shot.pieces), shot.image)
    ensures shot.pieces != []
    ensures var s := SentFrame(Bit(fid), Packets(shot.pieces), []);
            && ValidFrame(c, s) && s.EndsWithEof()
            && PacketEvents(s.body) + PacketEvents(s.tail) == PieceEvents(shot.pieces)
            && Outcome(c, s) == [Frame(shot.pieces[0].ts, shot.image)]
  {
    hide Packets, SoundBody, LastIsEof, PacketData, PieceEvents, Joined, Bit, PieceOf, Carries, Accept;
    PacketsAre(c, fid, shot.pieces);
    var s := SentFrame(Bit(fid), Packets(shot.pieces), []);
    assert s.Image() == Joined(shot.pieces);
    AcceptedExactly(c, s.Image(), shot.image);
    assert PacketEvents(s.tail) == [];
    assert s.Ts() == shot.pieces[0].ts;
  }

  lemma {:induction false} StreamCons(c: Config, s: SentFrame, ss: seq<SentFrame>)
    requires ValidFrame(c, s) && s.EndsWithEof() && ValidStream(c, ss)
    requires ss != [] ==> ss[0].fid != s.fid && ss[|ss| - 1].EndsWithEof()
    ensures var all := [s] + ss;
            && ValidStream(c, all) && all[|all| - 1].EndsWithEof()
            && Wire(all) == PacketEvents(s.body) + PacketEvents(s.tail) + Wire(ss)
            && Expected(c, all) == Outcome(c, s) + Expected(c, ss)
  {
    hide ValidFrame, Outcome, SentFrame.EndsWithEof, PacketEvents;
    assert ([s] + ss)[1..] == ss;
  }

  lemma {:induction false} StreamIs(c: Config, fid: bool, fs: seq<Shot>)
    requires Sends(c, fid, fs)
    ensures var ss := AsSent(fid, fs);
            && |ss| == |fs| && ValidStream(c, ss) && (ss != [] ==> ss[0].fid == Bit(fid))
            && (ss != [] ==> ss[|ss| - 1].EndsWithEof())
            && Wire(ss) == Sent(fs) && Expected(c, ss) == Images(fs)
    decreases |fs|
  {
    hide CutUp, Packets, PieceEvents, Joined, Carries, ValidFrame, Outcome, SentFrame.EndsWithEof, PacketEvents, Bit;
    if fs != [] {
      hide ValidStream, Wire, Expected;
      OneIs(c, fid, fs[0]);
      StreamIs(c, !fid, fs[1..]);
      BitsAre();
      StreamCons(c, SentFrame(Bit(fid), Packets(fs[0].pieces), []), AsSent(!fid, fs[1..]));
    }
  }

  /**
   * A camera's stream comes back: whatever clocks each header carries, padded or not as the reading
   * allows, however the images are cut up, the frames returned are the images sent: raw ones of the
   * configured size, JPEGs without the zeros after them.
   */
  lemma {:induction false} CameraStreamRecovered(c: Config, fid: bool, fs: seq<Shot>)
    requires Sends(c, fid, fs)
    ensures Run(c, INITIAL, Sent(fs)).out == Images(fs)
  {
    hide Run, Sends, Expected, Wire, ValidStream;
    StreamIs(c, fid, fs);
    if fs == [] {
      RunNothing(c, INITIAL);
      assert Sent(fs) == [] && Images(fs) == [];
    } else {
      ExactRecovery(c, AsSent(fid, fs));
    }
  }
}
