/** The Boson's serial framing: core-driver/cam_driver/health_boson.py. */
module Boson {
  import opened Common
  import opened BosonCrc

  type long = bv32

  const START: octet := 0x8E
  const END: octet := 0xAE
  const ESC: octet := 0x9E

  predicate Special(b: octet) { b == START || b == END || b == ESC }

  // ---- escaping ------------------------------------------------------------------------

  function Escaped(b: octet): seq<octet> { if Special(b) then [ESC, b - 0x0D] else [b] }

  function Escape(body: seq<octet>): seq<octet>
    decreases |body|
  {
    if body == [] then [] else Escaped(body[0]) + Escape(body[1..])
  }

  /** None: the bytes end inside an escape. */
  function Unescape(s: seq<octet>): Option<seq<octet>>
    decreases |s|
  {
    if s == [] then Some([])
    else if s[0] != ESC then Prepend(s[0], Unescape(s[1..]))
    else if |s| == 1 then None
    else Prepend(s[1] + 0x0D, Unescape(s[2..]))
  }

  function Prepend(b: octet, s: Option<seq<octet>>): Option<seq<octet>> {
    if s.None? then None else Some([b] + s.value)
  }

  method EscapeBytes(body: seq<octet>) returns (out: seq<octet>)
    ensures out == Escape(body)
  {
    out := [];
    var i := 0;
    while i < |body|
      invariant 0 <= i <= |body|
      invariant out + Escape(body[i..]) == Escape(body)
    {
      var b := body[i];
      assert body[i..][0] == b && body[i..][1..] == body[i + 1..];
      Associative(out, Escaped(b), Escape(body[i + 1..]));
      out := out + Escaped(b);
      i := i + 1;
    }
    assert body[i..] == [];
  }

  /** `out`, then whatever the rest unescapes to. */
  function Onto(out: seq<octet>, rest: Option<seq<octet>>): Option<seq<octet>> {
    if rest.None? then None else Some(out + rest.value)
  }

  lemma OntoPrepend(out: seq<octet>, b: octet, rest: Option<seq<octet>>)
    ensures Onto(out, Prepend(b, rest)) == Onto(out + [b], rest)
  {
    if rest.Some? { Associative(out, [b], rest.value); }
  }

  lemma OntoNothing(rest: Option<seq<octet>>)
    ensures Onto([], rest) == rest
  {
    if rest.Some? { assert [] + rest.value == rest.value; }
  }

  method UnescapeBytes(s: seq<octet>) returns (r: Option<seq<octet>>)
    ensures r == Unescape(s)
  {
    var out := [];
    var i := 0;
    assert s[0..] == s;
    OntoNothing(Unescape(s));
    while i < |s|
      invariant 0 <= i <= |s|
      invariant Onto(out, Unescape(s[i..])) == Unescape(s)
    {
      var b := s[i];
      assert s[i..][0] == b && s[i..][1..] == s[i + 1..];
      i := i + 1;
      if b == ESC {
        if i == |s| {
          return None;
        }
        b := s[i] + 0x0D;
        assert s[i - 1..][2..] == s[i + 1..];
        i := i + 1;
      }
      OntoPrepend(out, b, Unescape(s[i..]));
      out := out + [b];
    }
    assert s[i..] == [] && out + [] == out;
    return Some(out);
  }

  lemma EscapeBack(b: octet) ensures Special(b) ==> b - 0x0D + 0x0D == b && !Special(b - 0x0D) {}

  /** Escaping loses nothing, */
  lemma {:induction false} UnescapeEscape(body: seq<octet>)
    ensures Unescape(Escape(body)) == Some(body)
    decreases |body|
  {
    if body != [] {
      var rest := Escape(body[1..]);
      UnescapeEscape(body[1..]);
      EscapeBack(body[0]);
      if Special(body[0]) {
        assert Escape(body) == [ESC, body[0] - 0x0D] + rest;
        assert Escape(body)[2..] == rest;
      } else {
        assert Escape(body)[1..] == rest;
      }
      assert [body[0]] + body[1..] == body;
    }
  }

  /** ... and leaves no marker inside. */
  predicate Unmarked(s: seq<octet>) { START !in s && END !in s }

  lemma {:induction false} EscapeUnmarked(body: seq<octet>)
    ensures Unmarked(Escape(body))
    decreases |body|
  {
    if body != [] {
      EscapeUnmarked(body[1..]);
      EscapeBack(body[0]);
    }
  }

  /** Bytes that Escape could have produced. */
  predicate Canonical(s: seq<octet>)
    decreases |s|
  {
    s == []
    || (!Special(s[0]) && Canonical(s[1..]))
    || (s[0] == ESC && |s| >= 2 && Special(s[1] + 0x0D) && Canonical(s[2..]))
  }

  lemma {:induction false} EscapeCanonical(body: seq<octet>)
    ensures Canonical(Escape(body))
    decreases |body|
  {
    if body != [] {
      var rest := Escape(body[1..]);
      EscapeCanonical(body[1..]);
      EscapeBack(body[0]);
      if Special(body[0]) {
        assert Escape(body)[2..] == rest;
      } else {
        assert Escape(body)[1..] == rest;
      }
    }
  }

  lemma Minus(b: octet) ensures b + 0x0D - 0x0D == b {}

  lemma {:induction false} EscapeUnescape(s: seq<octet>)
    requires Canonical(s)
    ensures Unescape(s).Some? && Escape(Unescape(s).value) == s
    decreases |s|
  {
    if s != [] {
      if s[0] == ESC {
        EscapeUnescape(s[2..]);
        Minus(s[1]);
        var rest := Unescape(s[2..]).value;
        assert ([s[1] + 0x0D] + rest)[1..] == rest;
        assert [ESC, s[1]] + s[2..] == s;
      } else {
        EscapeUnescape(s[1..]);
        var rest := Unescape(s[1..]).value;
        assert ([s[0]] + rest)[1..] == rest;
        assert [s[0]] + s[1..] == s;
      }
    }
  }

  // ---- the body ------------------------------------------------------------------------

  function Octet(v: long, shift: long): octet
    requires shift < 32
  {
    ((v >> shift) & 0xFF) as octet
  }

  function Bytes(v: long): (s: seq<octet>)
    ensures |s| == 4
  {
    [Octet(v, 24), Octet(v, 16), Octet(v, 8), Octet(v, 0)]
  }

  function Long(b0: octet, b1: octet, b2: octet, b3: octet): long {
    ((b0 as long) << (24 as long)) | ((b1 as long) << (16 as long)) | ((b2 as long) << (8 as long)) | (b3 as long)
  }

  function LongAt(s: seq<octet>, i: nat): long
    requires i + 4 <= |s|
  {
    Long(s[i], s[i + 1], s[i + 2], s[i + 3])
  }

  lemma LongBytes(v: long)
    ensures Long(Octet(v, 24), Octet(v, 16), Octet(v, 8), Octet(v, 0)) == v
  {
  }

  datatype Message = Message(seqNo: long, fn: long, status: long, payload: seq<octet>)

  datatype Decoded = Ok(message: Message) | NotAFrame | CutEscape | Short | BadCrc

  function Head(m: Message): seq<octet> { [0] + (Bytes(m.seqNo) + (Bytes(m.fn) + Bytes(m.status))) }

  function Body(m: Message): seq<octet> { Head(m) + m.payload }

  function Checked(body: seq<octet>): seq<octet> { body + [High(Crc16(body)), Low(Crc16(body))] }

  function Frame(inner: seq<octet>): seq<octet> { [START] + inner + [END] }

  function Encode(m: Message): seq<octet> { Frame(Escape(Checked(Body(m)))) }

  function DecodeBody(body: seq<octet>): Decoded {
    var n := |body|;
    if n < 15 then Short
    else if High(Crc16(body[..n - 2])) != body[n - 2] || Low(Crc16(body[..n - 2])) != body[n - 1] then BadCrc
    else Ok(Message(LongAt(body, 1), LongAt(body, 5), LongAt(body, 9), body[13..n - 2]))
  }

  function Decode(frame: seq<octet>): Decoded {
    if |frame| < 2 || frame[0] != START || frame[|frame| - 1] != END then NotAFrame
    else
      var body := Unescape(frame[1..|frame| - 1]);
      if body.None? then CutEscape else DecodeBody(body.value)
  }

  lemma {:induction false} DecodeFrame(inner: seq<octet>)
    ensures Decode(Frame(inner)) == if Unescape(inner).None? then CutEscape else DecodeBody(Unescape(inner).value)
  {
    assert Frame(inner)[1..|Frame(inner)| - 1] == inner;
  }

  lemma HeadAt(m: Message)
    ensures var s := Body(m);
            && |s| == 13 + |m.payload|
            && LongAt(s, 1) == m.seqNo && LongAt(s, 5) == m.fn && LongAt(s, 9) == m.status
            && s[13..] == m.payload
  {
    hide Octet, Long;
    LongBytes(m.seqNo);
    LongBytes(m.fn);
    LongBytes(m.status);
  }

  /** Every message comes back whole: any sequence number, function, status and payload. */
  lemma DecodeEncode(m: Message)
    ensures Decode(Encode(m)) == Ok(m)
  {
    hide Octet, Long, Crc16, High, Low, Body;
    var body := Body(m);
    var full := Checked(body);
    UnescapeEscape(full);
    DecodeFrame(Escape(full));
    HeadAt(m);
    assert full[..|full| - 2] == body;
    assert full[13..|full| - 2] == body[13..];
    assert LongAt(full, 1) == LongAt(body, 1) && LongAt(full, 5) == LongAt(body, 5) && LongAt(full, 9) == LongAt(body, 9);
  }

  /** A body is accepted exactly when it is long enough and its CRC leaves no remainder. */
  lemma AcceptedIffNoRemainder(body: seq<octet>)
    ensures DecodeBody(body).Ok? <==> |body| >= 15 && Crc16(body) == 0
  {
    hide Crc16, High, Low, LongAt;
    var n := |body|;
    if n >= 15 {
      assert body[..n - 2] + [body[n - 2], body[n - 1]] == body;
      RemainderZero(body[..n - 2], body[n - 2], body[n - 1]);
    }
  }

  /** A message damaged within two neighbouring bytes, CRC included, is refused. */
  lemma {:induction false} DamageIsRefused(m: Message, before: seq<octet>, b1: octet, b2: octet, d1: octet, d2: octet, after: seq<octet>)
    requires Checked(Body(m)) == before + [b1, b2] + after
    requires b1 != d1 || b2 != d2
    ensures Decode(Frame(Escape(before + [d1, d2] + after))) == BadCrc
  {
    hide Crc16, High, Low, LongAt, Body, Unescape, Escape;
    var body := before + [d1, d2] + after;
    RemainderZero(Body(m), High(Crc16(Body(m))), Low(Crc16(Body(m))));
    BurstDetected(before, b1, b2, d1, d2, after);
    UnescapeEscape(body);
    DecodeFrame(Escape(body));
    AcceptedIffNoRemainder(body);
    HeadAt(m);
    assert |body| == |Checked(Body(m))|;
  }

  lemma OneByteIsRefused(before: seq<octet>, b: octet, d: octet, after: seq<octet>)
    requires Crc16(before + [b] + after) == 0 && |before| + |after| >= 14 && b != d
    ensures DecodeBody(before + [d] + after) == BadCrc
  {
    hide Crc16, High, Low, LongAt;
    AcceptedIffNoRemainder(before + [d] + after);
    if after != [] {
      assert before + [b] + after == before + [b, after[0]] + after[1..];
      assert before + [d] + after == before + [d, after[0]] + after[1..];
      BurstDetected(before, b, after[0], d, after[0], after[1..]);
    } else {
      var n := |before| - 1;
      assert before + [b] + after == before[..n] + [before[n], b] + [];
      assert before + [d] + after == before[..n] + [before[n], d] + [];
      BurstDetected(before[..n], before[n], b, before[n], d, []);
    }
  }

  /** Bytes that do not end inside an escape can be undone first, */
  lemma {:induction false} UnescapeAppend(x: seq<octet>, y: seq<octet>)
    requires Unescape(x).Some?
    ensures Unescape(x + y) == Onto(Unescape(x).value, Unescape(y))
    decreases |x|
  {
    if x == [] {
      assert x + y == y;
      OntoNothing(Unescape(y));
    } else {
      var n := if x[0] == ESC then 2 else 1;
      assert (x + y)[n..] == x[n..] + y && (x + y)[0] == x[0];
      UnescapeAppend(x[n..], y);
      var b := if x[0] == ESC then x[1] + 0x0D else x[0];
      var rest := Unescape(x[n..]).value;
      if Unescape(y).Some? { Associative([b], rest, Unescape(y).value); }
    }
  }

  /** ... and otherwise the last of them opens one. */
  lemma {:induction false} UnescapeOpen(x: seq<octet>)
    requires Unescape(x).None?
    ensures x != [] && x[|x| - 1] == ESC && Unescape(x[..|x| - 1]).Some?
    decreases |x|
  {
    if x[0] != ESC {
      UnescapeOpen(x[1..]);
      assert x[..|x| - 1][1..] == x[1..][..|x| - 2];
    } else if |x| > 1 {
      UnescapeOpen(x[2..]);
      assert x[2..] != [];
      assert x[..|x| - 1][2..] == x[2..][..|x| - 3];
    }
  }

  /** The message bytes that are complete before the wire byte that follows `x`. */
  function BytesBefore(x: seq<octet>): seq<octet> {
    var whole := Unescape(x);
    if whole.Some? then whole.value
    else
      var rest := if x == [] then None else Unescape(x[..|x| - 1]);
      if rest.Some? then rest.value else []
  }

  /** What the wire byte after `x` stands for: itself, unless it is the second of an escape. */
  function StandsFor(x: seq<octet>, b: octet): octet { if Unescape(x).Some? then b else b + 0x0D }

  /** The byte at a place on the wire, plain or the second of an escape, is one byte of the message. */
  lemma {:induction false} UnescapeAt(x: seq<octet>, b: octet, z: seq<octet>)
    requires Unescape(x).Some? ==> b != ESC
    ensures Unescape(x + [b] + z) == Onto(BytesBefore(x) + [StandsFor(x, b)], Unescape(z))
  {
    if Unescape(x).Some? {
      Associative(x, [b], z);
      UnescapeAppend(x, [b] + z);
      assert ([b] + z)[1..] == z;
      OntoPrepend(Unescape(x).value, b, Unescape(z));
    } else {
      UnescapeOpen(x);
      var y := x[..|x| - 1];
      assert x + [b] + z == y + ([ESC, b] + z);
      UnescapeAppend(y, [ESC, b] + z);
      assert ([ESC, b] + z)[2..] == z;
      OntoPrepend(Unescape(y).value, b + 0x0D, Unescape(z));
    }
  }

  /**
   * A frame with one damaged byte on the wire is refused, wherever it is, unless the damage makes a plain
   * byte an escape or an escape a plain byte, and so changes the length of the message.
   */
  lemma {:induction false} WireDamageIsRefused(m: Message, x: seq<octet>, b: octet, d: octet, z: seq<octet>)
    requires Encode(m) == Frame(x + [b] + z) && b != d
    requires Unescape(x).Some? ==> b != ESC && d != ESC
    ensures Decode(Frame(x + [d] + z)) == BadCrc
  {
    hide Crc16, High, Low, LongAt, Body, Unescape, Escape, DecodeBody, BytesBefore;
    var full := Checked(Body(m));
    assert Encode(m)[1..|Encode(m)| - 1] == Escape(full);
    assert Frame(x + [b] + z)[1..|x + [b] + z| + 1] == x + [b] + z;
    UnescapeEscape(full);
    UnescapeAt(x, b, z);
    UnescapeAt(x, d, z);
    var before, after := BytesBefore(x), Unescape(z).value;
    assert full == before + [StandsFor(x, b)] + after && |full| == |Body(m)| + 2;
    RemainderZero(Body(m), High(Crc16(Body(m))), Low(Crc16(Body(m))));
    HeadAt(m);
    DifferentStill(b, d);
    OneByteIsRefused(before, StandsFor(x, b), StandsFor(x, d), after);
    DecodeFrame(x + [d] + z);
  }

  lemma DifferentStill(b: octet, d: octet) ensures b != d ==> b + 0x0D != d + 0x0D {}

  lemma BytesLong(b0: octet, b1: octet, b2: octet, b3: octet)
    ensures Bytes(Long(b0, b1, b2, b3)) == [b0, b1, b2, b3]
  {
    OctetsLong(b0, b1, b2, b3);
  }

  lemma OctetsLong(b0: octet, b1: octet, b2: octet, b3: octet)
    ensures var v := Long(b0, b1, b2, b3);
            Octet(v, 24) == b0 && Octet(v, 16) == b1 && Octet(v, 8) == b2 && Octet(v, 0) == b3
  {
  }

  /** What an accepted body says is what it would be rebuilt from, its channel byte apart. */
  lemma Rebuilt(body: seq<octet>)
    requires DecodeBody(body).Ok?
    ensures Checked(Body(DecodeBody(body).message)) == body <==> body[0] == 0
  {
    hide Crc16, High, Low, Bytes, Long, Octet;
    var n := |body|;
    var m := DecodeBody(body).message;
    BytesLong(body[1], body[2], body[3], body[4]);
    BytesLong(body[5], body[6], body[7], body[8]);
    BytesLong(body[9], body[10], body[11], body[12]);
    assert Body(m)[1..] == body[1..n - 2];
    if body[0] == 0 {
      assert Body(m) == body[..n - 2];
    } else {
      assert Checked(Body(m))[0] == 0;
    }
  }

  /**
   * The frames that survive decoding and encoding again are exactly those on channel 0 whose
   * escapes are the ones a sender makes; decoding accepts more than that.
   */
  lemma {:induction false} EncodeDecode(inner: seq<octet>)
    requires Decode(Frame(inner)).Ok?
    ensures Encode(Decode(Frame(inner)).message) == Frame(inner)
            <==> Canonical(inner) && Unescape(inner).value[0] == 0
  {
    hide DecodeBody, Body, Unescape, Escape, Canonical, Checked;
    DecodeFrame(inner);
    var body := Unescape(inner).value;
    var full := Checked(Body(DecodeBody(body).message));
    Rebuilt(body);
    if Frame(Escape(full)) == Frame(inner) {
      assert Frame(Escape(full))[1..|Frame(inner)| - 1] == Escape(full);
      assert Frame(inner)[1..|Frame(inner)| - 1] == inner;
      EscapeCanonical(full);
      UnescapeEscape(full);
    }
    if Canonical(inner) {
      EscapeUnescape(inner);
    }
  }
}
