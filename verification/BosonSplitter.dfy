/** Whole frames out of a byte stream in pieces: core-driver/cam_driver/health_boson.py, FrameSplitter. */
module BosonSplitter {
  import opened Common
  import opened BosonCrc
  import opened Boson

  /** Where `x` first occurs in `s`; the length of `s` if it does not. */
  function IndexOf(s: seq<octet>, x: octet): (i: nat)
    ensures i <= |s| && x !in s[..i] && (i < |s| ==> s[i] == x)
    decreases |s|
  {
    if s == [] || s[0] == x then 0 else 1 + IndexOf(s[1..], x)
  }

  /** The frames in a buffer, and what stays in it for the next bytes. */
  datatype Parts = Parts(frames: seq<seq<octet>>, rest: seq<octet>)

  /** Where the first end marker after `s` is; the length of the buffer if there is none. */
  function EndOf(buf: seq<octet>, s: nat): (e: nat)
    requires s < |buf|
    ensures s < e <= |buf|
  {
    s + 1 + IndexOf(buf[s + 1..], END)
  }

  function Split(buf: seq<octet>): Parts
    decreases |buf|
  {
    var s := IndexOf(buf, START);
    if s == |buf| then Parts([], [])
    else
      var e := EndOf(buf, s);
      if e == |buf| then Parts([], buf[s..])
      else
        var later := Split(buf[e + 1..]);
        Parts([buf[s..e + 1]] + later.frames, later.rest)
  }

  lemma {:induction false} SplitUnfolds(buf: seq<octet>)
    ensures var s := IndexOf(buf, START);
            if s == |buf| then Split(buf) == Parts([], [])
            else
              var e := EndOf(buf, s);
              if e == |buf| then Split(buf) == Parts([], buf[s..])
              else Split(buf) == Parts([buf[s..e + 1]] + Split(buf[e + 1..]).frames, Split(buf[e + 1..]).rest)
  {
    hide IndexOf, EndOf;
  }

  class FrameSplitter {
    var buf: seq<octet>

    constructor ()
      ensures buf == []
    {
      buf := [];
    }

    method Feed(data: seq<octet>) returns (frames: seq<seq<octet>>)
      modifies this
      ensures Parts(frames, buf) == Split(old(buf) + data)
    {
      hide Split, IndexOf, EndOf;
      buf := buf + data;
      ghost var all := Split(buf);
      frames := [];
      while true
        invariant all == Parts(frames + Split(buf).frames, Split(buf).rest)
        decreases |buf|
      {
        SplitUnfolds(buf);
        var s := IndexOf(buf, START);
        if s == |buf| {
          buf := [];
          return;
        }
        var e := EndOf(buf, s);
        if e == |buf| {
          buf := buf[s..];
          return;
        }
        Associative(frames, [buf[s..e + 1]], Split(buf[e + 1..]).frames);
        frames := frames + [buf[s..e + 1]];
        buf := buf[e + 1..];
      }
    }
  }

  // ---- streams -------------------------------------------------------------------------

  lemma {:induction false} IndexPast(a: seq<octet>, b: seq<octet>, x: octet)
    requires x !in a
    ensures IndexOf(a + b, x) == |a| + IndexOf(b, x)
    decreases |a|
  {
    if a == [] {
      assert a + b == b;
    } else {
      assert (a + b)[1..] == a[1..] + b;
      IndexPast(a[1..], b, x);
    }
  }

  lemma {:induction false} SkipOne(x: octet, b: seq<octet>)
    requires x != START
    ensures Split([x] + b) == Split(b)
  {
    hide Split, IndexOf;
    var buf := [x] + b;
    var s := IndexOf(b, START);
    IndexPast([x], b, START);
    SplitUnfolds(b);
    SplitUnfolds(buf);
    if s < |b| {
      var n := IndexOf(b[s + 1..], END);
      assert buf[s + 2..] == b[s + 1..];
      SkipOneTail(x, b, s, s + 1 + n);
    }
  }

  lemma SkipOneTail(x: octet, b: seq<octet>, s: nat, e: nat)
    requires s < e <= |b|
    ensures var buf := [x] + b;
            buf[s + 1..] == b[s..] && (e < |b| ==> buf[e + 2..] == b[e + 1..] && buf[s + 1..e + 2] == b[s..e + 1])
  {
  }

  /** Whatever comes before a start marker is dropped. */
  lemma {:induction false} SkipGarbage(g: seq<octet>, b: seq<octet>)
    requires START !in g
    ensures Split(g + b) == Split(b)
    decreases |g|
  {
    hide Split;
    if g == [] {
      assert g + b == b;
    } else {
      assert g + b == [g[0]] + (g[1..] + b);
      SkipOne(g[0], g[1..] + b);
      SkipGarbage(g[1..], b);
    }
  }

  lemma {:induction false} TakeFrame(inner: seq<octet>, b: seq<octet>)
    requires END !in inner
    ensures Split(Frame(inner) + b) == Parts([Frame(inner)] + Split(b).frames, Split(b).rest)
  {
    var f := Frame(inner);
    var buf := f + b;
    assert buf[0] == START;
    assert buf[1..] == inner + ([END] + b);
    IndexPast(inner, [END] + b, END);
    assert ([END] + b)[0] == END;
    assert buf[..|f|] == f && buf[|f|..] == b;
  }

  /** A start marker with no end marker after it waits. */
  lemma {:induction false} WaitForEnd(inner: seq<octet>)
    requires END !in inner
    ensures Split([START] + inner) == Parts([], [START] + inner)
  {
    var buf := [START] + inner;
    assert buf[1..] == inner;
    IndexPast(inner, [], END);
    assert inner + [] == inner && buf[0..] == buf;
  }

  /** What a buffer is made of. */
  datatype Shape =
    | Noise
    | Open(noise: seq<octet>, inner: seq<octet>)
    | Whole(noise: seq<octet>, inner: seq<octet>, later: seq<octet>)

  function ShapeOf(buf: seq<octet>): Shape {
    var s := IndexOf(buf, START);
    if s == |buf| then Noise
    else
      var n := IndexOf(buf[s + 1..], END);
      if s + 1 + n == |buf| then Open(buf[..s], buf[s + 1..])
      else Whole(buf[..s], buf[s + 1..][..n], buf[s + 1..][n + 1..])
  }

  predicate Fits(buf: seq<octet>, p: Shape) {
    match p
    case Noise => START !in buf
    case Open(g, inner) => START !in g && END !in inner && buf == g + ([START] + inner)
    case Whole(g, inner, y) => START !in g && END !in inner && buf == g + (Frame(inner) + y)
  }

  lemma CutAt(s: seq<octet>, i: nat)
    requires i < |s|
    ensures s == s[..i] + ([s[i]] + s[i + 1..])
  {
  }

  lemma CutFrame(r: seq<octet>, n: nat)
    requires n < |r| && r[n] == END
    ensures [START] + r == Frame(r[..n]) + r[n + 1..]
  {
  }

  lemma ShapeFits(buf: seq<octet>)
    ensures Fits(buf, ShapeOf(buf))
  {
    hide IndexOf, Frame;
    var s := IndexOf(buf, START);
    if s == |buf| {
      assert buf[..s] == buf;
    } else {
      var r := buf[s + 1..];
      var n := IndexOf(r, END);
      CutAt(buf, s);
      if n == |r| {
        assert r[..n] == r;
      } else {
        CutFrame(r, n);
      }
    }
  }

  /** Splitting, shape by shape. */
  function SplitShape(p: Shape): Parts {
    match p
    case Noise => Parts([], [])
    case Open(g, inner) => Parts([], [START] + inner)
    case Whole(g, inner, y) => Parts([Frame(inner)] + Split(y).frames, Split(y).rest)
  }

  lemma {:induction false} SplitByShape(buf: seq<octet>, p: Shape)
    requires Fits(buf, p)
    ensures Split(buf) == SplitShape(p)
  {
    hide Split, Frame;
    match p
    case Noise =>
      SkipGarbage(buf, []);
      assert buf + [] == buf;
      EmptySplits();
    case Open(g, inner) =>
      SkipGarbage(g, [START] + inner);
      WaitForEnd(inner);
    case Whole(g, inner, y) =>
      SkipGarbage(g, Frame(inner) + y);
      TakeFrame(inner, y);
  }

  /** Two calls of feed do what one call with both pieces does: same frames, same buffer. */
  lemma {:induction false} FeedTwice(x: seq<octet>, b: seq<octet>)
    ensures var first := Split(x);
            var second := Split(first.rest + b);
            Split(x + b) == Parts(first.frames + second.frames, second.rest)
    decreases |x|
  {
    hide Split, Frame, ShapeOf;
    ShapeFits(x);
    SplitByShape(x, ShapeOf(x));
    match ShapeOf(x)
    case Noise =>
      SkipGarbage(x, b);
      assert [] + b == b;
    case Open(g, inner) =>
      assert x + b == g + (([START] + inner) + b);
      SkipGarbage(g, ([START] + inner) + b);
    case Whole(g, inner, y) =>
      assert x + b == g + (Frame(inner) + (y + b));
      SkipGarbage(g, Frame(inner) + (y + b));
      TakeFrame(inner, y + b);
      assert |y| < |x| by { FrameLength(inner); }
      FeedTwice(y, b);
      Associative([Frame(inner)], Split(y).frames, Split(Split(y).rest + b).frames);
  }

  lemma FrameLength(inner: seq<octet>) ensures |Frame(inner)| == |inner| + 2 {}

  /** Feeding piece after piece. */
  function FeedAll(buf: seq<octet>, chunks: seq<seq<octet>>): Parts
    decreases |chunks|
  {
    if chunks == [] then Parts([], buf)
    else
      var one := Split(buf + chunks[0]);
      var more := FeedAll(one.rest, chunks[1..]);
      Parts(one.frames + more.frames, more.rest)
  }

  /** What is left in the buffer waits for more: splitting it again finds nothing. */
  lemma {:induction false} RestWaits(x: seq<octet>)
    ensures Split(Split(x).rest) == Parts([], Split(x).rest)
    decreases |x|
  {
    hide Split, Frame, ShapeOf;
    ShapeFits(x);
    SplitByShape(x, ShapeOf(x));
    match ShapeOf(x)
    case Noise => EmptySplits();
    case Open(g, inner) => WaitForEnd(inner);
    case Whole(g, inner, y) =>
      assert |y| < |x| by { FrameLength(inner); }
      RestWaits(y);
  }

  /** However the bytes are cut into pieces, the frames and the buffer are those of the whole. */
  lemma {:induction false} AnyChunking(buf: seq<octet>, chunks: seq<seq<octet>>)
    requires Split(buf) == Parts([], buf)
    ensures FeedAll(buf, chunks) == Split(buf + Flatten(chunks))
    decreases |chunks|
  {
    if chunks == [] {
      assert buf + [] == buf;
    } else {
      var one := Split(buf + chunks[0]);
      RestWaits(buf + chunks[0]);
      AnyChunking(one.rest, chunks[1..]);
      FeedTwice(buf + chunks[0], Flatten(chunks[1..]));
      Associative(buf, chunks[0], Flatten(chunks[1..]));
    }
  }

  /** A message on the line, and the noise before it. */
  datatype Sent = Sent(noise: seq<octet>, message: Message)

  predicate Quiet(sent: seq<Sent>)
    decreases |sent|
  {
    sent == [] || (START !in sent[0].noise && Quiet(sent[1..]))
  }

  function Line(sent: seq<Sent>): seq<octet>
    decreases |sent|
  {
    if sent == [] then [] else sent[0].noise + (Encode(sent[0].message) + Line(sent[1..]))
  }

  function Frames(sent: seq<Sent>): seq<seq<octet>>
    decreases |sent|
  {
    if sent == [] then [] else [Encode(sent[0].message)] + Frames(sent[1..])
  }

  lemma {:induction false} LineSplits(sent: seq<Sent>, tail: seq<octet>)
    requires Quiet(sent) && START !in tail
    ensures Split(Line(sent) + tail) == Parts(Frames(sent), [])
    decreases |sent|
  {
    hide Encode, Frame, Split, Escape;
    if sent == [] {
      assert Line(sent) + tail == tail + [];
      SkipGarbage(tail, []);
      assert Split([]) == Parts([], []) by { EmptySplits(); }
    } else {
      var m, more := sent[0].message, Line(sent[1..]) + tail;
      var inner := Escape(Checked(Body(m)));
      EscapeUnmarked(Checked(Body(m)));
      assert Encode(m) == Frame(inner) by { EncodeIsFrame(m); }
      assert Line(sent) + tail == sent[0].noise + (Frame(inner) + more);
      SkipGarbage(sent[0].noise, Frame(inner) + more);
      TakeFrame(inner, more);
      LineSplits(sent[1..], tail);
    }
  }

  lemma EmptySplits() ensures Split([]) == Parts([], []) {}

  lemma EncodeIsFrame(m: Message) ensures Encode(m) == Frame(Escape(Checked(Body(m)))) {}

  /**
   * Framing survives the line: any messages, any noise free of start markers before, between and
   * after them, and any cutting into pieces give exactly the frames that were sent, with nothing
   * left over, and every one decodes to its message.
   */
  lemma {:induction false} StreamRecovered(sent: seq<Sent>, tail: seq<octet>, chunks: seq<seq<octet>>, i: nat)
    requires Quiet(sent) && START !in tail && Flatten(chunks) == Line(sent) + tail
    ensures FeedAll([], chunks) == Parts(Frames(sent), [])
    ensures i < |sent| ==> |Frames(sent)| == |sent| && Decode(Frames(sent)[i]) == Ok(sent[i].message)
  {
    hide Split, Decode, Encode;
    EmptySplits();
    AnyChunking([], chunks);
    assert [] + Flatten(chunks) == Flatten(chunks);
    LineSplits(sent, tail);
    if i < |sent| {
      FrameAt(sent, i);
      DecodeEncode(sent[i].message);
    }
  }

  lemma {:induction false} FrameAt(sent: seq<Sent>, i: nat)
    requires i < |sent|
    ensures |Frames(sent)| == |sent| && Frames(sent)[i] == Encode(sent[i].message)
    decreases |sent|
  {
    hide Encode;
    if |sent| > 1 { FrameAt(sent[1..], if i > 0 then i - 1 else 0); }
  }
}
