/** Where loss safety ends: exactly which streams, rests of payloads and ERR payloads it holds for. */
module UvcLossExact {
  import opened Common
  import opened UvcAssembler
  import opened UvcRecovery
  import opened UvcLoss

  // ---- what is left of a payload, exactly --------------------------------------------------

  /** The rest opens a frame other than `fid` in this state: it is its bare header, and that frame is news. */
  predicate Opens(c: Config, a: Asm, fid: nat, b: seq<byte>) { OtherHeader(c, fid, b) && a.fid != Some(Fid(b)) }

  /** A raw frame that may follow one with FID `fid`. */
  ghost predicate NextFrame(c: Config, fid: nat, g: SentFrame) {
    RawFrame(c, g) && InTime(g) && g.fid != fid
  }

  /** With no frame in progress, a payload adds nothing or begins a frame with all its data. */
  lemma RestFeeds(c: Config, a: Asm, b: seq<byte>, ts: int)
    requires a.mode != Accum
    ensures var t := Step(c, a, Payload(b, ts));
            || (t.mode != Accum && t.out == a.out)
            || (Parses(c, b) && !Err(b) && !(a.fid == Some(Fid(b)) && Data(b) == []) && t == Append(c, Begin(a, Fid(b), ts), b))
  {
    hide Append, Finalize, Data, Eof, Fid;
  }

  /** Less than a frame is not returned. */
  lemma ShortAppend(c: Config, a: Asm, fid: nat, b: seq<byte>, ts: int)
    requires !c.mjpeg && c.expected.Some? && |Data(b)| < c.expected.value
    ensures var t := Append(c, Begin(a, fid, ts), b);
            && t.out == a.out && t.fid == Some(fid)
            && (t.mode == Accum ==> !Eof(b) && t.buf == Data(b))
  {
    hide Eof, Data;
    assert [] + Data(b) == Data(b);
  }

  /** A rest that does not open another frame leaves the assembler between frames. */
  lemma {:induction false} RestBetween(c: Config, a: Asm, sent: seq<Frame>, fid: nat, b: seq<byte>, ts: int)
    requires !c.mjpeg && c.expected.Some? && |b| <= c.expected.value && c.expected.value > 0
    requires a.mode != Accum && Subsequence(a.out, sent) && !Opens(c, a, fid, b)
    ensures Between(c, Step(c, a, Payload(b, ts)), sent, fid)
  {
    hide Subsequence, Step, Append, Begin, Eof, Fid, Err, LastSent;
    RestFeeds(c, a, b, ts);
    if Parses(c, b) {
      assert |Data(b)| <= |b| - 2;
      hide Parses, Data;
      ShortAppend(c, a, Fid(b), b, ts);
    }
  }

  /** And one that does leaves that frame begun, at the time of the rest. */
  lemma RestOpens(c: Config, a: Asm, fid: nat, b: seq<byte>, ts: int)
    requires a.mode != Accum && Opens(c, a, fid, b)
    ensures Step(c, a, Payload(b, ts)) == Begin(a, Fid(b), ts)
  {
    assert [] + Data(b) == [];
  }

  /** The whole of a frame in one payload. */
  function OnePayload(fid: nat, size: nat, ts: int): SentFrame
    requires fid < 2
  {
    SentFrame(fid, [Packet([2, fid + 2] + seq(size, _ => 0), ts)], [])
  }

  lemma OnePayloadIsNext(c: Config, fid: nat, other: nat, ts: int)
    requires c.expected.Some? && c.expected.value > 0 && other < 2 && other != fid
    ensures NextFrame(c, fid, OnePayload(other, c.expected.value, ts))
    ensures var p := OnePayload(other, c.expected.value, ts).body[0].bytes;
            && Parses(c, p) && !Err(p) && Eof(p) && Fid(p) == other && |Data(p)| == c.expected.value
  {
    var g := OnePayload(other, c.expected.value, ts);
    var p := g.body[0].bytes;
    assert p[0] == 2 && p[1] == other + 2;
    assert Data(p) == seq(c.expected.value, _ => 0);
    assert g.body[1..] == [] && PacketData([]) == [] && g.Image() == Data(p) + [];
  }

  /** That frame then comes out with the time of the rest. */
  lemma {:induction false} WrongTime(c: Config, a: Asm, other: nat, ts: int)
    requires !c.mjpeg && c.expected.Some? && c.expected.value > 0 && other < 2
    ensures var g := OnePayload(other, c.expected.value, ts + 1);
            exists image :: Run(c, Begin(a, other, ts), PacketEvents(Packets(g))).out == a.out + [Frame(ts, image)]
  {
    var g := OnePayload(other, c.expected.value, ts + 1);
    OnePayloadIsNext(c, 1 - other, other, ts + 1);
    var p := g.body[0];
    assert Packets(g) == [p] && [p][1..] == [];
    var e := Payload(p.bytes, p.ts);
    assert PacketEvents([p]) == [e];
    RunOne(c, Begin(a, other, ts), e);
    hide Data, Eof, Parses;
    assert Step(c, Begin(a, other, ts), e) == Append(c, Begin(a, other, ts), p.bytes);
    assert [] + Data(p.bytes) == Data(p.bytes);
  }

  lemma {:induction false} LastIsIn<T>(a: seq<T>, x: T, b: seq<T>)
    requires Subsequence(a + [x], b)
    ensures x in b
    decreases |b|
  {
    var s := a + [x];
    assert s[|s| - 1] == x;
    if b != [] && Subsequence(s, b[..|b| - 1]) { LastIsIn(a, x, b[..|b| - 1]); }
  }

  lemma {:induction false} SentFramesAppend(fs: seq<SentFrame>, g: SentFrame)
    ensures SentFrames(fs + [g]) == SentFrames(fs) + [AsFrame(g)]
    decreases |fs|
  {
    if fs == [] {
      assert [] + [g] == [g] && [g][1..] == [];
    } else {
      assert (fs + [g])[0] == fs[0] && (fs + [g])[1..] == fs[1..] + [g];
      SentFramesAppend(fs[1..], g);
    }
  }

  lemma {:induction false} SentTimes(fs: seq<SentFrame>, x: Frame)
    requires x in SentFrames(fs)
    ensures exists i :: 0 <= i < |fs| && fs[i].Ts() == x.ts
    decreases |fs|
  {
    if x == AsFrame(fs[0]) {
    } else {
      SentTimes(fs[1..], x);
      var i :| 0 <= i < |fs[1..]| && fs[1..][i].Ts() == x.ts;
      assert fs[i + 1].Ts() == x.ts;
    }
  }

  lemma {:induction false} DeliveredIntact(ps: seq<Packet>, n: nat, begun: bool)
    ensures Intact(ps, AllDelivered(n), begun)
    decreases |ps|
  {
    if ps != [] && n > 0 {
      assert AllDelivered(n)[1..] == AllDelivered(n - 1);
      DeliveredIntact(ps[1..], n - 1, begun || Data(ps[0].bytes) != []);
    }
  }

  lemma {:induction false} NextComesOut(c: Config, a: Asm, sent: seq<Frame>, fid: nat, g: SentFrame)
    requires !c.mjpeg && Between(c, a, sent, fid) && NextFrame(c, fid, g)
    ensures Subsequence(Run(c, a, PacketEvents(Packets(g))).out, sent + [AsFrame(g)])
  {
    hide Run, Between, Damaged, Padded, PossibleFates, PacketEvents, Packets, RawFrame, Subsequence, Intact, IdleThrough;
    var n := |Packets(g)|;
    DeliveredEvents(Packets(g));
    DeliveredIntact(g.body, n, false);
    LossesArePossible(c, g.fid, Packets(g), AllDelivered(n), false);
    PaddedSelf(c, PacketEvents(Packets(g)));
    WholeFrame(c, a, sent, fid, g, AllDelivered(n), false, PacketEvents(Packets(g)));
    BetweenIsSent(c, Run(c, a, PacketEvents(Packets(g))), sent + [AsFrame(g)], g.fid);
  }

  /**
   * Loss safety and the rest of a payload, exactly. In any lossy stream that has just reported a loss, the
   * rest of the lost payload is handed over. Whatever intact frame comes next, only frames sent come out,
   * in order and at their times, if and only if the rest does not open another frame.
   */
  lemma {:induction false} RestIsSafeExactly(c: Config, fs: seq<SentFrame>, fates: seq<Fate>, es: seq<Event>, fid: nat,
                                             b: seq<byte>, ts: int)
    requires !c.mjpeg && RawStream(c, fs) && AllInTime(fs)
    requires AllPossible(c, fs, fates, true) && Padded(c, Damaged(AllPackets(fs), fates), es)
    requires EndsNoisy(c, es)
    requires c.expected.Some? && |b| <= c.expected.value && c.expected.value > 0
    requires forall i :: 0 <= i < |fs| ==> fs[i].Ts() != ts
    ensures var a := Run(c, INITIAL, es + [Payload(b, ts)]);
            (forall g :: NextFrame(c, fid, g) ==> Subsequence(Run(c, a, PacketEvents(Packets(g))).out, SentFrames(fs + [g])))
            <==> !Opens(c, Run(c, INITIAL, es), fid, b)
  {
    hide Run, RawStream, AllInTime, AllPossible, Padded, Damaged, Noise, Survivors, AllPackets, NextFrame, PacketEvents, Packets, Opens, Subsequence, SentFrames, Begin;
    var a0 := Run(c, INITIAL, es);
    LossSafety(c, fs, fates, es);
    EndsIdle(c, INITIAL, es);
    RunAppend(c, INITIAL, es, [Payload(b, ts)]);
    RunOne(c, a0, Payload(b, ts));
    var a := Run(c, INITIAL, es + [Payload(b, ts)]);
    if Opens(c, a0, fid, b) {
      RestOpens(c, a0, fid, b, ts);
      OpensFid(c, a0, fid, b);
      WrongTimeIsWrong(c, a0, fs, Fid(b), fid, ts);
    } else {
      RestBetween(c, a0, SentFrames(fs), fid, b, ts);
      forall g | NextFrame(c, fid, g) ensures Subsequence(Run(c, a, PacketEvents(Packets(g))).out, SentFrames(fs + [g])) {
        NextComesOut(c, a, SentFrames(fs), fid, g);
        SentFramesAppend(fs, g);
      }
    }
  }

  lemma OpensFid(c: Config, a: Asm, fid: nat, b: seq<byte>) requires Opens(c, a, fid, b) ensures Fid(b) < 2 && Fid(b) != fid {}

  lemma {:induction false} EndsIdle(c: Config, a: Asm, es: seq<Event>)
    requires EndsNoisy(c, es)
    ensures Run(c, a, es).mode != Accum
  {
    var n := |es| - 1;
    assert es == es[..n] + [es[n]];
    RunAppend(c, a, es[..n], [es[n]]);
    RunOne(c, Run(c, a, es[..n]), es[n]);
    NoiseEnds(c, Run(c, a, es[..n]), es[n]);
  }

  lemma {:induction false} WrongTimeIsWrong(c: Config, a: Asm, fs: seq<SentFrame>, other: nat, fid: nat, ts: int)
    requires !c.mjpeg && c.expected.Some? && c.expected.value > 0 && other < 2 && other != fid
    requires forall i :: 0 <= i < |fs| ==> fs[i].Ts() != ts
    ensures exists g :: NextFrame(c, fid, g)
              && !Subsequence(Run(c, Begin(a, other, ts), PacketEvents(Packets(g))).out, SentFrames(fs + [g]))
  {
    hide Run, NextFrame, PacketEvents, Packets, Subsequence, SentFrames, Begin;
    var g := OnePayload(other, c.expected.value, ts + 1);
    OnePayloadIsNext(c, fid, other, ts + 1);
    WrongTime(c, a, other, ts);
    var out := Run(c, Begin(a, other, ts), PacketEvents(Packets(g))).out;
    var image :| out == a.out + [Frame(ts, image)];
    assert g.Ts() == ts + 1;
    if Subsequence(out, SentFrames(fs + [g])) {
      LastIsIn(a.out, Frame(ts, image), SentFrames(fs + [g]));
      SentTimes(fs + [g], Frame(ts, image));
    }
  }


  // ---- frames whose data begins later than they do, exactly ----------------------------------

  /** No frame has the time of another's payload. */
  predicate OwnTimes(fs: seq<SentFrame>) {
    forall i, j, k :: 0 <= i < |fs| && 0 <= j < |fs| && i != j && 0 <= k < |fs[j].body| ==> fs[i].Ts() != fs[j].body[k].ts
  }

  lemma {:induction false} LatePayload(ps: seq<Packet>, ts: int) returns (j: nat)
    requires !OneTime(ps, ts)
    ensures j < |ps| && ps[j].ts != ts && PacketData(ps) == PacketData(ps[j..])
    decreases |ps|
  {
    if ps[0].ts != ts {
      assert ps[0..] == ps;
      j := 0;
    } else {
      var i := LatePayload(ps[1..], ts);
      assert ps[1..][i..] == ps[i + 1..] && [] + PacketData(ps[1..]) == PacketData(ps[1..]);
      j := i + 1;
    }
  }

  /** What is left of a frame that begins with its payload j. */
  function From(f: SentFrame, j: nat): SentFrame
    requires j < |f.body|
  {
    SentFrame(f.fid, f.body[j..], f.tail)
  }

  lemma {:induction false} BodyFrom(c: Config, fid: nat, ps: seq<Packet>, j: nat)
    requires SoundBody(c, fid, ps) && j < |ps|
    ensures SoundBody(c, fid, ps[j..]) && LastIsEof(ps[j..]) == LastIsEof(ps)
    decreases j
  {
    if j > 0 {
      BodyFrom(c, fid, ps[1..], j - 1);
      assert ps[1..][j - 1..] == ps[j..];
    } else {
      assert ps[0..] == ps;
    }
  }

  lemma {:induction false} FromIsRaw(c: Config, f: SentFrame, j: nat)
    requires RawFrame(c, f) && j < |f.body| && PacketData(f.body) == PacketData(f.body[j..])
    ensures RawFrame(c, From(f, j)) && From(f, j).EndsWithEof() == f.EndsWithEof()
  {
    BodyFrom(c, f.fid, f.body, j);
  }

  lemma {:induction false} RawIsValid(c: Config, fs: seq<SentFrame>)
    requires RawStream(c, fs)
    ensures ValidStream(c, fs) && AllOfSize(c, fs)
    decreases |fs|
  {
    if fs != [] { RawIsValid(c, fs[1..]); }
  }

  lemma {:induction false} PacketsFrom(f: SentFrame, j: nat)
    requires j < |f.body|
    ensures Packets(f) == f.body[..j] + Packets(From(f, j))
  {
    assert f.body == f.body[..j] + f.body[j..];
    Associative(f.body[..j], f.body[j..], f.tail);
  }

  /** The stream `fs` with its first frame reduced to what is left from payload j on. */
  lemma {:induction false} StreamFrom(c: Config, fs: seq<SentFrame>, j: nat)
    requires RawStream(c, fs) && fs != [] && fs[|fs| - 1].EndsWithEof()
    requires j < |fs[0].body| && PacketData(fs[0].body) == PacketData(fs[0].body[j..])
    ensures var gs := [From(fs[0], j)] + fs[1..];
            && ValidStream(c, gs) && AllOfSize(c, gs) && gs[|gs| - 1].EndsWithEof()
            && AllPackets(fs) == fs[0].body[..j] + AllPackets(gs)
  {
    hide RawFrame, Packets, ValidStream, AllOfSize, PacketData, LastIsEof;
    var h := From(fs[0], j);
    var gs := [h] + fs[1..];
    assert RawFrame(c, fs[0]);
    FromIsRaw(c, fs[0], j);
    assert gs[1..] == fs[1..] && h.fid == fs[0].fid;
    assert RawStream(c, gs);
    RawIsValid(c, gs);
    PacketsFrom(fs[0], j);
    Associative(fs[0].body[..j], Packets(h), AllPackets(fs[1..]));
  }

  function AllMissing(n: nat): seq<Fate> { if n == 0 then [] else [Missing] + AllMissing(n - 1) }

  lemma {:induction false} MissingEvents(ps: seq<Packet>)
    ensures |AllMissing(|ps|)| == |ps| && OnlyLosses(AllMissing(|ps|))
    ensures Damaged(ps, AllMissing(|ps|)) == Losts(|ps|)
    decreases |ps|
  {
    if ps != [] {
      MissingEvents(ps[1..]);
      assert AllMissing(|ps|)[1..] == AllMissing(|ps[1..]|);
    }
  }

  lemma {:induction false} AfterLosts(c: Config, a: Asm, n: nat)
    requires a.mode == Await
    ensures var b := Run(c, a, Losts(n)); b.mode == Await && b.fid == a.fid && b.out == a.out
    decreases n
  {
    if n > 0 {
      RunCons(c, a, Lost, Losts(n - 1));
      AfterLosts(c, Step(c, a, Lost), n - 1);
    }
  }

  lemma {:induction false} AllPacketsAppend(fs: seq<SentFrame>, gs: seq<SentFrame>)
    ensures AllPackets(fs + gs) == AllPackets(fs) + AllPackets(gs)
    decreases |fs|
  {
    hide Packets;
    if fs == [] {
      assert fs + gs == gs;
    } else {
      assert (fs + gs)[1..] == fs[1..] + gs;
      AllPacketsAppend(fs[1..], gs);
      Associative(Packets(fs[0]), AllPackets(fs[1..]), AllPackets(gs));
    }
  }

  lemma {:induction false} RawFrom(c: Config, fs: seq<SentFrame>, k: nat)
    requires RawStream(c, fs) && k < |fs|
    ensures RawStream(c, fs[k..]) && RawFrame(c, fs[k])
    decreases k
  {
    hide RawFrame;
    if k > 0 {
      RawFrom(c, fs[1..], k - 1);
      assert fs[1..][k - 1..] == fs[k..];
    } else {
      assert fs[0..] == fs;
    }
  }

  lemma {:induction false} SomeLate(fs: seq<SentFrame>) returns (k: nat)
    requires !AllInTime(fs)
    ensures k < |fs| && !InTime(fs[k])
    decreases |fs|
  {
    hide InTime;
    if !InTime(fs[0]) {
      k := 0;
    } else {
      var i := SomeLate(fs[1..]);
      k := i + 1;
    }
  }

  /** Everything before payload j of the first of the frames `late` lost, the rest delivered. */
  lemma {:induction false} LosingTheStart(c: Config, early: seq<SentFrame>, late: seq<SentFrame>, j: nat) returns (fates: seq<Fate>, es: seq<Event>)
    requires !c.mjpeg && RawStream(c, late) && late != [] && late[|late| - 1].EndsWithEof()
    requires j < |late[0].body| && PacketData(late[0].body) == PacketData(late[0].body[j..])
    ensures OnlyLosses(fates) && |fates| == |AllPackets(early + late)|
    ensures Padded(c, Damaged(AllPackets(early + late), fates), es)
    ensures Run(c, INITIAL, es).out == SentFrames([From(late[0], j)] + late[1..])
  {
    hide Run, RawStream, Damaged, Padded, Wire, PacketEvents, AllPackets, ValidStream, AllOfSize, Expected, SentFrames, OnlyLosses, Losts, AllMissing, AllDelivered, Progress;
    var gs := [From(late[0], j)] + late[1..];
    StreamFrom(c, late, j);
    AllPacketsAppend(early, late);
    var lost := AllPackets(early) + late[0].body[..j];
    var rest := AllPackets(gs);
    Associative(AllPackets(early), late[0].body[..j], rest);
    MissingEvents(lost);
    DeliveredEvents(rest);
    fates := AllMissing(|lost|) + AllDelivered(|rest|);
    OnlyLossesAppend(AllMissing(|lost|), AllDelivered(|rest|));
    DamagedAppend(lost, AllMissing(|lost|), rest, AllDelivered(|rest|));
    es := Losts(|lost|) + PacketEvents(rest);
    PaddedSelf(c, es);
    WireIsAllPackets(gs);
    RunAppend(c, INITIAL, Losts(|lost|), Wire(gs));
    AfterLosts(c, INITIAL, |lost|);
    FromStart(c, Run(c, INITIAL, Losts(|lost|)), gs);
  }

  lemma {:induction false} FromStart(c: Config, a: Asm, gs: seq<SentFrame>)
    requires !c.mjpeg && ValidStream(c, gs) && AllOfSize(c, gs) && gs != [] && gs[|gs| - 1].EndsWithEof()
    requires a.mode == Await && a.fid == None && a.out == []
    ensures Run(c, a, Wire(gs)).out == SentFrames(gs)
  {
    hide Run, ValidStream, AllOfSize, Wire, Expected, SentFrames;
    RunStream(c, a, gs);
    RawFramesAllAccepted(c, gs);
    assert [] + Expected(c, gs) == Expected(c, gs);
  }

  /**
   * Loss safety, exactly. Of a stream of raw frames with times of their own, only frames sent come out, at
   * their times, whatever is lost or damaged, if and only if the data of each begins at the frame's time.
   * Losses that are all reported are enough to tell.
   */
  lemma {:induction false} LossSafetyExactly(c: Config, fs: seq<SentFrame>)
    requires !c.mjpeg && RawStream(c, fs) && fs != [] && fs[|fs| - 1].EndsWithEof() && OwnTimes(fs)
    ensures (forall fates, es :: AllPossible(c, fs, fates, true) && Padded(c, Damaged(AllPackets(fs), fates), es) ==>
               Subsequence(Run(c, INITIAL, es).out, SentFrames(fs)))
            <==> AllInTime(fs)
    ensures (forall fates, es :: OnlyLosses(fates) && |fates| == |AllPackets(fs)| && Padded(c, Damaged(AllPackets(fs), fates), es) ==>
               Subsequence(Run(c, INITIAL, es).out, SentFrames(fs)))
            <==> AllInTime(fs)
  {
    hide Run, RawStream, AllPossible, Padded, Damaged, AllPackets, Subsequence, SentFrames, Survivors, OnlyLosses, OwnTimes;
    if AllInTime(fs) {
      forall fates, es | AllPossible(c, fs, fates, true) && Padded(c, Damaged(AllPackets(fs), fates), es)
        ensures Subsequence(Run(c, INITIAL, es).out, SentFrames(fs))
      {
        LossSafety(c, fs, fates, es);
      }
      forall fates, es | OnlyLosses(fates) && |fates| == |AllPackets(fs)| && Padded(c, Damaged(AllPackets(fs), fates), es)
        ensures Subsequence(Run(c, INITIAL, es).out, SentFrames(fs))
      {
        AllLossesArePossible(c, fs, fates, true);
      }
    } else {
      var fates, es := LateIsUnsafe(c, fs);
      AllLossesArePossible(c, fs, fates, true);
    }
  }

  lemma {:induction false} LateIsUnsafe(c: Config, fs: seq<SentFrame>) returns (fates: seq<Fate>, es: seq<Event>)
    requires !c.mjpeg && RawStream(c, fs) && fs != [] && fs[|fs| - 1].EndsWithEof() && OwnTimes(fs) && !AllInTime(fs)
    ensures OnlyLosses(fates) && |fates| == |AllPackets(fs)| && Padded(c, Damaged(AllPackets(fs), fates), es)
    ensures !Subsequence(Run(c, INITIAL, es).out, SentFrames(fs))
  {
    hide Run, RawStream, AllPossible, Padded, Damaged, AllPackets, Subsequence, OnlyLosses, RawFrame, AllInTime;
    var k := SomeLate(fs);
    var j := LatePayload(fs[k].body, fs[k].Ts());
    RawFrom(c, fs, k);
    assert fs == fs[..k] + fs[k..];
    fates, es := LosingTheStart(c, fs[..k], fs[k..], j);
    var wrong := AsFrame(From(fs[k], j));
    assert Run(c, INITIAL, es).out[0] == wrong;
    if Subsequence(Run(c, INITIAL, es).out, SentFrames(fs)) {
      SubsequenceMember(Run(c, INITIAL, es).out, SentFrames(fs), wrong);
      SentTimes(fs, wrong);
    }
  }

  // ---- payloads with the ERR bit, exactly -----------------------------------------------------

  /**
   * A payload with the ERR bit is meant to take the rest of its frame with it. Exactly two kinds do not.
   * One shows, by toggling the FID, that an EOF was lost: then the old FID is kept and the next payload
   * looks like a new frame. The other has no data and the FID last finished: it is taken for a keepalive,
   * and the frame begins with the next payload that has data.
   */
  lemma {:induction false} ErrSkipsRestExactly(c: Config, a: Asm, p: Packet, q: Packet)
    requires Parses(c, p.bytes) && Err(p.bytes)
    requires Parses(c, q.bytes) && !Err(q.bytes) && Fid(q.bytes) == Fid(p.bytes)
    ensures var toggles := a.mode == Accum && a.fid != Some(Fid(p.bytes));
            var trails := a.mode == Await && a.fid == Some(Fid(p.bytes)) && Data(p.bytes) == [];
            var e, f := Payload(p.bytes, p.ts), Payload(q.bytes, q.ts);
            var b := Run(c, a, [e, f]);
            && (b.mode == Skip && b.out == a.out <==> !toggles && !trails)
            && (toggles || (trails && Data(q.bytes) != []) ==>
                  b == Append(c, Begin(Step(c, a, e), Fid(q.bytes), q.ts), q.bytes))
            && (trails && Data(q.bytes) == [] ==> b.mode == Await && b.fid == a.fid && b.out == a.out)
  {
    hide ParseHeader, Data, Finalize;
    var e, f := Payload(p.bytes, p.ts), Payload(q.bytes, q.ts);
    assert [e, f] == [e] + [f];
    RunCons(c, a, e, [f]);
    RunOne(c, Step(c, a, e), f);
  }

  /** A sound payload on its own. */
  lemma OneByteStep(c: Config, a: Asm, p: seq<byte>, ts: int)
    requires |p| >= 2 && p[0] == 2 && (p[1] == 0 || p[1] == 2)
    requires a.mode == Accum ==> a.fid == Some(0)
    requires a.mode == Skip ==> a.fid != Some(0)
    requires a.mode == Await && a.fid == Some(0) ==> |p| > 2
    ensures Step(c, a, Payload(p, ts)) == Append(c, if a.mode == Accum then a else Begin(a, 0, ts), p)
    ensures Data(p) == p[2..] && (Eof(p) <==> p[1] == 2)
  {
    hide Append, Finalize;
  }

  const TWO_BYTES := Config(Some(2), false, true, 0)

  /**
   * A frame of two bytes, and one of the same FID that opens with an ERR payload of no data: it comes out,
   * with its second payload's time.
   */
  lemma {:induction false} ErrTakenForKeepalive()
    ensures Run(TWO_BYTES, INITIAL, [Payload([2, 2, 7, 7], 1), Payload([2, 64], 2), Payload([2, 2, 9, 9], 3)]).out
         == [Frame(1, [7, 7]), Frame(3, [9, 9])]
  {
    var c := TWO_BYTES;
    var e1, e2, e3 := Payload([2, 2, 7, 7], 1), Payload([2, 64], 2), Payload([2, 2, 9, 9], 3);
    OneByteStep(c, INITIAL, e1.bytes, 1);
    var a := Step(c, INITIAL, e1);
    assert [] + e1.bytes[2..] == [7, 7];
    assert a.mode == Await && a.fid == Some(0) && a.out == [] + [Frame(1, [7, 7])];
    var b := Step(c, a, e2);
    HeaderOnlyTrails(c, a);
    OneByteStep(c, b, e3.bytes, 3);
    assert [] + e3.bytes[2..] == [9, 9];
    assert [e1, e2, e3] == [e1] + ([e2] + [e3]);
    hide Step;
    RunCons(c, INITIAL, e1, [e2] + [e3]);
    RunCons(c, a, e2, [e3]);
    RunOne(c, b, e3);
  }

  lemma HeaderOnlyTrails(c: Config, a: Asm)
    requires a.mode == Await && a.fid == Some(0)
    ensures var b := Step(c, a, Payload([2, 64], 2)); b.mode == Await && b.fid == Some(0) && b.out == a.out
  {
    assert Data([2, 64]) == [];
  }

  /**
   * A loss that nothing reports, in the middle of a frame, is another matter: of two frames of two bytes
   * with the same FID, the first half of the one and the second half of the other make a third.
   */
  lemma {:induction false} SilentLossSplices()
    ensures Run(TWO_BYTES, INITIAL, [Payload([2, 0, 1], 1), Payload([2, 2, 6], 8)]).out == [Frame(1, [1, 6])]
  {
    var c := TWO_BYTES;
    var e1, e2 := Payload([2, 0, 1], 1), Payload([2, 2, 6], 8);
    OneByteStep(c, INITIAL, e1.bytes, 1);
    var a := Step(c, INITIAL, e1);
    assert [] + e1.bytes[2..] == [1];
    OneByteStep(c, a, e2.bytes, 8);
    assert [1] + e2.bytes[2..] == [1, 6];
    assert [e1, e2] == [e1] + [e2];
    hide Step;
    RunCons(c, INITIAL, e1, [e2]);
    RunOne(c, a, e2);
  }
}
