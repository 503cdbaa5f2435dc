/** Safety of raw reassembly when payloads are lost, garbled or flagged as errored. */
module UvcLoss {
  import opened Common
  import opened UvcAssembler
  import opened UvcRecovery

  /** What became of one payload between the camera and the extractor. */
  datatype Fate =
    | Delivered
    | Missing                              // reported lost by the transport
    | Garbled(bytes: seq<byte>)            // arrived without a usable header
    | Errored(bytes: seq<byte>)            // arrived with the ERR bit set, contents arbitrary
    | Gone                                 // lost and not reported, with no frame in progress
    | Remains(lost: bool, bytes: seq<byte>, ts: int)   // Missing or Gone, and then its end was taken for a payload

  /** `b` is an end of the data of payload `p`. */
  predicate EndOf(p: seq<byte>, b: seq<byte>) { 0 < |b| <= |Data(p)| && b == p[|p| - |b|..] }

  /** Read as a payload, `b` is the bare header of a frame other than `fid`: it opens that frame, too early. */
  predicate OtherHeader(c: Config, fid: nat, b: seq<byte>) {
    Parses(c, b) && !Err(b) && !Eof(b) && Data(b) == [] && Fid(b) != fid
  }

  /** `idle`: what came before leaves no frame in progress. */
  predicate Possible(c: Config, fid: nat, p: Packet, fate: Fate, idle: bool) {
    match fate
    case Delivered => true
    case Missing => true
    case Garbled(b) => !Parses(c, b)
    case Errored(b) => Parses(c, b) && Fid(b) == fid && Err(b)
    case Remains(lost, b, _) => (lost || idle) && EndOf(p.bytes, b) && !OtherHeader(c, fid, b)
    case Gone => idle
  }

  predicate StillIdle(p: Packet, fate: Fate, idle: bool) {
    match fate
    case Delivered => Eof(p.bytes) || Err(p.bytes)
    case Remains(_, _, _) => false
    case Gone => idle
    case _ => true
  }

  function Received(p: Packet, fate: Fate): seq<Event> {
    match fate
    case Delivered => [Payload(p.bytes, p.ts)]
    case Missing => [Lost]
    case Garbled(b) => [Payload(b, p.ts)]
    case Errored(b) => [Payload(b, p.ts)]
    case Remains(lost, b, ts) => (if lost then [Lost] else []) + [Payload(b, ts)]
    case Gone => []
  }

  /** The payloads after an unreliable channel; one fate for each. */
  function Damaged(ps: seq<Packet>, fates: seq<Fate>): seq<Event> {
    if ps == [] || fates == [] then [] else Received(ps[0], fates[0]) + Damaged(ps[1..], fates[1..])
  }

  /** A loss, or something without a usable header. */
  predicate Noise(c: Config, e: Event) { e.Lost? || (e.Payload? && !Parses(c, e.bytes)) }

  predicate EndsNoisy(c: Config, es: seq<Event>) { es != [] && Noise(c, es[|es| - 1]) }

  /** The events `ds`, and between them any amount of noise. */
  ghost predicate Padded(c: Config, ds: seq<Event>, es: seq<Event>)
    decreases |es|
  {
    if es == [] then ds == []
    else (ds != [] && es[0] == ds[0] && Padded(c, ds[1..], es[1..])) || (Noise(c, es[0]) && Padded(c, ds, es[1..]))
  }

  function Packets(f: SentFrame): seq<Packet> { f.body + f.tail }

  /** One possible fate for each of the payloads `ps` of a frame. */
  predicate PossibleFates(c: Config, fid: nat, ps: seq<Packet>, fates: seq<Fate>, idle: bool)
    decreases |ps|
  {
    && |fates| == |ps|
    && (ps != [] ==> Possible(c, fid, ps[0], fates[0], idle)
                     && PossibleFates(c, fid, ps[1..], fates[1..], StillIdle(ps[0], fates[0], idle)))
  }

  function IdleThrough(ps: seq<Packet>, fates: seq<Fate>, idle: bool): bool
    decreases |ps|
  {
    if ps == [] || fates == [] then idle else IdleThrough(ps[1..], fates[1..], StillIdle(ps[0], fates[0], idle))
  }

  // ---- frames and fates end to end -----------------------------------------------------

  predicate RawFrame(c: Config, f: SentFrame) { ValidFrame(c, f) && c.expected == Some(|f.Image()|) && f.Image() != [] }

  /** Raw frames of the configured size; each toggles the FID of the one before. */
  predicate RawStream(c: Config, fs: seq<SentFrame>) {
    fs != [] ==> RawFrame(c, fs[0]) && (|fs| > 1 ==> fs[1].fid != fs[0].fid) && RawStream(c, fs[1..])
  }

  /** The payloads up to the first with data are all of time `ts`. */
  predicate OneTime(ps: seq<Packet>, ts: int) {
    ps != [] ==> ps[0].ts == ts && (Data(ps[0].bytes) == [] ==> OneTime(ps[1..], ts))
  }

  /** The frame's data begins at the frame's time, as it does if its first payload carries any. */
  predicate InTime(f: SentFrame) { OneTime(f.body, f.Ts()) }

  predicate AllInTime(fs: seq<SentFrame>) { fs != [] ==> InTime(fs[0]) && AllInTime(fs[1..]) }

  function AllPackets(fs: seq<SentFrame>): seq<Packet> {
    if fs == [] then [] else Packets(fs[0]) + AllPackets(fs[1..])
  }

  /** One possible fate for each payload of the frames `fs`. */
  predicate AllPossible(c: Config, fs: seq<SentFrame>, fates: seq<Fate>, idle: bool)
    decreases |fs|
  {
    if fs == [] then fates == []
    else
      var n := |Packets(fs[0])|;
      && |fates| >= n
      && PossibleFates(c, fs[0].fid, Packets(fs[0]), fates[..n], idle)
      && AllPossible(c, fs[1..], fates[n..], IdleThrough(Packets(fs[0]), fates[..n], idle))
  }

  /** From the first payload with data on every payload was delivered; `begun`: data has gone by. */
  predicate Intact(ps: seq<Packet>, fates: seq<Fate>, begun: bool)
    decreases |ps|
  {
    ps == [] || fates == []
    || ((fates[0].Delivered? || (!begun && Data(ps[0].bytes) == []))
        && Intact(ps[1..], fates[1..], begun || Data(ps[0].bytes) != []))
  }

  function SentIf(sent: seq<Frame>, f: SentFrame, whole: bool): seq<Frame> { if whole then sent + [AsFrame(f)] else sent }

  /** The frames of which no payload with or after data was lost or damaged. */
  function Survivors(fs: seq<SentFrame>, fates: seq<Fate>): seq<Frame> {
    if fs == [] then []
    else
      var n := |Packets(fs[0])|;
      SentIf([], fs[0], Intact(fs[0].body, fates, false)) + Survivors(fs[1..], if |fates| >= n then fates[n..] else [])
  }

  // ---- noise ---------------------------------------------------------------------------

  lemma {:induction false} PaddedCons(c: Config, d: Event, ds: seq<Event>, es: seq<Event>)
    requires Padded(c, ds, es)
    ensures Padded(c, [d] + ds, [d] + es)
  {
    assert ([d] + ds)[1..] == ds && ([d] + es)[1..] == es;
  }

  lemma {:induction false} PaddedNoise(c: Config, ds: seq<Event>, e: Event, es: seq<Event>)
    requires Padded(c, ds, es) && Noise(c, e)
    ensures Padded(c, ds, [e] + es)
  {
    assert ([e] + es)[1..] == es;
  }

  lemma {:induction false} PaddedAppend(c: Config, ds: seq<Event>, es: seq<Event>, xs: seq<Event>, ys: seq<Event>)
    requires Padded(c, ds, es) && Padded(c, xs, ys)
    ensures Padded(c, ds + xs, es + ys)
    decreases |es|
  {
    hide Noise;
    if es == [] {
      assert ds + xs == xs && es + ys == ys;
    } else {
      assert es + ys == [es[0]] + (es[1..] + ys);
      if Noise(c, es[0]) && Padded(c, ds, es[1..]) {
        PaddedAppend(c, ds, es[1..], xs, ys);
        PaddedNoise(c, ds + xs, es[0], es[1..] + ys);
      } else {
        PaddedAppend(c, ds[1..], es[1..], xs, ys);
        assert ds + xs == [es[0]] + (ds[1..] + xs);
        PaddedCons(c, es[0], ds[1..] + xs, es[1..] + ys);
      }
    }
  }

  lemma {:induction false} PaddedSplit(c: Config, ds: seq<Event>, xs: seq<Event>, es: seq<Event>) returns (k: nat)
    requires Padded(c, ds + xs, es)
    ensures k <= |es| && Padded(c, ds, es[..k]) && Padded(c, xs, es[k..])
    decreases |es|
  {
    hide Noise;
    if ds == [] {
      assert ds + xs == xs && es[0..] == es;
      k := 0;
    } else {
      assert (ds + xs)[1..] == ds[1..] + xs;
      if Noise(c, es[0]) && Padded(c, ds + xs, es[1..]) {
        k := PaddedSplit(c, ds, xs, es[1..]);
        PaddedNoise(c, ds, es[0], es[1..][..k]);
        assert es[..k + 1] == [es[0]] + es[1..][..k];
      } else {
        k := PaddedSplit(c, ds[1..], xs, es[1..]);
        PaddedCons(c, es[0], ds[1..], es[1..][..k]);
        assert es[..k + 1] == [es[0]] + es[1..][..k] && ds == [es[0]] + ds[1..];
      }
      assert es[1..][k..] == es[k + 1..];
      k := k + 1;
    }
  }

  function Losts(n: nat): seq<Event> { if n == 0 then [] else [Lost] + Losts(n - 1) }

  lemma {:induction false} PaddedSelf(c: Config, es: seq<Event>)
    ensures Padded(c, es, es)
    decreases |es|
  {
    if es != [] {
      PaddedSelf(c, es[1..]);
      assert es == [es[0]] + es[1..];
    }
  }

  lemma {:induction false} PaddedSameLength(c: Config, ds: seq<Event>, es: seq<Event>)
    requires Padded(c, ds, es)
    ensures |ds| <= |es| && (|ds| == |es| ==> ds == es)
    decreases |es|
  {
    hide Noise;
    if es != [] {
      if Noise(c, es[0]) && Padded(c, ds, es[1..]) {
        PaddedSameLength(c, ds, es[1..]);
      } else {
        PaddedSameLength(c, ds[1..], es[1..]);
        assert ds == [es[0]] + ds[1..] && es == [es[0]] + es[1..];
      }
    }
  }

  /** Noise ends the frame in progress, and returns nothing. */
  lemma NoiseEnds(c: Config, a: Asm, e: Event)
    requires Noise(c, e)
    ensures var b := Step(c, a, e); b.mode != Accum && b.out == a.out
  {
  }

  lemma {:induction false} OnlyNoise(c: Config, a: Asm, es: seq<Event>)
    requires Padded(c, [], es)
    ensures var b := Run(c, a, es);
            b.out == a.out && (b == a || b.mode != Accum) && (a.mode != Accum ==> b.mode != Accum)
    decreases |es|
  {
    hide Step, Noise;
    if es != [] {
      NoiseEnds(c, a, es[0]);
      OnlyNoise(c, Step(c, a, es[0]), es[1..]);
    }
  }

  // ---- the invariant -------------------------------------------------------------------

  /**
   * In the body of frame `f`, whose bytes so far are `done`; `whole` as long as none of it was lost or
   * damaged. A buffer of this frame is the end of `done`, and all of it only if it is whole, with the
   * frame's time; or it is longer, and will be too long. A buffer of another frame is not of the right size.
   */
  ghost predicate Inside(c: Config, a: Asm, sent: seq<Frame>, f: SentFrame, done: seq<byte>, whole: bool) {
    && Subsequence(a.out, sent)
    && (done == [] ==> whole)
    && (a.mode == Accum ==> if a.fid == Some(f.fid) then |a.buf| > |done| || IsEnd(a, f, done, whole) else Stray(c, a))
  }

  predicate IsEnd(a: Asm, f: SentFrame, done: seq<byte>, whole: bool) {
    && |a.buf| <= |done|
    && a.buf == done[|done| - |a.buf|..]
    && (|a.buf| == |done| ==> a.startTs == f.Ts() && whole)
  }

  predicate Stray(c: Config, a: Asm) { a.buf != [] && c.expected != Some(|a.buf|) }

  /** Between bodies: a full-size buffer can only be the last frame of `sent`, not yet returned. */
  ghost predicate Between(c: Config, a: Asm, sent: seq<Frame>, fid: nat) {
    && Subsequence(a.out, sent)
    && (a.mode == Accum ==>
          if a.fid == Some(fid) then c.expected == Some(|a.buf|) ==> LastSent(a, sent) else Stray(c, a))
  }

  ghost predicate LastSent(a: Asm, sent: seq<Frame>) {
    sent != [] && sent[|sent| - 1] == Frame(a.startTs, a.buf) && Subsequence(a.out, sent[..|sent| - 1])
  }

  /** Past a payload of the body: it may have ended it. */
  ghost predicate After(c: Config, a: Asm, sent: seq<Frame>, f: SentFrame, done: seq<byte>, whole: bool, p: Packet) {
    if Eof(p.bytes) then Between(c, a, SentIf(sent, f, whole), f.fid) else Inside(c, a, sent, f, done, whole)
  }

  lemma {:induction false} SentIfMore(out: seq<Frame>, sent: seq<Frame>, f: SentFrame, whole: bool)
    requires Subsequence(out, sent)
    ensures Subsequence(out, SentIf(sent, f, whole))
  {
    SubsequenceSkip(out, sent, AsFrame(f));
  }

  /** With no frame in progress everything is as it should be. */
  lemma {:induction false} IdleIsFine(c: Config, a: Asm, sent: seq<Frame>, f: SentFrame, done: seq<byte>, whole: bool, p: Packet)
    requires a.mode != Accum && Subsequence(a.out, sent) && (done == [] ==> whole)
    ensures Inside(c, a, sent, f, done, whole) && After(c, a, sent, f, done, whole, p)
    ensures Between(c, a, SentIf(sent, f, whole), f.fid)
  {
    hide Subsequence;
    SentIfMore(a.out, sent, f, whole);
  }

  lemma {:induction false} NoiseAfter(c: Config, a: Asm, sent: seq<Frame>, f: SentFrame, done: seq<byte>, whole: bool, p: Packet,
                                      es: seq<Event>)
    requires After(c, a, sent, f, done, whole, p) && Padded(c, [], es)
    ensures After(c, Run(c, a, es), sent, f, done, whole, p)
  {
    hide Subsequence, Run, Padded, SentIf;
    OnlyNoise(c, a, es);
  }

  lemma {:induction false} NoiseInside(c: Config, a: Asm, sent: seq<Frame>, f: SentFrame, done: seq<byte>, whole: bool, es: seq<Event>)
    requires Inside(c, a, sent, f, done, whole) && Padded(c, [], es)
    ensures Inside(c, Run(c, a, es), sent, f, done, whole)
  {
    hide Subsequence, Run, Padded;
    OnlyNoise(c, a, es);
  }

  lemma {:induction false} NoiseBetween(c: Config, a: Asm, sent: seq<Frame>, fid: nat, es: seq<Event>)
    requires Between(c, a, sent, fid) && Padded(c, [], es)
    ensures Between(c, Run(c, a, es), sent, fid)
  {
    hide Subsequence, Run, Padded;
    OnlyNoise(c, a, es);
  }

  lemma {:induction false} EndOfBody(c: Config, a: Asm, sent: seq<Frame>, f: SentFrame, whole: bool)
    requires c.expected == Some(|f.Image()|) && Inside(c, a, sent, f, f.Image(), whole)
    ensures Between(c, a, SentIf(sent, f, whole), f.fid)
  {
    hide Subsequence, SentFrame.Image, SentFrame.Ts;
    SentIfMore(a.out, sent, f, whole);
    assert (sent + [AsFrame(f)])[..|sent|] == sent;
  }

  /** Closing the frame in progress at a FID toggle returns nothing but the last frame sent. */
  lemma {:induction false} CloseAtToggle(c: Config, a: Asm, sent: seq<Frame>, fid: nat)
    requires !c.mjpeg && c.expected.Some? && Between(c, a, sent, fid)
    ensures Subsequence(Flush(c, a).out, sent)
  {
    if Flush(c, a).out != a.out {
      SubsequenceTake(a.out, sent[..|sent| - 1], sent[|sent| - 1]);
      assert sent == sent[..|sent| - 1] + [sent[|sent| - 1]];
    }
  }

  // ---- one payload of a body -------------------------------------------------------------

  lemma GrowEnd(a: Asm, f: SentFrame, done: seq<byte>, whole: bool, data: seq<byte>)
    requires IsEnd(a, f, done, whole)
    ensures IsEnd(a.(buf := a.buf + data), f, done + data, whole)
  {
    hide SentFrame.Ts;
    var grown, buf := done + data, a.buf + data;
    assert buf == grown[|grown| - |buf|..];
  }

  lemma {:induction false} FinalizeEnd(c: Config, a: Asm, sent: seq<Frame>, f: SentFrame, whole: bool)
    requires !c.mjpeg && c.expected == Some(|f.Image()|) && Subsequence(a.out, sent)
    requires |a.buf| > |f.Image()| || IsEnd(a, f, f.Image(), whole)
    ensures Subsequence(Finalize(c, a).out, SentIf(sent, f, whole))
  {
    hide Subsequence, SentFrame.Image, SentFrame.Ts;
    SentIfMore(a.out, sent, f, whole);
    if |a.buf| == |f.Image()| {
      assert a.buf == f.Image();
      SubsequenceTake(a.out, sent, AsFrame(f));
    }
  }

  lemma {:induction false} AppendInside(c: Config, a: Asm, sent: seq<Frame>, f: SentFrame, done: seq<byte>, whole: bool, p: Packet)
    requires !c.mjpeg && c.expected == Some(|f.Image()|) && Subsequence(a.out, sent) && (done == [] ==> whole)
    requires a.mode == Accum && a.fid == Some(f.fid) && (|a.buf| > |done| || IsEnd(a, f, done, whole))
    requires Eof(p.bytes) ==> done + Data(p.bytes) == f.Image()
    ensures After(c, Append(c, a, p.bytes), sent, f, done + Data(p.bytes), whole, p)
  {
    hide Subsequence, IsEnd, Finalize, Data, Eof, SentFrame.Image, SentFrame.Ts, SentIf;
    var b := a.(buf := a.buf + Data(p.bytes));
    if |a.buf| <= |done| { GrowEnd(a, f, done, whole, Data(p.bytes)); }
    if Eof(p.bytes) { FinalizeEnd(c, b, sent, f, whole); }
  }

  /** A frame opened late can never reach full size; one opened before its data is whole, if it has its time. */
  lemma BeginEnd(a: Asm, f: SentFrame, done: seq<byte>, whole: bool, ts: int)
    requires done == [] ==> whole && ts == f.Ts()
    ensures IsEnd(Begin(a, f.fid, ts), f, done, whole)
  {
  }

  /** A sound payload of another frame than the one in progress, or with none in progress, begins one. */
  lemma Toggled(c: Config, a: Asm, p: Packet, fid: nat)
    requires Parses(c, p.bytes) && Fid(p.bytes) == fid && !Err(p.bytes)
    requires if a.mode == Accum then a.fid != Some(fid) else !(a.fid == Some(fid) && (a.mode == Skip || Data(p.bytes) == []))
    ensures Step(c, a, Payload(p.bytes, p.ts)) == Append(c, Begin(Flush(c, a), fid, p.ts), p.bytes)
  {
    hide Append, Finalize;
  }

  /** One that does neither add to a frame nor begin one is ignored. */
  lemma Ignored(c: Config, a: Asm, p: Packet, fid: nat)
    requires Parses(c, p.bytes) && Fid(p.bytes) == fid
    requires a.mode != Accum && a.fid == Some(fid) && (a.mode == Skip || Data(p.bytes) == [])
    ensures var b := Step(c, a, Payload(p.bytes, p.ts)); b.mode != Accum && b.out == a.out
  {
  }

  /** A payload of `f` may come: what is in progress of it is an end or too long, and closing anything else is safe. */
  ghost predicate Open(c: Config, a: Asm, sent: seq<Frame>, f: SentFrame, done: seq<byte>, whole: bool) {
    && Subsequence(a.out, sent) && (done == [] ==> whole)
    && (a.mode == Accum ==> if a.fid == Some(f.fid) then |a.buf| > |done| || IsEnd(a, f, done, whole)
                            else Subsequence(Flush(c, a).out, sent))
  }

  lemma {:induction false} InsideIsOpen(c: Config, a: Asm, sent: seq<Frame>, f: SentFrame, done: seq<byte>, whole: bool)
    requires !c.mjpeg && c.expected.Some? && Inside(c, a, sent, f, done, whole)
    ensures Open(c, a, sent, f, done, whole)
  {
    hide Subsequence, IsEnd;
  }

  lemma {:induction false} BetweenIsOpen(c: Config, a: Asm, sent: seq<Frame>, fid: nat, f: SentFrame)
    requires !c.mjpeg && c.expected.Some? && Between(c, a, sent, fid) && fid != f.fid
    ensures Open(c, a, sent, f, [], true)
  {
    hide Subsequence, IsEnd;
    CloseAtToggle(c, a, sent, fid);
  }

  lemma {:induction false} Delivers(c: Config, a: Asm, sent: seq<Frame>, f: SentFrame, done: seq<byte>, whole: bool, p: Packet)
    requires !c.mjpeg && c.expected == Some(|f.Image()|) && Sound(c, f.fid, p.bytes) && (done == [] ==> p.ts == f.Ts())
    requires Eof(p.bytes) ==> done + Data(p.bytes) == f.Image()
    requires Open(c, a, sent, f, done, whole)
    ensures After(c, Step(c, a, Payload(p.bytes, p.ts)), sent, f, done + Data(p.bytes), whole, p)
  {
    hide Subsequence, IsEnd, Append, Finalize, SentFrame.Image, SentFrame.Ts, After, Data, Eof, Parses;
    var e := Payload(p.bytes, p.ts);
    if a.mode == Accum && a.fid == Some(f.fid) {
      StepSound(c, a, f.fid, p);
      AppendInside(c, a, sent, f, done, whole, p);
    } else if a.mode != Accum && a.fid == Some(f.fid) && (a.mode == Skip || Data(p.bytes) == []) {
      Ignored(c, a, p, f.fid);
      IdleIsFine(c, Step(c, a, e), sent, f, done + Data(p.bytes), whole, p);
    } else {
      Toggled(c, a, p, f.fid);
      BeginEnd(Flush(c, a), f, done, whole, p.ts);
      AppendInside(c, Begin(Flush(c, a), f.fid, p.ts), sent, f, done, whole, p);
    }
  }

  /** Anything else that arrives for a payload ends the frame in progress. */
  lemma NotDelivered(c: Config, a: Asm, fid: nat, p: Packet, fate: Fate, idle: bool)
    requires Possible(c, fid, p, fate, idle) && (fate.Missing? || fate.Garbled? || fate.Errored?)
    ensures |Received(p, fate)| == 1
    ensures var b := Step(c, a, Received(p, fate)[0]); b.mode != Accum && b.out == a.out
  {
  }

  /** The end of a payload, shorter than what has gone by of its frame, handed over with no frame in progress. */
  lemma {:induction false} RestInside(c: Config, a: Asm, sent: seq<Frame>, f: SentFrame, done: seq<byte>, b: seq<byte>, ts: int)
    requires !c.mjpeg && c.expected == Some(|f.Image()|) && a.mode != Accum && Subsequence(a.out, sent)
    requires done <= f.Image() && 0 < |b| <= |done| && b == done[|done| - |b|..] && !OtherHeader(c, f.fid, b)
    ensures Inside(c, Step(c, a, Payload(b, ts)), sent, f, done, false)
  {
    hide Subsequence, SentFrame.Image, SentFrame.Ts;
    if Parses(c, b) && !Err(b) {
      var d := Data(b);
      assert |d| <= |b| - 2 && d == done[|done| - |d|..];
      assert [] + d == d;
    }
  }

  /** After a loss, the rest of its payload. */
  lemma {:induction false} RestArrives(c: Config, a: Asm, sent: seq<Frame>, f: SentFrame, done: seq<byte>, b: seq<byte>, ts: int,
                                       es: seq<Event>)
    requires !c.mjpeg && c.expected == Some(|f.Image()|) && a.mode != Accum && Subsequence(a.out, sent)
    requires done <= f.Image() && 0 < |b| <= |done| && b == done[|done| - |b|..] && !OtherHeader(c, f.fid, b)
    requires Padded(c, [Payload(b, ts)], es)
    ensures Inside(c, Run(c, a, es), sent, f, done, false)
    decreases |es|
  {
    hide Inside, Step, OtherHeader, SentFrame.Image, Subsequence, Noise;
    if Noise(c, es[0]) && Padded(c, [Payload(b, ts)], es[1..]) {
      NoiseEnds(c, a, es[0]);
      RestArrives(c, Step(c, a, es[0]), sent, f, done, b, ts, es[1..]);
    } else {
      RestInside(c, a, sent, f, done, b, ts);
      assert [Payload(b, ts)][1..] == [];
      NoiseInside(c, Step(c, a, es[0]), sent, f, done, false, es[1..]);
    }
  }

  /** An end of a payload is an end of its frame so far. */
  lemma EndIsEnd(p: seq<byte>, done: seq<byte>, b: seq<byte>)
    requires EndOf(p, b)
    ensures var d := done + Data(p); 0 < |b| <= |d| && b == d[|d| - |b|..]
  {
  }

  /** A payload with EOF or ERR ends the frame in progress. */
  lemma EndsFrame(c: Config, a: Asm, p: Packet)
    requires Parses(c, p.bytes) && (Eof(p.bytes) || Err(p.bytes))
    ensures Step(c, a, Payload(p.bytes, p.ts)).mode != Accum
  {
    hide Parses, Data, Finalize;
  }

  lemma {:induction false} OpenIsSent(c: Config, a: Asm, sent: seq<Frame>, f: SentFrame, done: seq<byte>, whole: bool)
    requires Open(c, a, sent, f, done, whole)
    ensures Subsequence(a.out, sent) && (done == [] ==> whole)
  {
  }

  lemma {:induction false} IdleIsOpen(c: Config, a: Asm, sent: seq<Frame>, f: SentFrame, done: seq<byte>, whole: bool)
    requires Subsequence(a.out, sent) && (done == [] ==> whole) && a.mode != Accum
    ensures Open(c, a, sent, f, done, whole)
  {
  }

  predicate StillWhole(whole: bool, done: seq<byte>, p: Packet, fate: Fate) {
    whole && (fate.Delivered? || (done == [] && Data(p.bytes) == []))
  }

  lemma NothingYet(done: seq<byte>, whole: bool, p: Packet, fate: Fate)
    requires done == [] ==> whole
    ensures done + Data(p.bytes) == [] ==> StillWhole(whole, done, p, fate)
  {
    assert done + Data(p.bytes) == [] ==> |done| == 0 && |Data(p.bytes)| == 0;
  }

  lemma {:induction false} ArrivesDelivered(c: Config, a: Asm, sent: seq<Frame>, f: SentFrame, done: seq<byte>, whole: bool, p: Packet,
                                            es: seq<Event>)
    requires !c.mjpeg && c.expected == Some(|f.Image()|) && Sound(c, f.fid, p.bytes) && (done == [] ==> p.ts == f.Ts())
    requires Eof(p.bytes) ==> done + Data(p.bytes) == f.Image()
    requires Open(c, a, sent, f, done, whole) && Padded(c, [], es)
    ensures var b := Run(c, a, [Payload(p.bytes, p.ts)] + es);
            After(c, b, sent, f, done + Data(p.bytes), whole, p) && (Eof(p.bytes) || Err(p.bytes) ==> b.mode != Accum)
  {
    hide Run, Step, Open, After, Padded, Data, Eof, Err, Parses, SentFrame.Image, SentFrame.Ts;
    var e := Payload(p.bytes, p.ts);
    Delivers(c, a, sent, f, done, whole, p);
    if Eof(p.bytes) || Err(p.bytes) { EndsFrame(c, a, p); }
    RunCons(c, a, e, es);
    NoiseAfter(c, Step(c, a, e), sent, f, done + Data(p.bytes), whole, p, es);
    OnlyNoise(c, Step(c, a, e), es);
  }

  lemma {:induction false} ArrivesDamaged(c: Config, a: Asm, sent: seq<Frame>, f: SentFrame, done: seq<byte>, whole: bool, p: Packet,
                                          fate: Fate, idle: bool, es: seq<Event>)
    requires Subsequence(a.out, sent) && (done == [] ==> whole)
    requires Possible(c, f.fid, p, fate, idle) && (fate.Missing? || fate.Garbled? || fate.Errored?)
    requires es != [] && es[0] == Received(p, fate)[0] && Padded(c, [], es[1..])
    ensures var b := Run(c, a, es);
            After(c, b, sent, f, done + Data(p.bytes), StillWhole(whole, done, p, fate), p) && b.mode != Accum
  {
    hide Step, After, Possible, Data, Eof, SentFrame.Image, SentFrame.Ts, Subsequence, Received, Padded;
    NotDelivered(c, a, f.fid, p, fate, idle);
    NothingYet(done, whole, p, fate);
    var b := Step(c, a, es[0]);
    OnlyNoise(c, b, es[1..]);
    IdleIsFine(c, Run(c, b, es[1..]), sent, f, done + Data(p.bytes), StillWhole(whole, done, p, fate), p);
  }

  lemma {:induction false} ArrivesRest(c: Config, a: Asm, sent: seq<Frame>, f: SentFrame, done: seq<byte>, p: Packet,
                                       fate: Fate, idle: bool, es: seq<Event>)
    requires !c.mjpeg && c.expected == Some(|f.Image()|) && Subsequence(a.out, sent) && a.mode != Accum
    requires done + Data(p.bytes) <= f.Image() && (Eof(p.bytes) ==> done + Data(p.bytes) == f.Image())
    requires fate.Remains? && Possible(c, f.fid, p, fate, idle) && Padded(c, [Payload(fate.bytes, fate.ts)], es)
    ensures After(c, Run(c, a, es), sent, f, done + Data(p.bytes), false, p) && Data(p.bytes) != []
  {
    hide Run, Inside, Between, Data, Eof, OtherHeader, SentFrame.Image, SentFrame.Ts, Subsequence, Padded, SentIf;
    EndIsEnd(p.bytes, done, fate.bytes);
    RestArrives(c, a, sent, f, done + Data(p.bytes), fate.bytes, fate.ts, es);
    if Eof(p.bytes) { EndOfBody(c, Run(c, a, es), sent, f, false); }
  }

  /** One payload of the body with its fate, and the noise about it. */
  lemma {:induction false} Arrives(c: Config, a: Asm, sent: seq<Frame>, f: SentFrame, done: seq<byte>, whole: bool, p: Packet,
                                   fate: Fate, idle: bool, es: seq<Event>)
    requires !c.mjpeg && c.expected == Some(|f.Image()|) && Sound(c, f.fid, p.bytes) && (done == [] ==> p.ts == f.Ts())
    requires done + Data(p.bytes) <= f.Image() && (Eof(p.bytes) ==> done + Data(p.bytes) == f.Image())
    requires Open(c, a, sent, f, done, whole) && (idle ==> a.mode != Accum)
    requires Possible(c, f.fid, p, fate, idle) && Padded(c, Received(p, fate), es)
    ensures var b := Run(c, a, es);
            && After(c, b, sent, f, done + Data(p.bytes), StillWhole(whole, done, p, fate), p)
            && (StillIdle(p, fate, idle) ==> b.mode != Accum)
    decreases |es|
  {
    hide Step, Open, After, Data, Eof, Err, Sound, Noise, SentFrame.Image, SentFrame.Ts, Possible;
    OpenIsSent(c, a, sent, f, done, whole);
    NothingYet(done, whole, p, fate);
    if fate.Gone? {
      GoneIsIdle(c, f.fid, p, idle);
      OnlyNoise(c, a, es);
      IdleIsFine(c, Run(c, a, es), sent, f, done + Data(p.bytes), StillWhole(whole, done, p, fate), p);
    } else if Noise(c, es[0]) && Padded(c, Received(p, fate), es[1..]) {
      NoiseEnds(c, a, es[0]);
      IdleIsOpen(c, Step(c, a, es[0]), sent, f, done, whole);
      Arrives(c, Step(c, a, es[0]), sent, f, done, whole, p, fate, idle, es[1..]);
    } else if fate.Remains? && fate.lost {
      assert Received(p, fate)[1..] == [Payload(fate.bytes, fate.ts)];
      NoiseEnds(c, a, Lost);
      ArrivesRest(c, Step(c, a, Lost), sent, f, done, p, fate, idle, es[1..]);
    } else if fate.Remains? {
      assert [] + [Payload(fate.bytes, fate.ts)] == [Payload(fate.bytes, fate.ts)];
      RestIsIdle(c, f.fid, p, fate, idle);
      ArrivesRest(c, a, sent, f, done, p, fate, idle, es);
    } else if fate.Delivered? {
      assert Received(p, fate)[1..] == [] && es == [es[0]] + es[1..];
      ArrivesDelivered(c, a, sent, f, done, whole, p, es[1..]);
    } else {
      assert Received(p, fate)[1..] == [];
      ArrivesDamaged(c, a, sent, f, done, whole, p, fate, idle, es);
    }
  }

  lemma RestIsIdle(c: Config, fid: nat, p: Packet, fate: Fate, idle: bool)
    requires Possible(c, fid, p, fate, idle) && fate.Remains? && !fate.lost
    ensures idle
  {
  }

  lemma GoneIsIdle(c: Config, fid: nat, p: Packet, idle: bool) requires Possible(c, fid, p, Gone, idle) ensures idle {}

  // ---- bodies, tails, frames ---------------------------------------------------------------

  /** The remaining payloads of the body of `f`, once `done` of its bytes have gone by. */
  predicate BodyRest(c: Config, f: SentFrame, done: seq<byte>, ps: seq<Packet>)
    decreases |ps|
  {
    if ps == [] then done == f.Image()
    else
      && Sound(c, f.fid, ps[0].bytes)
      && done + Data(ps[0].bytes) <= f.Image()
      && (Eof(ps[0].bytes) ==> |ps| == 1)
      && (done == [] ==> ps[0].ts == f.Ts())
      && BodyRest(c, f, done + Data(ps[0].bytes), ps[1..])
  }

  lemma {:induction false} BodyIsRest(c: Config, f: SentFrame, done: seq<byte>, ps: seq<Packet>)
    requires SoundBody(c, f.fid, ps) && done + PacketData(ps) == f.Image()
    requires done == [] ==> OneTime(ps, f.Ts())
    ensures BodyRest(c, f, done, ps)
    decreases |ps|
  {
    hide SentFrame.Image, SentFrame.Ts, Data, Sound, Eof;
    var d := done + Data(ps[0].bytes);
    assert d + PacketData(ps[1..]) == done + PacketData(ps);
    if |ps| == 1 {
      assert ps[1..] == [] && PacketData(ps[1..]) == [];
      assert d == f.Image();
    } else {
      assert d == [] ==> done == [] && Data(ps[0].bytes) == [] by { BothEmpty(done, Data(ps[0].bytes)); }
      BodyIsRest(c, f, d, ps[1..]);
    }
  }

  lemma BothEmpty(a: seq<byte>, b: seq<byte>) ensures a + b == [] ==> a == [] && b == []
  {
    assert |a + b| == |a| + |b|;
  }

  lemma {:induction false} EofIsEnd(c: Config, f: SentFrame, done: seq<byte>, ps: seq<Packet>)
    requires BodyRest(c, f, done, ps) && ps != [] && Eof(ps[0].bytes)
    ensures |ps| == 1 && ps[1..] == [] && done + Data(ps[0].bytes) == f.Image()
  {
    assert ps[1..] == [];
    assert BodyRest(c, f, done + Data(ps[0].bytes), []);
  }

  lemma {:induction false} IntactStep(whole: bool, done: seq<byte>, ps: seq<Packet>, fates: seq<Fate>)
    requires ps != [] && fates != []
    ensures whole && Intact(ps, fates, done != []) <==>
            StillWhole(whole, done, ps[0], fates[0]) && Intact(ps[1..], fates[1..], done + Data(ps[0].bytes) != [])
  {
    BothEmpty(done, Data(ps[0].bytes));
    if done == [] { assert done + Data(ps[0].bytes) == Data(ps[0].bytes); }
  }

  lemma {:induction false} NothingDamaged(fates: seq<Fate>) ensures Damaged([], fates) == [] {}

  lemma {:induction false} DamagedFirst(ps: seq<Packet>, fates: seq<Fate>)
    requires ps != [] && fates != []
    ensures Damaged(ps, fates) == Received(ps[0], fates[0]) + Damaged(ps[1..], fates[1..])
  {
  }

  lemma {:induction false} BodyArrives(c: Config, a: Asm, sent: seq<Frame>, f: SentFrame, done: seq<byte>, whole: bool,
                                       ps: seq<Packet>, fates: seq<Fate>, idle: bool, es: seq<Event>)
    requires !c.mjpeg && c.expected == Some(|f.Image()|) && Open(c, a, sent, f, done, whole) && (idle ==> a.mode != Accum)
    requires ps != [] && BodyRest(c, f, done, ps) && PossibleFates(c, f.fid, ps, fates, idle) && Padded(c, Damaged(ps, fates), es)
    ensures Between(c, Run(c, a, es), SentIf(sent, f, whole && Intact(ps, fates, done != [])), f.fid)
    ensures IdleThrough(ps, fates, idle) ==> Run(c, a, es).mode != Accum
    decreases |ps|
  {
    hide Open, Inside, Between, Run, Possible, Received, Damaged, Padded, Sound, Data, Eof, SentFrame.Image, SentFrame.Ts,
         StillIdle, StillWhole, Intact, SentIf;
    var p, fate := ps[0], fates[0];
    DamagedFirst(ps, fates);
    var k := PaddedSplit(c, Received(p, fate), Damaged(ps[1..], fates[1..]), es);
    if Eof(p.bytes) { EofIsEnd(c, f, done, ps); }
    Arrives(c, a, sent, f, done, whole, p, fate, idle, es[..k]);
    var b, done', whole' := Run(c, a, es[..k]), done + Data(p.bytes), StillWhole(whole, done, p, fate);
    assert es == es[..k] + es[k..];
    RunAppend(c, a, es[..k], es[k..]);
    IntactStep(whole, done, ps, fates);
    if |ps| == 1 {
      assert ps[1..] == [];
      NothingDamaged(fates[1..]);
      NothingIntact(fates[1..], done' != []);
      if !Eof(p.bytes) { EndOfBody(c, b, sent, f, whole'); }
      NoiseBetween(c, b, SentIf(sent, f, whole'), f.fid, es[k..]);
      OnlyNoise(c, b, es[k..]);
      var still := StillIdle(p, fate, idle);
      assert IdleThrough(ps[1..], fates[1..], still) == still;
    } else {
      InsideIsOpen(c, b, sent, f, done', whole');
      BodyArrives(c, b, sent, f, done', whole', ps[1..], fates[1..], StillIdle(p, fate, idle), es[k..]);
    }
  }

  lemma {:induction false} NothingIntact(fates: seq<Fate>, begun: bool) ensures Intact([], fates, begun) {}

  /** A keepalive, whatever becomes of it, between bodies. */
  lemma {:induction false} KeepaliveDelivered(c: Config, a: Asm, sent: seq<Frame>, fid: nat, p: Packet)
    requires !c.mjpeg && c.expected.Some? && c.expected.value > 0 && Between(c, a, sent, fid) && Keepalive(c, fid, p.bytes)
    ensures Between(c, Step(c, a, Payload(p.bytes, p.ts)), sent, fid)
  {
    hide Subsequence;
    assert a.buf + Data(p.bytes) == a.buf && [] + Data(p.bytes) == [];
    if Flush(c, a).out != a.out {
      CloseAtToggle(c, a, sent, fid);
    }
  }

  lemma {:induction false} NoRestOfNothing(c: Config, fid: nat, p: Packet, fate: Fate, idle: bool)
    requires Keepalive(c, fid, p.bytes) && Possible(c, fid, p, fate, idle)
    ensures !fate.Remains?
  {
  }

  lemma {:induction false} IdleIsBetween(c: Config, a: Asm, sent: seq<Frame>, fid: nat)
    requires Subsequence(a.out, sent) && a.mode != Accum
    ensures Between(c, a, sent, fid)
  {
  }

  lemma {:induction false} BetweenIsSent(c: Config, a: Asm, sent: seq<Frame>, fid: nat)
    requires Between(c, a, sent, fid)
    ensures Subsequence(a.out, sent)
  {
  }

  lemma {:induction false} KeepaliveArrives(c: Config, a: Asm, sent: seq<Frame>, fid: nat, p: Packet, fate: Fate, idle: bool, es: seq<Event>)
    requires !c.mjpeg && c.expected.Some? && c.expected.value > 0 && Between(c, a, sent, fid) && (idle ==> a.mode != Accum)
    requires Keepalive(c, fid, p.bytes) && Possible(c, fid, p, fate, idle) && Padded(c, Received(p, fate), es)
    ensures var b := Run(c, a, es); Between(c, b, sent, fid) && (StillIdle(p, fate, idle) ==> b.mode != Accum)
    decreases |es|
  {
    hide Step, Between, Data, Eof, Err, Parses, Noise, Possible, Subsequence;
    BetweenIsSent(c, a, sent, fid);
    NoRestOfNothing(c, fid, p, fate, idle);
    if fate.Gone? {
      GoneIsIdle(c, fid, p, idle);
      NoiseBetween(c, a, sent, fid, es);
      OnlyNoise(c, a, es);
    } else if Noise(c, es[0]) && Padded(c, Received(p, fate), es[1..]) {
      NoiseEnds(c, a, es[0]);
      IdleIsBetween(c, Step(c, a, es[0]), sent, fid);
      KeepaliveArrives(c, Step(c, a, es[0]), sent, fid, p, fate, idle, es[1..]);
    } else {
      assert Received(p, fate)[1..] == [];
      var b := Step(c, a, es[0]);
      if fate.Delivered? {
        KeepaliveDelivered(c, a, sent, fid, p);
        if Eof(p.bytes) || Err(p.bytes) { EndsFrame(c, a, p); }
      } else {
        NotDelivered(c, a, fid, p, fate, idle);
        IdleIsBetween(c, b, sent, fid);
      }
      NoiseBetween(c, b, sent, fid, es[1..]);
      OnlyNoise(c, b, es[1..]);
    }
  }

  lemma {:induction false} TailArrives(c: Config, a: Asm, sent: seq<Frame>, fid: nat, ps: seq<Packet>, fates: seq<Fate>, idle: bool,
                                       es: seq<Event>)
    requires !c.mjpeg && c.expected.Some? && c.expected.value > 0 && Between(c, a, sent, fid) && (idle ==> a.mode != Accum)
    requires AllKeepalives(c, fid, ps) && PossibleFates(c, fid, ps, fates, idle) && Padded(c, Damaged(ps, fates), es)
    ensures Between(c, Run(c, a, es), sent, fid)
    ensures IdleThrough(ps, fates, idle) ==> Run(c, a, es).mode != Accum
    decreases |ps|
  {
    hide Between, Run, Possible, Received, Damaged, Padded, Keepalive, StillIdle;
    if ps == [] {
      NothingDamaged(fates);
      NoiseBetween(c, a, sent, fid, es);
      OnlyNoise(c, a, es);
    } else {
      DamagedFirst(ps, fates);
      var k := PaddedSplit(c, Received(ps[0], fates[0]), Damaged(ps[1..], fates[1..]), es);
      KeepaliveArrives(c, a, sent, fid, ps[0], fates[0], idle, es[..k]);
      assert es == es[..k] + es[k..];
      RunAppend(c, a, es[..k], es[k..]);
      TailArrives(c, Run(c, a, es[..k]), sent, fid, ps[1..], fates[1..], StillIdle(ps[0], fates[0], idle), es[k..]);
    }
  }

  lemma {:induction false} DamagedCons(p: Packet, f: Fate, ps: seq<Packet>, fs: seq<Fate>)
    ensures Damaged([p] + ps, [f] + fs) == Received(p, f) + Damaged(ps, fs)
  {
    assert ([p] + ps)[1..] == ps && ([f] + fs)[1..] == fs;
  }

  lemma {:induction false} DamagedAppend(ps: seq<Packet>, fs: seq<Fate>, qs: seq<Packet>, gs: seq<Fate>)
    requires |fs| == |ps|
    ensures Damaged(ps + qs, fs + gs) == Damaged(ps, fs) + Damaged(qs, gs)
    decreases |ps|
  {
    hide Received;
    if ps == [] {
      assert ps + qs == qs && fs + gs == gs;
    } else {
      assert (ps + qs)[1..] == ps[1..] + qs && (fs + gs)[1..] == fs[1..] + gs;
      DamagedAppend(ps[1..], fs[1..], qs, gs);
      Associative(Received(ps[0], fs[0]), Damaged(ps[1..], fs[1..]), Damaged(qs, gs));
    }
  }

  lemma {:induction false} PossibleAppend(c: Config, fid: nat, ps: seq<Packet>, fs: seq<Fate>, qs: seq<Packet>, gs: seq<Fate>, idle: bool)
    requires |fs| == |ps|
    ensures PossibleFates(c, fid, ps + qs, fs + gs, idle) <==>
            PossibleFates(c, fid, ps, fs, idle) && PossibleFates(c, fid, qs, gs, IdleThrough(ps, fs, idle))
    ensures IdleThrough(ps + qs, fs + gs, idle) == IdleThrough(qs, gs, IdleThrough(ps, fs, idle))
    decreases |ps|
  {
    hide Possible, StillIdle;
    if ps == [] {
      assert ps + qs == qs && fs + gs == gs;
    } else {
      assert (ps + qs)[1..] == ps[1..] + qs && (fs + gs)[1..] == fs[1..] + gs;
      PossibleAppend(c, fid, ps[1..], fs[1..], qs, gs, StillIdle(ps[0], fs[0], idle));
    }
  }

  lemma {:induction false} IntactPrefix(ps: seq<Packet>, fs: seq<Fate>, gs: seq<Fate>, begun: bool)
    requires |fs| == |ps|
    ensures Intact(ps, fs + gs, begun) == Intact(ps, fs, begun)
    decreases |ps|
  {
    if ps != [] {
      assert (fs + gs)[1..] == fs[1..] + gs;
      IntactPrefix(ps[1..], fs[1..], gs, begun || Data(ps[0].bytes) != []);
    }
  }

  lemma {:induction false} WholeFrame(c: Config, a: Asm, sent: seq<Frame>, fid: nat, f: SentFrame, fates: seq<Fate>, idle: bool,
                                      es: seq<Event>)
    requires !c.mjpeg && Between(c, a, sent, fid) && fid != f.fid && (idle ==> a.mode != Accum)
    requires RawFrame(c, f) && InTime(f)
    requires PossibleFates(c, f.fid, Packets(f), fates, idle) && Padded(c, Damaged(Packets(f), fates), es)
    ensures Between(c, Run(c, a, es), SentIf(sent, f, Intact(f.body, fates, false)), f.fid)
    ensures IdleThrough(Packets(f), fates, idle) ==> Run(c, a, es).mode != Accum
  {
    hide Between, Run, Open, Possible, PossibleFates, Received, Damaged, Padded, BodyRest, SentIf, Intact, Sound, Data, IdleThrough;
    PossibleLength(c, f.fid, Packets(f), fates, idle);
    var n := |f.body|;
    var bs, ts := fates[..n], fates[n..];
    assert fates == bs + ts;
    PossibleAppend(c, f.fid, f.body, bs, f.tail, ts, idle);
    DamagedAppend(f.body, bs, f.tail, ts);
    IntactPrefix(f.body, bs, ts, false);
    assert [] + PacketData(f.body) == f.Image();
    BodyIsRest(c, f, [], f.body);
    var k := PaddedSplit(c, Damaged(f.body, bs), Damaged(f.tail, ts), es);
    BetweenIsOpen(c, a, sent, fid, f);
    BodyArrives(c, a, sent, f, [], true, f.body, bs, idle, es[..k]);
    assert es == es[..k] + es[k..];
    RunAppend(c, a, es[..k], es[k..]);
    TailArrives(c, Run(c, a, es[..k]), SentIf(sent, f, Intact(f.body, bs, false)), f.fid, f.tail, ts, IdleThrough(f.body, bs, idle), es[k..]);
  }

  lemma {:induction false} PossibleLength(c: Config, fid: nat, ps: seq<Packet>, fates: seq<Fate>, idle: bool)
    requires PossibleFates(c, fid, ps, fates, idle)
    ensures |fates| == |ps|
  {
  }

  // ---- whole streams -----------------------------------------------------------------------

  lemma {:induction false} SurvivorsFirst(sent: seq<Frame>, f: SentFrame, fs: seq<SentFrame>, now: seq<Fate>, later: seq<Fate>)
    requires |now| == |Packets(f)|
    ensures SentIf(sent, f, Intact(f.body, now, false)) + Survivors(fs, later) == sent + Survivors([f] + fs, now + later)
  {
    var n := |f.body|;
    assert ([f] + fs)[1..] == fs && (now + later)[|now|..] == later;
    assert now == now[..n] + now[n..] && now + later == now[..n] + (now[n..] + later);
    IntactPrefix(f.body, now[..n], now[n..], false);
    IntactPrefix(f.body, now[..n], now[n..] + later, false);
    var w := Intact(f.body, now, false);
    assert Survivors([f] + fs, now + later) == SentIf([], f, w) + Survivors(fs, later);
    assert SentIf(sent, f, w) == sent + SentIf([], f, w);
    Associative(sent, SentIf([], f, w), Survivors(fs, later));
  }

  lemma {:induction false} WholeStream(c: Config, a: Asm, sent: seq<Frame>, fid: nat, fs: seq<SentFrame>, fates: seq<Fate>,
                                       idle: bool, es: seq<Event>)
    requires !c.mjpeg && Between(c, a, sent, fid) && (idle ==> a.mode != Accum)
    requires RawStream(c, fs) && AllInTime(fs) && AllPossible(c, fs, fates, idle) && Padded(c, Damaged(AllPackets(fs), fates), es)
    requires fs != [] ==> fs[0].fid != fid
    ensures Subsequence(Run(c, a, es).out, sent + Survivors(fs, fates))
    decreases |fs|
  {
    hide Subsequence, Run, RawFrame, InTime, Damaged, Between, Padded, PossibleFates, IdleThrough, SentIf, Intact, Packets;
    if fs == [] {
      NothingDamaged(fates);
      OnlyNoise(c, a, es);
      BetweenIsSent(c, a, sent, fid);
      assert sent + [] == sent;
    } else {
      hide Survivors;
      var f, n := fs[0], |Packets(fs[0])|;
      var now, later := fates[..n], fates[n..];
      assert fates == now + later && fs == [f] + fs[1..];
      DamagedAppend(Packets(f), now, AllPackets(fs[1..]), later);
      var k := PaddedSplit(c, Damaged(Packets(f), now), Damaged(AllPackets(fs[1..]), later), es);
      WholeFrame(c, a, sent, fid, f, now, idle, es[..k]);
      assert es == es[..k] + es[k..];
      RunAppend(c, a, es[..k], es[k..]);
      WholeStream(c, Run(c, a, es[..k]), SentIf(sent, f, Intact(f.body, now, false)), f.fid, fs[1..], later,
                  IdleThrough(Packets(f), now, idle), es[k..]);
      SurvivorsFirst(sent, f, fs[1..], now, later);
    }
  }

  /**
   * Loss safety. Whatever happens to the payloads of a stream, and whatever noise there is besides, what
   * comes out is an in-order subsequence of the frames of which every payload from the first with data on
   * was delivered, each bit-exact and with the frame's timestamp: no frame with a hole, no splice of two
   * frames and no frame with damaged data is ever returned.
   */
  lemma {:induction false} LossSafety(c: Config, fs: seq<SentFrame>, fates: seq<Fate>, es: seq<Event>)
    requires !c.mjpeg && RawStream(c, fs) && AllInTime(fs)
    requires AllPossible(c, fs, fates, true) && Padded(c, Damaged(AllPackets(fs), fates), es)
    ensures Subsequence(Run(c, INITIAL, es).out, Survivors(fs, fates))
    ensures Subsequence(Run(c, INITIAL, es).out, SentFrames(fs))
  {
    var fid := if fs == [] then 0 else fs[0].fid + 1;
    WholeStream(c, INITIAL, [], fid, fs, fates, true, es);
    assert [] + Survivors(fs, fates) == Survivors(fs, fates);
    SurvivorsAreSent(fs, fates);
    SubsequenceTransitive(Run(c, INITIAL, es).out, Survivors(fs, fates), SentFrames(fs));
  }

  lemma {:induction false} SurvivorsAreSent(fs: seq<SentFrame>, fates: seq<Fate>)
    ensures Subsequence(Survivors(fs, fates), SentFrames(fs))
    decreases |fs|
  {
    hide Intact, Packets;
    if fs != [] {
      var n := |Packets(fs[0])|;
      var later := if |fates| >= n then fates[n..] else [];
      SurvivorsAreSent(fs[1..], later);
      OneOrNone(fs[0], Intact(fs[0].body, fates, false));
      SubsequenceAppend(SentIf([], fs[0], Intact(fs[0].body, fates, false)), [AsFrame(fs[0])], Survivors(fs[1..], later), SentFrames(fs[1..]));
    }
  }

  lemma {:induction false} OneOrNone(f: SentFrame, w: bool)
    ensures Subsequence(SentIf([], f, w), [AsFrame(f)])
  {
    assert [] + [AsFrame(f)] == [AsFrame(f)] && [AsFrame(f)][..0] == [];
    assert Subsequence<Frame>([], []);
    SubsequenceTake([], [], AsFrame(f));
  }

  /** Nothing goes unreported, or hands on a rest, but right after a loss. */
  predicate Told(fates: seq<Fate>, idle: bool)
    decreases |fates|
  {
    fates != [] ==>
      match fates[0]
      case Delivered => Told(fates[1..], false)
      case Missing => Told(fates[1..], true)
      case Gone => idle && Told(fates[1..], idle)
      case Remains(lost, _, _) => (lost || idle) && Told(fates[1..], false)
      case _ => false
  }

  /** The rests of the payloads `ps` of a frame are ends of their data, and not the bare header of another frame. */
  predicate Harmless(c: Config, fid: nat, ps: seq<Packet>, fates: seq<Fate>)
    decreases |ps|
  {
    ps == [] || fates == []
    || ((fates[0].Remains? ==> EndOf(ps[0].bytes, fates[0].bytes) && !OtherHeader(c, fid, fates[0].bytes))
        && Harmless(c, fid, ps[1..], fates[1..]))
  }

  predicate AllHarmless(c: Config, fs: seq<SentFrame>, fates: seq<Fate>)
    decreases |fs|
  {
    fs != [] ==>
      var n := |Packets(fs[0])|;
      Harmless(c, fs[0].fid, Packets(fs[0]), fates) && (|fates| >= n ==> AllHarmless(c, fs[1..], fates[n..]))
  }

  lemma {:induction false} ToldMore(fates: seq<Fate>, idle: bool)
    requires Told(fates, false)
    ensures Told(fates, idle)
  {
  }

  lemma {:induction false} ToldPossible(c: Config, fid: nat, ps: seq<Packet>, fates: seq<Fate>, more: seq<Fate>, idle: bool)
    requires |ps| == |fates| && Told(fates + more, idle) && Harmless(c, fid, ps, fates + more)
    ensures PossibleFates(c, fid, ps, fates, idle) && Told(more, IdleThrough(ps, fates, idle))
    decreases |ps|
  {
    hide EndOf, OtherHeader;
    if ps == [] {
      assert fates + more == more;
    } else {
      assert (fates + more)[0] == fates[0] && (fates + more)[1..] == fates[1..] + more;
      var still := StillIdle(ps[0], fates[0], idle);
      if fates[0].Delivered? || fates[0].Remains? { ToldMore(fates[1..] + more, still); }
      ToldPossible(c, fid, ps[1..], fates[1..], more, still);
    }
  }

  lemma {:induction false} AllToldPossible(c: Config, fs: seq<SentFrame>, fates: seq<Fate>, idle: bool)
    requires Told(fates, idle) && |fates| == |AllPackets(fs)| && AllHarmless(c, fs, fates)
    ensures AllPossible(c, fs, fates, idle)
    decreases |fs|
  {
    hide PossibleFates, IdleThrough, Harmless, Told;
    if fs != [] {
      var n := |Packets(fs[0])|;
      assert fates == fates[..n] + fates[n..];
      ToldPossible(c, fs[0].fid, Packets(fs[0]), fates[..n], fates[n..], idle);
      AllToldPossible(c, fs[1..], fates[n..], IdleThrough(Packets(fs[0]), fates[..n], idle));
    }
  }

  predicate OnlyLosses(fates: seq<Fate>) {
    fates != [] ==> (fates[0].Missing? || fates[0].Delivered?) && OnlyLosses(fates[1..])
  }

  function AllDelivered(n: nat): seq<Fate> { if n == 0 then [] else [Delivered] + AllDelivered(n - 1) }

  lemma {:induction false} DeliveredEvents(ps: seq<Packet>)
    ensures |AllDelivered(|ps|)| == |ps| && OnlyLosses(AllDelivered(|ps|))
    ensures Damaged(ps, AllDelivered(|ps|)) == PacketEvents(ps)
    decreases |ps|
  {
    if ps != [] {
      DeliveredEvents(ps[1..]);
      assert AllDelivered(|ps|)[1..] == AllDelivered(|ps[1..]|);
    }
  }

  lemma {:induction false} OnlyLossesAppend(fs: seq<Fate>, gs: seq<Fate>)
    ensures OnlyLosses(fs + gs) <==> OnlyLosses(fs) && OnlyLosses(gs)
    decreases |fs|
  {
    if fs == [] {
      assert fs + gs == gs;
    } else {
      assert (fs + gs)[1..] == fs[1..] + gs;
      OnlyLossesAppend(fs[1..], gs);
    }
  }

  lemma {:induction false} LossesArePossible(c: Config, fid: nat, ps: seq<Packet>, fates: seq<Fate>, idle: bool)
    requires |ps| == |fates| && OnlyLosses(fates)
    ensures PossibleFates(c, fid, ps, fates, idle)
    decreases |ps|
  {
    if ps != [] {
      LossesArePossible(c, fid, ps[1..], fates[1..], StillIdle(ps[0], fates[0], idle));
    }
  }

  lemma {:induction false} AllLossesArePossible(c: Config, fs: seq<SentFrame>, fates: seq<Fate>, idle: bool)
    requires OnlyLosses(fates) && |fates| == |AllPackets(fs)|
    ensures AllPossible(c, fs, fates, idle)
    decreases |fs|
  {
    if fs != [] {
      var n := |Packets(fs[0])|;
      assert fates == fates[..n] + fates[n..];
      OnlyLossesAppend(fates[..n], fates[n..]);
      LossesArePossible(c, fs[0].fid, Packets(fs[0]), fates[..n], idle);
      AllLossesArePossible(c, fs[1..], fates[n..], IdleThrough(Packets(fs[0]), fates[..n], idle));
    }
  }

  lemma {:induction false} PacketEventsAppend(ps: seq<Packet>, qs: seq<Packet>)
    ensures PacketEvents(ps + qs) == PacketEvents(ps) + PacketEvents(qs)
    decreases |ps|
  {
    if ps == [] {
      assert ps + qs == qs;
    } else {
      assert (ps + qs)[0] == ps[0] && (ps + qs)[1..] == ps[1..] + qs;
      PacketEventsAppend(ps[1..], qs);
    }
  }

  lemma {:induction false} WireIsAllPackets(fs: seq<SentFrame>)
    ensures Wire(fs) == PacketEvents(AllPackets(fs))
    decreases |fs|
  {
    if fs != [] {
      PacketEventsAppend(fs[0].body, fs[0].tail);
      PacketEventsAppend(Packets(fs[0]), AllPackets(fs[1..]));
      WireIsAllPackets(fs[1..]);
    }
  }
}
