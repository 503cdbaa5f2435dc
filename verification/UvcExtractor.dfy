/** The extractor object, updated payload by payload, against the functions the theorems are about. */
module UvcExtractor {
  import opened Common
  import opened UvcAssembler
  import opened UvcRecovery
  import opened UvcBulk
  import opened UvcIso
  import opened UvcLoss

  /** One usbmon record of the selected endpoint. */
  datatype Record =
    | Submitted(id: nat, length: nat)                        // a bulk request
    | IsoDone(descs: seq<IsoDesc>, data: seq<byte>, ts: int)
    | BulkDone(id: nat, urb: Urb, ts: int)

  datatype Failure = NoData | WrongSize | NotVideo
  datatype Result = Frames(frames: seq<Frame>) | Failed(why: Failure)

  /** The request lengths on record, once a bulk URB has completed. */
  function Consume(req: map<nat, nat>, id: nat, u: Urb): map<nat, nat> {
    if CutShort(u) then req else req - {id}
  }

  function Lookup(req: map<nat, nat>, id: nat): Option<nat> { if id in req then Some(req[id]) else None }

  /** Everything the transport layer reports over a capture. */
  function Events(c: Config, p: Pending, req: map<nat, nat>, rs: seq<Record>): seq<Event>
    decreases |rs|
  {
    if rs == [] then []
    else
      match rs[0]
      case Submitted(id, length) => Events(c, p, req[id := length], rs[1..])
      case IsoDone(descs, data, ts) => IsoEvents(descs, data, ts) + Events(c, p, req, rs[1..])
      case BulkDone(id, u, ts) =>
        var o := FeedBulk(c, p, u, Lookup(req, id), ts);
        o.events + Events(c, o.pending, Consume(req, id, u), rs[1..])
  }

  predicate IsDone(r: Record) { !r.Submitted? }

  function Completed(rs: seq<Record>): nat {
    if rs == [] then 0 else (if IsDone(rs[0]) then 1 else 0) + Completed(rs[1..])
  }

  function Verdict(a: Asm, urbs: nat): Result {
    if a.stats.framesOk > 0 then Frames(a.out)
    else if urbs == 0 then Failed(NoData)
    else if a.stats.sizeDrops > 0 then Failed(WrongSize)
    else Failed(NotVideo)
  }

  class UvcFrameExtractor {
    const config: Config

    var mode: Mode
    var fid: Option<nat>
    var buf: seq<byte>
    var startTs: int
    var bulkCont: bool
    var pending: seq<byte>
    var pendingTs: int
    var reqLen: map<nat, nat>
    var stats: Stats
    var urbs: nat
    var out: seq<Frame>

    constructor (c: Config)
      ensures config == c && State() == INITIAL && Assembling() == NO_PAYLOAD && reqLen == map[] && urbs == 0
    {
      config := c;
      mode, fid, buf, startTs := Await, None, [], 0;
      bulkCont, pending, pendingTs, reqLen := false, [], 0, map[];
      stats, urbs, out := NO_STATS, 0, [];
    }

    function State(): Asm
      reads this
    {
      Asm(mode, fid, buf, startTs, stats, out)
    }

    function Assembling(): Pending
      reads this
    {
      Pending(bulkCont, pending, pendingTs)
    }

    method Reset()
      modifies this
      ensures State() == INITIAL && Assembling() == NO_PAYLOAD && reqLen == map[] && urbs == 0
    {
      mode, fid, buf, startTs := Await, None, [], 0;
      bulkCont, pending, pendingTs, reqLen := false, [], 0, map[];
      stats, urbs, out := NO_STATS, 0, [];
    }

    /** Validate the accumulated buffer and return it, or count it as dropped. */
    method FinalizeFrame()
      modifies this`buf, this`stats, this`out
      ensures State() == Finalize(config, old(State()))
    {
      var complete := buf;
      buf := [];
      if config.mjpeg {
        var trimmed := complete;
        while trimmed != [] && trimmed[|trimmed| - 1] == 0
          invariant StripZeros(trimmed) == StripZeros(complete)
          decreases |trimmed|
        {
          trimmed := trimmed[..|trimmed| - 1];
        }
        if IsJpeg(trimmed) {
          stats := stats.(framesOk := stats.framesOk + 1);
          out := out + [Frame(startTs, trimmed)];
        } else {
          stats := stats.(sizeDrops := stats.sizeDrops + 1);
        }
      } else if config.expected.None? || |complete| == config.expected.value {
        stats := stats.(framesOk := stats.framesOk + 1);
        out := out + [Frame(startTs, complete)];
      } else {
        stats := stats.(sizeDrops := stats.sizeDrops + 1);
      }
    }

    method BeginFrame(f: nat, ts: int)
      modifies this`mode, this`fid, this`startTs, this`buf
      ensures State() == Begin(old(State()), f, ts)
    {
      mode := Accum;
      fid := Some(f);
      startTs := ts;
      buf := [];
    }

    method PoisonFrame()
      modifies this`mode, this`buf
      ensures State() == Poison(old(State()))
    {
      if mode == Accum {
        buf := [];
        mode := Skip;
      }
    }

    /** Bytes are missing: the frame in progress, if any, cannot be completed. */
    method NoteLoss()
      modifies this`mode, this`buf, this`stats
      ensures State() == Step(config, old(State()), Lost)
    {
      stats := stats.(truncated := stats.truncated + 1);
      PoisonFrame();
    }

    method FeedPayload(payload: seq<byte>, ts: int)
      modifies this`mode, this`fid, this`startTs, this`buf, this`stats, this`out
      ensures State() == Feed(config, old(State()), payload, ts)
    {
      var hdr := ParseHeader(payload, config.strict);
      if hdr.None? {
        stats := stats.(badHeader := stats.badHeader + 1);
        PoisonFrame();
        return;
      }
      var info := hdr.value.info;
      var f, eof, err := FidBit(info), EofBit(info), ErrBit(info);
      var data := payload[hdr.value.length..];
      if mode == Await {
        if fid == Some(f) && data == [] {
          stats := stats.(trailing := stats.trailing + 1);
          return;
        }
        BeginFrame(f, ts);
      } else if mode == Skip {
        if fid == Some(f) {
          return;
        }
        BeginFrame(f, ts);
      }
      if err {
        stats := stats.(errFrames := stats.errFrames + 1);
        buf := [];
        mode := Skip;
        return;
      }
      if fid != Some(f) {
        FinalizeFrame();
        BeginFrame(f, ts);
      }
      buf := buf + data;
      if eof {
        FinalizeFrame();
        mode := Await;
      }
    }

    /** The packets of an isochronous URB, in order. */
    method FeedIso(descs: seq<IsoDesc>, data: seq<byte>, ts: int)
      modifies this
      ensures State() == Run(config, old(State()), IsoEvents(descs, data, ts))
      ensures Assembling() == old(Assembling()) && reqLen == old(reqLen) && urbs == old(urbs)
    {
      hide Run, Feed, Truncated;
      var i := 0;
      while i < |descs|
        invariant 0 <= i <= |descs|
        invariant Run(config, State(), IsoEvents(descs[i..], data, ts))
               == Run(config, old(State()), IsoEvents(descs, data, ts))
        invariant Assembling() == old(Assembling()) && reqLen == old(reqLen) && urbs == old(urbs)
      {
        var d := descs[i];
        ghost var a := State();
        assert descs[i..][0] == d && descs[i..][1..] == descs[i + 1..];
        if d.status != 0 {
          RunCons(config, a, Lost, IsoEvents(descs[i + 1..], data, ts));
          NoteLoss();
        } else if d.length == 0 {
          assert IsoEvents(descs[i..], data, ts) == IsoEvents(descs[i + 1..], data, ts);
        } else if d.offset + d.length > |data| {
          RunCons(config, a, Lost, IsoEvents(descs[i + 1..], data, ts));
          NoteLoss();
        } else {
          var payload := data[d.offset..d.offset + d.length];
          RunCons(config, a, Payload(payload, ts), IsoEvents(descs[i + 1..], data, ts));
          FeedPayload(payload, ts);
        }
        i := i + 1;
      }
      assert descs[i..] == [];
      RunNothing(config, State());
    }

    /** Hand over every complete payload of the maximal size. */
    method DrainPending(ts: int)
      modifies this
      ensures var d := Drain(config.maxPayload, old(pending), old(pendingTs), ts);
              && State() == Run(config, old(State()), d.events)
              && pending == d.pending.bytes && pendingTs == d.pending.ts
      ensures bulkCont == old(bulkCont) && reqLen == old(reqLen) && urbs == old(urbs)
    {
      ghost var all := Drain(config.maxPayload, pending, pendingTs, ts);
      while config.maxPayload > 0 && |pending| >= config.maxPayload
        invariant var d := Drain(config.maxPayload, pending, pendingTs, ts);
                  d.pending == all.pending
                  && Run(config, State(), d.events) == Run(config, old(State()), all.events)
        invariant bulkCont == old(bulkCont) && reqLen == old(reqLen) && urbs == old(urbs)
        decreases |pending|
      {
        ghost var later := Drain(config.maxPayload, pending[config.maxPayload..], ts, ts);
        RunCons(config, State(), Payload(pending[..config.maxPayload], pendingTs), later.events);
        FeedPayload(pending[..config.maxPayload], pendingTs);
        pending := pending[config.maxPayload..];
        pendingTs := ts;
      }
    }

    /** Feed what is pending, if anything. */
    method FlushPending()
      modifies this
      ensures State() == Run(config, old(State()), Remainder(old(Assembling())))
      ensures Assembling() == old(Assembling()) && reqLen == old(reqLen) && urbs == old(urbs)
    {
      if pending != [] {
        RunOne(config, State(), Payload(pending, pendingTs));
        FeedPayload(pending, pendingTs);
      }
    }

    /** One completed bulk URB. */
    method FeedBulkUrb(id: nat, u: Urb, ts: int)
      modifies this
      ensures var o := FeedBulk(config, old(Assembling()), u, Lookup(old(reqLen), id), ts);
              State() == Run(config, old(State()), o.events) && Assembling() == o.pending
      ensures reqLen == Consume(old(reqLen), id, u) && urbs == old(urbs)
    {
      hide Run, Feed, Truncated, Drain;
      if u.length == 0 {
        reqLen := reqLen - {id};
        if bulkCont && pending != [] {
          FlushPending();
        }
        RunNothing(config, State());
        pending := [];
        bulkCont := false;
        return;
      }
      if !u.hasData || |u.data| < u.length {
        RunOne(config, State(), Lost);
        NoteLoss();
        pending := [];
        bulkCont := false;
        if !u.hasData {
          reqLen := reqLen - {id};
        }
        return;
      }
      var req := Lookup(reqLen, id);
      reqLen := reqLen - {id};
      var short := req.Some? && u.length < req.value;
      if !bulkCont {
        pending := [];
        pendingTs := ts;
      }
      pending := pending + u.data;
      if |pending| > MAX_PENDING {
        RunOne(config, State(), Oversize);
        stats := stats.(truncated := stats.truncated + 1);
        pending := [];
        bulkCont := false;
        return;
      }
      ghost var start, startTs0, a := pending, pendingTs, State();
      DrainPending(ts);
      ghost var d := Drain(config.maxPayload, start, startTs0, ts);
      DrainCont(config.maxPayload, start, startTs0, ts);
      if short || req.None? {
        RunAppend(config, a, d.events, Remainder(d.pending));
        RemainderIgnoresCont(d.pending, Assembling());
        FlushPending();
        pending := [];
        bulkCont := false;
      } else {
        bulkCont := |pending| > 0;
      }
    }

    /** One pass over the capture. */
    method Extract(records: seq<Record>) returns (r: Result)
      modifies this
      ensures r == Verdict(Run(config, INITIAL, Events(config, NO_PAYLOAD, map[], records)), Completed(records))
    {
      Reset();
      ghost var all := Run(config, INITIAL, Events(config, NO_PAYLOAD, map[], records));
      var i := 0;
      assert records[0..] == records;
      while i < |records|
        invariant 0 <= i <= |records|
        invariant Run(config, State(), Events(config, Assembling(), reqLen, records[i..])) == all
        invariant urbs + Completed(records[i..]) == Completed(records)
        decreases |records| - i
      {
        ghost var a, rest := State(), records[i + 1..];
        assert records[i..][0] == records[i] && records[i..][1..] == rest;
        match records[i] {
        case Submitted(id, length) =>
          reqLen := reqLen[id := length];
        case IsoDone(descs, data, ts) =>
          RunAppend(config, a, IsoEvents(descs, data, ts), Events(config, Assembling(), reqLen, rest));
          urbs := urbs + 1;
          FeedIso(descs, data, ts);
        case BulkDone(id, u, ts) =>
          ghost var o := FeedBulk(config, Assembling(), u, Lookup(reqLen, id), ts);
          RunAppend(config, a, o.events, Events(config, o.pending, Consume(reqLen, id, u), rest));
          urbs := urbs + 1;
          FeedBulkUrb(id, u, ts);
        }
        i := i + 1;
      }
      assert records[i..] == [];
      r := Verdict(State(), urbs);
    }
  }

  lemma {:induction false} DrainCont(max: nat, bytes: seq<byte>, bytesTs: int, ts: int)
    ensures var d := Drain(max, bytes, bytesTs, ts); d.pending.cont == (d.pending.bytes != [])
    decreases |bytes|
  {
    if max != 0 && |bytes| >= max {
      DrainCont(max, bytes[max..], ts, ts);
    }
  }

  lemma RemainderIgnoresCont(p: Pending, q: Pending)
    requires p.bytes == q.bytes && p.ts == q.ts
    ensures Remainder(p) == Remainder(q)
  {
  }

  // ---- from records to frames ----------------------------------------------------------------

  /** A bulk capture: for each completed URB, the request length on record when it completed. */
  function Resolve(req: map<nat, nat>, rs: seq<Record>): seq<Completion>
    decreases |rs|
  {
    if rs == [] then []
    else
      match rs[0]
      case Submitted(id, length) => Resolve(req[id := length], rs[1..])
      case IsoDone(_, _, _) => Resolve(req, rs[1..])
      case BulkDone(id, u, ts) => [Completion(u, Lookup(req, id), ts)] + Resolve(Consume(req, id, u), rs[1..])
  }

  predicate NoIso(rs: seq<Record>) { rs != [] ==> !rs[0].IsoDone? && NoIso(rs[1..]) }

  lemma {:induction false} BulkEvents(c: Config, p: Pending, req: map<nat, nat>, rs: seq<Record>)
    requires NoIso(rs)
    ensures Events(c, p, req, rs) == RunUrbs(c, p, Resolve(req, rs)).events
    decreases |rs|
  {
    hide FeedBulk, CutShort;
    if rs != [] {
      match rs[0]
      case Submitted(id, length) =>
        BulkEvents(c, p, req[id := length], rs[1..]);
      case BulkDone(id, u, ts) =>
        var o := FeedBulk(c, p, u, Lookup(req, id), ts);
        BulkEvents(c, o.pending, Consume(req, id, u), rs[1..]);
        var first, rest := Completion(u, Lookup(req, id), ts), Resolve(Consume(req, id, u), rs[1..]);
        assert ([first] + rest)[1..] == rest;
    }
  }

  /** The counter of valid frames is the number of frames returned. */
  lemma {:induction false} FramesCounted(c: Config, a: Asm, es: seq<Event>)
    requires a.stats.framesOk == |a.out|
    ensures Run(c, a, es).stats.framesOk == |Run(c, a, es).out|
    decreases |es|
  {
    if es != [] {
      FramesCounted(c, Step(c, a, es[0]), es[1..]);
    }
  }

  /** A pass succeeds exactly when some frame came out, and then it returns all that did. */
  lemma {:induction false} VerdictIsFrames(c: Config, es: seq<Event>, urbs: nat)
    ensures var a := Run(c, INITIAL, es);
            Verdict(a, urbs) == Frames(a.out) <==> a.out != []
  {
    FramesCounted(c, INITIAL, es);
  }

  /**
   * A whole bulk capture, requests and completions interleaved in any way: if the completed URBs, each
   * with the request found on record for it, carry the payloads of `fs`, the pass returns those frames.
   */
  lemma {:induction false} BulkCapture(c: Config, rs: seq<Record>, ls: seq<Load>, fs: seq<SentFrame>)
    requires NoIso(rs) && Resolve(map[], rs) == LoadUrbs(ls)
    requires ValidLoads(c, ls) && LoadPayloads(ls) == Wire(fs)
    requires ValidStream(c, fs) && fs != [] && fs[|fs| - 1].EndsWithEof()
    requires Expected(c, fs) != []
    ensures Verdict(Run(c, INITIAL, Events(c, NO_PAYLOAD, map[], rs)), Completed(rs)) == Frames(Expected(c, fs))
  {
    hide Run, RunUrbs, ValidLoads, ValidStream, LoadUrbs, LoadPayloads, Wire, Expected, Resolve, Events, Completed, NoIso;
    BulkEvents(c, NO_PAYLOAD, map[], rs);
    BulkExactRecovery(c, ls, fs);
    VerdictIsFrames(c, Events(c, NO_PAYLOAD, map[], rs), Completed(rs));
  }

  function IsoRecords(us: seq<IsoUrb>): seq<Record> {
    if us == [] then []
    else [IsoDone(Layout(us[0].slots, 0), Captured(Region(us[0].slots), us[0].cut), us[0].ts)] + IsoRecords(us[1..])
  }

  lemma {:induction false} IsoRecordEvents(c: Config, p: Pending, req: map<nat, nat>, us: seq<IsoUrb>)
    ensures Events(c, p, req, IsoRecords(us)) == IsoCapture(us)
    decreases |us|
  {
    hide IsoEvents, Layout, Region, Captured;
    if us != [] {
      IsoRecordEvents(c, p, req, us[1..]);
      var rest := IsoRecords(us[1..]);
      assert IsoRecords(us)[1..] == rest;
    }
  }

  /** A whole isochronous capture of an undamaged stream returns its frames. */
  lemma {:induction false} IsoCaptureFrames(c: Config, us: seq<IsoUrb>, fs: seq<SentFrame>, urbs: nat)
    requires NoneMissing(IsoFates(us)) && AllEmptyFailed(us) == 0 && IsoPackets(us) == AllPackets(fs)
    requires ValidStream(c, fs) && fs != [] && fs[|fs| - 1].EndsWithEof()
    requires Expected(c, fs) != []
    ensures Verdict(Run(c, INITIAL, Events(c, NO_PAYLOAD, map[], IsoRecords(us))), urbs) == Frames(Expected(c, fs))
  {
    hide Run, AllEmptyFailed, ValidStream, Wire, Expected, Events, NoneMissing, IsoFates, IsoPackets, AllPackets, IsoCapture, IsoRecords;
    IsoRecordEvents(c, NO_PAYLOAD, map[], us);
    IsoExactRecovery(c, us, fs);
    VerdictIsFrames(c, IsoCapture(us), urbs);
  }
}
