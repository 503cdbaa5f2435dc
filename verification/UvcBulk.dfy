/** Bulk transfers: payloads that span URBs are put together again before they reach the assembler. */
module UvcBulk {
  import opened Common
  import opened UvcAssembler
  import opened UvcRecovery

  /** A completed bulk URB: the length the device sent, and the bytes of it that are in the capture. */
  datatype Urb = Urb(length: nat, hasData: bool, data: seq<byte>)

  const MAX_PENDING: nat := 64 * 1024 * 1024

  /** The payload being put together; `cont` when the next URB continues it. */
  datatype Pending = Pending(cont: bool, bytes: seq<byte>, ts: int)

  const NO_PAYLOAD := Pending(false, [], 0)

  datatype Outcome = Outcome(pending: Pending, events: seq<Event>)

  /** Hand over every complete payload of the maximal size; `ts` is that of the URB just added. */
  function Drain(max: nat, bytes: seq<byte>, bytesTs: int, ts: int): Outcome
    decreases |bytes|
  {
    if max == 0 || |bytes| < max then Outcome(Pending(bytes != [], bytes, bytesTs), [])
    else
      var rest := Drain(max, bytes[max..], ts, ts);
      rest.(events := [Payload(bytes[..max], bytesTs)] + rest.events)
  }

  function Remainder(p: Pending): seq<Event> { if p.bytes == [] then [] else [Payload(p.bytes, p.ts)] }

  /** The URB was captured only in part. */
  predicate CutShort(u: Urb) { u.length > 0 && u.hasData && |u.data| < u.length }

  /** One completed URB; `req` is the length its submission asked for, if that was captured. */
  function FeedBulk(c: Config, p: Pending, u: Urb, req: Option<nat>, ts: int): Outcome {
    if u.length == 0 then Outcome(Pending(false, [], p.ts), if p.cont then Remainder(p) else [])
    else if !u.hasData || CutShort(u) then Outcome(Pending(false, [], p.ts), [Lost])
    else
      var start := if p.cont then p else Pending(false, [], ts);
      var bytes := start.bytes + u.data;
      if |bytes| > MAX_PENDING then Outcome(Pending(false, [], start.ts), [Oversize])
      else
        var d := Drain(c.maxPayload, bytes, start.ts, ts);
        if req == None || u.length < req.value
        then Outcome(Pending(false, [], d.pending.ts), d.events + Remainder(d.pending))
        else d
  }

  // ---- what the sender puts on the bus ---------------------------------------------------

  /** A byte and the timestamp of the URB that carried it. */
  datatype TimedByte = TimedByte(value: byte, ts: int)

  function Timed(data: seq<byte>, ts: int): seq<TimedByte> {
    seq(|data|, i requires 0 <= i < |data| => TimedByte(data[i], ts))
  }

  function Values(s: seq<TimedByte>): seq<byte> { seq(|s|, i requires 0 <= i < |s| => s[i].value) }

  /**
   * How a transfer ends: in a URB shorter than asked for, a zero-length one, one whose request was not
   * captured, or with nothing more, every payload having been of the maximal size.
   */
  datatype End =
    | Short(data: seq<byte>, req: nat, ts: int)
    | ZeroLength(known: Option<nat>, ts: int)
    | Unasked(data: seq<byte>, ts: int)
    | AllMaximal

  /** A URB filled to the requested length. */
  datatype Filled = Filled(data: seq<byte>, ts: int)

  datatype Transfer = Transfer(full: seq<Filled>, end: End)

  function EndBytes(e: End): seq<TimedByte> {
    match e
    case Short(data, _, ts) => Timed(data, ts)
    case Unasked(data, ts) => Timed(data, ts)
    case _ => []
  }

  function FilledBytes(us: seq<Filled>): seq<TimedByte> {
    if us == [] then [] else Timed(us[0].data, us[0].ts) + FilledBytes(us[1..])
  }

  function TransferBytes(t: Transfer): seq<TimedByte> { FilledBytes(t.full) + EndBytes(t.end) }

  /** A URB of `n` bytes, in a transfer of `total`, leaves the assembly below its limit. */
  predicate Fits(c: Config, n: nat, total: nat) {
    0 < n <= total && (if c.maxPayload > 0 then c.maxPayload + n <= MAX_PENDING else total <= MAX_PENDING)
  }

  predicate AllFit(c: Config, us: seq<Filled>, total: nat) {
    us != [] ==> Fits(c, |us[0].data|, total) && AllFit(c, us[1..], total)
  }

  predicate ValidTransfer(c: Config, t: Transfer) {
    var total := |TransferBytes(t)|;
    && AllFit(c, t.full, total)
    && (t.end.Short? ==> |t.end.data| < t.end.req)
    && (t.end.Short? || t.end.Unasked? ==> Fits(c, |t.end.data|, total))
    && (t.end.AllMaximal? ==> c.maxPayload > 0 && total % c.maxPayload == 0)
  }

  /** A completed URB and the request length the extractor has on record for it. */
  datatype Completion = Completion(urb: Urb, req: Option<nat>, ts: int)

  function FilledUrbs(us: seq<Filled>): seq<Completion> {
    if us == [] then []
    else [Completion(Urb(|us[0].data|, true, us[0].data), Some(|us[0].data|), us[0].ts)] + FilledUrbs(us[1..])
  }

  function EndUrbs(e: End): seq<Completion> {
    match e
    case Short(data, req, ts) => [Completion(Urb(|data|, true, data), Some(req), ts)]
    case ZeroLength(req, ts) => [Completion(Urb(0, true, []), req, ts)]
    case Unasked(data, ts) => [Completion(Urb(|data|, true, data), None, ts)]
    case AllMaximal => []
  }

  function TransferUrbs(t: Transfer): seq<Completion> { FilledUrbs(t.full) + EndUrbs(t.end) }

  function RunUrbs(c: Config, p: Pending, us: seq<Completion>): Outcome
    decreases |us|
  {
    if us == [] then Outcome(p, [])
    else
      var first := FeedBulk(c, p, us[0].urb, us[0].req, us[0].ts);
      var rest := RunUrbs(c, first.pending, us[1..]);
      rest.(events := first.events + rest.events)
  }

  lemma {:induction false} RunUrbsAppend(c: Config, p: Pending, us: seq<Completion>, vs: seq<Completion>)
    ensures var a := RunUrbs(c, p, us);
            var b := RunUrbs(c, a.pending, vs);
            RunUrbs(c, p, us + vs) == Outcome(b.pending, a.events + b.events)
    decreases |us|
  {
    hide FeedBulk;
    var b := RunUrbs(c, RunUrbs(c, p, us).pending, vs);
    if us == [] {
      assert us + vs == vs && [] + b.events == b.events;
    } else {
      assert (us + vs)[0] == us[0] && (us + vs)[1..] == us[1..] + vs;
      var first := FeedBulk(c, p, us[0].urb, us[0].req, us[0].ts);
      RunUrbsAppend(c, first.pending, us[1..], vs);
      Associative(first.events, RunUrbs(c, first.pending, us[1..]).events, b.events);
    }
  }

  // ---- cutting a stream into pieces of the maximal size -------------------------------------

  function Chunks<T>(max: nat, s: seq<T>): seq<seq<T>>
    decreases |s|
  {
    if max == 0 || |s| < max then [] else [s[..max]] + Chunks(max, s[max..])
  }

  /** What is left once the complete chunks are gone. */
  function Rest<T>(max: nat, s: seq<T>): (r: seq<T>)
    ensures |r| <= |s| && (max > 0 ==> |r| < max)
    decreases |s|
  {
    if max == 0 || |s| < max then s else Rest(max, s[max..])
  }

  /** Cutting piece by piece gives the same chunks as cutting it all at once. */
  lemma {:induction false} ChunksAppend<T>(max: nat, a: seq<T>, b: seq<T>)
    ensures Chunks(max, a + b) == Chunks(max, a) + Chunks(max, Rest(max, a) + b)
    ensures Rest(max, a + b) == Rest(max, Rest(max, a) + b)
    decreases |a|
  {
    if max == 0 || |a| < max {
      assert [] + Chunks(max, a + b) == Chunks(max, a + b);
    } else {
      assert (a + b)[..max] == a[..max] && (a + b)[max..] == a[max..] + b;
      ChunksAppend(max, a[max..], b);
      Associative([a[..max]], Chunks(max, a[max..]), Chunks(max, Rest(max, a[max..]) + b));
    }
  }

  /** A payload carries the timestamp of its first byte. */
  function AsPayload(s: seq<TimedByte>): Event { Payload(Values(s), if s == [] then 0 else s[0].ts) }

  function AsPayloads(ss: seq<seq<TimedByte>>): seq<Event> {
    if ss == [] then [] else [AsPayload(ss[0])] + AsPayloads(ss[1..])
  }

  lemma {:induction false} AsPayloadsAppend(a: seq<seq<TimedByte>>, b: seq<seq<TimedByte>>)
    ensures AsPayloads(a + b) == AsPayloads(a) + AsPayloads(b)
    decreases |a|
  {
    if a == [] {
      assert a + b == b;
    } else {
      assert (a + b)[0] == a[0] && (a + b)[1..] == a[1..] + b;
      AsPayloadsAppend(a[1..], b);
    }
  }

  /** The bytes held back are `s`. */
  ghost predicate Holds(p: Pending, s: seq<TimedByte>) {
    p.cont == (s != []) && p.bytes == Values(s) && (s != [] ==> p.ts == s[0].ts)
  }

  /** The drain loop hands over the complete chunks and holds the rest. */
  lemma {:induction false} DrainChunks(max: nat, s: seq<TimedByte>, ts: int)
    requires s != [] && (max > 0 ==> forall i :: max <= i < |s| ==> s[i].ts == ts)
    ensures var d := Drain(max, Values(s), s[0].ts, ts);
            d.events == AsPayloads(Chunks(max, s)) && Holds(d.pending, Rest(max, s))
    decreases |s|
  {
    if max != 0 && |s| >= max {
      assert Values(s)[..max] == Values(s[..max]) && Values(s)[max..] == Values(s[max..]);
      if |s| > max {
        DrainChunks(max, s[max..], ts);
      }
    }
  }

  // ---- one transfer ----------------------------------------------------------------------

  lemma AddData(max: nat, p: Pending, held: seq<TimedByte>, data: seq<byte>, ts: int)
    requires Holds(p, held) && data != [] && (max > 0 ==> |held| < max)
    ensures var all := held + Timed(data, ts);
            && all != [] && Values(all) == p.bytes + data
            && all[0].ts == (if p.cont then p.ts else ts)
            && (max > 0 ==> forall i :: max <= i < |all| ==> all[i].ts == ts)
  {
  }

  /** A URB with data adds its bytes; what is complete goes out and, when it ends the transfer, the rest too. */
  lemma {:induction false} DataUrb(c: Config, p: Pending, held: seq<TimedByte>, data: seq<byte>, req: Option<nat>, ts: int, total: nat)
    requires Holds(p, held) && held == Rest(c.maxPayload, held)
    requires Fits(c, |data|, total) && |held| + |data| <= total
    requires req.None? || |data| <= req.value
    ensures var r := FeedBulk(c, p, Urb(|data|, true, data), req, ts);
            var all := held + Timed(data, ts);
            var rest := Rest(c.maxPayload, all);
            var ends := req.None? || |data| < req.value;
            && r.events == AsPayloads(Chunks(c.maxPayload, all)) + (if ends && rest != [] then [AsPayload(rest)] else [])
            && Holds(r.pending, if ends then [] else rest)
  {
    hide Drain, Chunks, AsPayloads, Timed, Rest;
    var all := held + Timed(data, ts);
    AddData(c.maxPayload, p, held, data, ts);
    DrainChunks(c.maxPayload, all, ts);
    var d := Drain(c.maxPayload, Values(all), all[0].ts, ts);
    var bytes := p.bytes + data;
    assert |p.bytes| == |held|;
    assert |bytes| <= MAX_PENDING;
    assert !p.cont ==> bytes == [] + data;
    var r := FeedBulk(c, p, Urb(|data|, true, data), req, ts);
    if req.None? || |data| < req.value {
      assert r.events == d.events + Remainder(d.pending);
    } else {
      assert r == d;
      assert d.events + [] == d.events;
    }
  }

  lemma {:induction false} RestIsShort<T>(max: nat, s: seq<T>)
    ensures Rest(max, Rest(max, s)) == Rest(max, s)
  {
    assert max > 0 ==> |Rest(max, s)| < max;
  }

  lemma {:induction false} RunFilledUrbs(c: Config, p: Pending, held: seq<TimedByte>, us: seq<Filled>, total: nat)
    requires Holds(p, held) && held == Rest(c.maxPayload, held)
    requires AllFit(c, us, total) && |held| + |FilledBytes(us)| <= total
    ensures var r := RunUrbs(c, p, FilledUrbs(us));
            var all := held + FilledBytes(us);
            && r.events == AsPayloads(Chunks(c.maxPayload, all))
            && Holds(r.pending, Rest(c.maxPayload, all))
    decreases |us|
  {
    hide Holds, Fits, FeedBulk, Timed, Chunks, Rest;
    if us == [] {
      assert held + [] == held;
      NoChunks(c.maxPayload, held);
      assert AsPayloads([]) == [];
    } else {
      hide AsPayloads, RunUrbs, FilledUrbs;
      var max, u := c.maxPayload, us[0];
      var one := held + Timed(u.data, u.ts);
      TimedLength(u.data, u.ts);
      DataUrb(c, p, held, u.data, Some(|u.data|), u.ts, total);
      RestIsShort(max, one);
      var first := FeedBulk(c, p, Urb(|u.data|, true, u.data), Some(|u.data|), u.ts);
      assert |Rest(max, one)| <= |one|;
      RunFilledUrbs(c, first.pending, Rest(max, one), us[1..], total);
      OneFilled(c, p, held, us);
    }
  }

  /** The first URB of several, and the chunks it completes, before the others and theirs. */
  lemma {:induction false} OneFilled(c: Config, p: Pending, held: seq<TimedByte>, us: seq<Filled>)
    requires us != []
    ensures var u, max := us[0], c.maxPayload;
            var one, more := held + Timed(u.data, u.ts), FilledBytes(us[1..]);
            var first := FeedBulk(c, p, Urb(|u.data|, true, u.data), Some(|u.data|), u.ts);
            var rest := RunUrbs(c, first.pending, FilledUrbs(us[1..]));
            && RunUrbs(c, p, FilledUrbs(us)) == rest.(events := first.events + rest.events)
            && AsPayloads(Chunks(max, held + FilledBytes(us)))
               == AsPayloads(Chunks(max, one)) + AsPayloads(Chunks(max, Rest(max, one) + more))
            && Rest(max, held + FilledBytes(us)) == Rest(max, Rest(max, one) + more)
  {
    hide FeedBulk, Timed, Chunks, Rest, AsPayloads;
    var u, max := us[0], c.maxPayload;
    var one, more := held + Timed(u.data, u.ts), FilledBytes(us[1..]);
    ChunksAppend(max, one, more);
    AsPayloadsAppend(Chunks(max, one), Chunks(max, Rest(max, one) + more));
    Associative(held, Timed(u.data, u.ts), more);
    assert FilledUrbs(us)[1..] == FilledUrbs(us[1..]);
  }

  lemma TimedLength(data: seq<byte>, ts: int)
    ensures |Timed(data, ts)| == |data|
  {
  }

  lemma {:induction false} NoChunks<T>(max: nat, s: seq<T>)
    requires Rest(max, s) == s
    ensures Chunks(max, s) == []
  {
  }

  /** The payloads of a transfer: cut to the maximal size, the last one ended by the end of the transfer. */
  function TransferPayloads(max: nat, s: seq<TimedByte>): seq<seq<TimedByte>> {
    Chunks(max, s) + (if Rest(max, s) == [] then [] else [Rest(max, s)])
  }

  lemma {:induction false} OneTransfer(c: Config, p: Pending, t: Transfer)
    requires ValidTransfer(c, t) && Holds(p, [])
    ensures var r := RunUrbs(c, p, TransferUrbs(t));
            && r.events == AsPayloads(TransferPayloads(c.maxPayload, TransferBytes(t)))
            && Holds(r.pending, [])
  {
    hide Chunks, Rest, Drain, AllFit, RunUrbs, FilledBytes, FilledUrbs, Timed;
    var max, total := c.maxPayload, |TransferBytes(t)|;
    var full, end := FilledBytes(t.full), EndBytes(t.end);
    RestOfNothing<TimedByte>(max);
    assert [] + full == full;
    RunFilledUrbs(c, p, [], t.full, total);
    RestIsShort(max, full);
    var a := RunUrbs(c, p, FilledUrbs(t.full));
    ChunksAppend(max, full, end);
    var held := Rest(max, full);
    assert |held| <= |full|;
    if t.end.Short? || t.end.Unasked? {
      TimedLength(t.end.data, t.end.ts);
    }
    if t.end.AllMaximal? {
      assert full + end == full;
      RestOfMultiple(max, full);
    }
    AsPayloadsAppend(Chunks(max, full), Chunks(max, held + end));
    var last := if Rest(max, held + end) == [] then [] else [Rest(max, held + end)];
    AsPayloadsAppend(Chunks(max, full + end), last);
    OneEnd(c, a.pending, held, t.end, total);
    RunUrbsAppend(c, p, FilledUrbs(t.full), EndUrbs(t.end));
    Associative(AsPayloads(Chunks(max, full)), AsPayloads(Chunks(max, held + end)), AsPayloads(last));
  }

  lemma {:induction false} OneEnd(c: Config, p: Pending, held: seq<TimedByte>, e: End, total: nat)
    requires Holds(p, held) && held == Rest(c.maxPayload, held)
    requires e.Short? ==> |e.data| < e.req
    requires e.Short? || e.Unasked? ==> Fits(c, |e.data|, total) && |held| + |e.data| <= total
    requires e.AllMaximal? ==> held == []
    ensures var r := RunUrbs(c, p, EndUrbs(e));
            var rest := Rest(c.maxPayload, held + EndBytes(e));
            && r.events == AsPayloads(Chunks(c.maxPayload, held + EndBytes(e)))
                           + AsPayloads(if rest == [] then [] else [rest])
            && Holds(r.pending, [])
  {
    hide Drain, AllFit, Chunks, Rest, RunUrbs;
    var rest := Rest(c.maxPayload, held + EndBytes(e));
    assert rest != [] ==> AsPayloads([rest]) == [AsPayload(rest)] by {
      assert [rest][1..] == [];
    }
    match e {
      case Short(data, req, ts) =>
        RunOneUrb(c, p, Completion(Urb(|data|, true, data), Some(req), ts));
        DataUrb(c, p, held, data, Some(req), ts, total);
      case Unasked(data, ts) =>
        RunOneUrb(c, p, Completion(Urb(|data|, true, data), None, ts));
        DataUrb(c, p, held, data, None, ts, total);
      case ZeroLength(req, ts) =>
        RunOneUrb(c, p, Completion(Urb(0, true, []), req, ts));
        assert held + [] == held;
        NoChunks(c.maxPayload, held);
      case AllMaximal =>
        assert held + [] == held;
        NoChunks(c.maxPayload, held);
        RunNoUrbs(c, p);
    }
  }

  lemma {:induction false} RunNoUrbs(c: Config, p: Pending)
    ensures RunUrbs(c, p, []) == Outcome(p, [])
  {
  }

  lemma AtLeastOnce(max: nat, k: int)
    requires k >= 1
    ensures max * k >= max
  {
  }

  /** A quotient and a remainder are determined by their sum. */
  lemma SameRemainder(max: nat, q: int, r: int, p: int, t: int)
    requires 0 <= r < max && 0 <= t < max && max * q + r == max * p + t
    ensures r == t
  {
    if q > p { AtLeastOnce(max, q - p); }
    if p > q { AtLeastOnce(max, p - q); }
    assert max * (q - p) == t - r && max * (p - q) == r - t;
  }

  lemma OneLess(n: nat, max: nat)
    requires 0 < max <= n
    ensures (n - max) % max == n % max
  {
    var q, p := n / max, (n - max) / max;
    assert max * (q - 1) == max * q - max;
    SameRemainder(max, q - 1, n % max, p, (n - max) % max);
  }

  /** Nothing is left over exactly when the pieces are all of the maximal size. */
  lemma {:induction false} RestOfMultiple<T>(max: nat, s: seq<T>)
    requires max > 0
    ensures |Rest(max, s)| == |s| % max
    decreases |s|
  {
    if |s| >= max {
      RestOfMultiple(max, s[max..]);
      OneLess(|s|, max);
    } else {
      SameRemainder(max, 0, |s|, |s| / max, |s| % max);
    }
  }

  lemma {:induction false} RestOfNothing<T>(max: nat)
    ensures Rest<T>(max, []) == [] && Chunks<T>(max, []) == []
  {
  }

  lemma {:induction false} RunOneUrb(c: Config, p: Pending, u: Completion)
    ensures RunUrbs(c, p, [u]) == FeedBulk(c, p, u.urb, u.req, u.ts)
  {
    hide FeedBulk;
    var r := FeedBulk(c, p, u.urb, u.req, u.ts);
    assert [u][1..] == [];
    assert r.events + [] == r.events;
  }

  // ---- whole captures ----------------------------------------------------------------------

  /** Payloads as a sender divides a transfer: all of the maximal size but the last. */
  ghost predicate Sized<T>(max: nat, ps: seq<seq<T>>) {
    ps != [] ==>
      && ps[0] != []
      && (if |ps| == 1 then max == 0 || |ps[0]| <= max else 0 < max == |ps[0]|)
      && Sized(max, ps[1..])
  }

  /** Such a division is found again from the bytes alone. */
  lemma {:induction false} ChunksOfSized<T>(max: nat, ps: seq<seq<T>>)
    requires Sized(max, ps)
    ensures var s := Flatten(ps);
            Chunks(max, s) + (if Rest(max, s) == [] then [] else [Rest(max, s)]) == ps
    decreases |ps|
  {
    if ps != [] {
      var s, more := Flatten(ps), Flatten(ps[1..]);
      ChunksOfSized(max, ps[1..]);
      if |ps| == 1 {
        assert ps[1..] == [] && s == ps[0] + [] == ps[0];
        if |ps[0]| == max {
          assert s[..max] == s && s[max..] == [];
        }
      } else {
        assert s[..max] == ps[0] && s[max..] == more;
        Associative([ps[0]], Chunks(max, more), if Rest(max, more) == [] then [] else [Rest(max, more)]);
      }
    }
  }

  /** A transfer and the payloads it carries. */
  datatype Load = Load(transfer: Transfer, payloads: seq<seq<TimedByte>>)

  ghost predicate ValidLoads(c: Config, ls: seq<Load>) {
    ls != [] ==>
      && ValidTransfer(c, ls[0].transfer)
      && Sized(c.maxPayload, ls[0].payloads)
      && Flatten(ls[0].payloads) == TransferBytes(ls[0].transfer)
      && ValidLoads(c, ls[1..])
  }

  function LoadUrbs(ls: seq<Load>): seq<Completion> {
    if ls == [] then [] else TransferUrbs(ls[0].transfer) + LoadUrbs(ls[1..])
  }

  function LoadPayloads(ls: seq<Load>): seq<Event> {
    if ls == [] then [] else AsPayloads(ls[0].payloads) + LoadPayloads(ls[1..])
  }

  /** Whatever URBs the payloads were spread over, exactly those payloads reach the assembler. */
  lemma {:induction false} BulkTransport(c: Config, p: Pending, ls: seq<Load>)
    requires ValidLoads(c, ls) && Holds(p, [])
    ensures RunUrbs(c, p, LoadUrbs(ls)).events == LoadPayloads(ls)
    decreases |ls|
  {
    hide Holds, Sized, ValidTransfer, TransferBytes, TransferUrbs, Chunks, Rest;
    if ls != [] {
      var t := ls[0].transfer;
      OneTransfer(c, p, t);
      ChunksOfSized(c.maxPayload, ls[0].payloads);
      RunUrbsAppend(c, p, TransferUrbs(t), LoadUrbs(ls[1..]));
      BulkTransport(c, RunUrbs(c, p, TransferUrbs(t)).pending, ls[1..]);
    }
  }

  /** Exact recovery over a bulk endpoint. */
  lemma {:induction false} BulkExactRecovery(c: Config, ls: seq<Load>, fs: seq<SentFrame>)
    requires ValidLoads(c, ls) && LoadPayloads(ls) == Wire(fs)
    requires ValidStream(c, fs) && fs != [] && fs[|fs| - 1].EndsWithEof()
    ensures Run(c, INITIAL, RunUrbs(c, NO_PAYLOAD, LoadUrbs(ls)).events).out == Expected(c, fs)
  {
    hide Run, RunUrbs, ValidLoads, ValidStream, LoadUrbs, LoadPayloads, Wire, Expected;
    BulkTransport(c, NO_PAYLOAD, ls);
    ExactRecovery(c, fs);
  }
}
