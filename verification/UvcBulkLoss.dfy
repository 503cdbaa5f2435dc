/**
 * Loss over a bulk endpoint: what the extractor makes of transfers when the capture does not have the
 * whole of some of their URBs. After a loss it cuts what follows in the transfer into payloads from the
 * next URB on, out of step with the sender until a URB begins where a payload does.
 */
module UvcBulkLoss {
  import opened Common
  import opened UvcAssembler
  import opened UvcRecovery
  import opened UvcLoss
  import opened UvcBulk

  /** What the capture has of a URB's bytes. */
  datatype Seen = Whole | NoData | CutTo(kept: nat)

  predicate Spoilt(data: seq<byte>, s: Seen) { s.NoData? || (s.CutTo? && s.kept < |data|) }

  function SeenUrb(data: seq<byte>, req: Option<nat>, ts: int, s: Seen): Completion {
    Completion(Urb(|data|, !s.NoData?, if !Spoilt(data, s) then data else if s.CutTo? then data[..s.kept] else []), req, ts)
  }

  function SeenUrbs(us: seq<Filled>, seen: seq<Seen>): seq<Completion>
    requires |us| == |seen|
  {
    if us == [] then []
    else [SeenUrb(us[0].data, Some(|us[0].data|), us[0].ts, seen[0])] + SeenUrbs(us[1..], seen[1..])
  }

  function SeenEnd(e: End, s: Seen): seq<Completion> {
    match e
    case Short(data, req, ts) => [SeenUrb(data, Some(req), ts, s)]
    case Unasked(data, ts) => [SeenUrb(data, None, ts, s)]
    case _ => EndUrbs(e)
  }

  predicate EndHasData(e: End) { e.Short? || e.Unasked? }

  predicate EndSpoilt(e: End, s: Seen) { EndHasData(e) && Spoilt(e.data, s) }

  function AsPackets(ss: seq<seq<TimedByte>>): seq<Packet> {
    if ss == [] then [] else [Packet(Values(ss[0]), if ss[0] == [] then 0 else ss[0][0].ts)] + AsPackets(ss[1..])
  }

  /** Payloads lost one after the other, and reported once. */
  function ReportedOnce(n: nat): (fates: seq<Fate>)
    ensures |fates| == n
  {
    if n == 0 then [] else [Missing] + AllGone(n - 1)
  }

  function AllGone(n: nat): (fates: seq<Fate>)
    ensures |fates| == n
  {
    if n == 0 then [] else [Gone] + AllGone(n - 1)
  }

  predicate NoHeader(c: Config, ss: seq<seq<TimedByte>>) {
    ss != [] ==> !Parses(c, Values(ss[0])) && NoHeader(c, ss[1..])
  }

  // ---- what a transfer comes to ---------------------------------------------------------------

  /**
   * What becomes of the payloads; the bytes after the last complete payload that are taken for another
   * one at the end of a transfer out of step, if they have a header; and whether nothing else that was
   * cut out of step has one, and nothing of it joins the next transfer.
   */
  datatype Account = Account(fates: seq<Fate>, rest: seq<TimedByte>, quiet: bool)

  /** In step: `held` is the beginning of a payload. */
  function InStep(c: Config, held: seq<TimedByte>, us: seq<Filled>, seen: seq<Seen>, e: End, last: Seen): Account
    requires |us| == |seen|
    decreases |us|, 0
  {
    var max := c.maxPayload;
    if us == [] then
      var n := |TransferPayloads(max, held + EndBytes(e))|;
      Account(if EndSpoilt(e, last) then ReportedOnce(n) else AllDelivered(n), [], true)
    else
      var all := held + Timed(us[0].data, us[0].ts);
      if Spoilt(us[0].data, seen[0]) then OutOfStep(c, all, [], us[1..], seen[1..], e, last)
      else
        var a := InStep(c, Rest(max, all), us[1..], seen[1..], e, last);
        a.(fates := AllDelivered(|Chunks(max, all)|) + a.fates)
  }

  /** Out of step: `gone` has gone by since the payload in which it began, `held` of it is held. */
  function OutOfStep(c: Config, gone: seq<TimedByte>, held: seq<TimedByte>, us: seq<Filled>, seen: seq<Seen>, e: End, last: Seen): Account
    requires |us| == |seen|
    decreases |us|, 1
  {
    var max := c.maxPayload;
    if held == [] && Rest(max, gone) == [] then
      var a := InStep(c, [], us, seen, e, last);
      a.(fates := ReportedOnce(|Chunks(max, gone)|) + a.fates)
    else if us == [] then
      var fates, all := ReportedOnce(|TransferPayloads(max, gone + EndBytes(e))|), held + EndBytes(e);
      if EndSpoilt(e, last) then Account(fates, [], true)
      else Account(fates, if Parses(c, Values(Rest(max, all))) then Rest(max, all) else [],
                   NoHeader(c, Chunks(max, all)) && (e.AllMaximal? ==> held == []))
    else
      var more := Timed(us[0].data, us[0].ts);
      if Spoilt(us[0].data, seen[0]) then OutOfStep(c, gone + more, [], us[1..], seen[1..], e, last)
      else
        var a := OutOfStep(c, gone + more, Rest(max, held + more), us[1..], seen[1..], e, last);
        a.(quiet := a.quiet && NoHeader(c, Chunks(max, held + more)))
  }

  // ---- fates and events -------------------------------------------------------------------

  lemma {:induction false} AsPacketsAppend(a: seq<seq<TimedByte>>, b: seq<seq<TimedByte>>)
    ensures AsPackets(a + b) == AsPackets(a) + AsPackets(b) && |AsPackets(a)| == |a|
    decreases |a|
  {
    if a == [] {
      assert a + b == b;
    } else {
      assert (a + b)[0] == a[0] && (a + b)[1..] == a[1..] + b;
      AsPacketsAppend(a[1..], b);
    }
  }

  lemma {:induction false} AsPacketsLength(a: seq<seq<TimedByte>>)
    ensures |AsPackets(a)| == |a|
    decreases |a|
  {
    if a != [] { AsPacketsLength(a[1..]); }
  }

  lemma {:induction false} DeliveredPayloads(c: Config, ss: seq<seq<TimedByte>>)
    ensures |AllDelivered(|ss|)| == |ss|
    ensures Padded(c, Damaged(AsPackets(ss), AllDelivered(|ss|)), AsPayloads(ss))
  {
    AsPacketsLength(ss);
    DeliveredEvents(AsPackets(ss));
    PayloadsArePackets(ss);
    PaddedSelf(c, AsPayloads(ss));
  }

  lemma {:induction false} PayloadsArePackets(ss: seq<seq<TimedByte>>)
    ensures PacketEvents(AsPackets(ss)) == AsPayloads(ss)
    decreases |ss|
  {
    hide Values;
    if ss != [] {
      PayloadsArePackets(ss[1..]);
      assert AsPackets(ss)[1..] == AsPackets(ss[1..]);
    }
  }

  lemma {:induction false} GoneEvents(ps: seq<Packet>)
    ensures Damaged(ps, AllGone(|ps|)) == []
    decreases |ps|
  {
    if ps != [] {
      GoneEvents(ps[1..]);
      assert AllGone(|ps|)[1..] == AllGone(|ps[1..]|);
    }
  }

  lemma {:induction false} ReportedEvents(ps: seq<Packet>)
    requires ps != []
    ensures Damaged(ps, ReportedOnce(|ps|)) == [Lost]
  {
    GoneEvents(ps[1..]);
    assert ReportedOnce(|ps|)[1..] == AllGone(|ps[1..]|);
  }

  predicate AllNoise(c: Config, es: seq<Event>) { forall i :: 0 <= i < |es| ==> Noise(c, es[i]) }

  lemma {:induction false} NoHeaderIsNoise(c: Config, ss: seq<seq<TimedByte>>)
    requires NoHeader(c, ss)
    ensures AllNoise(c, AsPayloads(ss))
    decreases |ss|
  {
    hide Parses, Values;
    if ss != [] { NoHeaderIsNoise(c, ss[1..]); }
  }

  lemma {:induction false} PaddedNoises(c: Config, ds: seq<Event>, ns: seq<Event>, es: seq<Event>)
    requires Padded(c, ds, es) && AllNoise(c, ns)
    ensures Padded(c, ds, ns + es)
    decreases |ns|
  {
    hide Noise;
    if ns == [] {
      assert ns + es == es;
    } else {
      PaddedNoises(c, ds, ns[1..], es);
      PaddedNoise(c, ds, ns[0], ns[1..] + es);
      assert ns + es == [ns[0]] + (ns[1..] + es);
    }
  }

  /** Noise after a loss. */
  lemma {:induction false} PaddedAfterLost(c: Config, ds: seq<Event>, ns: seq<Event>, es: seq<Event>)
    requires Padded(c, ds, [Lost] + es) && AllNoise(c, ns)
    ensures Padded(c, ds, [Lost] + (ns + es))
  {
    assert ([Lost] + es)[1..] == es;
    if ds != [] && ds[0] == Lost && Padded(c, ds[1..], es) {
      PaddedNoises(c, ds[1..], ns, es);
      PaddedCons(c, Lost, ds[1..], ns + es);
      assert ds == [Lost] + ds[1..];
    } else {
      PaddedNoises(c, ds, ns, es);
      PaddedNoise(c, ds, Lost, ns + es);
    }
  }

  predicate EndsLost(fates: seq<Fate>) { fates != [] && (fates[|fates| - 1].Missing? || fates[|fates| - 1].Gone?) }

  lemma {:induction false} AppendEndsNoisy(c: Config, x: seq<Event>, y: seq<Event>)
    requires EndsNoisy(c, y)
    ensures EndsNoisy(c, x + y)
  {
  }

  lemma AppendEndsLost(x: seq<Fate>, y: seq<Fate>)
    requires EndsLost(y)
    ensures EndsLost(x + y)
  {
  }

  lemma {:induction false} GoneEndsLost(n: nat)
    requires n > 0
    ensures EndsLost(AllGone(n))
  {
    if n > 1 { GoneEndsLost(n - 1); }
  }

  lemma {:induction false} ReportedEndsLost(n: nat)
    requires n > 0
    ensures EndsLost(ReportedOnce(n))
  {
    if n > 1 { GoneEndsLost(n - 1); }
  }

  function RestEvents(rest: seq<TimedByte>): seq<Event> { if rest == [] then [] else [AsPayload(rest)] }

  // ---- one transfer ------------------------------------------------------------------------

  lemma SpoiltUrb(c: Config, p: Pending, data: seq<byte>, req: Option<nat>, ts: int, s: Seen)
    requires data != [] && Spoilt(data, s)
    ensures var u := SeenUrb(data, req, ts, s);
            var r := FeedBulk(c, p, u.urb, u.req, u.ts);
            r.events == [Lost] && Holds(r.pending, [])
  {
  }

  lemma {:induction false} PayloadsAppend(max: nat, a: seq<TimedByte>, b: seq<TimedByte>)
    ensures TransferPayloads(max, a + b) == Chunks(max, a) + TransferPayloads(max, Rest(max, a) + b)
  {
    hide Chunks, Rest;
    ChunksAppend(max, a, b);
    var last := if Rest(max, a + b) == [] then [] else [Rest(max, a + b)];
    Associative(Chunks(max, a), Chunks(max, Rest(max, a) + b), last);
  }

  lemma {:induction false} SomePayload(max: nat, s: seq<TimedByte>)
    requires s != []
    ensures TransferPayloads(max, s) != []
    ensures Rest(max, s) == [] ==> Chunks(max, s) != []
  {
  }

  /** The end of a transfer may be taken as the end of what is held. */
  predicate EndFits(c: Config, e: End, room: int, total: nat) {
    && (e.Short? ==> |e.data| < e.req)
    && (EndHasData(e) ==> Fits(c, |e.data|, total) && |e.data| <= room)
  }

  lemma {:induction false} SpoiltEnd(c: Config, p: Pending, e: End, s: Seen, room: int, total: nat)
    requires EndFits(c, e, room, total) && EndSpoilt(e, s)
    ensures var r := RunUrbs(c, p, SeenEnd(e, s)); r.events == [Lost] && Holds(r.pending, [])
    ensures EndBytes(e) != []
  {
    hide RunUrbs, SeenUrb, Holds, FeedBulk;
    match e {
      case Short(data, req, ts) =>
        SpoiltUrb(c, p, data, Some(req), ts, s);
        RunOneUrb(c, p, SeenUrb(data, Some(req), ts, s));
      case Unasked(data, ts) =>
        SpoiltUrb(c, p, data, None, ts, s);
        RunOneUrb(c, p, SeenUrb(data, None, ts, s));
    }
  }

  lemma UnspoiltEnd(e: End, s: Seen)
    requires !EndSpoilt(e, s) && (EndHasData(e) ==> e.data != [])
    ensures SeenEnd(e, s) == EndUrbs(e)
  {
  }

  lemma {:induction false} WholeEnd(c: Config, p: Pending, held: seq<TimedByte>, e: End, s: Seen, total: nat)
    requires Holds(p, held) && held == Rest(c.maxPayload, held) && EndFits(c, e, total - |held|, total) && !EndSpoilt(e, s)
    requires e.AllMaximal? ==> held == []
    ensures var r := RunUrbs(c, p, SeenEnd(e, s));
            var all := held + EndBytes(e);
            && r.events == AsPayloads(Chunks(c.maxPayload, all)) + RestEvents(Rest(c.maxPayload, all))
            && r.events == AsPayloads(TransferPayloads(c.maxPayload, all))
            && Holds(r.pending, [])
  {
    hide Holds, RunUrbs, Chunks, Rest, AsPayload;
    UnspoiltEnd(e, s);
    OneEnd(c, p, held, e, total);
    var rest := Rest(c.maxPayload, held + EndBytes(e));
    assert AsPayloads(if rest == [] then [] else [rest]) == RestEvents(rest) by {
      assert [rest][1..] == [];
      assert AsPayloads([]) == [] && [AsPayload(rest)] + [] == [AsPayload(rest)];
    }
    AsPayloadsAppend(Chunks(c.maxPayload, held + EndBytes(e)), if rest == [] then [] else [rest]);
  }

  /** The first URB of several. */
  lemma {:induction false} FirstUrb(c: Config, p: Pending, us: seq<Filled>, seen: seq<Seen>, e: End, last: Seen)
    requires us != [] && |us| == |seen|
    ensures var u := SeenUrb(us[0].data, Some(|us[0].data|), us[0].ts, seen[0]);
            var first := FeedBulk(c, p, u.urb, u.req, u.ts);
            var rest := RunUrbs(c, first.pending, SeenUrbs(us[1..], seen[1..]) + SeenEnd(e, last));
            RunUrbs(c, p, SeenUrbs(us, seen) + SeenEnd(e, last)) == rest.(events := first.events + rest.events)
  {
    hide FeedBulk, SeenEnd, SeenUrb;
    var us', end := SeenUrbs(us, seen), SeenEnd(e, last);
    assert (us' + end)[0] == us'[0] && (us' + end)[1..] == SeenUrbs(us[1..], seen[1..]) + end;
  }

  lemma {:induction false} NoUrbs(seen: seq<Seen>, end: seq<Completion>)
    requires |seen| == 0
    ensures SeenUrbs([], seen) + end == end
  {
  }

  /** The bytes of the URBs to come. */
  function Coming(us: seq<Filled>, e: End): seq<TimedByte> { FilledBytes(us) + EndBytes(e) }

  predicate Ready(c: Config, held: seq<TimedByte>, us: seq<Filled>, seen: seq<Seen>, e: End, total: nat) {
    && |us| == |seen| && AllFit(c, us, total)
    && EndFits(c, e, total - |held| - |FilledBytes(us)|, total) && |held| + |FilledBytes(us)| <= total
    && held == Rest(c.maxPayload, held)
  }

  lemma {:induction false} ReadyNext(c: Config, held: seq<TimedByte>, us: seq<Filled>, seen: seq<Seen>, e: End, total: nat,
                                     next: seq<TimedByte>)
    requires us != [] && |us| == |seen| && Ready(c, held, us, seen, e, total)
    requires next == Rest(c.maxPayload, next) && |next| <= |held| + |us[0].data|
    ensures Ready(c, next, us[1..], seen[1..], e, total)
    ensures Fits(c, |us[0].data|, total) && |held| + |us[0].data| <= total && us[0].data != []
    ensures Coming(us, e) == Timed(us[0].data, us[0].ts) + Coming(us[1..], e) && |Timed(us[0].data, us[0].ts)| == |us[0].data|
  {
    hide Timed, Rest;
    TimedLength(us[0].data, us[0].ts);
    Associative(Timed(us[0].data, us[0].ts), FilledBytes(us[1..]), EndBytes(e));
  }

  /** A transfer whose end nothing marks ends where a payload does. */
  predicate EndsClean(c: Config, held: seq<TimedByte>, us: seq<Filled>, e: End) {
    e.AllMaximal? ==> c.maxPayload > 0 && Rest(c.maxPayload, held + Coming(us, e)) == []
  }

  lemma {:induction false} CleanNext(c: Config, held: seq<TimedByte>, us: seq<Filled>, e: End)
    requires us != [] && EndsClean(c, held, us, e)
    ensures EndsClean(c, Rest(c.maxPayload, held + Timed(us[0].data, us[0].ts)), us[1..], e)
    ensures EndsClean(c, held + Timed(us[0].data, us[0].ts), us[1..], e)
  {
    hide Timed, Rest, Chunks;
    var more := Timed(us[0].data, us[0].ts);
    Associative(more, FilledBytes(us[1..]), EndBytes(e));
    Associative(held, more, Coming(us[1..], e));
    ChunksAppend(c.maxPayload, held + more, Coming(us[1..], e));
  }

  lemma {:induction false} CleanRest(c: Config, gone: seq<TimedByte>, us: seq<Filled>, e: End)
    requires EndsClean(c, gone, us, e) && Rest(c.maxPayload, gone) == []
    ensures EndsClean(c, [], us, e)
  {
    hide Rest, Chunks;
    ChunksAppend(c.maxPayload, gone, Coming(us, e));
  }

  lemma {:induction false} InStepEnds(c: Config, p: Pending, held: seq<TimedByte>, us: seq<Filled>, seen: seq<Seen>, e: End, last: Seen,
                                      total: nat) returns (body: seq<Event>)
    requires us == [] && |us| == |seen| && Holds(p, held) && Ready(c, held, us, seen, e, total) && EndsClean(c, held, us, e)
    ensures var r := RunUrbs(c, p, SeenUrbs(us, seen) + SeenEnd(e, last));
            var ps := TransferPayloads(c.maxPayload, held + Coming(us, e));
            var a := InStep(c, held, us, seen, e, last);
            && r.events == body && a.rest == [] && Holds(r.pending, [])
            && |a.fates| == |ps| && Padded(c, Damaged(AsPackets(ps), a.fates), body)
  {
    hide Holds, RunUrbs, Rest, Chunks, TransferPayloads, AsPayloads, SeenEnd, Damaged, Padded, AllDelivered, ReportedOnce, EndSpoilt, AsPayload, AsPackets;
    NoUrbs(seen, SeenEnd(e, last));
    assert Coming([], e) == EndBytes(e) && held + EndBytes(e) == held + Coming(us, e);
    var all := held + EndBytes(e);
    var ps := TransferPayloads(c.maxPayload, all);
    if EndSpoilt(e, last) {
      SpoiltEnd(c, p, e, last, total - |held|, total);
      SomePayload(c.maxPayload, all);
      AsPacketsLength(ps);
      ReportedEvents(AsPackets(ps));
      body := [Lost];
      PaddedSelf(c, body);
    } else {
      if e.AllMaximal? { assert held + Coming(us, e) == held; }
      WholeEnd(c, p, held, e, last, total);
      body := AsPayloads(ps);
      DeliveredPayloads(c, ps);
    }
  }

  /** The pieces at the end of a transfer out of step: the last of them apart, if it has a header. */
  lemma {:induction false} LastPieces(c: Config, ss: seq<seq<TimedByte>>, rest: seq<TimedByte>) returns (body: seq<Event>)
    requires NoHeader(c, ss)
    ensures AsPayloads(ss) + RestEvents(rest) == body + RestEvents(if Parses(c, Values(rest)) then rest else []) && AllNoise(c, body)
  {
    hide AsPayloads, Parses, Values, RestEvents;
    NoHeaderIsNoise(c, ss);
    if Parses(c, Values(rest)) {
      body := AsPayloads(ss);
    } else {
      body := AsPayloads(ss) + RestEvents(rest);
      RestIsNoise(c, AsPayloads(ss), rest);
      assert RestEvents([]) == [] by { NoRestEvents(); }
      assert body + [] == body;
    }
  }

  lemma NoRestEvents() ensures RestEvents([]) == [] {}

  lemma {:induction false} OutOfStepEnds(c: Config, p: Pending, gone: seq<TimedByte>, held: seq<TimedByte>, us: seq<Filled>, seen: seq<Seen>,
                                         e: End, last: Seen, total: nat) returns (body: seq<Event>)
    requires us == [] && |us| == |seen| && Holds(p, held) && Ready(c, held, us, seen, e, total) && gone != []
    requires !(held == [] && Rest(c.maxPayload, gone) == [])
    requires OutOfStep(c, gone, held, us, seen, e, last).quiet
    ensures var r := RunUrbs(c, p, SeenUrbs(us, seen) + SeenEnd(e, last));
            var ps := TransferPayloads(c.maxPayload, gone + Coming(us, e));
            var a := OutOfStep(c, gone, held, us, seen, e, last);
            && r.events == body + RestEvents(a.rest) && Holds(r.pending, [])
            && |a.fates| == |ps| && Padded(c, Damaged(AsPackets(ps), a.fates), [Lost] + body)
            && EndsNoisy(c, [Lost] + body) && EndsLost(a.fates)
  {
    hide Holds, RunUrbs, Rest, Chunks, TransferPayloads, AsPayloads, SeenEnd, Damaged, Padded, ReportedOnce, EndSpoilt, AsPackets,
         NoHeader, RestEvents, Parses, EndsNoisy, EndsLost, Values, AllNoise;
    NoUrbs(seen, SeenEnd(e, last));
    assert Coming([], e) == EndBytes(e) && gone + EndBytes(e) == gone + Coming(us, e);
    var max, all := c.maxPayload, held + EndBytes(e);
    OnlyReported(max, gone + EndBytes(e));
    if EndSpoilt(e, last) {
      SpoiltEnd(c, p, e, last, total - |held|, total);
      body := [Lost];
      assert RestEvents([]) == [] by { NoRestEvents(); }
      LostIsNoise(c);
    } else {
      WholeEnd(c, p, held, e, last, total);
      body := LastPieces(c, Chunks(max, all), Rest(max, all));
    }
    NoiseOnly(c, [Lost], body);
  }

  lemma LostIsNoise(c: Config) ensures AllNoise(c, [Lost]) {}

  lemma {:induction false} OnlyReported(max: nat, s: seq<TimedByte>)
    requires s != []
    ensures var ps := TransferPayloads(max, s);
            |ps| > 0 && Damaged(AsPackets(ps), ReportedOnce(|ps|)) == [Lost] && EndsLost(ReportedOnce(|ps|))
  {
    hide TransferPayloads, ReportedOnce, EndsLost, Damaged, AsPackets;
    var ps := TransferPayloads(max, s);
    SomePayload(max, s);
    AsPacketsLength(ps);
    ReportedEvents(AsPackets(ps));
    ReportedEndsLost(|ps|);
  }

  lemma {:induction false} NoiseOnly(c: Config, ds: seq<Event>, ns: seq<Event>)
    requires ds == [Lost] && AllNoise(c, ns)
    ensures Padded(c, ds, [Lost] + ns) && EndsNoisy(c, [Lost] + ns)
  {
    PaddedSelf(c, [Lost]);
    assert [Lost] + [] == [Lost] && ns + [] == ns;
    PaddedAfterLost(c, ds, ns, []);
    if ns != [] { assert ([Lost] + ns)[|ns|] == ns[|ns| - 1]; }
  }

  lemma {:induction false} RestIsNoise(c: Config, ns: seq<Event>, rest: seq<TimedByte>)
    requires AllNoise(c, ns) && !Parses(c, Values(rest))
    ensures AllNoise(c, ns + RestEvents(rest))
  {
  }

  /** From a payload's beginning, in step. */
  lemma {:induction false} InStepRuns(c: Config, p: Pending, held: seq<TimedByte>, us: seq<Filled>, seen: seq<Seen>, e: End, last: Seen,
                                      total: nat) returns (body: seq<Event>)
    requires |us| == |seen| && Holds(p, held) && Ready(c, held, us, seen, e, total) && EndsClean(c, held, us, e)
    requires InStep(c, held, us, seen, e, last).quiet
    ensures var r := RunUrbs(c, p, SeenUrbs(us, seen) + SeenEnd(e, last));
            var ps := TransferPayloads(c.maxPayload, held + Coming(us, e));
            var a := InStep(c, held, us, seen, e, last);
            && r.events == body + RestEvents(a.rest) && Holds(r.pending, [])
            && |a.fates| == |ps| && Padded(c, Damaged(AsPackets(ps), a.fates), body)
            && (a.rest != [] ==> EndsNoisy(c, body) && EndsLost(a.fates))
    decreases |us|, 0
  {
    if us == [] {
      body := InStepEnds(c, p, held, us, seen, e, last, total);
      assert body + [] == body;
    } else {
      hide Holds, RunUrbs, SeenUrb, Rest, Chunks, TransferPayloads, AsPayloads, SeenEnd, Damaged, Padded, AllDelivered, Spoilt,
           EndsNoisy, EndsLost, FeedBulk, AsPackets, Timed, Coming, EndsClean, RestEvents, Ready, SeenUrbs;
      var max, more := c.maxPayload, Timed(us[0].data, us[0].ts);
      var all := held + more;
      var u := SeenUrb(us[0].data, Some(|us[0].data|), us[0].ts, seen[0]);
      var first := FeedBulk(c, p, u.urb, u.req, u.ts);
      FirstUrb(c, p, us, seen, e, last);
      AllRest(c, held, us, seen, e, total);
      CleanNext(c, held, us, e);
      Associative(held, more, Coming(us[1..], e));
      if Spoilt(us[0].data, seen[0]) {
        SpoiltUrb(c, p, us[0].data, Some(|us[0].data|), us[0].ts, seen[0]);
        var rest := OutOfStepRuns(c, first.pending, all, [], us[1..], seen[1..], e, last, total);
        body := [Lost] + rest;
        Associative([Lost], rest, RestEvents(OutOfStep(c, all, [], us[1..], seen[1..], e, last).rest));
      } else {
        UnspoiltIsWhole(us[0].data, Some(|us[0].data|), us[0].ts, seen[0]);
        DataUrb(c, p, held, us[0].data, Some(|us[0].data|), us[0].ts, total);
        var pieces := AsPayloads(Chunks(max, all));
        assert pieces + [] == pieces;
        var rest := InStepRuns(c, first.pending, Rest(max, all), us[1..], seen[1..], e, last, total);
        body := pieces + rest;
        var a := InStep(c, Rest(max, all), us[1..], seen[1..], e, last);
        Associative(pieces, rest, RestEvents(a.rest));
        StillInStep(c, all, us[1..], e, a.fates, rest);
        if a.rest != [] {
          AppendEndsNoisy(c, pieces, rest);
          AppendEndsLost(AllDelivered(|Chunks(max, all)|), a.fates);
        }
      }
    }
  }

  /** After a loss, out of step. */
  lemma {:induction false} OutOfStepRuns(c: Config, p: Pending, gone: seq<TimedByte>, held: seq<TimedByte>, us: seq<Filled>, seen: seq<Seen>,
                                         e: End, last: Seen, total: nat) returns (body: seq<Event>)
    requires |us| == |seen| && Holds(p, held) && Ready(c, held, us, seen, e, total) && EndsClean(c, gone, us, e) && gone != []
    requires OutOfStep(c, gone, held, us, seen, e, last).quiet
    ensures var r := RunUrbs(c, p, SeenUrbs(us, seen) + SeenEnd(e, last));
            var ps := TransferPayloads(c.maxPayload, gone + Coming(us, e));
            var a := OutOfStep(c, gone, held, us, seen, e, last);
            && r.events == body + RestEvents(a.rest) && Holds(r.pending, [])
            && |a.fates| == |ps| && Padded(c, Damaged(AsPackets(ps), a.fates), [Lost] + body)
            && (a.rest != [] ==> EndsNoisy(c, [Lost] + body) && EndsLost(a.fates))
    decreases |us|, 1
  {
    hide Holds, RunUrbs, SeenUrb, Rest, Chunks, TransferPayloads, AsPayloads, SeenEnd, Damaged, Padded, ReportedOnce, Spoilt,
         EndsNoisy, EndsLost, FeedBulk, AsPackets, Timed, Coming, EndsClean, RestEvents, Ready, SeenUrbs, NoHeader;
    var max := c.maxPayload;
    if held == [] && Rest(max, gone) == [] {
      CleanRest(c, gone, us, e);
      body := InStepRuns(c, p, [], us, seen, e, last, total);
      BackInStep(c, gone, us, e, InStep(c, [], us, seen, e, last).fates, body);
      if InStep(c, [], us, seen, e, last).rest != [] {
        AppendEndsNoisy(c, [Lost], body);
        AppendEndsLost(ReportedOnce(|Chunks(max, gone)|), InStep(c, [], us, seen, e, last).fates);
      }
    } else if us == [] {
      body := OutOfStepEnds(c, p, gone, held, us, seen, e, last, total);
    } else {
      var more := Timed(us[0].data, us[0].ts);
      var u := SeenUrb(us[0].data, Some(|us[0].data|), us[0].ts, seen[0]);
      var first := FeedBulk(c, p, u.urb, u.req, u.ts);
      FirstUrb(c, p, us, seen, e, last);
      AllRest(c, held, us, seen, e, total);
      CleanNext(c, gone, us, e);
      Associative(gone, more, Coming(us[1..], e));
      var pieces, held' := [Lost], [];
      if Spoilt(us[0].data, seen[0]) {
        SpoiltUrb(c, p, us[0].data, Some(|us[0].data|), us[0].ts, seen[0]);
      } else {
        UnspoiltIsWhole(us[0].data, Some(|us[0].data|), us[0].ts, seen[0]);
        DataUrb(c, p, held, us[0].data, Some(|us[0].data|), us[0].ts, total);
        pieces, held' := AsPayloads(Chunks(max, held + more)), Rest(max, held + more);
        assert pieces + [] == pieces;
        NoHeaderIsNoise(c, Chunks(max, held + more));
      }
      var rest := OutOfStepRuns(c, first.pending, gone + more, held', us[1..], seen[1..], e, last, total);
      body := pieces + rest;
      var a := OutOfStep(c, gone + more, held', us[1..], seen[1..], e, last);
      Associative(pieces, rest, RestEvents(a.rest));
      PaddedAfterLost(c, Damaged(AsPackets(TransferPayloads(max, gone + Coming(us, e))), a.fates), pieces, rest);
      if a.rest != [] { NoisyAfterLost(c, pieces, rest); }
    }
  }

  lemma {:induction false} NoisyAfterLost(c: Config, ns: seq<Event>, es: seq<Event>)
    requires AllNoise(c, ns) && EndsNoisy(c, [Lost] + es)
    ensures EndsNoisy(c, [Lost] + (ns + es))
  {
    var all := [Lost] + (ns + es);
    if es != [] {
      assert all[|all| - 1] == ([Lost] + es)[|es|];
    } else if ns != [] {
      assert all[|all| - 1] == ns[|ns| - 1];
    }
  }

  lemma UnspoiltIsWhole(data: seq<byte>, req: Option<nat>, ts: int, s: Seen)
    requires !Spoilt(data, s)
    ensures SeenUrb(data, req, ts, s) == Completion(Urb(|data|, true, data), req, ts)
  {
  }

  /** What is ready for the next URB once it has come, whole or not. */
  lemma {:induction false} AllRest(c: Config, held: seq<TimedByte>, us: seq<Filled>, seen: seq<Seen>, e: End, total: nat)
    requires us != [] && |us| == |seen| && Ready(c, held, us, seen, e, total)
    ensures var all := held + Timed(us[0].data, us[0].ts);
            && all != []
            && Ready(c, Rest(c.maxPayload, all), us[1..], seen[1..], e, total)
            && Ready(c, [], us[1..], seen[1..], e, total)
            && held == Rest(c.maxPayload, held)
            && Fits(c, |us[0].data|, total) && |held| + |us[0].data| <= total && us[0].data != []
            && Coming(us, e) == Timed(us[0].data, us[0].ts) + Coming(us[1..], e)
  {
    hide Timed;
    var all := held + Timed(us[0].data, us[0].ts);
    TimedLength(us[0].data, us[0].ts);
    RestIsShort(c.maxPayload, all);
    RestOfNothing<TimedByte>(c.maxPayload);
    ReadyNext(c, held, us, seen, e, total, Rest(c.maxPayload, all));
    ReadyNext(c, held, us, seen, e, total, []);
  }

  /** The payloads a URB completes in step, then those that follow. */
  lemma {:induction false} StillInStep(c: Config, all: seq<TimedByte>, us: seq<Filled>, e: End, fates: seq<Fate>, body: seq<Event>)
    requires var ps := TransferPayloads(c.maxPayload, Rest(c.maxPayload, all) + Coming(us, e));
             |fates| == |ps| && Padded(c, Damaged(AsPackets(ps), fates), body)
    ensures var ps := TransferPayloads(c.maxPayload, all + Coming(us, e));
            var more := AllDelivered(|Chunks(c.maxPayload, all)|) + fates;
            |more| == |ps| && Padded(c, Damaged(AsPackets(ps), more), AsPayloads(Chunks(c.maxPayload, all)) + body)
  {
    hide Rest, Chunks, TransferPayloads, Damaged, Padded, AllDelivered, AsPackets, AsPayloads, Coming;
    var max := c.maxPayload;
    var first, later := Chunks(max, all), TransferPayloads(max, Rest(max, all) + Coming(us, e));
    PayloadsAppend(max, all, Coming(us, e));
    DeliveredPayloads(c, first);
    AsPacketsAppend(first, later);
    AsPacketsLength(later);
    DamagedAppend(AsPackets(first), AllDelivered(|first|), AsPackets(later), fates);
    PaddedAppend(c, Damaged(AsPackets(first), AllDelivered(|first|)), AsPayloads(first), Damaged(AsPackets(later), fates), body);
  }

  /** The payloads that went by out of step, then those that follow. */
  lemma {:induction false} BackInStep(c: Config, gone: seq<TimedByte>, us: seq<Filled>, e: End, fates: seq<Fate>, body: seq<Event>)
    requires gone != [] && Rest(c.maxPayload, gone) == []
    requires var ps := TransferPayloads(c.maxPayload, [] + Coming(us, e)); |fates| == |ps| && Padded(c, Damaged(AsPackets(ps), fates), body)
    ensures var ps := TransferPayloads(c.maxPayload, gone + Coming(us, e));
            var all := ReportedOnce(|Chunks(c.maxPayload, gone)|) + fates;
            |all| == |ps| && Padded(c, Damaged(AsPackets(ps), all), [Lost] + body)
  {
    hide Rest, Chunks, TransferPayloads, Damaged, Padded, ReportedOnce, AsPackets, Coming;
    var max := c.maxPayload;
    var first, later := Chunks(max, gone), TransferPayloads(max, [] + Coming(us, e));
    PayloadsAppend(max, gone, Coming(us, e));
    SomePayload(max, gone);
    AsPacketsAppend(first, later);
    AsPacketsLength(later);
    ReportedEvents(AsPackets(first));
    DamagedAppend(AsPackets(first), ReportedOnce(|first|), AsPackets(later), fates);
    PaddedSelf(c, [Lost]);
    PaddedAppend(c, [Lost], [Lost], Damaged(AsPackets(later), fates), body);
  }
}
