/** Loss safety over a bulk endpoint, of whole captures, and exactly where it ends. */
module UvcBulkSafety {
  import opened Common
  import opened UvcAssembler
  import opened UvcRecovery
  import opened UvcLoss
  import opened UvcLossExact
  import opened UvcBulk
  import opened UvcBulkLoss

  // ---- whole captures ----------------------------------------------------------------------

  /** A transfer, what was seen of each filled URB and, if it ends in a URB with data, of that one. */
  datatype Lossy = Lossy(transfer: Transfer, seen: seq<Seen>, last: Seen)

  predicate ValidLossy(c: Config, l: Lossy) { ValidTransfer(c, l.transfer) && |l.seen| == |l.transfer.full| }

  function LossyUrbs(l: Lossy): seq<Completion>
    requires |l.seen| == |l.transfer.full|
  {
    SeenUrbs(l.transfer.full, l.seen) + SeenEnd(l.transfer.end, l.last)
  }

  function AccountOf(c: Config, l: Lossy): Account
    requires |l.seen| == |l.transfer.full|
  {
    InStep(c, [], l.transfer.full, l.seen, l.transfer.end, l.last)
  }

  function PacketsOf(c: Config, l: Lossy): seq<Packet> { AsPackets(TransferPayloads(c.maxPayload, TransferBytes(l.transfer))) }

  /** The last payload's fate, with the rest that was taken for a payload. */
  function WithRest(fates: seq<Fate>, rest: seq<TimedByte>): seq<Fate> {
    var n := |fates| - 1;
    if rest == [] || n < 0 then fates else fates[..n] + [Remains(fates[n].Missing?, Values(rest), rest[0].ts)]
  }

  function FatesOf(c: Config, l: Lossy): seq<Fate>
    requires |l.seen| == |l.transfer.full|
  {
    WithRest(AccountOf(c, l).fates, AccountOf(c, l).rest)
  }

  lemma {:induction false} DamagedLast(ps: seq<Packet>, fates: seq<Fate>)
    requires |ps| == |fates| > 0
    ensures var n := |ps| - 1; Damaged(ps, fates) == Damaged(ps[..n], fates[..n]) + Received(ps[n], fates[n])
  {
    var n := |ps| - 1;
    assert ps == ps[..n] + [ps[n]] && fates == fates[..n] + [fates[n]];
    DamagedAppend(ps[..n], fates[..n], [ps[n]], [fates[n]]);
    assert [ps[n]][1..] == [] && Damaged([], []) == [];
    assert Damaged([ps[n]], [fates[n]]) == Received(ps[n], fates[n]) + [];
  }

  lemma {:induction false} DamagedWithRest(ps: seq<Packet>, fates: seq<Fate>, rest: seq<TimedByte>)
    requires |ps| == |fates| && (rest != [] ==> EndsLost(fates))
    ensures |WithRest(fates, rest)| == |ps|
    ensures Damaged(ps, WithRest(fates, rest)) == Damaged(ps, fates) + RestEvents(rest)
  {
    hide Damaged, Values;
    if rest == [] {
      assert Damaged(ps, fates) + [] == Damaged(ps, fates);
    } else {
      var n := |ps| - 1;
      var more := WithRest(fates, rest);
      assert more[..n] == fates[..n];
      DamagedLast(ps, fates);
      DamagedLast(ps, more);
      Associative(Damaged(ps[..n], fates[..n]), Received(ps[n], fates[n]), RestEvents(rest));
      assert Received(ps[n], more[n]) == Received(ps[n], fates[n]) + [AsPayload(rest)];
    }
  }

  lemma {:induction false} TransferRuns(c: Config, p: Pending, l: Lossy) returns (body: seq<Event>)
    requires ValidLossy(c, l) && AccountOf(c, l).quiet && Holds(p, [])
    ensures var r := RunUrbs(c, p, LossyUrbs(l));
            var a := AccountOf(c, l);
            && r.events == body + RestEvents(a.rest) && Holds(r.pending, [])
            && |a.fates| == |PacketsOf(c, l)| && Padded(c, Damaged(PacketsOf(c, l), a.fates), body)
            && (a.rest != [] ==> EndsNoisy(c, body) && EndsLost(a.fates))
  {
    hide Holds, RunUrbs, SeenUrbs, SeenEnd, InStep, Damaged, Padded, AsPackets, TransferPayloads, RestEvents, EndsNoisy, EndsLost, AllFit, Chunks;
    var t, total := l.transfer, |TransferBytes(l.transfer)|;
    assert TransferBytes(t) == Coming(t.full, t.end) == [] + Coming(t.full, t.end);
    RestOfNothing<TimedByte>(c.maxPayload);
    if t.end.AllMaximal? { RestOfMultiple(c.maxPayload, TransferBytes(t)); }
    EndRoom(t.end);
    body := InStepRuns(c, p, [], t.full, l.seen, t.end, l.last, total);
    AsPacketsLength(TransferPayloads(c.maxPayload, TransferBytes(t)));
  }

  lemma EndRoom(e: End)
    ensures EndHasData(e) ==> |EndBytes(e)| == |e.data|
  {
  }

  predicate ValidCapture(c: Config, ls: seq<Lossy>) { ls != [] ==> ValidLossy(c, ls[0]) && ValidCapture(c, ls[1..]) }

  /** Nothing that was cut out of step has a header, but for the rests of transfers. */
  predicate Quiet(c: Config, ls: seq<Lossy>)
    requires ValidCapture(c, ls)
  {
    ls != [] ==> AccountOf(c, ls[0]).quiet && Quiet(c, ls[1..])
  }

  function AllUrbs(c: Config, ls: seq<Lossy>): seq<Completion>
    requires ValidCapture(c, ls)
  {
    if ls == [] then [] else LossyUrbs(ls[0]) + AllUrbs(c, ls[1..])
  }

  function BulkPackets(c: Config, ls: seq<Lossy>): seq<Packet> {
    if ls == [] then [] else PacketsOf(c, ls[0]) + BulkPackets(c, ls[1..])
  }

  function BulkFates(c: Config, ls: seq<Lossy>): seq<Fate>
    requires ValidCapture(c, ls)
  {
    if ls == [] then [] else FatesOf(c, ls[0]) + BulkFates(c, ls[1..])
  }

  lemma {:induction false} TransferFates(c: Config, p: Pending, l: Lossy)
    requires ValidLossy(c, l) && AccountOf(c, l).quiet && Holds(p, [])
    ensures var r := RunUrbs(c, p, LossyUrbs(l));
            && Padded(c, Damaged(PacketsOf(c, l), FatesOf(c, l)), r.events) && Holds(r.pending, [])
            && |FatesOf(c, l)| == |PacketsOf(c, l)|
  {
    hide Holds, RunUrbs, LossyUrbs, Damaged, Padded, PacketsOf, AccountOf, RestEvents, EndsNoisy, EndsLost, ValidTransfer, WithRest;
    var a := AccountOf(c, l);
    var body := TransferRuns(c, p, l);
    DamagedWithRest(PacketsOf(c, l), a.fates, a.rest);
    PaddedSelf(c, RestEvents(a.rest));
    PaddedAppend(c, Damaged(PacketsOf(c, l), a.fates), body, RestEvents(a.rest), RestEvents(a.rest));
  }

  lemma {:induction false} CaptureFates(c: Config, p: Pending, ls: seq<Lossy>)
    requires ValidCapture(c, ls) && Quiet(c, ls) && Holds(p, [])
    ensures var r := RunUrbs(c, p, AllUrbs(c, ls));
            && Padded(c, Damaged(BulkPackets(c, ls), BulkFates(c, ls)), r.events) && Holds(r.pending, [])
            && |BulkFates(c, ls)| == |BulkPackets(c, ls)|
    decreases |ls|
  {
    hide Holds, LossyUrbs, PacketsOf, FatesOf, AccountOf, ValidTransfer;
    if ls == [] {
      RunNoUrbs(c, p);
      PaddedSelf(c, []);
    } else {
      hide RunUrbs, Padded, Damaged;
      var a := RunUrbs(c, p, LossyUrbs(ls[0]));
      TransferFates(c, p, ls[0]);
      CaptureFates(c, a.pending, ls[1..]);
      RunUrbsAppend(c, p, LossyUrbs(ls[0]), AllUrbs(c, ls[1..]));
      DamagedAppend(PacketsOf(c, ls[0]), FatesOf(c, ls[0]), BulkPackets(c, ls[1..]), BulkFates(c, ls[1..]));
      PaddedAppend(c, Damaged(PacketsOf(c, ls[0]), FatesOf(c, ls[0])), a.events,
                   Damaged(BulkPackets(c, ls[1..]), BulkFates(c, ls[1..])), RunUrbs(c, a.pending, AllUrbs(c, ls[1..])).events);
    }
  }

  // ---- every loss is reported --------------------------------------------------------------------

  lemma {:induction false} ToldAppend(a: seq<Fate>, b: seq<Fate>, idle: bool)
    requires Told(a, idle) && Told(b, false)
    ensures Told(a + b, idle)
    decreases |a|
  {
    if a == [] {
      assert a + b == b;
      ToldMore(b, idle);
    } else {
      assert (a + b)[1..] == a[1..] + b;
      match a[0]
      case Delivered => ToldAppend(a[1..], b, false);
      case Missing => ToldAppend(a[1..], b, true);
      case Gone => ToldAppend(a[1..], b, idle);
      case Remains(_, _, _) => ToldAppend(a[1..], b, false);
    }
  }

  lemma {:induction false} DeliveredTold(n: nat)
    ensures Told(AllDelivered(n), false)
    decreases n
  {
    if n > 0 {
      DeliveredTold(n - 1);
      assert AllDelivered(n)[1..] == AllDelivered(n - 1);
    }
  }

  lemma {:induction false} GoneTold(n: nat)
    ensures Told(AllGone(n), true)
    decreases n
  {
    if n > 0 {
      GoneTold(n - 1);
      assert AllGone(n)[1..] == AllGone(n - 1);
    }
  }

  lemma {:induction false} ReportedTold(n: nat)
    ensures Told(ReportedOnce(n), false)
  {
    if n > 0 {
      GoneTold(n - 1);
      assert ReportedOnce(n)[1..] == AllGone(n - 1);
    }
  }

  lemma {:induction false} InStepTold(c: Config, held: seq<TimedByte>, us: seq<Filled>, seen: seq<Seen>, e: End, last: Seen)
    requires |us| == |seen|
    ensures Told(InStep(c, held, us, seen, e, last).fates, false)
    decreases |us|, 0
  {
    hide Told, Chunks, Rest, TransferPayloads, Timed, Spoilt, EndSpoilt, AllDelivered;
    if us == [] {
      ReportedTold(|TransferPayloads(c.maxPayload, held + EndBytes(e))|);
      DeliveredTold(|TransferPayloads(c.maxPayload, held + EndBytes(e))|);
    } else {
      var all := held + Timed(us[0].data, us[0].ts);
      if Spoilt(us[0].data, seen[0]) {
        OutOfStepTold(c, all, [], us[1..], seen[1..], e, last);
      } else {
        InStepTold(c, Rest(c.maxPayload, all), us[1..], seen[1..], e, last);
        DeliveredTold(|Chunks(c.maxPayload, all)|);
        ToldAppend(AllDelivered(|Chunks(c.maxPayload, all)|), InStep(c, Rest(c.maxPayload, all), us[1..], seen[1..], e, last).fates, false);
      }
    }
  }

  lemma {:induction false} OutOfStepTold(c: Config, gone: seq<TimedByte>, held: seq<TimedByte>, us: seq<Filled>, seen: seq<Seen>, e: End, last: Seen)
    requires |us| == |seen|
    ensures Told(OutOfStep(c, gone, held, us, seen, e, last).fates, false)
    decreases |us|, 1
  {
    hide Told, Chunks, Rest, TransferPayloads, Timed, Spoilt, EndSpoilt, ReportedOnce, NoHeader, Parses, Values;
    var max := c.maxPayload;
    if held == [] && Rest(max, gone) == [] {
      InStepTold(c, [], us, seen, e, last);
      ReportedTold(|Chunks(max, gone)|);
      ToldAppend(ReportedOnce(|Chunks(max, gone)|), InStep(c, [], us, seen, e, last).fates, false);
    } else if us == [] {
      ReportedTold(|TransferPayloads(max, gone + EndBytes(e))|);
    } else {
      var more := Timed(us[0].data, us[0].ts);
      OutOfStepTold(c, gone + more, if Spoilt(us[0].data, seen[0]) then [] else Rest(max, held + more), us[1..], seen[1..], e, last);
    }
  }

  lemma {:induction false} RestTold(fates: seq<Fate>, rest: seq<TimedByte>, idle: bool)
    requires Told(fates, idle) && (rest != [] ==> EndsLost(fates))
    ensures Told(WithRest(fates, rest), idle)
    decreases |fates|
  {
    if rest != [] {
      var more := WithRest(fates, rest);
      if |fates| == 1 {
        assert more == [Remains(fates[0].Missing?, Values(rest), rest[0].ts)] && more[1..] == [];
      } else {
        assert more[0] == fates[0] && more[1..] == WithRest(fates[1..], rest);
        assert fates[1..][|fates| - 2] == fates[|fates| - 1];
        RestTold(fates[1..], rest, if fates[0].Missing? then true else if fates[0].Gone? then idle else false);
      }
    }
  }

  lemma {:induction false} CaptureTold(c: Config, ls: seq<Lossy>)
    requires ValidCapture(c, ls) && Quiet(c, ls)
    ensures Told(BulkFates(c, ls), false)
    decreases |ls|
  {
    hide Told, InStep, WithRest, ValidTransfer, EndsLost, EndsNoisy;
    if ls == [] {
      assert Told([], false) by { DeliveredTold(0); }
    } else {
      var l := ls[0];
      CaptureTold(c, ls[1..]);
      InStepTold(c, [], l.transfer.full, l.seen, l.transfer.end, l.last);
      var body := TransferRuns(c, NO_PAYLOAD, l);
      RestTold(AccountOf(c, l).fates, AccountOf(c, l).rest, false);
      ToldAppend(FatesOf(c, l), BulkFates(c, ls[1..]), false);
    }
  }

  // ---- results ---------------------------------------------------------------------------------

  /**
   * Loss safety over a bulk endpoint: any payloads to a transfer, any URBs of any transfers missing or cut
   * short. What comes out is an in-order subsequence of the frames of which every payload from the first
   * with data on was delivered, if nothing that was cut out of step has a header, but for what is left at
   * the end of a transfer when that is an end of a payload's data and not the bare header of another frame.
   */
  lemma {:induction false} BulkLossSafety(c: Config, ls: seq<Lossy>, fs: seq<SentFrame>)
    requires !c.mjpeg && RawStream(c, fs) && AllInTime(fs) && ValidCapture(c, ls) && BulkPackets(c, ls) == AllPackets(fs)
    requires Quiet(c, ls) && AllHarmless(c, fs, BulkFates(c, ls))
    ensures var out := Run(c, INITIAL, RunUrbs(c, NO_PAYLOAD, AllUrbs(c, ls)).events).out;
            Subsequence(out, Survivors(fs, BulkFates(c, ls))) && Subsequence(out, SentFrames(fs))
  {
    hide Run, RunUrbs, RawStream, ValidCapture, BulkPackets, BulkFates, AllPackets, AllPossible, AllHarmless, AllUrbs, Padded, Damaged,
         Subsequence, SentFrames, Survivors, Told, Quiet, AllInTime;
    CaptureFates(c, NO_PAYLOAD, ls);
    CaptureTold(c, ls);
    ToldMore(BulkFates(c, ls), true);
    AllToldPossible(c, fs, BulkFates(c, ls), true);
    LossSafety(c, fs, BulkFates(c, ls), RunUrbs(c, NO_PAYLOAD, AllUrbs(c, ls)).events);
  }

  /**
   * And exactly: a capture that has been safe so far ends in a transfer that is out of step at its end.
   * Whatever intact frame comes next, only frames sent come out, in order and at their times, if and only
   * if the rest of that transfer does not open another frame: it is not the bare header of one, or the
   * assembler has met that frame before.
   */
  lemma {:induction false} BulkLossExactly(c: Config, ls: seq<Lossy>, l: Lossy, fs: seq<SentFrame>)
    requires !c.mjpeg && RawStream(c, fs) && AllInTime(fs) && fs != []
    requires ValidCapture(c, ls) && ValidLossy(c, l) && BulkPackets(c, ls) + PacketsOf(c, l) == AllPackets(fs)
    requires Quiet(c, ls) && AccountOf(c, l).quiet && AllHarmless(c, fs, BulkFates(c, ls) + AccountOf(c, l).fates)
    requires c.expected.Some? && 0 < |AccountOf(c, l).rest| <= c.expected.value
    requires forall i :: 0 <= i < |fs| ==> fs[i].Ts() != AccountOf(c, l).rest[0].ts
    ensures var es := RunUrbs(c, NO_PAYLOAD, AllUrbs(c, ls) + LossyUrbs(l)).events;
            var fid := fs[|fs| - 1].fid;
            && es != []
            && ((forall g :: NextFrame(c, fid, g) ==>
                   Subsequence(Run(c, Run(c, INITIAL, es), PacketEvents(Packets(g))).out, SentFrames(fs + [g])))
                <==> !Opens(c, Run(c, INITIAL, es[..|es| - 1]), fid, Values(AccountOf(c, l).rest)))
  {
    hide Run, RunUrbs, RawStream, ValidCapture, BulkPackets, BulkFates, AllPackets, AllPossible, AllHarmless, AllUrbs, Padded, Damaged,
         Subsequence, SentFrames, Told, Quiet, AllInTime, NextFrame, Opens, PacketEvents, Packets, AccountOf, LossyUrbs, PacketsOf,
         ValidTransfer, EndsLost;
    var a := AccountOf(c, l);
    var before := RunUrbs(c, NO_PAYLOAD, AllUrbs(c, ls));
    CaptureFates(c, NO_PAYLOAD, ls);
    var body := TransferRuns(c, before.pending, l);
    RunUrbsAppend(c, NO_PAYLOAD, AllUrbs(c, ls), LossyUrbs(l));
    var lost := before.events + body;
    Associative(before.events, body, RestEvents(a.rest));
    AppendEndsNoisy(c, before.events, body);
    var es := lost + [AsPayload(a.rest)];
    assert es[..|es| - 1] == lost;
    var fates := BulkFates(c, ls) + a.fates;
    DamagedAppend(BulkPackets(c, ls), BulkFates(c, ls), PacketsOf(c, l), a.fates);
    PaddedAppend(c, Damaged(BulkPackets(c, ls), BulkFates(c, ls)), before.events, Damaged(PacketsOf(c, l), a.fates), body);
    CaptureTold(c, ls);
    AccountTold(c, l);
    ToldAppend(BulkFates(c, ls), a.fates, false);
    ToldMore(fates, true);
    AllToldPossible(c, fs, fates, true);
    RestIsSafeExactly(c, fs, fates, lost, fs[|fs| - 1].fid, Values(a.rest), a.rest[0].ts);
  }

  lemma {:induction false} AccountTold(c: Config, l: Lossy)
    requires |l.seen| == |l.transfer.full|
    ensures Told(AccountOf(c, l).fates, false)
  {
    InStepTold(c, [], l.transfer.full, l.seen, l.transfer.end, l.last);
  }

  /** Once a URB of it is spoilt, so is all that follows. */
  predicate LosesRest(us: seq<Filled>, seen: seq<Seen>, e: End, last: Seen)
    requires |us| == |seen|
    decreases |us|
  {
    us != [] ==>
      if Spoilt(us[0].data, seen[0]) then AllSpoilt(us[1..], seen[1..]) && (EndHasData(e) ==> EndSpoilt(e, last))
      else LosesRest(us[1..], seen[1..], e, last)
  }

  predicate AllSpoilt(us: seq<Filled>, seen: seq<Seen>)
    requires |us| == |seen|
  {
    us != [] ==> Spoilt(us[0].data, seen[0]) && AllSpoilt(us[1..], seen[1..])
  }

  lemma {:induction false} LostInStep(c: Config, held: seq<TimedByte>, us: seq<Filled>, seen: seq<Seen>, e: End, last: Seen)
    requires |us| == |seen| && LosesRest(us, seen, e, last)
    ensures var a := InStep(c, held, us, seen, e, last); a.rest == [] && a.quiet
    decreases |us|, 0
  {
    hide Chunks, Rest, TransferPayloads, Timed, Spoilt, EndSpoilt;
    if us != [] {
      var all := held + Timed(us[0].data, us[0].ts);
      if Spoilt(us[0].data, seen[0]) {
        LostOutOfStep(c, all, us[1..], seen[1..], e, last);
      } else {
        LostInStep(c, Rest(c.maxPayload, all), us[1..], seen[1..], e, last);
      }
    }
  }

  lemma {:induction false} LostOutOfStep(c: Config, gone: seq<TimedByte>, us: seq<Filled>, seen: seq<Seen>, e: End, last: Seen)
    requires |us| == |seen| && AllSpoilt(us, seen) && (EndHasData(e) ==> EndSpoilt(e, last))
    ensures var a := OutOfStep(c, gone, [], us, seen, e, last); a.rest == [] && a.quiet
    decreases |us|, 1
  {
    hide Timed, Spoilt, TransferPayloads;
    if Rest(c.maxPayload, gone) == [] {
      SpoiltLoses(us, seen, e, last);
      LostInStep(c, [], us, seen, e, last);
    } else if us == [] {
      if !EndHasData(e) {
        assert [] + EndBytes(e) == [];
        RestOfNothing<TimedByte>(c.maxPayload);
      }
    } else {
      LostOutOfStep(c, gone + Timed(us[0].data, us[0].ts), us[1..], seen[1..], e, last);
    }
  }

  lemma {:induction false} SpoiltLoses(us: seq<Filled>, seen: seq<Seen>, e: End, last: Seen)
    requires |us| == |seen| && AllSpoilt(us, seen) && (EndHasData(e) ==> EndSpoilt(e, last))
    ensures LosesRest(us, seen, e, last)
  {
  }

  predicate AllLoseRest(c: Config, ls: seq<Lossy>)
    requires ValidCapture(c, ls)
  {
    ls != [] ==> LosesRest(ls[0].transfer.full, ls[0].seen, ls[0].transfer.end, ls[0].last) && AllLoseRest(c, ls[1..])
  }

  predicate NoRests(fates: seq<Fate>) { forall i :: 0 <= i < |fates| ==> !fates[i].Remains? }

  lemma {:induction false} NoRestsHarmless(c: Config, fid: nat, ps: seq<Packet>, fates: seq<Fate>)
    requires NoRests(fates)
    ensures Harmless(c, fid, ps, fates)
    decreases |ps|
  {
    if ps != [] && fates != [] { NoRestsHarmless(c, fid, ps[1..], fates[1..]); }
  }

  lemma {:induction false} NoRestsAllHarmless(c: Config, fs: seq<SentFrame>, fates: seq<Fate>)
    requires NoRests(fates)
    ensures AllHarmless(c, fs, fates)
    decreases |fs|
  {
    if fs != [] {
      var n := |Packets(fs[0])|;
      NoRestsHarmless(c, fs[0].fid, Packets(fs[0]), fates);
      if |fates| >= n { NoRestsAllHarmless(c, fs[1..], fates[n..]); }
    }
  }

  lemma {:induction false} RepeatedNoRests(n: nat)
    ensures NoRests(AllDelivered(n)) && NoRests(AllGone(n)) && NoRests(ReportedOnce(n))
    decreases n
  {
    if n > 0 { RepeatedNoRests(n - 1); }
  }

  lemma {:induction false} InStepNoRests(c: Config, held: seq<TimedByte>, us: seq<Filled>, seen: seq<Seen>, e: End, last: Seen)
    requires |us| == |seen|
    ensures NoRests(InStep(c, held, us, seen, e, last).fates)
    decreases |us|, 0
  {
    hide Chunks, Rest, TransferPayloads, Timed, Spoilt, EndSpoilt, AllDelivered, ReportedOnce;
    if us == [] {
      RepeatedNoRests(|TransferPayloads(c.maxPayload, held + EndBytes(e))|);
    } else {
      var all := held + Timed(us[0].data, us[0].ts);
      RepeatedNoRests(|Chunks(c.maxPayload, all)|);
      if Spoilt(us[0].data, seen[0]) {
        OutOfStepNoRests(c, all, [], us[1..], seen[1..], e, last);
      } else {
        InStepNoRests(c, Rest(c.maxPayload, all), us[1..], seen[1..], e, last);
      }
    }
  }

  lemma {:induction false} OutOfStepNoRests(c: Config, gone: seq<TimedByte>, held: seq<TimedByte>, us: seq<Filled>, seen: seq<Seen>, e: End, last: Seen)
    requires |us| == |seen|
    ensures NoRests(OutOfStep(c, gone, held, us, seen, e, last).fates)
    decreases |us|, 1
  {
    hide Chunks, Rest, TransferPayloads, Timed, Spoilt, EndSpoilt, ReportedOnce, NoHeader, Parses, Values;
    var max := c.maxPayload;
    if held == [] && Rest(max, gone) == [] {
      RepeatedNoRests(|Chunks(max, gone)|);
      InStepNoRests(c, [], us, seen, e, last);
    } else if us == [] {
      RepeatedNoRests(|TransferPayloads(max, gone + EndBytes(e))|);
    } else {
      var more := Timed(us[0].data, us[0].ts);
      OutOfStepNoRests(c, gone + more, if Spoilt(us[0].data, seen[0]) then [] else Rest(max, held + more), us[1..], seen[1..], e, last);
    }
  }

  lemma {:induction false} LostCapture(c: Config, ls: seq<Lossy>)
    requires ValidCapture(c, ls) && AllLoseRest(c, ls)
    ensures Quiet(c, ls) && NoRests(BulkFates(c, ls))
    decreases |ls|
  {
    hide InStep, ValidTransfer, LosesRest;
    if ls != [] {
      var l := ls[0];
      LostCapture(c, ls[1..]);
      LostInStep(c, [], l.transfer.full, l.seen, l.transfer.end, l.last);
      InStepNoRests(c, [], l.transfer.full, l.seen, l.transfer.end, l.last);
    }
  }

  /** In particular when every loss takes the rest of its transfer with it, as it does if each transfer is one URB. */
  lemma {:induction false} LosingTheRestIsSafe(c: Config, ls: seq<Lossy>, fs: seq<SentFrame>)
    requires !c.mjpeg && RawStream(c, fs) && AllInTime(fs) && ValidCapture(c, ls) && BulkPackets(c, ls) == AllPackets(fs)
    requires AllLoseRest(c, ls)
    ensures var out := Run(c, INITIAL, RunUrbs(c, NO_PAYLOAD, AllUrbs(c, ls)).events).out;
            Subsequence(out, Survivors(fs, BulkFates(c, ls))) && Subsequence(out, SentFrames(fs))
  {
    hide Run, RunUrbs, RawStream, ValidCapture, BulkPackets, BulkFates, AllPackets, AllHarmless, AllUrbs, Subsequence, SentFrames,
         Survivors, Quiet, AllInTime, AllLoseRest, NoRests;
    LostCapture(c, ls);
    NoRestsAllHarmless(c, fs, BulkFates(c, ls));
    BulkLossSafety(c, ls, fs);
  }

  // ---- a transfer that goes on after a loss ---------------------------------------------------

  const SMALL := Config(Some(3), false, true, 0)

  /** Two frames of three bytes; the last two of the first one read as a header with the next FID. */
  const FIRST := SentFrame(0, [Packet([2, 2, 7, 2, 1], 0)], [])
  const SECOND := SentFrame(1, [Packet([2, 3, 8, 8, 8], 2)], [])

  const CUT := Lossy(Transfer([Filled([2, 2, 7], 0)], Short([2, 1], 10, 1)), [NoData], Whole)
  const INTACT := Lossy(Transfer([], Short([2, 3, 8, 8, 8], 10, 2)), [], Whole)

  lemma OnePacketFrame(f: SentFrame)
    requires f.tail == [] && |f.body| == 1 && Sound(SMALL, f.fid, f.body[0].bytes) && |Data(f.body[0].bytes)| == 3
    ensures f.Image() == Data(f.body[0].bytes) && Packets(f) == f.body
    ensures RawFrame(SMALL, f) && InTime(f)
  {
    assert f.body[1..] == [] && PacketData([]) == [];
    assert PacketData(f.body) == Data(f.body[0].bytes) + [];
  }

  lemma TwoFramesAreRaw()
    ensures RawStream(SMALL, [FIRST, SECOND]) && AllInTime([FIRST, SECOND])
    ensures SentFrames([FIRST, SECOND]) == [Frame(0, [7, 2, 1]), Frame(2, [8, 8, 8])]
    ensures AllPackets([FIRST, SECOND]) == [FIRST.body[0], SECOND.body[0]]
  {
    hide SentFrame.Image, Packets, RawFrame, InTime, RawStream, AllInTime, AllPackets, SentFrames;
    assert Data([2, 2, 7, 2, 1]) == [7, 2, 1] && Data([2, 3, 8, 8, 8]) == [8, 8, 8];
    OnePacketFrame(FIRST);
    OnePacketFrame(SECOND);
    TwoSentFrames(FIRST, SECOND);
    TwoRawFrames(FIRST, SECOND);
  }

  lemma {:induction false} TwoRawFrames(f: SentFrame, g: SentFrame)
    requires RawFrame(SMALL, f) && InTime(f) && RawFrame(SMALL, g) && InTime(g) && f.fid != g.fid
    ensures RawStream(SMALL, [f, g]) && AllInTime([f, g]) && AllPackets([f, g]) == Packets(f) + Packets(g)
  {
    hide RawFrame, InTime, Packets;
    assert [f, g][1..] == [g] && [g][1..] == [];
    assert RawStream(SMALL, [g]) && AllInTime([g]);
    assert AllPackets([g]) == Packets(g) + [];
  }

  lemma {:induction false} TwoSentFrames(f: SentFrame, g: SentFrame)
    ensures SentFrames([f, g]) == [AsFrame(f), AsFrame(g)]
  {
    hide SentFrame.Image, AsFrame;
    assert [f, g][1..] == [g] && [g][1..] == [];
    assert SentFrames([g]) == [AsFrame(g)] + SentFrames([]);
    assert SentFrames([]) == [];
  }

  lemma CutIsValid()
    ensures ValidLossy(SMALL, CUT) && AccountOf(SMALL, CUT).quiet && PacketsOf(SMALL, CUT) == [FIRST.body[0]]
    ensures LossyUrbs(CUT) == [Completion(Urb(3, false, []), Some(3), 0), Completion(Urb(2, true, [2, 1]), Some(10), 1)]
  {
    assert CUT.transfer.full[1..] == [] && CUT.seen[1..] == [];
    assert FilledBytes(CUT.transfer.full) == Timed([2, 2, 7], 0) + [];
    assert FilledBytes([]) == [] && AllFit(SMALL, [], 5);
    assert |TransferBytes(CUT.transfer)| == 5 && Values(TransferBytes(CUT.transfer)) == [2, 2, 7, 2, 1];
    OnePacketTransfer(TransferBytes(CUT.transfer));
    ShortHolds(Timed([2, 2, 7], 0));
  }

  lemma {:induction false} ShortHolds(gone: seq<TimedByte>)
    requires gone != []
    ensures OutOfStep(SMALL, gone, [], [], [], Short([2, 1], 10, 1), Whole).quiet
  {
  }

  lemma OnePacketTransfer(s: seq<TimedByte>)
    requires s != []
    ensures AsPackets(TransferPayloads(0, s)) == [Packet(Values(s), s[0].ts)]
  {
    assert TransferPayloads(0, s) == [s] && [s][1..] == [];
    assert AsPackets([s]) == [Packet(Values(s), s[0].ts)] + [];
  }

  lemma IntactIsValid()
    ensures ValidLossy(SMALL, INTACT) && AccountOf(SMALL, INTACT).quiet && PacketsOf(SMALL, INTACT) == [SECOND.body[0]]
    ensures LossyUrbs(INTACT) == [Completion(Urb(5, true, [2, 3, 8, 8, 8]), Some(10), 2)]
  {
    assert FilledBytes([]) == [] && TransferBytes(INTACT.transfer) == Timed([2, 3, 8, 8, 8], 2);
    assert Values(TransferBytes(INTACT.transfer)) == [2, 3, 8, 8, 8];
    OnePacketTransfer(TransferBytes(INTACT.transfer));
  }

  lemma FirstUrbLostIsValid()
    ensures ValidCapture(SMALL, [CUT, INTACT]) && Quiet(SMALL, [CUT, INTACT])
    ensures BulkPackets(SMALL, [CUT, INTACT]) == [FIRST.body[0], SECOND.body[0]]
    ensures AllUrbs(SMALL, [CUT, INTACT]) ==
              [Completion(Urb(3, false, []), Some(3), 0), Completion(Urb(2, true, [2, 1]), Some(10), 1),
               Completion(Urb(5, true, [2, 3, 8, 8, 8]), Some(10), 2)]
  {
    hide ValidLossy, LossyUrbs, PacketsOf, AccountOf;
    CutIsValid();
    IntactIsValid();
    var ls := [CUT, INTACT];
    assert ls[1..] == [INTACT] && [INTACT][1..] == [];
    assert ValidCapture(SMALL, []) && Quiet(SMALL, []);
    assert ValidCapture(SMALL, [INTACT]) && Quiet(SMALL, [INTACT]);
    assert AllUrbs(SMALL, [INTACT]) == LossyUrbs(INTACT) + [];
    assert BulkPackets(SMALL, [INTACT]) == PacketsOf(SMALL, INTACT) + [];
  }

  /** Only the first URB is lost, and a frame comes out that was never sent: the second, at a wrong time. */
  lemma ContinuationOpensFrame()
    ensures ValidCapture(SMALL, [CUT, INTACT]) && Quiet(SMALL, [CUT, INTACT])
    ensures RawStream(SMALL, [FIRST, SECOND]) && AllInTime([FIRST, SECOND])
    ensures BulkPackets(SMALL, [CUT, INTACT]) == AllPackets([FIRST, SECOND])
    ensures var out := Run(SMALL, INITIAL, RunUrbs(SMALL, NO_PAYLOAD, AllUrbs(SMALL, [CUT, INTACT])).events).out;
            out == [Frame(1, [8, 8, 8])] && out[0] !in SentFrames([FIRST, SECOND])
  {
    hide RunUrbs, RawStream, AllInTime, ValidCapture, Quiet, AllUrbs, BulkPackets, AllPackets, SentFrames;
    TwoFramesAreRaw();
    FirstUrbLostIsValid();
    LostThenTwo();
    RunThree();
  }

  lemma ShortUrb(p: Pending, data: seq<byte>, ts: int)
    requires Holds(p, []) && 0 < |data| < 10
    ensures var r := FeedBulk(SMALL, p, Urb(|data|, true, data), Some(10), ts);
            r.events == [Payload(data, ts)] && Holds(r.pending, [])
  {
    assert [] + data == data;
    assert Drain(0, data, ts, ts) == Outcome(Pending(true, data, ts), []);
  }

  lemma LostThenTwo()
    ensures RunUrbs(SMALL, NO_PAYLOAD,
                    [Completion(Urb(3, false, []), Some(3), 0), Completion(Urb(2, true, [2, 1]), Some(10), 1),
                     Completion(Urb(5, true, [2, 3, 8, 8, 8]), Some(10), 2)]).events
         == [Lost, Payload([2, 1], 1), Payload([2, 3, 8, 8, 8], 2)]
  {
    var us := [Completion(Urb(3, false, []), Some(3), 0), Completion(Urb(2, true, [2, 1]), Some(10), 1),
               Completion(Urb(5, true, [2, 3, 8, 8, 8]), Some(10), 2)];
    assert us[1..][1..] == [us[2]] && us[2..][1..] == [];
    hide FeedBulk;
    SpoiltUrb(SMALL, NO_PAYLOAD, [2, 2, 7], Some(3), 0, NoData);
    var p := FeedBulk(SMALL, NO_PAYLOAD, us[0].urb, us[0].req, 0).pending;
    ShortUrb(p, [2, 1], 1);
    var q := FeedBulk(SMALL, p, us[1].urb, us[1].req, 1).pending;
    ShortUrb(q, [2, 3, 8, 8, 8], 2);
    RunOneUrb(SMALL, q, us[2]);
  }

  lemma RunThree()
    ensures Run(SMALL, INITIAL, [Lost, Payload([2, 1], 1), Payload([2, 3, 8, 8, 8], 2)]).out == [Frame(1, [8, 8, 8])]
  {
    var es := [Lost, Payload([2, 1], 1), Payload([2, 3, 8, 8, 8], 2)];
    assert es[1..][1..] == [es[2]];
    var a := Step(SMALL, INITIAL, Lost);
    assert Data([2, 1]) == [] && Data([2, 3, 8, 8, 8]) == [8, 8, 8];
    var b := Step(SMALL, a, es[1]);
    assert b.mode == Accum && b.fid == Some(1) && b.startTs == 1 && b.buf == [] && b.out == [];
    assert [] + [8, 8, 8] == [8, 8, 8];
    RunOne(SMALL, b, es[2]);
    assert Run(SMALL, INITIAL, es) == Run(SMALL, b, [es[2]]);
  }
}
