/** What a pass over a capture reports, and which request a bulk URB answers: core-driver/cam_driver/uvcpcap.py. */
module UvcPasses {
  import opened Common
  import opened UvcAssembler
  import opened UvcRecovery
  import opened UvcBulk
  import opened UvcIso
  import opened UvcExtractor

  // ---- the error of a pass without frames --------------------------------------------------------

  predicate OnlyRequests(rs: seq<Record>) { forall i :: 0 <= i < |rs| ==> rs[i].Submitted? }

  lemma {:induction false} NothingCompleted(rs: seq<Record>)
    ensures Completed(rs) == 0 <==> OnlyRequests(rs)
    decreases |rs|
  {
    if rs != [] {
      NothingCompleted(rs[1..]);
      assert forall i :: 0 < i < |rs| ==> rs[i] == rs[1..][i - 1];
      assert OnlyRequests(rs) <==> rs[0].Submitted? && OnlyRequests(rs[1..]) by {
        if OnlyRequests(rs) { assert forall i :: 0 <= i < |rs[1..]| ==> rs[1..][i] == rs[i + 1]; }
      }
    }
  }

  lemma {:induction false} NoEvents(c: Config, p: Pending, req: map<nat, nat>, rs: seq<Record>)
    requires OnlyRequests(rs)
    ensures Events(c, p, req, rs) == []
    decreases |rs|
  {
    if rs != [] { NoEvents(c, p, req[rs[0].id := rs[0].length], rs[1..]); }
  }

  /**
   * A pass without frames says why: nothing completed on the endpoint at all, or reassembled buffers all of
   * which failed validation, or no such buffer. One with frames never fails.
   */
  lemma {:induction false} PassFailsFor(c: Config, rs: seq<Record>)
    ensures var a := Run(c, INITIAL, Events(c, NO_PAYLOAD, map[], rs));
            match Verdict(a, Completed(rs))
            case Frames(fs) => fs == a.out != [] && !OnlyRequests(rs)
            case Failed(NoData) => OnlyRequests(rs)
            case Failed(WrongSize) => a.out == [] && !OnlyRequests(rs) && a.stats.sizeDrops > 0
            case Failed(NotVideo) => a.out == [] && !OnlyRequests(rs) && a.stats.sizeDrops == 0
  {
    hide Run, Events, Completed;
    FramesCounted(c, INITIAL, Events(c, NO_PAYLOAD, map[], rs));
    NothingCompleted(rs);
    if OnlyRequests(rs) {
      NoEvents(c, NO_PAYLOAD, map[], rs);
      RunNothing(c, INITIAL);
    }
  }

  /** What is counted of an undamaged stream: its frames as valid or dropped, its keepalives, and no fault of any kind. */
  lemma {:induction false} CleanCounters(c: Config, fs: seq<SentFrame>)
    requires ValidStream(c, fs) && fs != [] && fs[|fs| - 1].EndsWithEof()
    ensures var r := Run(c, INITIAL, Wire(fs));
            && r.stats.framesOk == |r.out| && r.stats.sizeDrops == |fs| - |r.out| && r.stats.trailing == TailLengths(fs)
            && r.stats.badHeader == 0 && r.stats.errFrames == 0 && r.stats.truncated == 0
  {
    hide Run, Wire, ValidStream;
    ExactRecovery(c, fs);
  }

  // ---- requests ------------------------------------------------------------------------------

  /** The length last asked for under an id, read backwards: a URB that is captured whole or empty uses it up. */
  function OnRecord(rs: seq<Record>, id: nat): Option<nat>
    decreases |rs|
  {
    if rs == [] then None
    else
      var before := rs[..|rs| - 1];
      match rs[|rs| - 1]
      case Submitted(other, length) => if other == id then Some(length) else OnRecord(before, id)
      case IsoDone(_, _, _) => OnRecord(before, id)
      case BulkDone(other, u, _) =>
        if other == id && !(u.hasData && |u.data| < u.length) then None else OnRecord(before, id)
  }

  function Requests(req: map<nat, nat>, rs: seq<Record>): map<nat, nat>
    decreases |rs|
  {
    if rs == [] then req
    else
      match rs[0]
      case Submitted(id, length) => Requests(req[id := length], rs[1..])
      case IsoDone(_, _, _) => Requests(req, rs[1..])
      case BulkDone(id, u, _) => Requests(Consume(req, id, u), rs[1..])
  }

  lemma {:induction false} RequestsAppend(req: map<nat, nat>, a: seq<Record>, b: seq<Record>)
    ensures Requests(req, a + b) == Requests(Requests(req, a), b)
    ensures Resolve(req, a + b) == Resolve(req, a) + Resolve(Requests(req, a), b)
    decreases |a|
  {
    hide Consume, Lookup;
    if a == [] {
      assert a + b == b && [] + Resolve(req, b) == Resolve(req, b);
    } else {
      assert (a + b)[0] == a[0] && (a + b)[1..] == a[1..] + b;
      match a[0]
      case Submitted(id, length) => RequestsAppend(req[id := length], a[1..], b);
      case IsoDone(_, _, _) => RequestsAppend(req, a[1..], b);
      case BulkDone(id, u, ts) => RequestsAppend(Consume(req, id, u), a[1..], b);
    }
  }

  lemma {:induction false} OneRecord(req: map<nat, nat>, r: Record)
    ensures Requests(req, [r]) == match r {
              case Submitted(id, length) => req[id := length]
              case IsoDone(_, _, _) => req
              case BulkDone(id, u, _) => Consume(req, id, u) }
    ensures Resolve(req, [r]) == if r.BulkDone? then [Completion(r.urb, Lookup(req, r.id), r.ts)] else []
  {
    hide Consume, Lookup;
    assert [r][1..] == [];
  }

  lemma {:induction false} RequestsAre(rs: seq<Record>, id: nat)
    ensures Lookup(Requests(map[], rs), id) == OnRecord(rs, id)
    decreases |rs|
  {
    hide Requests, Resolve;
    if rs == [] {
      assert Requests(map[], rs) == map[] by { NoRequests(); }
    } else {
      var n := |rs| - 1;
      RequestsAre(rs[..n], id);
      RequestsAppend(map[], rs[..n], [rs[n]]);
      OneRecord(Requests(map[], rs[..n]), rs[n]);
      assert rs == rs[..n] + [rs[n]];
    }
  }

  lemma {:induction false} NoRequests() ensures Requests(map[], []) == map[] {}

  /**
   * Each completed URB of a capture, whatever came before it, is held against the length last asked for
   * under its id, unless a URB that was not cut short has used that up; then, and if none was captured, it
   * is taken as one without a request.
   */
  lemma {:induction false} RequestOfUrb(before: seq<Record>, id: nat, u: Urb, ts: int, after: seq<Record>)
    ensures var all := Resolve(map[], before + [BulkDone(id, u, ts)] + after);
            var k := |Resolve(map[], before)|;
            k < |all| && all[k] == Completion(u, OnRecord(before, id), ts)
  {
    hide Resolve, OnRecord, Requests;
    var r := BulkDone(id, u, ts);
    RequestsAppend(map[], before + [r], after);
    RequestsAppend(map[], before, [r]);
    OneRecord(Requests(map[], before), r);
    RequestsAre(before, id);
  }

  // ---- payloads that never end -----------------------------------------------------------------

  predicate AllPayloads(es: seq<Event>) { forall i :: 0 <= i < |es| ==> es[i].Payload? }

  lemma {:induction false} DrainsPayloads(max: nat, bytes: seq<byte>, bytesTs: int, ts: int)
    ensures AllPayloads(Drain(max, bytes, bytesTs, ts).events)
    decreases |bytes|
  {
    if max != 0 && |bytes| >= max { DrainsPayloads(max, bytes[max..], ts, ts); }
  }

  /** A payload being put together is given up exactly when a URB brings it above 64 MiB, and nothing is kept of it. */
  lemma OversizeExactly(c: Config, p: Pending, u: Urb, req: Option<nat>, ts: int)
    requires u.length > 0 && u.hasData && |u.data| >= u.length
    ensures var o := FeedBulk(c, p, u, req, ts);
            var held := if p.cont then |p.bytes| else 0;
            && (o.events == [Oversize] <==> held + |u.data| > 67_108_864)
            && (o.events == [Oversize] ==> o.pending.bytes == [] && !o.pending.cont)
            && (o.events != [Oversize] ==> AllPayloads(o.events))
  {
    hide Drain;
    DrainsPayloads(c.maxPayload, (if p.cont then p.bytes else []) + u.data, if p.cont then p.ts else ts, ts);
    if FeedBulk(c, p, u, req, ts).events == [Oversize] { assert [Oversize][0].Oversize?; }
  }
}
