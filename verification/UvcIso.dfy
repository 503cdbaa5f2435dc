/** Isochronous transfers: one payload per packet, and every missing packet is reported. */
module UvcIso {
  import opened Common
  import opened UvcAssembler
  import opened UvcRecovery
  import opened UvcLoss

  datatype IsoDesc = IsoDesc(status: int, offset: nat, length: nat)

  /** What the packets of one completed URB amount to; `data` is what the capture holds of its buffer. */
  function IsoEvents(descs: seq<IsoDesc>, data: seq<byte>, ts: int): seq<Event> {
    if descs == [] then []
    else
      var d := descs[0];
      (if d.status != 0 then [Lost]
       else if d.length == 0 then []
       else if d.offset + d.length > |data| then [Lost]
       else [Payload(data[d.offset..d.offset + d.length], ts)])
      + IsoEvents(descs[1..], data, ts)
  }

  // ---- what the host controller wrote, and what the capture kept of it ---------------------

  /** One packet slot of a URB buffer: a payload, unused space after it, and the packet's status. */
  datatype Slot = Slot(payload: seq<byte>, gap: seq<byte>, status: int)

  /** A URB of which only the first `cut` buffer bytes are in the capture. */
  datatype IsoUrb = IsoUrb(slots: seq<Slot>, cut: nat, ts: int)

  function Layout(slots: seq<Slot>, base: nat): seq<IsoDesc> {
    if slots == [] then []
    else
      var s := slots[0];
      [IsoDesc(s.status, base, |s.payload|)] + Layout(slots[1..], base + |s.payload| + |s.gap|)
  }

  function Region(slots: seq<Slot>): seq<byte> {
    if slots == [] then [] else slots[0].payload + slots[0].gap + Region(slots[1..])
  }

  function Captured(buffer: seq<byte>, cut: nat): seq<byte> { if cut < |buffer| then buffer[..cut] else buffer }

  /** The packets that carried a payload. */
  function SlotPackets(slots: seq<Slot>, ts: int): seq<Packet> {
    if slots == [] then []
    else (if slots[0].payload == [] then [] else [Packet(slots[0].payload, ts)]) + SlotPackets(slots[1..], ts)
  }

  /** A payload is missing when its packet failed or the capture was cut before its end. */
  function SlotFates(slots: seq<Slot>, base: nat, cut: nat): seq<Fate> {
    if slots == [] then []
    else
      var s := slots[0];
      (if s.payload == [] then []
       else if s.status != 0 || base + |s.payload| > cut then [Missing]
       else [Delivered])
      + SlotFates(slots[1..], base + |s.payload| + |s.gap|, cut)
  }

  /** Packets that failed and would have been empty. */
  function EmptyFailed(slots: seq<Slot>): nat {
    if slots == [] then 0
    else (if slots[0].payload == [] && slots[0].status != 0 then 1 else 0) + EmptyFailed(slots[1..])
  }

  lemma {:induction false} IsoCons(d: IsoDesc, ds: seq<IsoDesc>, data: seq<byte>, ts: int)
    ensures IsoEvents([d] + ds, data, ts) == IsoEvents([d], data, ts) + IsoEvents(ds, data, ts)
  {
    assert ([d] + ds)[1..] == ds && [d][1..] == [];
  }

  /**
   * Each payload of a URB is either handed over intact or reported lost, none goes missing silently; and
   * what is reported lost besides is one empty packet that failed, each time.
   */
  lemma {:induction false} IsoReportsLosses(c: Config, slots: seq<Slot>, before: seq<byte>, cut: nat, ts: int)
    ensures var es := IsoEvents(Layout(slots, |before|), Captured(before + Region(slots), cut), ts);
            var ps := SlotPackets(slots, ts);
            && Padded(c, Damaged(ps, SlotFates(slots, |before|, cut)), es)
            && |SlotFates(slots, |before|, cut)| == |ps|
            && |es| == |ps| + EmptyFailed(slots)
    decreases |slots|
  {
    if slots != [] {
      hide Damaged, IsoEvents, Padded;
      var s, n := slots[0], |before|;
      var past := before + s.payload + s.gap;
      var data := Captured(before + Region(slots), cut);
      var d := IsoDesc(s.status, n, |s.payload|);
      assert before + Region(slots) == past + Region(slots[1..]);
      IsoReportsLosses(c, slots[1..], past, cut, ts);
      IsoCons(d, Layout(slots[1..], |past|), data, ts);
      OneSlot(s, before, Region(slots[1..]), cut, ts);
      assert Layout(slots, n) == [d] + Layout(slots[1..], |past|);
      assert data == Captured(past + Region(slots[1..]), cut);
      var ps, fs := SlotPackets(slots[1..], ts), SlotFates(slots[1..], |past|, cut);
      var es := IsoEvents(Layout(slots[1..], |past|), data, ts);
      if s.payload != [] {
        var fate := if s.status != 0 || n + |s.payload| > cut then Missing else Delivered;
        DamagedCons(Packet(s.payload, ts), fate, ps, fs);
        assert SlotPackets(slots, ts) == [Packet(s.payload, ts)] + ps && SlotFates(slots, n, cut) == [fate] + fs;
        PaddedCons(c, Received(Packet(s.payload, ts), fate)[0], Damaged(ps, fs), es);
      } else {
        assert SlotPackets(slots, ts) == ps && SlotFates(slots, n, cut) == fs;
        if s.status != 0 {
          PaddedNoise(c, Damaged(ps, fs), Lost, es);
        } else {
          assert [] + es == es;
        }
      }
    } else {
      assert IsoEvents([], Captured(before + [], cut), ts) == [];
    }
  }

  lemma {:induction false} OneSlot(s: Slot, before: seq<byte>, after: seq<byte>, cut: nat, ts: int)
    ensures var end := |before| + |s.payload|;
            var data := Captured(before + s.payload + s.gap + after, cut);
            IsoEvents([IsoDesc(s.status, |before|, |s.payload|)], data, ts)
            == if s.payload == [] then if s.status != 0 then [Lost] else []
               else if s.status != 0 || end > cut then [Lost]
               else [Payload(s.payload, ts)]
  {
    var end := |before| + |s.payload|;
    var data := Captured(before + s.payload + s.gap + after, cut);
    var d := IsoDesc(s.status, |before|, |s.payload|);
    assert end <= cut <==> end <= |data|;
    if end <= |data| {
      var buffer := before + (s.payload + (s.gap + after));
      assert buffer == before + s.payload + s.gap + after;
      assert buffer[|before|..end] == s.payload;
      assert data == buffer[..|data|];
      assert data[|before|..end] == s.payload;
    }
    assert [d][1..] == [];
    assert IsoEvents([], data, ts) == [];
  }

  // ---- whole captures ----------------------------------------------------------------------

  function UrbEvents(u: IsoUrb): seq<Event> {
    IsoEvents(Layout(u.slots, 0), Captured(Region(u.slots), u.cut), u.ts)
  }

  function IsoCapture(us: seq<IsoUrb>): seq<Event> {
    if us == [] then [] else UrbEvents(us[0]) + IsoCapture(us[1..])
  }

  function IsoPackets(us: seq<IsoUrb>): seq<Packet> {
    if us == [] then [] else SlotPackets(us[0].slots, us[0].ts) + IsoPackets(us[1..])
  }

  function IsoFates(us: seq<IsoUrb>): seq<Fate> {
    if us == [] then [] else SlotFates(us[0].slots, 0, us[0].cut) + IsoFates(us[1..])
  }

  function AllEmptyFailed(us: seq<IsoUrb>): nat {
    if us == [] then 0 else EmptyFailed(us[0].slots) + AllEmptyFailed(us[1..])
  }

  lemma {:induction false} IsoCaptureDamaged(c: Config, us: seq<IsoUrb>)
    ensures Padded(c, Damaged(IsoPackets(us), IsoFates(us)), IsoCapture(us)) && |IsoFates(us)| == |IsoPackets(us)|
    ensures |IsoCapture(us)| == |IsoPackets(us)| + AllEmptyFailed(us)
    decreases |us|
  {
    if us != [] {
      hide Padded, Damaged;
      var u := us[0];
      IsoReportsLosses(c, u.slots, [], u.cut, u.ts);
      assert [] + Region(u.slots) == Region(u.slots);
      IsoCaptureDamaged(c, us[1..]);
      var ps, fs := SlotPackets(u.slots, u.ts), SlotFates(u.slots, 0, u.cut);
      DamagedAppend(ps, fs, IsoPackets(us[1..]), IsoFates(us[1..]));
      PaddedAppend(c, Damaged(ps, fs), UrbEvents(u), Damaged(IsoPackets(us[1..]), IsoFates(us[1..])), IsoCapture(us[1..]));
    }
  }

  lemma {:induction false} SlotFatesAreLosses(slots: seq<Slot>, base: nat, cut: nat)
    ensures OnlyLosses(SlotFates(slots, base, cut))
    decreases |slots|
  {
    if slots != [] {
      var s := slots[0];
      var rest := SlotFates(slots[1..], base + |s.payload| + |s.gap|, cut);
      SlotFatesAreLosses(slots[1..], base + |s.payload| + |s.gap|, cut);
      var head := if s.payload == [] then []
                  else if s.status != 0 || base + |s.payload| > cut then [Missing] else [Delivered];
      assert head != [] ==> head[1..] == [];
      OnlyLossesAppend(head, rest);
    }
  }

  lemma {:induction false} IsoFatesAreLosses(us: seq<IsoUrb>)
    ensures OnlyLosses(IsoFates(us))
    decreases |us|
  {
    if us != [] {
      SlotFatesAreLosses(us[0].slots, 0, us[0].cut);
      IsoFatesAreLosses(us[1..]);
      OnlyLossesAppend(SlotFates(us[0].slots, 0, us[0].cut), IsoFates(us[1..]));
    }
  }

  /**
   * Loss safety over an isochronous endpoint: packets in any layout, any of them failed, any URB cut
   * short in the capture. What comes out is an in-order subsequence of the frames whose every packet from
   * the first with data on was received.
   */
  lemma {:induction false} IsoLossSafety(c: Config, us: seq<IsoUrb>, fs: seq<SentFrame>)
    requires !c.mjpeg && RawStream(c, fs) && AllInTime(fs) && IsoPackets(us) == AllPackets(fs)
    ensures Subsequence(Run(c, INITIAL, IsoCapture(us)).out, Survivors(fs, IsoFates(us)))
    ensures Subsequence(Run(c, INITIAL, IsoCapture(us)).out, SentFrames(fs))
  {
    hide Run, RawStream, AllInTime, Subsequence, IsoPackets, IsoFates, IsoCapture, AllPackets, AllPossible,
         SentFrames, Survivors, Damaged, Padded, OnlyLosses;
    IsoCaptureDamaged(c, us);
    IsoFatesAreLosses(us);
    AllLossesArePossible(c, fs, IsoFates(us), true);
    LossSafety(c, fs, IsoFates(us), IsoCapture(us));
  }

  lemma {:induction false} PacketEventsLength(ps: seq<Packet>)
    ensures |PacketEvents(ps)| == |ps|
    decreases |ps|
  {
    if ps != [] { PacketEventsLength(ps[1..]); }
  }

  predicate NoneMissing(fates: seq<Fate>) { fates != [] ==> fates[0].Delivered? && NoneMissing(fates[1..]) }

  lemma {:induction false} UndamagedPackets(ps: seq<Packet>, fates: seq<Fate>)
    requires |fates| == |ps| && NoneMissing(fates)
    ensures Damaged(ps, fates) == PacketEvents(ps)
    decreases |ps|
  {
    if ps != [] {
      UndamagedPackets(ps[1..], fates[1..]);
    }
  }

  /** Exact recovery over an isochronous endpoint: packets in any layout, none failed, none cut. */
  lemma {:induction false} IsoExactRecovery(c: Config, us: seq<IsoUrb>, fs: seq<SentFrame>)
    requires NoneMissing(IsoFates(us)) && AllEmptyFailed(us) == 0 && IsoPackets(us) == AllPackets(fs)
    requires ValidStream(c, fs) && fs != [] && fs[|fs| - 1].EndsWithEof()
    ensures Run(c, INITIAL, IsoCapture(us)).out == Expected(c, fs)
  {
    hide Run, ValidStream, AllEmptyFailed, NoneMissing, IsoPackets, IsoFates, IsoCapture, AllPackets, Wire, Expected,
         Damaged, PacketEvents, Padded;
    IsoCaptureDamaged(c, us);
    UndamagedPackets(IsoPackets(us), IsoFates(us));
    PacketEventsLength(IsoPackets(us));
    PaddedSameLength(c, Damaged(IsoPackets(us), IsoFates(us)), IsoCapture(us));
    WireIsAllPackets(fs);
    ExactRecovery(c, fs);
  }
}
