/**
 * Encoded frames from the encoder's side (ITU-T H.264, section 7.3.1 and annex B; ITU-T H.265, section
 * 7.3.1.2): what core-driver/cam_driver/keyframe.py answers, by the types of the units in the frame.
 */
module KeyframeStreams {
  import opened Common
  import opened Keyframe

  /** A unit: its type, the rest of its header's first byte, and what follows that byte. */
  datatype Nal = Nal(kind: nat, forbidden: bool, other: nat, body: seq<byte>)

  /** H.264: nal_ref_idc before five bits of type. H.265: six bits of type before the layer's first bit. */
  predicate Coded(m: Media, n: Nal) {
    match m
    case H264 => n.kind < 32 && n.other < 4
    case H265 => n.kind < 64 && n.other < 2
    case _ => false
  }

  function Header(m: Media, n: Nal): byte
    requires Coded(m, n)
  {
    (if n.forbidden then 128 else 0) + (if m.H264? then n.other * 32 + n.kind else n.kind * 2 + n.other)
  }

  function Unit(m: Media, n: Nal): (u: seq<byte>)
    requires Coded(m, n)
    ensures u != []
  {
    [Header(m, n)] + n.body
  }

  /** IDR pictures are type 5 of H.264; the random access points of H.265 are types 16 (BLA) to 21 (CRA). */
  predicate Starts(m: Media, kind: nat) { if m.H264? then kind == 5 else 16 <= kind <= 21 }

  lemma KeyTypes(m: Media, n: Nal)
    requires Coded(m, n)
    ensures IsKey(m, Header(m, n)) <==> Starts(m, n.kind)
  {
    if m.H265? {
      assert Header(m, n) / 2 == (if n.forbidden then 64 else 0) + n.kind;
    } else {
      assert Header(m, n) == 32 * ((if n.forbidden then 4 else 0) + n.other) + n.kind;
    }
  }

  predicate AllCoded(m: Media, ns: seq<Nal>) { forall i :: 0 <= i < |ns| ==> Coded(m, ns[i]) }

  predicate SomeStarts(m: Media, ns: seq<Nal>) { exists i :: 0 <= i < |ns| && Starts(m, ns[i].kind) }

  lemma SomeStartsCons(m: Media, ns: seq<Nal>)
    requires ns != []
    ensures SomeStarts(m, ns) <==> Starts(m, ns[0].kind) || SomeStarts(m, ns[1..])
  {
    if SomeStarts(m, ns) && !Starts(m, ns[0].kind) {
      var i :| 0 <= i < |ns| && Starts(m, ns[i].kind);
      assert ns[1..][i - 1] == ns[i];
    }
    if SomeStarts(m, ns[1..]) {
      var i :| 0 <= i < |ns[1..]| && Starts(m, ns[1..][i].kind);
      assert ns[i + 1] == ns[1..][i];
    }
  }

  // ---- length prefixes -------------------------------------------------------------------------

  /** A number in n bytes, the lightest last. */
  function Prefix(n: nat, v: nat): (s: seq<byte>)
    ensures |s| == n
  {
    if n == 0 then [] else Prefix(n - 1, v / 256) + [v % 256]
  }

  function Power(n: nat): nat { if n == 0 then 1 else 256 * Power(n - 1) }

  lemma {:induction false} PrefixReads(n: nat, v: nat)
    requires v < Power(n)
    ensures Big(Prefix(n, v)) == v
  {
    if n > 0 {
      PrefixReads(n - 1, v / 256);
      var s := Prefix(n, v);
      assert s[..|s| - 1] == Prefix(n - 1, v / 256);
    }
  }

  function Prefixes(m: Media, n: nat, ns: seq<Nal>): (ps: seq<seq<byte>>)
    requires AllCoded(m, ns)
    ensures |ps| == |ns|
  {
    seq(|ns|, i requires 0 <= i < |ns| => Prefix(n, |Unit(m, ns[i])|))
  }

  function BareUnits(m: Media, ns: seq<Nal>): (us: seq<seq<byte>>)
    requires AllCoded(m, ns)
    ensures |us| == |ns|
  {
    seq(|ns|, i requires 0 <= i < |ns| => Unit(m, ns[i]))
  }

  /** The units, each behind its length. */
  function Muxed(m: Media, n: nat, ns: seq<Nal>): seq<byte>
    requires AllCoded(m, ns)
  {
    if ns == [] then [] else Prefix(n, |Unit(m, ns[0])|) + (Unit(m, ns[0]) + Muxed(m, n, ns[1..]))
  }

  lemma {:induction false} MuxedIsJoined(m: Media, n: nat, ns: seq<Nal>)
    requires AllCoded(m, ns) && forall i :: 0 <= i < |ns| ==> |Unit(m, ns[i])| < Power(n)
    ensures Muxed(m, n, ns) == Joined(Prefixes(m, n, ns), BareUnits(m, ns))
    ensures Framing(n, Prefixes(m, n, ns), BareUnits(m, ns))
    decreases |ns|
  {
    hide Prefix, Big, Unit, Power;
    if ns != [] {
      MuxedIsJoined(m, n, ns[1..]);
      PrefixReads(n, |Unit(m, ns[0])|);
      assert Prefixes(m, n, ns)[1..] == Prefixes(m, n, ns[1..]);
      assert BareUnits(m, ns)[1..] == BareUnits(m, ns[1..]);
    }
  }

  lemma {:induction false} KeyInMeansStarts(m: Media, ns: seq<Nal>)
    requires AllCoded(m, ns)
    ensures KeyIn(m, BareUnits(m, ns)) <==> SomeStarts(m, ns)
    decreases |ns|
  {
    hide IsKey, SomeStarts, Starts, Header;
    if ns == [] {
      assert !SomeStarts(m, []) by { NoneStarts(m); }
    } else {
      KeyTypes(m, ns[0]);
      SomeStartsCons(m, ns);
      assert BareUnits(m, ns)[1..] == BareUnits(m, ns[1..]);
      KeyInMeansStarts(m, ns[1..]);
    }
  }

  lemma NoneStarts(m: Media) ensures !SomeStarts(m, []) {}

  /** A length-prefixed frame is a sync point exactly if it has a unit of such a type, whatever the size of the prefixes. */
  lemma {:induction false} PrefixedFrame(m: Media, format: string, n: nat, ns: seq<Nal>)
    requires AllCoded(m, ns) && n > 0 && (forall i :: 0 <= i < |ns| ==> |Unit(m, ns[i])| < Power(n))
    requires (m.H264? || m.H265?) && (format == "avc" || format == "avc3" || format == "hvc1" || format == "hev1")
    ensures SyncPoint(m, Muxed(m, n, ns), format, n) <==> SomeStarts(m, ns)
  {
    hide Muxed, Framing, Joined, Units, Big, Power, IsKey, Starts, SomeStarts, BareUnits, Prefixes, KeyIn, Unit;
    MuxedIsJoined(m, n, ns);
    assert !Complete(n, []);
    UnitsFound(n, Prefixes(m, n, ns), BareUnits(m, ns), []);
    assert Muxed(m, n, ns) + [] == Muxed(m, n, ns);
    assert Joined(Prefixes(m, n, ns), BareUnits(m, ns)) + [] == Muxed(m, n, ns);
    KeyInExists(m, BareUnits(m, ns));
    KeyInMeansStarts(m, ns);
  }

  // ---- start codes ---------------------------------------------------------------------------

  function Zeros(n: nat): (s: seq<byte>)
    ensures |s| == n && forall i :: 0 <= i < n ==> s[i] == 0
  {
    seq(n, i => 0)
  }

  /** The units, each behind a start code of three bytes or more. */
  function Stream(m: Media, zeros: seq<nat>, ns: seq<Nal>): seq<byte>
    requires AllCoded(m, ns) && |zeros| == |ns|
    decreases |ns|
  {
    if ns == [] then [] else Zeros(zeros[0]) + [0, 0, 1] + Unit(m, ns[0]) + Stream(m, zeros[1..], ns[1..])
  }

  /** What emulation prevention and the trailing bit see to. */
  predicate Guarded(u: seq<byte>) { u != [] && u[|u| - 1] != 0 && forall i :: 0 <= i < |u| ==> !StartCode(u, i) }

  predicate KeyAfterCode(m: Media, data: seq<byte>, h: int) {
    3 <= h < |data| && StartCode(data, h - 3) && IsKey(m, data[h])
  }

  lemma CodeInFront(z: nat, rest: seq<byte>, i: nat)
    requires i < z + 3 && rest != []
    ensures StartCode(Zeros(z) + [0, 0, 1] + rest, i) <==> i == z
  {
    var data := Zeros(z) + [0, 0, 1] + rest;
    assert data[z] == 0 && data[z + 1] == 0 && data[z + 2] == 1;
  }

  ghost predicate AnyKey(m: Media, data: seq<byte>) { exists h :: KeyAfterCode(m, data, h) }

  /** The only start codes are the one in front of the first unit, and those behind it. */
  lemma CodesAre(z: nat, u: seq<byte>, rest: seq<byte>, i: nat)
    requires Guarded(u)
    ensures var data := Zeros(z) + [0, 0, 1] + u + rest;
            StartCode(data, i) <==> i == z || (i >= z + 3 + |u| && StartCode(rest, i - (z + 3 + |u|)))
  {
    var data := Zeros(z) + [0, 0, 1] + u + rest;
    var b := z + 3;
    var e := b + |u|;
    if i < b {
      CodeInFront(z, u + rest, i);
      assert data == Zeros(z) + [0, 0, 1] + (u + rest);
    } else if i + 3 <= e {
      assert !StartCode(u, i - b);
      assert data[i] == u[i - b] && data[i + 1] == u[i + 1 - b] && data[i + 2] == u[i + 2 - b];
    } else if i < e {
      assert data[e - 1] == u[|u| - 1] != 0;
    } else if i + 3 <= |data| {
      assert data[i] == rest[i - e] && data[i + 1] == rest[i + 1 - e] && data[i + 2] == rest[i + 2 - e];
    }
  }

  lemma KeyStep(m: Media, z: nat, u: seq<byte>, rest: seq<byte>)
    requires Guarded(u)
    ensures var data := Zeros(z) + [0, 0, 1] + u + rest;
            AnyKey(m, data) <==> IsKey(m, u[0]) || AnyKey(m, rest)
  {
    hide IsKey, StartCode, Guarded;
    var data := Zeros(z) + [0, 0, 1] + u + rest;
    var e := z + 3 + |u|;
    assert u != [] by { assert Guarded(u); GuardedSome(u); }
    assert data[z + 3] == u[0];
    CodesAre(z, u, rest, z);
    if IsKey(m, u[0]) { assert KeyAfterCode(m, data, z + 3); }
    forall h | KeyAfterCode(m, rest, h) ensures KeyAfterCode(m, data, h + e) {
      CodesAre(z, u, rest, h + e - 3);
      assert data[h + e] == rest[h];
    }
    forall h | KeyAfterCode(m, data, h) ensures IsKey(m, u[0]) || KeyAfterCode(m, rest, h - e) {
      CodesAre(z, u, rest, h - 3);
      if h != z + 3 {
        CodeFits(rest, h - 3 - e);
        assert data[h] == rest[h - e];
      }
    }
  }

  lemma NoKey(m: Media) ensures !AnyKey(m, []) {}

  lemma GuardedSome(u: seq<byte>) requires Guarded(u) ensures u != [] {}

  lemma CodeFits(data: seq<byte>, i: nat) requires StartCode(data, i) ensures i + 3 <= |data| {}

  lemma {:induction false} KeysInStream(m: Media, zeros: seq<nat>, ns: seq<Nal>)
    requires AllCoded(m, ns) && |zeros| == |ns| && (forall i :: 0 <= i < |ns| ==> Guarded(Unit(m, ns[i])))
    ensures AnyKey(m, Stream(m, zeros, ns)) <==> SomeStarts(m, ns)
    decreases |ns|
  {
    hide IsKey, SomeStarts, Starts, Header, StartCode, Guarded, AnyKey;
    if ns == [] {
      NoneStarts(m);
      NoKey(m);
      assert Stream(m, zeros, ns) == [];
    } else {
      KeyTypes(m, ns[0]);
      assert Unit(m, ns[0])[0] == Header(m, ns[0]);
      SomeStartsCons(m, ns);
      KeysInStream(m, zeros[1..], ns[1..]);
      var u, rest := Unit(m, ns[0]), Stream(m, zeros[1..], ns[1..]);
      KeyStep(m, zeros[0], u, rest);
      assert Stream(m, zeros, ns) == Zeros(zeros[0]) + [0, 0, 1] + u + rest;
    }
  }

  /** A frame with start codes is a sync point exactly if it has a unit of such a type. */
  lemma {:induction false} StartCodeFrame(m: Media, format: string, n: nat, zeros: seq<nat>, ns: seq<Nal>)
    requires AllCoded(m, ns) && |zeros| == |ns| && (forall i :: 0 <= i < |ns| ==> Guarded(Unit(m, ns[i])))
    requires (m.H264? || m.H265?) && format != "avc" && format != "avc3" && format != "hvc1" && format != "hev1"
    ensures SyncPoint(m, Stream(m, zeros, ns), format, n) <==> SomeStarts(m, ns)
  {
    hide Stream, IsKey, SomeStarts, Guarded, StartCode;
    KeysInStream(m, zeros, ns);
    var data := Stream(m, zeros, ns);
    assert forall h :: KeyAfterCode(m, data, h) ==> 0 <= h < |data| && h >= 3 && StartCode(data, h - 3) && IsKey(m, data[h]);
    assert forall h :: 3 <= h < |data| && StartCode(data, h - 3) && IsKey(m, data[h]) ==> KeyAfterCode(m, data, h);
  }
}
