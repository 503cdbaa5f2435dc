/** Where a recording of an encoded stream may start: core-driver/cam_driver/keyframe.py. */
module Keyframe {
  import opened Common

  datatype Media = Jpeg | H264 | H265 | Unknown

  /** An IDR picture of H.264, a random access point of H.265. */
  predicate IsKey(m: Media, header: byte) {
    match m
    case H264 => header % 32 == 5
    case H265 => 16 <= header / 2 % 64 <= 21
    case _ => false
  }

  // ---- Annex B of ITU-T H.264: start codes -------------------------------------------------

  predicate StartCode(data: seq<byte>, i: nat) {
    i + 3 <= |data| && data[i] == 0 && data[i + 1] == 0 && data[i + 2] == 1
  }

  /** The first start code from i on; the length of the data if there is none. */
  function Find(data: seq<byte>, i: nat): (j: nat)
    requires i <= |data|
    ensures i <= j <= |data| && (j < |data| ==> StartCode(data, j))
    ensures forall k :: i <= k < j ==> !StartCode(data, k)
    decreases |data| - i
  {
    if i == |data| || StartCode(data, i) then i else Find(data, i + 1)
  }

  /** What the scan visits, going three bytes on from every start code. */
  function Scanned(data: seq<byte>, i: nat): seq<nat>
    requires i <= |data|
    decreases |data| - i
  {
    var j := Find(data, i);
    if j == |data| then []
    else (if j + 3 < |data| then [j + 3] else []) + Scanned(data, j + 3)
  }

  /** The byte after every start code there is, one place after the other. */
  function Headers(data: seq<byte>, i: nat): seq<nat>
    decreases |data| - i
  {
    if i + 3 >= |data| then []
    else (if StartCode(data, i) then [i + 3] else []) + Headers(data, i + 1)
  }

  lemma {:induction false} HeadersSkip(data: seq<byte>, i: nat, j: nat)
    requires i <= j <= |data| && forall k :: i <= k < j ==> !StartCode(data, k)
    ensures Headers(data, i) == Headers(data, j)
    decreases j - i
  {
    if i < j && i + 3 < |data| { HeadersSkip(data, i + 1, j); }
  }

  /** The scan misses none, although it jumps: a start code never begins inside another. */
  lemma {:induction false} ScanMissesNone(data: seq<byte>, i: nat)
    requires i <= |data|
    ensures Scanned(data, i) == Headers(data, i)
    decreases |data| - i
  {
    var j := Find(data, i);
    HeadersSkip(data, i, j);
    if j < |data| {
      ScanMissesNone(data, j + 3);
      HeadersSkip(data, j + 1, j + 3);
    }
  }

  lemma {:induction false} HeadersAre(data: seq<byte>, i: nat, h: nat)
    ensures h in Headers(data, i) <==> i + 3 <= h < |data| && StartCode(data, h - 3)
    decreases |data| - i
  {
    if i + 3 < |data| { HeadersAre(data, i + 1, h); }
  }

  // ---- length-prefixed units -----------------------------------------------------------------

  function Big(s: seq<byte>): nat { if s == [] then 0 else 256 * Big(s[..|s| - 1]) + s[|s| - 1] }

  /** A complete unit at the front of the data. */
  predicate Complete(n: nat, data: seq<byte>) {
    n < |data| && Big(data[..n]) > 0 && n + Big(data[..n]) <= |data|
  }

  /** The complete units before the first bad or truncated one. */
  function Units(n: nat, data: seq<byte>): seq<seq<byte>>
    decreases |data|
  {
    if !Complete(n, data) then []
    else
      var end := n + Big(data[..n]);
      [data[n..end]] + Units(n, data[end..])
  }

  /** Length prefixes of n bytes, and the units behind them. */
  predicate Framing(n: nat, prefixes: seq<seq<byte>>, units: seq<seq<byte>>)
    decreases |units|
  {
    && |prefixes| == |units|
    && (units != [] ==> |prefixes[0]| == n && Big(prefixes[0]) == |units[0]| > 0 && Framing(n, prefixes[1..], units[1..]))
  }

  function Joined(prefixes: seq<seq<byte>>, units: seq<seq<byte>>): seq<byte>
    requires |prefixes| == |units|
    decreases |units|
  {
    if units == [] then [] else prefixes[0] + (units[0] + Joined(prefixes[1..], units[1..]))
  }

  /**
   * Whatever a muxer framed, exactly its units are found, up to a tail that does not begin with a
   * complete one.
   */
  lemma {:induction false} UnitsFound(n: nat, prefixes: seq<seq<byte>>, units: seq<seq<byte>>, tail: seq<byte>)
    requires Framing(n, prefixes, units) && !Complete(n, tail)
    ensures Units(n, Joined(prefixes, units) + tail) == units
    decreases |units|
  {
    hide Big;
    if units == [] {
      assert Joined(prefixes, units) + tail == tail;
    } else {
      var more := Joined(prefixes[1..], units[1..]) + tail;
      var data := Joined(prefixes, units) + tail;
      assert data == prefixes[0] + (units[0] + more);
      assert data[..n] == prefixes[0] && data[n..n + |units[0]|] == units[0] && data[n + |units[0]|..] == more;
      UnitsFound(n, prefixes[1..], units[1..], tail);
    }
  }

  // ---- the answer ------------------------------------------------------------------------

  predicate Prefixed(m: Media, format: string) {
    (m.H264? || m.H265?) && (format == "avc" || format == "avc3" || format == "hvc1" || format == "hev1")
  }

  /** Some unit of the data is a sync point. */
  ghost predicate HasKey(m: Media, data: seq<byte>, prefixed: bool, n: nat) {
    if prefixed then exists u :: u in Units(n, data) && u != [] && IsKey(m, u[0])
    else exists h :: 0 <= h < |data| && h >= 3 && StartCode(data, h - 3) && IsKey(m, data[h])
  }

  ghost predicate SyncPoint(m: Media, data: seq<byte>, format: string, n: nat) {
    match m
    case Jpeg => true
    case Unknown => true
    case _ => HasKey(m, data, Prefixed(m, format), n)
  }

  method ScanAnnexB(m: Media, data: seq<byte>) returns (found: bool)
    ensures found <==> HasKey(m, data, false, 0)
  {
    var i := Find(data, 0);
    ghost var from: nat := 0;
    while i < |data|
      invariant from <= i <= |data| && i == Find(data, from)
      invariant forall h :: 3 <= h < |data| && h - 3 < from && StartCode(data, h - 3) ==> !IsKey(m, data[h])
      decreases |data| - i
    {
      if i + 3 < |data| && IsKey(m, data[i + 3]) {
        assert StartCode(data, i + 3 - 3);
        return true;
      }
      from := i + 3;
      i := Find(data, i + 3);
    }
    return false;
  }

  predicate KeyIn(m: Media, units: seq<seq<byte>>)
    decreases |units|
  {
    units != [] && ((units[0] != [] && IsKey(m, units[0][0])) || KeyIn(m, units[1..]))
  }

  lemma {:induction false} KeyInExists(m: Media, units: seq<seq<byte>>)
    ensures KeyIn(m, units) <==> exists u :: u in units && u != [] && IsKey(m, u[0])
    decreases |units|
  {
    hide IsKey;
    if units != [] {
      KeyInExists(m, units[1..]);
      assert units == [units[0]] + units[1..];
    }
  }

  method ScanPrefixed(m: Media, data: seq<byte>, n: nat) returns (found: bool)
    ensures found <==> HasKey(m, data, true, n)
  {
    hide Big, IsKey;
    var i := 0;
    assert data[0..] == data;
    KeyInExists(m, Units(n, data));
    while i + n < |data|
      invariant i <= |data|
      invariant KeyIn(m, Units(n, data)) == KeyIn(m, Units(n, data[i..]))
      decreases |data| - i
    {
      ghost var rest := data[i..];
      var size := Big(data[i..][..n]);
      if size == 0 || i + n + size > |data| {
        break;
      }
      assert rest[n..n + size][0] == data[i + n];
      assert Units(n, rest)[1..] == Units(n, rest[n + size..]);
      if IsKey(m, data[i + n]) {
        return true;
      }
      assert rest[n + size..] == data[i + n + size..];
      i := i + n + size;
    }
    return false;
  }

  method IsSyncPoint(m: Media, data: seq<byte>, format: string, n: nat) returns (yes: bool)
    ensures yes <==> SyncPoint(m, data, format, n)
  {
    if m.Jpeg? || m.Unknown? {
      return true;
    }
    if data == [] {
      return false;
    }
    if Prefixed(m, format) {
      yes := ScanPrefixed(m, data, n);
    } else {
      yes := ScanAnnexB(m, data);
      assert HasKey(m, data, false, 0) == HasKey(m, data, false, n);
    }
  }
}
