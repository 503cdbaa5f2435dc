/** Capture files as bytes: core-driver/cam_driver/pcapio.py. */
module PcapIo {
  import opened Common

  const MAX_RECORD: nat := 256 * 1024 * 1024
  const BILLION: nat := 1_000_000_000

  datatype Endian = Little | Big

  datatype Packet = Packet(link: nat, ts: int, data: seq<byte>)

  /** What ends reading early. CutOption is the only one that is not a format error with a message. */
  datatype Fault =
    | BadMagic | ShortHeader | Oversized
    | BadByteOrder | BadLength | ShortInterface | CutOption | ShortPacket | UnknownInterface | BadCaptureLength

  /** What a caller that takes every packet sees: the packets, and the fault raised after them, if any. */
  datatype Outcome = Outcome(packets: seq<Packet>, fault: Option<Fault>)

  function Then(out: seq<Packet>, rest: Outcome): Outcome { Outcome(out + rest.packets, rest.fault) }

  // ---- integers ------------------------------------------------------------------------

  function Get16(e: Endian, s: seq<byte>): nat
    requires |s| >= 2
  {
    var a: int, b: int := s[0], s[1];
    if e.Little? then a + 256 * b else b + 256 * a
  }

  function Get32(e: Endian, s: seq<byte>): nat
    requires |s| >= 4
  {
    var a: int, b: int, c: int, d: int := s[0], s[1], s[2], s[3];
    if e.Little? then a + 256 * (b + 256 * (c + 256 * d)) else d + 256 * (c + 256 * (b + 256 * a))
  }

  function At16(e: Endian, s: seq<byte>, i: nat): nat requires i + 2 <= |s| { Get16(e, s[i..i + 2]) }
  function At32(e: Endian, s: seq<byte>, i: nat): nat requires i + 4 <= |s| { Get32(e, s[i..i + 4]) }

  lemma AtPrefix(e: Endian, s: seq<byte>, n: nat, i: nat)
    requires i + 4 <= n <= |s|
    ensures At32(e, s[..n], i) == At32(e, s, i) && At16(e, s[..n], i) == At16(e, s, i)
  {
    assert s[..n][i..i + 4] == s[i..i + 4] && s[..n][i..i + 2] == s[i..i + 2];
  }

  function Put16(e: Endian, v: nat): (s: seq<byte>)
    requires v < 0x10000
    ensures |s| == 2 && Get16(e, s) == v
  {
    if e.Little? then [v % 256, v / 256] else [v / 256, v % 256]
  }

  function Put32(e: Endian, v: nat): (s: seq<byte>)
    requires v < 0x1_0000_0000
    ensures |s| == 4 && Get32(e, s) == v
  {
    var b0, b1, b2, b3 := v % 256, v / 256 % 256, v / 256 / 256 % 256, v / 256 / 256 / 256;
    if e.Little? then [b0, b1, b2, b3] else [b3, b2, b1, b0]
  }

  // ---- timestamps ----------------------------------------------------------------------

  function Pow(b: nat, n: nat): (p: nat)
    ensures b > 0 ==> p > 0
  {
    if n == 0 then 1 else b * Pow(b, n - 1)
  }

  /** Ticks per second of an if_tsresol value. */
  function Resolution(tsresol: byte): (r: nat)
    ensures r > 0
  {
    if tsresol >= 128 then Pow(2, tsresol - 128) else Pow(10, tsresol)
  }

  /** The converter from raw ticks to nanoseconds. */
  function ToNs(tsresol: byte, ticks: nat): nat {
    if tsresol >= 128 then ticks * BILLION / Pow(2, tsresol - 128)
    else if tsresol <= 9 then ticks * Pow(10, 9 - tsresol)
    else ticks / Pow(10, tsresol - 9)
  }

  lemma {:induction false} PowAdds(b: nat, m: nat, n: nat)
    ensures Pow(b, m + n) == Pow(b, m) * Pow(b, n)
  {
    if m > 0 {
      PowAdds(b, m - 1, n);
      Triple(b, Pow(b, m - 1), Pow(b, n));
    }
  }

  lemma Triple(a: int, b: int, c: int) ensures a * (b * c) == (a * b) * c {}

  lemma FloorIs(a: nat, b: nat)
    requires b > 0
    ensures (a / b) * b <= a < (a / b) * b + b
  {
  }

  lemma Scaled(x: nat, a: nat, b: nat, k: nat)
    requires k > 0 && x * b <= a < x * b + b
    ensures x * (b * k) <= a * k < x * (b * k) + b * k
  {
    assert x * (b * k) == (x * b) * k by { Triple(x, b, k); }
    Grows(x * b, a, k);
    Grows(a + 1, x * b + b, k);
    assert (x * b + b) * k == (x * b) * k + b * k by { Distributes(x * b, b, k); }
    assert (a + 1) * k == a * k + k by { Distributes(a, 1, k); }
  }

  lemma BillionIsPower() ensures Pow(10, 9) == BILLION {
    assert Pow(10, 3) == 1000;
    PowAdds(10, 3, 3);
    PowAdds(10, 6, 3);
  }

  /** Nanoseconds are exact up to rounding down, for every resolution a file can declare. */
  lemma ToNsIsFloor(tsresol: byte, ticks: nat)
    ensures var r, ns := Resolution(tsresol), ToNs(tsresol, ticks); ns * r <= ticks * BILLION < ns * r + r
  {
    hide Pow;
    var r, ns := Resolution(tsresol), ToNs(tsresol, ticks);
    if tsresol >= 128 {
      FloorIs(ticks * BILLION, r);
    } else if tsresol <= 9 {
      PowAdds(10, 9 - tsresol, tsresol);
      BillionIsPower();
      Triple(ticks, Pow(10, 9 - tsresol), r);
    } else {
      PowAdds(10, tsresol - 9, 9);
      BillionIsPower();
      FloorIs(ticks, Pow(10, tsresol - 9));
      Scaled(ns, ticks, Pow(10, tsresol - 9), BILLION);
    }
  }

  /** And they keep the order of the ticks. */
  lemma ToNsMonotone(tsresol: byte, a: nat, b: nat)
    requires a <= b
    ensures ToNs(tsresol, a) <= ToNs(tsresol, b)
  {
    var r, x, y := Resolution(tsresol), ToNs(tsresol, a), ToNs(tsresol, b);
    ToNsIsFloor(tsresol, a);
    ToNsIsFloor(tsresol, b);
    Grows(a, b, BILLION);
    if x > y {
      Grows(y + 1, x, r);
      Distributes(y, 1, r);
    }
  }
}
