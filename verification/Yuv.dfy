/** Decoded video to RGB: plugins/ros2-bridge/src/cam_bridge_base.cpp, yuv_to_rgb8. */
module Yuv {
  import opened Common

  datatype Format = I420 | YV12 | NV12 | NV24 | YUY2 | UYVY | NONE

  predicate Packed(f: Format) { f.YUY2? || f.UYVY? }
  predicate Planar(f: Format) { f.I420? || f.YV12? }

  /** The bytes asked of a frame before it is converted. */
  function Need(f: Format, w: nat, h: nat): int {
    if Packed(f) then w * h * 2
    else if f.NV12? then w * h + w * h / 2
    else if f.NV24? then w * h * 3
    else w * h + 2 * ((w / 2) * (h / 2))
  }

  /** Where the three samples of pixel (x, y) are read. */
  function LumaAt(f: Format, w: nat, y: nat, x: nat): int {
    if Packed(f) then y * w * 2 + (x * 2 + (if f.UYVY? then 1 else 0)) else y * w + x
  }

  /** The first and the second chroma sample of the layout. */
  function FirstAt(f: Format, w: nat, h: nat, y: nat, x: nat): int {
    if Packed(f) then y * w * 2 + (x / 2 * 4 + (if f.UYVY? then 0 else 1))
    else if f.NV12? then w * h + (y / 2 * w + x / 2 * 2)
    else if f.NV24? then w * h + 2 * (y * w + x)
    else w * h + (y / 2 * (w / 2) + x / 2)
  }

  function SecondAt(f: Format, w: nat, h: nat, y: nat, x: nat): int {
    if Packed(f) then FirstAt(f, w, h, y, x) + 2
    else if Planar(f) then FirstAt(f, w, h, y, x) + (w / 2) * (h / 2)
    else FirstAt(f, w, h, y, x) + 1
  }

  /** All reads of a pixel are inside a buffer of `size` bytes. */
  predicate Inside(f: Format, w: nat, h: nat, y: nat, x: nat, size: int) {
    0 <= LumaAt(f, w, y, x) < size && 0 <= FirstAt(f, w, h, y, x) < size && 0 <= SecondAt(f, w, h, y, x) < size
  }

  /** What the size check fits. */
  predicate FitsCheck(f: Format, w: nat, h: nat) {
    match f
    case NV24 => true
    case YUY2 => w % 2 == 0
    case UYVY => w % 2 == 0
    case _ => w % 2 == 0 && h % 2 == 0
  }

  // ---- products ------------------------------------------------------------------------

  /** A place in a grid. */
  lemma InGrid(y: nat, x: nat, w: nat, h: nat)
    requires y < h && x < w
    ensures y * w + x < h * w && y * w >= 0 && y * w + w <= h * w
  {
    Grows(y + 1, h, w);
    Distributes(y, 1, w);
    AtLeastZero(y, w);
  }

  lemma Commutes(a: int, b: int) ensures a * b == b * a {}

  lemma Twice(a: int, b: int) ensures a * (2 * b) == 2 * (a * b) && (2 * a) * b == 2 * (a * b) {}

  /** With both dimensions even, the two chroma planes are half a luma plane. */
  lemma HalfPlanes(w: nat, h: nat)
    requires w % 2 == 0 && h % 2 == 0
    ensures h * w == 4 * ((h / 2) * (w / 2)) && h * w / 2 == h / 2 * w && (h / 2) * (w / 2) >= 0
  {
    var a, b := w / 2, h / 2;
    Twice(b, a);
    Twice(b, 2 * a);
    AtLeastZero(b, a);
  }

  // ---- in bounds, exactly --------------------------------------------------------------------

  lemma PackedInside(f: Format, w: nat, h: nat, y: nat, x: nat)
    requires Packed(f) && w % 2 == 0 && y < h && x < w
    ensures Inside(f, w, h, y, x, Need(f, w, h))
  {
    InGrid(y, x, w, h);
    Commutes(w, h);
    PairInRow(y * w, w * h, w, x);
  }

  lemma PairInRow(row: int, size: int, w: nat, x: nat)
    requires w % 2 == 0 && x < w && 0 <= row && row + w <= size
    ensures row * 2 + (x * 2 + 1) < size * 2 && row * 2 + (x / 2 * 4 + 3) < size * 2
  {
  }

  lemma Nv12Inside(w: nat, h: nat, y: nat, x: nat)
    requires w % 2 == 0 && h % 2 == 0 && y < h && x < w
    ensures Inside(NV12, w, h, y, x, Need(NV12, w, h))
  {
    InGrid(y, x, w, h);
    InGrid(y / 2, x / 2 * 2 + 1, w, h / 2);
    HalfPlanes(w, h);
    Commutes(w, h);
  }

  lemma Nv24Inside(w: nat, h: nat, y: nat, x: nat)
    requires y < h && x < w
    ensures Inside(NV24, w, h, y, x, Need(NV24, w, h))
  {
    InGrid(y, x, w, h);
    Commutes(w, h);
  }

  lemma PlanarInside(f: Format, w: nat, h: nat, y: nat, x: nat)
    requires Planar(f) && w % 2 == 0 && h % 2 == 0 && y < h && x < w
    ensures Inside(f, w, h, y, x, Need(f, w, h))
  {
    InGrid(y, x, w, h);
    InGrid(y / 2, x / 2, w / 2, h / 2);
    HalfPlanes(w, h);
    Commutes(w, h);
    Commutes(w / 2, h / 2);
  }

  /** The last pixel of all reads past the size check if a dimension is odd. */
  lemma LastOutside(f: Format, w: nat, h: nat)
    requires w > 0 && h > 0 && !f.NONE? && !FitsCheck(f, w, h)
    ensures !Inside(f, w, h, h - 1, w - 1, Need(f, w, h))
  {
    var y := h - 1;
    Distributes(y, 1, w);
    Commutes(w, h);
    var a, b := w / 2, h / 2;
    match f
    case YUY2 =>
    case UYVY =>
    case NV12 =>
      Nv12Last(w, h);
    case _ =>
      PlanarLast(f, w, h);
  }

  lemma Nv12Last(w: nat, h: nat)
    requires w > 0 && h > 0 && (w % 2 == 1 || h % 2 == 1)
    ensures SecondAt(NV12, w, h, h - 1, w - 1) >= Need(NV12, w, h)
  {
    var k := (h - 1) / 2;
    var n := k * w;
    assert h * w == 2 * n + (if h % 2 == 1 then w else 2 * w) by {
      Twice(k, w);
      Distributes(2 * k, if h % 2 == 1 then 1 else 2, w);
    }
    Commutes(w, h);
  }

  lemma PlanarLast(f: Format, w: nat, h: nat)
    requires !Packed(f) && !f.NV12? && !f.NV24? && w > 0 && h > 0 && (w % 2 == 1 || h % 2 == 1)
    ensures FirstAt(f, w, h, h - 1, w - 1) + (w / 2) * (h / 2) >= Need(f, w, h)
  {
    var a, b := w / 2, h / 2;
    var k := (h - 1) / 2;
    Commutes(a, b);
    if h % 2 == 1 {
      assert k == b;
    } else {
      assert k == b - 1 && (w - 1) / 2 == a;
      Distributes(b - 1, 1, a);
    }
  }

  /**
   * Exactly when the size check protects the reads: for every buffer it accepts, every pixel reads
   * inside the buffer, if and only if the dimensions the format halves are even.
   */
  lemma CheckProtectsExactly(f: Format, w: nat, h: nat)
    requires w > 0 && h > 0 && (Packed(f) || Planar(f) || f.NV12? || f.NV24?)
    ensures (forall size, y, x :: size >= Need(f, w, h) && 0 <= y < h && 0 <= x < w ==> Inside(f, w, h, y, x, size))
            <==> FitsCheck(f, w, h)
  {
    hide Inside, Need;
    if FitsCheck(f, w, h) {
      forall size, y, x | size >= Need(f, w, h) && 0 <= y < h && 0 <= x < w ensures Inside(f, w, h, y, x, size) {
        Protected(f, w, h, y, x);
        LargerIsFine(f, w, h, y, x, Need(f, w, h), size);
      }
    } else {
      LastOutside(f, w, h);
    }
  }

  lemma LargerIsFine(f: Format, w: nat, h: nat, y: nat, x: nat, a: int, b: int)
    requires Inside(f, w, h, y, x, a) && a <= b
    ensures Inside(f, w, h, y, x, b)
  {
  }

  lemma Protected(f: Format, w: nat, h: nat, y: nat, x: nat)
    requires !f.NONE? && FitsCheck(f, w, h) && y < h && x < w
    ensures Inside(f, w, h, y, x, Need(f, w, h))
  {
    match f
    case NV12 => Nv12Inside(w, h, y, x);
    case NV24 => Nv24Inside(w, h, y, x);
    case YUY2 => PackedInside(f, w, h, y, x);
    case UYVY => PackedInside(f, w, h, y, x);
    case _ => PlanarInside(f, w, h, y, x);
  }

  // ---- the conversion ------------------------------------------------------------------------

  datatype Rgb = Rgb(r: byte, g: byte, b: byte)

  function Clamp(v: int): byte { if v < 0 then 0 else if v > 255 then 255 else v }

  /** Full-range BT.601, in units of 1/256; the shifts round down. */
  function ToRgb(y: byte, u: byte, v: byte): Rgb {
    var d: int := u as int - 128;
    var e: int := v as int - 128;
    Rgb(Clamp(y + 359 * e / 256), Clamp(y - (88 * d + 183 * e) / 256), Clamp(y + 454 * d / 256))
  }

  /** Without colour a pixel is its luma; and more luma is never darker. */
  lemma GreyAndMonotone(y: byte, y': byte, u: byte, v: byte)
    ensures ToRgb(y, 128, 128) == Rgb(y, y, y)
    ensures y <= y' ==> var a, b := ToRgb(y, u, v), ToRgb(y', u, v); a.r <= b.r && a.g <= b.g && a.b <= b.b
  {
  }

  function PixelOf(f: Format, s: seq<byte>, w: nat, h: nat, y: nat, x: nat): Rgb
    requires Inside(f, w, h, y, x, |s|)
  {
    var first, second := s[FirstAt(f, w, h, y, x)], s[SecondAt(f, w, h, y, x)];
    ToRgb(s[LumaAt(f, w, y, x)], if f.YV12? then second else first, if f.YV12? then first else second)
  }

  /** A frame as rows of pixels. */
  function Convert(f: Format, s: seq<byte>, w: nat, h: nat): (out: seq<seq<Rgb>>)
    requires !f.NONE? && FitsCheck(f, w, h) && |s| >= Need(f, w, h)
    ensures |out| == h && forall y :: 0 <= y < h ==> |out[y]| == w
    ensures forall y, x :: 0 <= y < h && 0 <= x < w ==>
              Inside(f, w, h, y, x, |s|) && out[y][x] == PixelOf(f, s, w, h, y, x)
  {
    hide PixelOf, Inside, Need;
    ProtectedAll(f, w, h, |s|);
    seq(h, y requires 0 <= y < h => seq(w, x requires 0 <= x < w && Inside(f, w, h, y, x, |s|) => PixelOf(f, s, w, h, y, x)))
  }

  lemma ProtectedAll(f: Format, w: nat, h: nat, size: int)
    requires !f.NONE? && FitsCheck(f, w, h) && size >= Need(f, w, h)
    ensures forall y, x :: 0 <= y < h && 0 <= x < w ==> Inside(f, w, h, y, x, size)
  {
    hide Inside, Need;
    forall y, x | 0 <= y < h && 0 <= x < w ensures Inside(f, w, h, y, x, size) {
      Protected(f, w, h, y, x);
      LargerIsFine(f, w, h, y, x, Need(f, w, h), size);
    }
  }

  /** The frame is refused, or a sample lies outside its buffer (and the code reads it all the same), or converted. */
  datatype Conversion = Refused | ReadsOutside | Converted(pixels: array2<Rgb>)

  predicate Accepted(f: Format, size: int, w: int, h: int) { w > 0 && h > 0 && !f.NONE? && size >= Need(f, w, h) }

  /** Row y reads only inside the buffer. */
  predicate RowInside(f: Format, w: nat, h: nat, y: nat, size: int) {
    forall x :: 0 <= x < w ==> Inside(f, w, h, y, x, size)
  }

  method YuvToRgb8(f: Format, src: array<byte>, w: int, h: int) returns (out: Conversion)
    ensures out.Refused? <==> !Accepted(f, src.Length, w, h)
    ensures Accepted(f, src.Length, w, h) ==>
              (out.Converted? <==> forall y, x :: 0 <= y < h && 0 <= x < w ==> Inside(f, w, h, y, x, src.Length))
    ensures out.Converted? ==>
              && out.pixels.Length0 == h && out.pixels.Length1 == w
              && forall y, x :: 0 <= y < h && 0 <= x < w ==>
                   Inside(f, w, h, y, x, src.Length) && out.pixels[y, x] == PixelOf(f, src[..], w, h, y, x)
  {
    if w <= 0 || h <= 0 || f.NONE? {
      return Refused;
    }
    if src.Length < Need(f, w, h) {
      return Refused;
    }
    hide Need, Inside, PixelOf;
    var dst := new Rgb[h, w];
    var y := 0;
    while y < h
      invariant 0 <= y <= h
      invariant forall i, j :: 0 <= i < y && 0 <= j < w ==>
                  Inside(f, w, h, i, j, src.Length) && dst[i, j] == PixelOf(f, src[..], w, h, i, j)
    {
      var inside := ConvertRow(f, src, w, h, y, dst);
      if !inside {
        return ReadsOutside;
      }
      y := y + 1;
    }
    return Converted(dst);
  }

  method ConvertRow(f: Format, src: array<byte>, w: nat, h: nat, y: nat, dst: array2<Rgb>) returns (inside: bool)
    requires dst.Length0 == h && dst.Length1 == w && y < h
    modifies dst
    ensures inside <==> RowInside(f, w, h, y, src.Length)
    ensures inside ==> forall j :: 0 <= j < w ==>
              Inside(f, w, h, y, j, src.Length) && dst[y, j] == PixelOf(f, src[..], w, h, y, j)
    ensures forall i, j :: 0 <= i < h && 0 <= j < w && i != y ==> dst[i, j] == old(dst[i, j])
  {
    hide Inside, PixelOf;
    var x := 0;
    while x < w
      invariant 0 <= x <= w
      invariant forall j :: 0 <= j < x ==>
                  Inside(f, w, h, y, j, src.Length) && dst[y, j] == PixelOf(f, src[..], w, h, y, j)
      invariant forall i, j :: 0 <= i < h && 0 <= j < w && i != y ==> dst[i, j] == old(dst[i, j])
    {
      if !Inside(f, w, h, y, x, src.Length) {
        return false;
      }
      dst[y, x] := PixelOf(f, src[..], w, h, y, x);
      x := x + 1;
    }
    return true;
  }
}
