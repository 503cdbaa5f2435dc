/**
 * What a converted frame looks like, from the planes it was made of and the colours they stand for:
 * plugins/ros2-bridge/src/cam_bridge_base.cpp. The layouts of 4:2:0 pictures are in YuvLayouts.
 */
module YuvPictures {
  import opened Common
  import opened Yuv
  import opened YuvLayouts

  // ---- the colours ---------------------------------------------------------------------------

  /** A level at most `slack` thousandths from an exact one, which may lie outside the range of levels. */
  predicate Near(level: byte, exact: int, slack: int) {
    var cut := if exact < 0 then 0 else if exact > 255_000 then 255_000 else exact;
    -slack <= 1000 * level - cut <= slack
  }

  lemma NearClamped(v: int, exact: int, slack: int)
    requires -slack <= 1000 * v - exact <= slack
    ensures Near(Clamp(v), exact, slack)
  {
  }

  /**
   * Every pixel is the full-range BT.601 conversion of its samples, up to 1.2 levels: red from the
   * second difference, blue from the first, green from both.
   */
  lemma ColoursAreBt601(y: byte, u: byte, v: byte)
    ensures var p := ToRgb(y, u, v);
            && Near(p.r, 1000 * y + 1402 * (v - 128), 1200)
            && Near(p.g, 1000 * y - 344 * (u - 128) - 714 * (v - 128), 1200)
            && Near(p.b, 1000 * y + 1772 * (u - 128), 1200)
  {
    hide Near, Clamp;
    var d: int := u as int - 128;
    var e: int := v as int - 128;
    NearClamped(y + 359 * e / 256, 1000 * y + 1402 * e, 1200);
    NearClamped(y - (88 * d + 183 * e) / 256, 1000 * y - 344 * d - 714 * e, 1200);
    NearClamped(y + 454 * d / 256, 1000 * y + 1772 * d, 1200);
  }

  // ---- 4:4:4 ---------------------------------------------------------------------------------

  /** Pixel (x, y) of a picture with a sample of each kind for every pixel. */
  function FullPixel(w: nat, h: nat, ys: seq<byte>, us: seq<byte>, vs: seq<byte>, y: nat, x: nat): Rgb
    requires |ys| == w * h && |us| == w * h && |vs| == w * h && y < h && x < w
  {
    PixelInPlane(w, h, y, x);
    ToRgb(ys[y * w + x], us[y * w + x], vs[y * w + x])
  }

  lemma PixelInPlane(w: nat, h: nat, y: nat, x: nat)
    requires y < h && x < w
    ensures 0 <= y * w + x < w * h && y * w >= 0
  {
    InGrid(y, x, w, h);
    Commutes(w, h);
  }

  lemma Nv24Pixel(w: nat, h: nat, ys: seq<byte>, us: seq<byte>, vs: seq<byte>, y: nat, x: nat)
    requires |ys| == w * h && |us| == w * h && |vs| == w * h && y < h && x < w
    ensures var s := ys + Interleave(us, vs);
            Inside(NV24, w, h, y, x, |s|) && PixelOf(NV24, s, w, h, y, x) == FullPixel(w, h, ys, us, vs, y, x)
  {
    hide ToRgb, Interleave;
    PixelInPlane(w, h, y, x);
    var i := y * w + x;
    var s := Interleave(us, vs);
    Behind(ys, s, 2 * i);
    Behind(ys, s, 2 * i + 1);
  }

  lemma FullNeed(w: nat, h: nat) ensures Need(NV24, w, h) == 3 * (w * h) {}

  /** A frame with three samples for every pixel needs exactly their bytes, and shows them pixel by pixel. */
  lemma FullPicture(w: nat, h: nat, ys: seq<byte>, us: seq<byte>, vs: seq<byte>)
    requires |ys| == w * h && |us| == w * h && |vs| == w * h
    ensures var s := ys + Interleave(us, vs);
            && |s| == Need(NV24, w, h)
            && forall y, x :: 0 <= y < h && 0 <= x < w ==>
                 Convert(NV24, s, w, h)[y][x] == FullPixel(w, h, ys, us, vs, y, x)
  {
    hide PixelOf, Inside, FullPixel, Need, Interleave;
    FullNeed(w, h);
    var s := ys + Interleave(us, vs);
    forall y, x | 0 <= y < h && 0 <= x < w ensures Convert(NV24, s, w, h)[y][x] == FullPixel(w, h, ys, us, vs, y, x) {
      Nv24Pixel(w, h, ys, us, vs, y, x);
    }
  }

  // ---- 4:2:2 ---------------------------------------------------------------------------------

  /** y0 u0 y1 v0 y2 u1 y3 v1 ... */
  function Packing(ys: seq<byte>, us: seq<byte>, vs: seq<byte>): (s: seq<byte>)
    requires |ys| == 2 * |us| == 2 * |vs|
    ensures |s| == 2 * |ys|
    ensures forall i :: 0 <= i < |ys| ==> s[2 * i] == ys[i]
    ensures forall i :: 0 <= i < |us| ==> s[4 * i + 1] == us[i] && s[4 * i + 3] == vs[i]
  {
    seq(2 * |ys|, i requires 0 <= i < 2 * |ys| =>
      if i % 2 == 0 then ys[i / 2] else if i % 4 == 1 then us[i / 4] else vs[i / 4])
  }

  /** The pair of pixels a pixel is in. */
  lemma PairAt(w: nat, h: nat, y: nat, x: nat)
    requires w % 2 == 0 && y < h && x < w
    ensures 0 <= y * w + x < w * h
    ensures LumaAt(YUY2, w, y, x) == 2 * (y * w + x)
    ensures FirstAt(YUY2, w, h, y, x) == 4 * ((y * w + x) / 2) + 1
    ensures SecondAt(YUY2, w, h, y, x) == 4 * ((y * w + x) / 2) + 3
  {
    InGrid(y, x, w, h);
    Commutes(w, h);
    Twice(y, w / 2);
    var row := y * (w / 2);
    assert y * w == 2 * row;
    assert (2 * row + x) / 2 == row + x / 2;
  }

  /** Pixel (x, y) of a picture in which every two pixels of a row share their colour. */
  function PairedPixel(w: nat, h: nat, ys: seq<byte>, us: seq<byte>, vs: seq<byte>, y: nat, x: nat): Rgb
    requires w % 2 == 0 && |ys| == w * h == 2 * |us| == 2 * |vs| && y < h && x < w
  {
    PixelInPlane(w, h, y, x);
    ToRgb(ys[y * w + x], us[(y * w + x) / 2], vs[(y * w + x) / 2])
  }

  lemma Yuy2Pixel(w: nat, h: nat, ys: seq<byte>, us: seq<byte>, vs: seq<byte>, y: nat, x: nat)
    requires w % 2 == 0 && |ys| == w * h == 2 * |us| == 2 * |vs| && y < h && x < w
    ensures var s := Packing(ys, us, vs);
            Inside(YUY2, w, h, y, x, |s|) && PixelOf(YUY2, s, w, h, y, x) == PairedPixel(w, h, ys, us, vs, y, x)
  {
    hide ToRgb, LumaAt, FirstAt, SecondAt, Packing;
    PairAt(w, h, y, x);
    PixelInPlane(w, h, y, x);
  }

  /** A frame whose pixels share their colour in pairs shows them so, in either byte order, and needs exactly its bytes. */
  lemma PackedPicture(w: nat, h: nat, ys: seq<byte>, us: seq<byte>, vs: seq<byte>)
    requires w % 2 == 0 && |ys| == w * h == 2 * |us| == 2 * |vs|
    ensures var s := Packing(ys, us, vs);
            && |s| == Need(YUY2, w, h) == Need(UYVY, w, h)
            && Convert(UYVY, Swapped(s), w, h) == Convert(YUY2, s, w, h)
            && forall y, x :: 0 <= y < h && 0 <= x < w ==>
                 Convert(YUY2, s, w, h)[y][x] == PairedPixel(w, h, ys, us, vs, y, x)
  {
    hide PixelOf, Inside, PairedPixel, Packing, Need, Swapped;
    var s := Packing(ys, us, vs);
    PackedNeed(w, h);
    SamePixelsSamePicture(w, h, s);
    forall y, x | 0 <= y < h && 0 <= x < w ensures Convert(YUY2, s, w, h)[y][x] == PairedPixel(w, h, ys, us, vs, y, x) {
      Yuy2Pixel(w, h, ys, us, vs, y, x);
    }
  }
}
