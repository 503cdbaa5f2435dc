/** The same picture in different layouts converts to the same RGB: plugins/ros2-bridge/src/cam_bridge_base.cpp. */
module YuvLayouts {
  import opened Common
  import opened Yuv

  /** The planes of a 4:2:0 picture. */
  predicate Planes(w: nat, h: nat, y: seq<byte>, u: seq<byte>, v: seq<byte>) {
    && w % 2 == 0 && h % 2 == 0
    && |y| == w * h && |u| == (w / 2) * (h / 2) && |v| == |u|
  }

  /** u0 v0 u1 v1 ... */
  function Interleave(u: seq<byte>, v: seq<byte>): (s: seq<byte>)
    requires |u| == |v|
    ensures |s| == 2 * |u|
    ensures forall i :: 0 <= i < |u| ==> s[2 * i] == u[i] && s[2 * i + 1] == v[i]
  {
    seq(2 * |u|, i requires 0 <= i < 2 * |u| => if i % 2 == 0 then u[i / 2] else v[i / 2])
  }

  /** Where the chroma of a pixel is in its plane. */
  function ChromaAt(w: nat, y: nat, x: nat): int { y / 2 * (w / 2) + x / 2 }

  lemma ChromaInPlane(w: nat, h: nat, y: nat, x: nat)
    requires w % 2 == 0 && h % 2 == 0 && y < h && x < w
    ensures 0 <= ChromaAt(w, y, x) < (w / 2) * (h / 2)
    ensures y * w + x < w * h && y * w >= 0
  {
    InGrid(y / 2, x / 2, w / 2, h / 2);
    Commutes(w / 2, h / 2);
    InGrid(y, x, w, h);
    Commutes(w, h);
  }

  /** What a pixel of the picture is. */
  function PixelFrom(w: nat, h: nat, ys: seq<byte>, us: seq<byte>, vs: seq<byte>, y: nat, x: nat): Rgb
    requires Planes(w, h, ys, us, vs) && y < h && x < w
  {
    ChromaInPlane(w, h, y, x);
    ToRgb(ys[y * w + x], us[ChromaAt(w, y, x)], vs[ChromaAt(w, y, x)])
  }

  /** A frame of this format shows the picture. */
  ghost predicate Pictures(f: Format, s: seq<byte>, w: nat, h: nat, ys: seq<byte>, us: seq<byte>, vs: seq<byte>)
    requires Planes(w, h, ys, us, vs)
  {
    && !f.NONE? && FitsCheck(f, w, h) && |s| >= Need(f, w, h)
    && forall y, x :: 0 <= y < h && 0 <= x < w ==> Convert(f, s, w, h)[y][x] == PixelFrom(w, h, ys, us, vs, y, x)
  }

  lemma NeedOf(w: nat, h: nat, ys: seq<byte>, us: seq<byte>, vs: seq<byte>)
    requires Planes(w, h, ys, us, vs)
    ensures Need(I420, w, h) == Need(YV12, w, h) == Need(NV12, w, h) == |ys| + |us| + |vs|
  {
    HalfPlanes(w, h);
    Commutes(w, h);
    Commutes(w / 2, h / 2);
  }

  lemma PlanarPixel(w: nat, h: nat, ys: seq<byte>, us: seq<byte>, vs: seq<byte>, y: nat, x: nat)
    requires Planes(w, h, ys, us, vs) && y < h && x < w
    ensures Inside(I420, w, h, y, x, |ys + us + vs|) && PixelOf(I420, ys + us + vs, w, h, y, x) == PixelFrom(w, h, ys, us, vs, y, x)
    ensures Inside(YV12, w, h, y, x, |ys + vs + us|) && PixelOf(YV12, ys + vs + us, w, h, y, x) == PixelFrom(w, h, ys, us, vs, y, x)
  {
    hide ToRgb;
    ChromaInPlane(w, h, y, x);
  }

  lemma Nv12At(w: nat, h: nat, y: nat, x: nat)
    requires w % 2 == 0
    ensures FirstAt(NV12, w, h, y, x) == w * h + 2 * ChromaAt(w, y, x)
    ensures SecondAt(NV12, w, h, y, x) == w * h + 2 * ChromaAt(w, y, x) + 1
  {
    Twice(y / 2, w / 2);
  }

  lemma Behind(a: seq<byte>, b: seq<byte>, i: nat)
    requires i < |b|
    ensures (a + b)[|a| + i] == b[i]
  {
  }

  lemma Nv12Pixel(w: nat, h: nat, ys: seq<byte>, us: seq<byte>, vs: seq<byte>, y: nat, x: nat)
    requires Planes(w, h, ys, us, vs) && y < h && x < w
    ensures var s := ys + Interleave(us, vs);
            Inside(NV12, w, h, y, x, |s|) && PixelOf(NV12, s, w, h, y, x) == PixelFrom(w, h, ys, us, vs, y, x)
  {
    hide ToRgb, FirstAt, SecondAt, ChromaAt, Interleave;
    ChromaInPlane(w, h, y, x);
    Nv12At(w, h, y, x);
    var i := ChromaAt(w, y, x);
    var s := Interleave(us, vs);
    Behind(ys, s, 2 * i);
    Behind(ys, s, 2 * i + 1);
  }

  /** I420, YV12 and NV12 frames of the same planes show the same picture. */
  lemma SamePlanesSamePicture(w: nat, h: nat, ys: seq<byte>, us: seq<byte>, vs: seq<byte>)
    requires Planes(w, h, ys, us, vs)
    ensures Pictures(I420, ys + us + vs, w, h, ys, us, vs)
    ensures Pictures(YV12, ys + vs + us, w, h, ys, us, vs)
    ensures Pictures(NV12, ys + Interleave(us, vs), w, h, ys, us, vs)
    ensures Convert(I420, ys + us + vs, w, h) == Convert(YV12, ys + vs + us, w, h)
         == Convert(NV12, ys + Interleave(us, vs), w, h)
  {
    hide PixelOf, PixelFrom, Inside, Need;
    NeedOf(w, h, ys, us, vs);
    forall y, x | 0 <= y < h && 0 <= x < w
      ensures Convert(I420, ys + us + vs, w, h)[y][x] == PixelFrom(w, h, ys, us, vs, y, x)
      ensures Convert(YV12, ys + vs + us, w, h)[y][x] == PixelFrom(w, h, ys, us, vs, y, x)
      ensures Convert(NV12, ys + Interleave(us, vs), w, h)[y][x] == PixelFrom(w, h, ys, us, vs, y, x)
    {
      PlanarPixel(w, h, ys, us, vs, y, x);
      Nv12Pixel(w, h, ys, us, vs, y, x);
    }
    SameRows(Convert(I420, ys + us + vs, w, h), Convert(YV12, ys + vs + us, w, h), h, w);
    SameRows(Convert(YV12, ys + vs + us, w, h), Convert(NV12, ys + Interleave(us, vs), w, h), h, w);
  }

  lemma SameRows(a: seq<seq<Rgb>>, b: seq<seq<Rgb>>, h: nat, w: nat)
    requires |a| == h && |b| == h && (forall y :: 0 <= y < h ==> |a[y]| == w && |b[y]| == w)
    requires forall y, x :: 0 <= y < h && 0 <= x < w ==> a[y][x] == b[y][x]
    ensures a == b
  {
    forall y | 0 <= y < h ensures a[y] == b[y] {}
  }

  /** Every two neighbouring bytes change places. */
  function Swapped(s: seq<byte>): (t: seq<byte>)
    requires |s| % 2 == 0
    ensures |t| == |s|
    ensures forall i :: 0 <= i < |s| ==> t[i] == s[if i % 2 == 0 then i + 1 else i - 1]
  {
    seq(|s|, i requires 0 <= i < |s| => s[if i % 2 == 0 then i + 1 else i - 1])
  }

  lemma PackedAt(w: nat, h: nat, y: nat, x: nat)
    ensures LumaAt(YUY2, w, y, x) % 2 == 0 && LumaAt(UYVY, w, y, x) == LumaAt(YUY2, w, y, x) + 1
    ensures FirstAt(UYVY, w, h, y, x) % 2 == 0 && FirstAt(YUY2, w, h, y, x) == FirstAt(UYVY, w, h, y, x) + 1
    ensures SecondAt(UYVY, w, h, y, x) % 2 == 0 && SecondAt(YUY2, w, h, y, x) == SecondAt(UYVY, w, h, y, x) + 1
  {
    var row := y * w;
    EvenPair(row, x);
    EvenPair(row, x / 2 * 2);
    EvenPair(row, x / 2 * 2 + 1);
  }

  lemma EvenPair(row: int, k: int) ensures (row * 2 + k * 2) % 2 == 0 {}

  lemma EvenRow(n: int) ensures n * 2 % 2 == 0 {}

  lemma PackedPixel(w: nat, h: nat, s: seq<byte>, y: nat, x: nat)
    requires w % 2 == 0 && |s| == w * h * 2 && y < h && x < w
    ensures |s| % 2 == 0
    ensures Inside(YUY2, w, h, y, x, |s|) && Inside(UYVY, w, h, y, x, |s|)
    ensures PixelOf(YUY2, s, w, h, y, x) == PixelOf(UYVY, Swapped(s), w, h, y, x)
  {
    hide ToRgb, LumaAt, FirstAt, SecondAt, Swapped;
    EvenRow(w * h);
    PackedInside(YUY2, w, h, y, x);
    PackedInside(UYVY, w, h, y, x);
    PackedAt(w, h, y, x);
  }

  /** YUY2 and UYVY frames of the same pixels show the same picture. */
  lemma SamePixelsSamePicture(w: nat, h: nat, s: seq<byte>)
    requires w % 2 == 0 && |s| == w * h * 2
    ensures Convert(YUY2, s, w, h) == Convert(UYVY, Swapped(s), w, h)
  {
    hide PixelOf, Inside, Need;
    assert Need(YUY2, w, h) == Need(UYVY, w, h) == w * h * 2 by { PackedNeed(w, h); }
    forall y, x | 0 <= y < h && 0 <= x < w ensures Convert(YUY2, s, w, h)[y][x] == Convert(UYVY, Swapped(s), w, h)[y][x] {
      PackedPixel(w, h, s, y, x);
    }
    SameRows(Convert(YUY2, s, w, h), Convert(UYVY, Swapped(s), w, h), h, w);
  }

  lemma PackedNeed(w: nat, h: nat) ensures Need(YUY2, w, h) == Need(UYVY, w, h) == w * h * 2 {}
}
