/** A colour mosaic as four sub-images, and back: core-driver/cam_driver/bayer_tile.py. */
module BayerTile {
  import opened Common

  /** Rows of pixels. */
  type Image = seq<seq<byte>>

  datatype Mode = Off | Plain | GreenDiff | Rct
  datatype Pattern = RGGB | GRBG | GBRG | BGGR

  /** A place in the 2x2 cell of the mosaic, and the quadrant its pixels are gathered in. */
  datatype Phase = Phase(row: nat, col: nat)

  datatype Phases = Phases(r: Phase, g1: Phase, g2: Phase, b: Phase)

  function PhasesOf(p: Pattern): Phases {
    match p
    case RGGB => Phases(Phase(0, 0), Phase(0, 1), Phase(1, 0), Phase(1, 1))
    case GRBG => Phases(Phase(0, 1), Phase(0, 0), Phase(1, 1), Phase(1, 0))
    case GBRG => Phases(Phase(1, 0), Phase(0, 0), Phase(1, 1), Phase(0, 1))
    case BGGR => Phases(Phase(1, 1), Phase(0, 1), Phase(1, 0), Phase(0, 0))
  }

  /** The quadrants a mode stores as differences from the reference green. */
  function Targets(mode: Mode, p: Pattern): seq<Phase> {
    var ph := PhasesOf(p);
    match mode
    case Off => []
    case Plain => []
    case GreenDiff => [ph.g2]
    case Rct => [ph.g2, ph.r, ph.b]
  }

  predicate InCell(p: Phase) { p.row < 2 && p.col < 2 }

  lemma PhasesInCell(mode: Mode, p: Pattern)
    ensures InCell(PhasesOf(p).g1) && PhasesOf(p).g1 !in Targets(mode, p)
    ensures forall q :: q in Targets(mode, p) ==> InCell(q)
    ensures forall i, j :: 0 <= i < j < |Targets(mode, p)| ==> Targets(mode, p)[i] != Targets(mode, p)[j]
  {
  }

  predicate Sized(m: Image, h: nat, w: nat) { |m| == h && forall y :: 0 <= y < h ==> |m[y]| == w }

  // ---- tiling --------------------------------------------------------------------------

  /** Where pixel y of a line of 2n comes from when the even places are gathered in front of the odd ones. */
  function Gather(n: nat, y: nat): (s: nat)
    requires y < 2 * n
    ensures s < 2 * n
  {
    if y < n then 2 * y else 2 * (y - n) + 1
  }

  /** ... and the way back. */
  function Scatter(n: nat, y: nat): (s: nat)
    requires y < 2 * n
    ensures s < 2 * n
  {
    if y % 2 == 0 then y / 2 else n + y / 2
  }

  lemma GatherScatter(n: nat, y: nat)
    requires y < 2 * n
    ensures Gather(n, Scatter(n, y)) == y && Scatter(n, Gather(n, y)) == y
  {
  }

  function Tile(m: Image, h2: nat, w2: nat): (t: Image)
    requires Sized(m, 2 * h2, 2 * w2)
    ensures Sized(t, 2 * h2, 2 * w2)
    ensures forall y, x :: 0 <= y < 2 * h2 && 0 <= x < 2 * w2 ==> t[y][x] == m[Gather(h2, y)][Gather(w2, x)]
  {
    seq(2 * h2, y requires 0 <= y < 2 * h2 => seq(2 * w2, x requires 0 <= x < 2 * w2 => m[Gather(h2, y)][Gather(w2, x)]))
  }

  function Untile(t: Image, h2: nat, w2: nat): (m: Image)
    requires Sized(t, 2 * h2, 2 * w2)
    ensures Sized(m, 2 * h2, 2 * w2)
    ensures forall y, x :: 0 <= y < 2 * h2 && 0 <= x < 2 * w2 ==> m[y][x] == t[Scatter(h2, y)][Scatter(w2, x)]
  {
    seq(2 * h2, y requires 0 <= y < 2 * h2 => seq(2 * w2, x requires 0 <= x < 2 * w2 => t[Scatter(h2, y)][Scatter(w2, x)]))
  }

  lemma SameImage(a: Image, b: Image, h: nat, w: nat)
    requires Sized(a, h, w) && Sized(b, h, w)
    requires forall y, x :: 0 <= y < h && 0 <= x < w ==> a[y][x] == b[y][x]
    ensures a == b
  {
    forall y | 0 <= y < h ensures a[y] == b[y] {}
  }

  lemma UntileTile(m: Image, h2: nat, w2: nat)
    requires Sized(m, 2 * h2, 2 * w2)
    ensures Untile(Tile(m, h2, w2), h2, w2) == m
  {
    forall y, x | 0 <= y < 2 * h2 && 0 <= x < 2 * w2 ensures Untile(Tile(m, h2, w2), h2, w2)[y][x] == m[y][x] {
      GatherScatter(h2, y);
      GatherScatter(w2, x);
    }
    SameImage(Untile(Tile(m, h2, w2), h2, w2), m, 2 * h2, 2 * w2);
  }

  lemma TileUntile(t: Image, h2: nat, w2: nat)
    requires Sized(t, 2 * h2, 2 * w2)
    ensures Tile(Untile(t, h2, w2), h2, w2) == t
  {
    forall y, x | 0 <= y < 2 * h2 && 0 <= x < 2 * w2 ensures Tile(Untile(t, h2, w2), h2, w2)[y][x] == t[y][x] {
      GatherScatter(h2, y);
      GatherScatter(w2, x);
    }
    SameImage(Tile(Untile(t, h2, w2), h2, w2), t, 2 * h2, 2 * w2);
  }

  /** Plain tiling only moves pixels: (2i + r, 2k + c) goes to row i, column k of quadrant (r, c). */
  lemma TileMoves(m: Image, h2: nat, w2: nat, i: nat, r: nat, k: nat, c: nat)
    requires Sized(m, 2 * h2, 2 * w2) && i < h2 && r < 2 && k < w2 && c < 2
    ensures Offset(r, h2) + i < 2 * h2 && Offset(c, w2) + k < 2 * w2
    ensures Tile(m, h2, w2)[Offset(r, h2) + i][Offset(c, w2) + k] == m[2 * i + r][2 * k + c]
  {
  }

  /** Where a quadrant begins. */
  function Offset(half: nat, n: nat): nat { if half == 0 then 0 else n }

  // ---- the colour transform ----------------------------------------------------------------

  function Half(n: nat, y: nat): nat { if y < n then 0 else 1 }
  function Within(n: nat, y: nat): nat { if y < n then y else y - n }

  function QuadrantOf(h2: nat, w2: nat, y: nat, x: nat): Phase { Phase(Half(h2, y), Half(w2, x)) }

  /** The pixel of quadrant `q` that sits where (y, x) sits in its own. */
  function Counterpart(t: Image, h2: nat, w2: nat, q: Phase, y: nat, x: nat): byte
    requires Sized(t, 2 * h2, 2 * w2) && InCell(q) && y < 2 * h2 && x < 2 * w2
  {
    t[Offset(q.row, h2) + Within(h2, y)][Offset(q.col, w2) + Within(w2, x)]
  }

  function Less(p: byte, g: byte): byte { (p as int - g as int + 128) % 256 }
  function More(p: byte, g: byte): byte { (p as int - 128 + g as int) % 256 }

  lemma Wrapped(d: int)
    requires -256 <= d < 512
    ensures d % 256 == if d < 0 then d + 256 else if d < 256 then d else d - 256
  {
  }

  lemma MoreLess(p: byte, g: byte)
    ensures More(Less(p, g), g) == p && Less(More(p, g), g) == p
  {
    Wrapped(p as int - g as int + 128);
    Wrapped(Less(p, g) as int - 128 + g as int);
    Wrapped(p as int - 128 + g as int);
    Wrapped(More(p, g) as int - g as int + 128);
  }

  function Recoded(p: byte, g: byte, less: bool): byte { if less then Less(p, g) else More(p, g) }

  /** Every target quadrant against the reference quadrant, pixel by pixel. */
  function Recode(t: Image, h2: nat, w2: nat, targets: seq<Phase>, g1: Phase, less: bool): (u: Image)
    requires Sized(t, 2 * h2, 2 * w2) && InCell(g1)
    ensures Sized(u, 2 * h2, 2 * w2)
    ensures forall y, x :: 0 <= y < 2 * h2 && 0 <= x < 2 * w2 ==>
              u[y][x] == if QuadrantOf(h2, w2, y, x) in targets
                         then Recoded(t[y][x], Counterpart(t, h2, w2, g1, y, x), less) else t[y][x]
  {
    seq(2 * h2, y requires 0 <= y < 2 * h2 => seq(2 * w2, x requires 0 <= x < 2 * w2 =>
      if QuadrantOf(h2, w2, y, x) in targets then Recoded(t[y][x], Counterpart(t, h2, w2, g1, y, x), less) else t[y][x]))
  }

  lemma ReferenceStays(t: Image, h2: nat, w2: nat, targets: seq<Phase>, g1: Phase, less: bool, y: nat, x: nat)
    requires Sized(t, 2 * h2, 2 * w2) && InCell(g1) && g1 !in targets && y < 2 * h2 && x < 2 * w2
    ensures Counterpart(Recode(t, h2, w2, targets, g1, less), h2, w2, g1, y, x) == Counterpart(t, h2, w2, g1, y, x)
  {
    assert QuadrantOf(h2, w2, Offset(g1.row, h2) + Within(h2, y), Offset(g1.col, w2) + Within(w2, x)) == g1;
  }

  lemma RecodeBack(t: Image, h2: nat, w2: nat, targets: seq<Phase>, g1: Phase, less: bool)
    requires Sized(t, 2 * h2, 2 * w2) && InCell(g1) && g1 !in targets
    ensures Recode(Recode(t, h2, w2, targets, g1, less), h2, w2, targets, g1, !less) == t
  {
    var u := Recode(t, h2, w2, targets, g1, less);
    var v := Recode(u, h2, w2, targets, g1, !less);
    hide More, Less, Counterpart, QuadrantOf;
    forall y, x | 0 <= y < 2 * h2 && 0 <= x < 2 * w2 ensures v[y][x] == t[y][x] {
      ReferenceStays(t, h2, w2, targets, g1, less, y, x);
      MoreLess(t[y][x], Counterpart(t, h2, w2, g1, y, x));
    }
    SameImage(v, t, 2 * h2, 2 * w2);
  }

  // ---- in place ------------------------------------------------------------------------

  ghost predicate Shows(a: array2<byte>, img: Image)
    reads a
  {
    Sized(img, a.Length0, a.Length1) && forall y, x :: 0 <= y < a.Length0 && 0 <= x < a.Length1 ==> a[y, x] == img[y][x]
  }

  /** One target quadrant, in place, against a copy of the reference quadrant. */
  method RecodeQuadrant(t: array2<byte>, g: array2<byte>, h2: nat, w2: nat, q: Phase, less: bool)
    requires t.Length0 == 2 * h2 && t.Length1 == 2 * w2 && g.Length0 == h2 && g.Length1 == w2 && t != g && InCell(q)
    modifies t
    ensures forall y, x :: 0 <= y < 2 * h2 && 0 <= x < 2 * w2 ==>
              t[y, x] == if QuadrantOf(h2, w2, y, x) == q
                         then Recoded(old(t[y, x]), g[Within(h2, y), Within(w2, x)], less) else old(t[y, x])
  {
    var dy, dx := Offset(q.row, h2), Offset(q.col, w2);
    forall y, x | dy <= y < dy + h2 && dx <= x < dx + w2 {
      t[y, x] := Recoded(t[y, x], g[y - dy, x - dx], less);
    }
  }

  /** The quadrants in `dealt` are recoded, the others are as they were. */
  ghost predicate Partly(t: array2<byte>, img: Image, h2: nat, w2: nat, dealt: seq<Phase>, g1: Phase, less: bool)
    requires Sized(img, 2 * h2, 2 * w2) && InCell(g1) && t.Length0 == 2 * h2 && t.Length1 == 2 * w2
    reads t
  {
    forall y, x :: 0 <= y < 2 * h2 && 0 <= x < 2 * w2 ==>
      t[y, x] == if QuadrantOf(h2, w2, y, x) in dealt
                 then Recoded(img[y][x], Counterpart(img, h2, w2, g1, y, x), less) else img[y][x]
  }

  /** `g` is a copy of the reference quadrant. */
  ghost predicate Reference(g: array2<byte>, img: Image, h2: nat, w2: nat, g1: Phase)
    requires Sized(img, 2 * h2, 2 * w2) && InCell(g1)
    reads g
  {
    && g.Length0 == h2 && g.Length1 == w2
    && forall y, x :: 0 <= y < h2 && 0 <= x < w2 ==> g[y, x] == img[Offset(g1.row, h2) + y][Offset(g1.col, w2) + x]
  }

  method CopyQuadrant(t: array2<byte>, ghost img: Image, h2: nat, w2: nat, g1: Phase) returns (g: array2<byte>)
    requires t.Length0 == 2 * h2 && t.Length1 == 2 * w2 && Shows(t, img) && InCell(g1)
    ensures fresh(g) && Reference(g, img, h2, w2, g1)
  {
    var dy, dx := Offset(g1.row, h2), Offset(g1.col, w2);
    g := new byte[h2, w2];
    forall y, x | 0 <= y < h2 && 0 <= x < w2 {
      g[y, x] := t[dy + y, dx + x];
    }
  }

  /** One more quadrant is dealt with. */
  method RecodeNext(t: array2<byte>, g: array2<byte>, ghost img: Image, h2: nat, w2: nat,
                    ghost dealt: seq<Phase>, q: Phase, ghost g1: Phase, less: bool)
    requires t.Length0 == 2 * h2 && t.Length1 == 2 * w2 && t != g && Sized(img, 2 * h2, 2 * w2)
    requires InCell(q) && InCell(g1) && q !in dealt
    requires Reference(g, img, h2, w2, g1) && Partly(t, img, h2, w2, dealt, g1, less)
    modifies t
    ensures Reference(g, img, h2, w2, g1) && Partly(t, img, h2, w2, dealt + [q], g1, less)
  {
    hide Recoded, QuadrantOf;
    RecodeQuadrant(t, g, h2, w2, q, less);
  }

  /** The whole transform, quadrant after quadrant, is the transform of all of them at once. */
  method RecodeInPlace(t: array2<byte>, ghost img: Image, h2: nat, w2: nat, mode: Mode, pattern: Pattern, less: bool)
    requires t.Length0 == 2 * h2 && t.Length1 == 2 * w2 && Shows(t, img)
    modifies t
    ensures Shows(t, Recode(img, h2, w2, Targets(mode, pattern), PhasesOf(pattern).g1, less))
  {
    hide Targets, PhasesOf, Recoded, Reference, Counterpart, QuadrantOf;
    PhasesInCell(mode, pattern);
    var g1, targets := PhasesOf(pattern).g1, Targets(mode, pattern);
    var g := CopyQuadrant(t, img, h2, w2, g1);
    assert Partly(t, img, h2, w2, targets[..0], g1, less);
    hide Partly;
    var n := 0;
    while n < |targets|
      invariant 0 <= n <= |targets|
      invariant Reference(g, img, h2, w2, g1) && Partly(t, img, h2, w2, targets[..n], g1, less)
    {
      assert targets[n] !in targets[..n];
      RecodeNext(t, g, img, h2, w2, targets[..n], targets[n], g1, less);
      assert targets[..n + 1] == targets[..n] + [targets[n]];
      n := n + 1;
    }
    assert targets[..n] == targets;
    AllRecoded(t, img, h2, w2, targets, g1, less);
  }

  lemma AllRecoded(t: array2<byte>, img: Image, h2: nat, w2: nat, targets: seq<Phase>, g1: Phase, less: bool)
    requires Sized(img, 2 * h2, 2 * w2) && InCell(g1) && t.Length0 == 2 * h2 && t.Length1 == 2 * w2
    requires Partly(t, img, h2, w2, targets, g1, less)
    ensures Shows(t, Recode(img, h2, w2, targets, g1, less))
  {
    hide Recoded, Counterpart, QuadrantOf;
  }

  /** From a mosaic to its tiled form. */
  method TileCfa(m: array2<byte>, ghost img: Image, h2: nat, w2: nat, mode: Mode, pattern: Pattern) returns (t: array2<byte>)
    requires m.Length0 == 2 * h2 && m.Length1 == 2 * w2 && Shows(m, img)
    ensures fresh(t) && Shows(t, Tiled(img, h2, w2, mode, pattern))
  {
    hide Recode, Targets, PhasesOf;
    PhasesInCell(mode, pattern);
    t := new byte[2 * h2, 2 * w2];
    forall y, x | 0 <= y < 2 * h2 && 0 <= x < 2 * w2 {
      t[y, x] := m[Gather(h2, y), Gather(w2, x)];
    }
    RecodeInPlace(t, Tile(img, h2, w2), h2, w2, mode, pattern, true);
  }

  /** And back: the transform is undone in place first. */
  method UntileCfa(t: array2<byte>, ghost img: Image, h2: nat, w2: nat, mode: Mode, pattern: Pattern) returns (m: array2<byte>)
    requires t.Length0 == 2 * h2 && t.Length1 == 2 * w2 && Shows(t, img)
    modifies t
    ensures fresh(m) && Shows(m, Untiled(img, h2, w2, mode, pattern))
  {
    hide Recode, Targets, PhasesOf;
    PhasesInCell(mode, pattern);
    RecodeInPlace(t, img, h2, w2, mode, pattern, false);
    m := new byte[2 * h2, 2 * w2];
    forall y, x | 0 <= y < 2 * h2 && 0 <= x < 2 * w2 {
      m[y, x] := t[Scatter(h2, y), Scatter(w2, x)];
    }
  }

  function Tiled(m: Image, h2: nat, w2: nat, mode: Mode, pattern: Pattern): (t: Image)
    requires Sized(m, 2 * h2, 2 * w2)
    ensures Sized(t, 2 * h2, 2 * w2)
  {
    PhasesInCell(mode, pattern);
    Recode(Tile(m, h2, w2), h2, w2, Targets(mode, pattern), PhasesOf(pattern).g1, true)
  }

  function Untiled(t: Image, h2: nat, w2: nat, mode: Mode, pattern: Pattern): (m: Image)
    requires Sized(t, 2 * h2, 2 * w2)
    ensures Sized(m, 2 * h2, 2 * w2)
  {
    PhasesInCell(mode, pattern);
    Untile(Recode(t, h2, w2, Targets(mode, pattern), PhasesOf(pattern).g1, false), h2, w2)
  }

  /** For every mosaic, mode and pattern: nothing is lost, and every tiled frame is the tiling of one mosaic. */
  lemma TilingIsLossless(img: Image, h2: nat, w2: nat, mode: Mode, pattern: Pattern)
    requires Sized(img, 2 * h2, 2 * w2)
    ensures Untiled(Tiled(img, h2, w2, mode, pattern), h2, w2, mode, pattern) == img
    ensures Tiled(Untiled(img, h2, w2, mode, pattern), h2, w2, mode, pattern) == img
  {
    hide Recode, Targets, PhasesOf, Tile, Untile;
    PhasesInCell(mode, pattern);
    var targets, g1 := Targets(mode, pattern), PhasesOf(pattern).g1;
    RecodeBack(Tile(img, h2, w2), h2, w2, targets, g1, true);
    UntileTile(img, h2, w2);
    var t := Recode(img, h2, w2, targets, g1, false);
    TileUntile(t, h2, w2);
    RecodeBack(img, h2, w2, targets, g1, false);
  }

  // ---- frames as bytes -----------------------------------------------------------------

  /** h rows of w pixels. */
  function Reshape(b: seq<byte>, h: nat, w: nat): (m: Image)
    requires |b| == h * w
    ensures Sized(m, h, w)
  {
    if h == 0 then []
    else
      RowsLeft(h, w);
      [b[..w]] + Reshape(b[w..], h - 1, w)
  }

  lemma RowsLeft(h: nat, w: nat)
    requires h > 0
    ensures h * w == w + (h - 1) * w && (h - 1) * w >= 0
  {
    Distributes(1, h - 1, w);
    AtLeastZero(h - 1, w);
  }

  lemma {:induction false} ReshapeFlat(b: seq<byte>, h: nat, w: nat)
    requires |b| == h * w
    ensures Flatten(Reshape(b, h, w)) == b
  {
    if h > 0 {
      RowsLeft(h, w);
      ReshapeFlat(b[w..], h - 1, w);
      assert b[..w] + b[w..] == b;
    }
  }

  lemma {:induction false} FlatReshape(m: Image, h: nat, w: nat)
    requires Sized(m, h, w)
    ensures |Flatten(m)| == h * w && Reshape(Flatten(m), h, w) == m
  {
    if h > 0 {
      RowsLeft(h, w);
      FlatReshape(m[1..], h - 1, w);
      assert Flatten(m)[..w] == m[0] && Flatten(m)[w..] == Flatten(m[1..]);
    }
  }

  /** The two reshapes: to (h, w), and to the halves. */
  predicate Fits(b: seq<byte>, w: nat, h: nat) { |b| == h * w && |b| == 4 * ((h / 2) * (w / 2)) }

  /** Both are possible for even dimensions, and for no pixels at all. */
  lemma FitsExactly(b: seq<byte>, w: nat, h: nat)
    requires |b| == h * w
    ensures Fits(b, w, h) <==> b == [] || (h % 2 == 0 && w % 2 == 0)
  {
    var h2, w2 := h / 2, w / 2;
    var r, c := h % 2, w % 2;
    assert h == 2 * h2 + r && w == 2 * w2 + c;
    assert h * w == 4 * (h2 * w2) + 2 * (h2 * c) + 2 * (r * w2) + r * c by { Square(h2, w2, r, c); }
    assert h2 * w2 >= 0 by { AtLeastZero(h2, w2); }
    if r == 1 && c == 0 { assert r * w2 == w2 && h2 * c == 0; }
    if r == 0 && c == 1 { assert r * w2 == 0 && h2 * c == h2; }
  }

  lemma Square(a: int, b: int, r: int, c: int)
    ensures (2 * a + r) * (2 * b + c) == 4 * (a * b) + 2 * (a * c) + 2 * (r * b) + r * c
  {
    Distributes(2 * a, r, 2 * b + c);
    assert (2 * a) * (2 * b + c) == 2 * (a * (2 * b + c));
    assert a * (2 * b + c) == 2 * (a * b) + a * c;
    assert r * (2 * b + c) == 2 * (r * b) + r * c;
  }

  /** None: the frame does not have the size it is said to have. */
  function TileBytes(b: seq<byte>, w: nat, h: nat, mode: Mode, pattern: Pattern): Option<seq<byte>> {
    if !Fits(b, w, h) then None
    else if b == [] then Some([])
    else
      FitsExactly(b, w, h);
      Some(Flatten(Tiled(Reshape(b, h, w), h / 2, w / 2, mode, pattern)))
  }

  function UntileBytes(b: seq<byte>, w: nat, h: nat, mode: Mode, pattern: Pattern): Option<seq<byte>> {
    if !Fits(b, w, h) then None
    else if b == [] then Some([])
    else
      FitsExactly(b, w, h);
      Some(Flatten(Untiled(Reshape(b, h, w), h / 2, w / 2, mode, pattern)))
  }

  /** On bytes: accepted exactly when the dimensions are even and right, and then given back bit by bit. */
  lemma BytesAreLossless(b: seq<byte>, w: nat, h: nat, mode: Mode, pattern: Pattern)
    ensures var t := TileBytes(b, w, h, mode, pattern);
            && (t.Some? <==> |b| == h * w && (b == [] || (h % 2 == 0 && w % 2 == 0)))
            && (t.Some? ==> |t.value| == |b| && UntileBytes(t.value, w, h, mode, pattern) == Some(b))
  {
    hide Tiled, Untiled, Reshape, Flatten;
    if |b| == h * w { FitsExactly(b, w, h); }
    if Fits(b, w, h) && b != [] {
      var img := Reshape(b, h, w);
      var t := Tiled(img, h / 2, w / 2, mode, pattern);
      FlatReshape(t, h, w);
      TilingIsLossless(img, h / 2, w / 2, mode, pattern);
      ReshapeFlat(b, h, w);
    }
  }
}
