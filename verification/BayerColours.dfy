/** What is in a tiled frame, colour by colour: core-driver/cam_driver/bayer_tile.py. */
module BayerColours {
  import opened Common
  import opened BayerTile

  /** The cell's colours in reading order. */
  function Name(p: Pattern): (s: string)
    ensures |s| == 4
  {
    match p
    case RGGB => "rggb"
    case GRBG => "grbg"
    case GBRG => "gbrg"
    case BGGR => "bggr"
  }

  function ColourAt(p: Pattern, r: nat, c: nat): char
    requires r < 2 && c < 2
  {
    Name(p)[2 * r + c]
  }

  /** The reference is the first green in reading order. */
  predicate FirstGreen(p: Pattern, r: nat, c: nat)
    requires r < 2 && c < 2
  {
    ColourAt(p, r, c) == 'g' && forall n :: 0 <= n < 2 * r + c ==> Name(p)[n] != 'g'
  }

  /** Stored as a difference: the other green, and with the full transform red and blue. */
  predicate AsDifference(mode: Mode, p: Pattern, r: nat, c: nat)
    requires r < 2 && c < 2
  {
    !FirstGreen(p, r, c) && (mode.Rct? || (mode.GreenDiff? && ColourAt(p, r, c) == 'g'))
  }

  /** A difference in a byte: grey for none, one level up or down for each, and around the end of the range. */
  predicate Difference(stored: byte, p: byte, g: byte) {
    && (-128 <= p - g < 128 ==> stored == 128 + (p - g))
    && (p - g >= 128 ==> stored == 128 + (p - g) - 256)
    && (p - g < -128 ==> stored == 128 + (p - g) + 256)
  }

  lemma LessIs(p: byte, g: byte) ensures Difference(Less(p, g), p, g) {}

  lemma PlacesAre(mode: Mode, pat: Pattern, r: nat, c: nat)
    requires r < 2 && c < 2
    ensures FirstGreen(pat, r, c) <==> PhasesOf(pat).g1 == Phase(r, c)
    ensures AsDifference(mode, pat, r, c) <==> Phase(r, c) in Targets(mode, pat)
  {
    assert Name(pat)[0] == 'g' || Name(pat)[1] == 'g';
  }

  lemma QuadrantPlace(h2: nat, w2: nat, i: nat, r: nat, k: nat, c: nat)
    requires i < h2 && r < 2 && k < w2 && c < 2
    ensures QuadrantOf(h2, w2, Offset(r, h2) + i, Offset(c, w2) + k) == Phase(r, c)
    ensures Within(h2, Offset(r, h2) + i) == i && Within(w2, Offset(c, w2) + k) == k
  {
  }

  /**
   * Every pixel of a tiled frame, from the mosaic and the colours' names alone. Quadrant (r, c) shows the
   * pixels at (r, c) of their cells: as they are, or each less the first green of its cell.
   */
  lemma TiledPixel(m: Image, h2: nat, w2: nat, mode: Mode, pat: Pattern, i: nat, r: nat, k: nat, c: nat, gr: nat, gc: nat)
    requires Sized(m, 2 * h2, 2 * w2) && i < h2 && r < 2 && k < w2 && c < 2
    requires gr < 2 && gc < 2 && FirstGreen(pat, gr, gc)
    ensures Offset(r, h2) + i < 2 * h2 && Offset(c, w2) + k < 2 * w2
    ensures var stored := Tiled(m, h2, w2, mode, pat)[Offset(r, h2) + i][Offset(c, w2) + k];
            var p := m[2 * i + r][2 * k + c];
            if AsDifference(mode, pat, r, c) then Difference(stored, p, m[2 * i + gr][2 * k + gc]) else stored == p
  {
    hide Less, Difference, AsDifference, FirstGreen, PhasesOf, Targets, QuadrantOf, Within;
    PlacesAre(mode, pat, r, c);
    PlacesAre(mode, pat, gr, gc);
    PhasesInCell(mode, pat);
    QuadrantPlace(h2, w2, i, r, k, c);
    TileMoves(m, h2, w2, i, r, k, c);
    TileMoves(m, h2, w2, i, gr, k, gc);
    LessIs(m[2 * i + r][2 * k + c], m[2 * i + gr][2 * k + gc]);
  }

  lemma GreenAt(pat: Pattern) returns (r: nat, c: nat)
    ensures r < 2 && c < 2 && FirstGreen(pat, r, c)
  {
    r, c := 0, if pat.RGGB? || pat.BGGR? then 1 else 0;
    PlacesAre(Plain, pat, r, c);
  }

  /** So a grey mosaic leaves nothing but mid-grey where differences are stored. */
  lemma GreyIsFlat(m: Image, h2: nat, w2: nat, mode: Mode, pat: Pattern, i: nat, r: nat, k: nat, c: nat)
    requires Sized(m, 2 * h2, 2 * w2) && i < h2 && r < 2 && k < w2 && c < 2
    requires m[2 * i][2 * k] == m[2 * i][2 * k + 1] == m[2 * i + 1][2 * k] == m[2 * i + 1][2 * k + 1]
    ensures Offset(r, h2) + i < 2 * h2 && Offset(c, w2) + k < 2 * w2
    ensures AsDifference(mode, pat, r, c) ==> Tiled(m, h2, w2, mode, pat)[Offset(r, h2) + i][Offset(c, w2) + k] == 128
  {
    hide AsDifference, FirstGreen, Tiled;
    var gr, gc := GreenAt(pat);
    TiledPixel(m, h2, w2, mode, pat, i, r, k, c, gr, gc);
    assert m[2 * i + r][2 * k + c] == m[2 * i + gr][2 * k + gc];
  }
}
