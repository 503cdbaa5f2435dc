/** CRC-16/AUG-CCITT over bytes, most significant bit first: core-driver/cam_driver/health_boson.py, crc16. */
module BosonCrc {

  type octet = bv8
  type word = bv16

  const POLY: word := 0x1021
  const INIT: word := 0x1D0F

  function Xor(x: word, y: word): word { x ^ y }
  function Up(x: word): word { x << (1 as word) }
  predicate Top(x: word) { x & 0x8000 != 0 }

  /** One bit through the shift register. */
  function Shift(x: word): word { if Top(x) then Xor(Up(x), POLY) else Up(x) }

  function Shift2(x: word): word { Shift(Shift(x)) }
  function Shift4(x: word): word { Shift2(Shift2(x)) }
  function Shift8(x: word): word { Shift4(Shift4(x)) }

  function Raised(b: octet): word { (b as word) << (8 as word) }
  function Widened(b: octet): word { b as word }
  function Pair(b1: octet, b2: octet): word { Xor(Raised(b1), Widened(b2)) }
  function High(x: word): octet { (x >> (8 as word)) as octet }
  function Low(x: word): octet { (x & 0xFF) as octet }

  /** One byte through the register. */
  function Byte(crc: word, b: octet): word { Shift8(Xor(crc, Raised(b))) }

  function Crc(crc: word, s: seq<octet>): word
    decreases |s|
  {
    if s == [] then crc else Crc(Byte(crc, s[0]), s[1..])
  }

  function Crc16(s: seq<octet>): word { Crc(INIT, s) }

  // ---- the register loses nothing, and is linear -------------------------------------------

  lemma XorCancels(x: word, y: word) ensures Xor(x, y) == 0 <==> x == y {}

  lemma XorAssociates(x: word, y: word, z: word) ensures Xor(Xor(x, y), z) == Xor(x, Xor(y, z)) {}

  lemma XorCommutes(x: word, y: word) ensures Xor(x, y) == Xor(y, x) {}

  lemma XorZero(x: word) ensures Xor(x, 0) == x {}

  lemma UpXor(x: word, y: word) ensures Up(Xor(x, y)) == Xor(Up(x), Up(y)) {}

  lemma TopXor(x: word, y: word) ensures Top(Xor(x, y)) == (Top(x) != Top(y)) {}

  lemma PolyMoves(x: word, y: word)
    ensures Xor(Xor(x, POLY), Xor(y, POLY)) == Xor(x, y)
    ensures Xor(Xor(x, POLY), y) == Xor(Xor(x, y), POLY) == Xor(x, Xor(y, POLY))
  {
    hide Xor;
    var p := POLY;
    XorAssociates(x, p, Xor(y, p));
    XorCommutes(p, Xor(y, p));
    XorAssociates(y, p, p);
    XorCancels(p, p);
    XorZero(y);
    XorAssociates(x, p, y);
    XorCommutes(p, y);
    XorAssociates(x, y, p);
  }

  lemma ShiftLinear(x: word, y: word)
    ensures Shift(Xor(x, y)) == Xor(Shift(x), Shift(y))
  {
    hide Xor, Up, Top;
    UpXor(x, y);
    TopXor(x, y);
    PolyMoves(Up(x), Up(y));
  }

  lemma ShiftKernel(x: word)
    requires Shift(x) == 0
    ensures x == 0
  {
  }

  lemma Shift8Linear(x: word, y: word)
    ensures Shift8(Xor(x, y)) == Xor(Shift8(x), Shift8(y))
  {
    hide Xor, Shift4;
    Shift4Linear(x, y);
    Shift4Linear(Shift4(x), Shift4(y));
  }

  lemma Shift4Linear(x: word, y: word)
    ensures Shift4(Xor(x, y)) == Xor(Shift4(x), Shift4(y))
  {
    hide Xor, Shift;
    ShiftLinear(x, y);
    ShiftLinear(Shift(x), Shift(y));
    ShiftLinear(Shift2(x), Shift2(y));
    ShiftLinear(Shift(Shift2(x)), Shift(Shift2(y)));
  }

  lemma Shift8Kernel(x: word)
    requires Shift8(x) == 0
    ensures x == 0
  {
    hide Shift;
    ShiftKernel(Shift(Shift2(Shift4(x))));
    ShiftKernel(Shift2(Shift4(x)));
    ShiftKernel(Shift(Shift4(x)));
    ShiftKernel(Shift4(x));
    ShiftKernel(Shift(Shift2(x)));
    ShiftKernel(Shift2(x));
    ShiftKernel(Shift(x));
    ShiftKernel(x);
  }

  lemma Shift8Injective(x: word, y: word)
    requires Shift8(x) == Shift8(y)
    ensures x == y
  {
    hide Shift8, Xor;
    Shift8Linear(x, y);
    XorCancels(x, y);
    XorCancels(Shift8(x), Shift8(y));
    Shift8Kernel(Xor(x, y));
  }

  /** Eight zero bits shift a low byte up unchanged. */
  lemma Shift8Low(b: octet) ensures Shift8(Widened(b)) == Raised(b) {}

  lemma Shift8Zero() ensures Shift8(0) == 0 {}

  lemma {:induction false} CrcAppend(crc: word, a: seq<octet>, b: seq<octet>)
    ensures Crc(crc, a + b) == Crc(Crc(crc, a), b)
    decreases |a|
  {
    hide Byte;
    if a == [] {
      assert a + b == b;
    } else {
      assert (a + b)[0] == a[0] && (a + b)[1..] == a[1..] + b;
      CrcAppend(Byte(crc, a[0]), a[1..], b);
    }
  }

  lemma {:induction false} CrcTwo(crc: word, b1: octet, b2: octet)
    ensures Crc(crc, [b1, b2]) == Byte(Byte(crc, b1), b2)
  {
    hide Byte;
    assert [b1, b2][1..] == [b2] && [b2][1..] == [];
    assert Crc(Byte(crc, b1), [b2]) == Byte(Byte(crc, b1), b2);
  }

  /** Two bytes enter the register together, as one 16-bit word. */
  lemma PairIn(crc: word, b1: octet, b2: octet)
    ensures Byte(Byte(crc, b1), b2) == Shift8(Shift8(Xor(crc, Pair(b1, b2))))
  {
    hide Shift8, Xor, Raised, Widened;
    Shift8Linear(Xor(crc, Raised(b1)), Widened(b2));
    Shift8Low(b2);
    XorAssociates(crc, Raised(b1), Widened(b2));
  }

  lemma PairUnique(b1: octet, b2: octet, d1: octet, d2: octet)
    requires Pair(b1, b2) == Pair(d1, d2)
    ensures b1 == d1 && b2 == d2
  {
  }

  lemma PairOf(x: word) ensures Pair(High(x), Low(x)) == x {}

  lemma XorInjective(x: word, y: word, z: word)
    requires Xor(x, y) == Xor(x, z)
    ensures y == z
  {
  }

  /** So two different pairs never leave the same remainder ... */
  lemma PairsDiffer(crc: word, b1: octet, b2: octet, d1: octet, d2: octet)
    requires Byte(Byte(crc, b1), b2) == Byte(Byte(crc, d1), d2)
    ensures b1 == d1 && b2 == d2
  {
    hide Byte, Shift8, Xor, Pair;
    PairIn(crc, b1, b2);
    PairIn(crc, d1, d2);
    Shift8Injective(Shift8(Xor(crc, Pair(b1, b2))), Shift8(Xor(crc, Pair(d1, d2))));
    Shift8Injective(Xor(crc, Pair(b1, b2)), Xor(crc, Pair(d1, d2)));
    XorInjective(crc, Pair(b1, b2), Pair(d1, d2));
    PairUnique(b1, b2, d1, d2);
  }

  /** ... and different remainders stay different over equal bytes. */
  lemma {:induction false} DifferenceStays(x: word, y: word, s: seq<octet>)
    requires Crc(x, s) == Crc(y, s)
    ensures x == y
    decreases |s|
  {
    hide Shift8, Xor, Raised;
    if s != [] {
      DifferenceStays(Byte(x, s[0]), Byte(y, s[0]), s[1..]);
      Shift8Injective(Xor(x, Raised(s[0])), Xor(y, Raised(s[0])));
      XorCommutes(x, Raised(s[0]));
      XorCommutes(y, Raised(s[0]));
      XorInjective(Raised(s[0]), x, y);
    }
  }

  /** A body followed by two bytes leaves no remainder exactly when they are its CRC. */
  lemma RemainderZero(body: seq<octet>, b1: octet, b2: octet)
    ensures Crc16(body + [b1, b2]) == 0 <==> b1 == High(Crc16(body)) && b2 == Low(Crc16(body))
  {
    hide Byte, Shift8, Xor, Pair, High, Low;
    var crc := Crc16(body);
    CrcAppend(INIT, body, [b1, b2]);
    CrcTwo(crc, b1, b2);
    PairIn(crc, b1, b2);
    Shift8Zero();
    var w := Xor(crc, Pair(b1, b2));
    if Shift8(Shift8(w)) == 0 {
      Shift8Kernel(Shift8(w));
      Shift8Kernel(w);
    }
    XorCancels(crc, Pair(b1, b2));
    PairOf(crc);
    if Pair(b1, b2) == crc { PairUnique(b1, b2, High(crc), Low(crc)); }
  }

  /** Any damage within two neighbouring bytes, of the body or of its CRC, leaves a remainder. */
  lemma BurstDetected(before: seq<octet>, b1: octet, b2: octet, d1: octet, d2: octet, after: seq<octet>)
    requires Crc16(before + [b1, b2] + after) == 0
    requires b1 != d1 || b2 != d2
    ensures Crc16(before + [d1, d2] + after) != 0
  {
    hide Byte;
    var x := Crc16(before);
    CrcAppend(INIT, before + [b1, b2], after);
    CrcAppend(INIT, before, [b1, b2]);
    CrcAppend(INIT, before + [d1, d2], after);
    CrcAppend(INIT, before, [d1, d2]);
    CrcTwo(x, b1, b2);
    CrcTwo(x, d1, d2);
    if Crc16(before + [d1, d2] + after) == 0 {
      DifferenceStays(Crc(x, [b1, b2]), Crc(x, [d1, d2]), after);
      PairsDiffer(x, b1, b2, d1, d2);
    }
  }
}
