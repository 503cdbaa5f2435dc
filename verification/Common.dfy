/** Types and sequence facts shared by the models of the individual source files. */
module Common {

  /** One octet of a capture file, a USB payload or an image plane. */
  type byte = x: int | 0 <= x < 256

  datatype Option<+T> = None | Some(value: T)

  /** The elements of all the pieces, in order. */
  function Flatten<T>(pieces: seq<seq<T>>): seq<T> {
    if pieces == [] then [] else pieces[0] + Flatten(pieces[1..])
  }

  lemma Associative<T>(a: seq<T>, b: seq<T>, c: seq<T>)
    ensures (a + b) + c == a + (b + c)
  {
  }

  /** `a` is obtained from `b` by leaving elements out: order kept, nothing added or repeated. */
  ghost predicate Subsequence<T>(a: seq<T>, b: seq<T>)
    decreases |b|
  {
    a == [] || (b != [] && (Subsequence(a, b[..|b| - 1])
                            || (a[|a| - 1] == b[|b| - 1] && Subsequence(a[..|a| - 1], b[..|b| - 1]))))
  }

  lemma {:induction false} SubsequenceSkip<T>(a: seq<T>, b: seq<T>, x: T)
    requires Subsequence(a, b)
    ensures Subsequence(a, b + [x])
  {
    assert (b + [x])[..|b|] == b;
  }

  lemma {:induction false} SubsequenceTake<T>(a: seq<T>, b: seq<T>, x: T)
    requires Subsequence(a, b)
    ensures Subsequence(a + [x], b + [x])
  {
    assert (b + [x])[..|b|] == b;
    assert (a + [x])[..|a|] == a;
  }

  lemma {:induction false} SubsequenceAppend<T>(a: seq<T>, b: seq<T>, x: seq<T>, y: seq<T>)
    requires Subsequence(a, b) && Subsequence(x, y)
    ensures Subsequence(a + x, b + y)
    decreases |y|
  {
    if y == [] {
      assert a + x == a && b + y == b;
    } else {
      var m, n := |x| - 1, |y| - 1;
      assert b + y == (b + y[..n]) + [y[n]];
      if Subsequence(x, y[..n]) {
        SubsequenceAppend(a, b, x, y[..n]);
        SubsequenceSkip(a + x, b + y[..n], y[n]);
      } else {
        assert a + x == (a + x[..m]) + [x[m]];
        SubsequenceAppend(a, b, x[..m], y[..n]);
        SubsequenceTake(a + x[..m], b + y[..n], y[n]);
      }
    }
  }

  lemma {:induction false} SubsequenceTransitive<T>(a: seq<T>, b: seq<T>, c: seq<T>)
    requires Subsequence(a, b) && Subsequence(b, c)
    ensures Subsequence(a, c)
    decreases |c|
  {
    if a != [] {
      var m, n := |b| - 1, |c| - 1;
      if Subsequence(b, c[..n]) {
        SubsequenceTransitive(a, b, c[..n]);
      } else if Subsequence(a, b[..m]) {
        SubsequenceTransitive(a, b[..m], c[..n]);
      } else {
        SubsequenceTransitive(a[..|a| - 1], b[..m], c[..n]);
      }
    }
  }

  lemma {:induction false} SubsequenceMember<T>(a: seq<T>, b: seq<T>, x: T)
    requires Subsequence(a, b) && x in a
    ensures x in b
    decreases |b|
  {
    var m, n := |a| - 1, |b| - 1;
    if Subsequence(a, b[..n]) {
      SubsequenceMember(a, b[..n], x);
    } else if x != a[m] {
      assert x in a[..m];
      SubsequenceMember(a[..m], b[..n], x);
    }
  }

  /** A subsequence of the same length is the whole sequence. */
  lemma {:induction false} SubsequenceLength<T>(a: seq<T>, b: seq<T>)
    requires Subsequence(a, b)
    ensures |a| <= |b|
    ensures |a| == |b| ==> a == b
    decreases |b|
  {
    if a != [] {
      var prefix := b[..|b| - 1];
      if Subsequence(a, prefix) {
        SubsequenceLength(a, prefix);
      } else {
        SubsequenceLength(a[..|a| - 1], prefix);
        assert a == a[..|a| - 1] + [a[|a| - 1]];
        assert b == prefix + [b[|b| - 1]];
      }
    }
  }

  lemma Distributes(a: int, b: int, x: int) ensures (a + b) * x == a * x + b * x {}

  lemma AtLeastZero(a: int, x: int) requires a >= 0 && x >= 0 ensures a * x >= 0 {}

  lemma Grows(a: int, b: int, k: nat)
    requires a <= b
    ensures a * k <= b * k
  {
    Distributes(a, b - a, k);
    AtLeastZero(b - a, k);
  }

  /** Multiples of a span are at least a span apart. */
  lemma CyclesApart(a: nat, b: nat, span: int)
    requires a < b && span >= 0
    ensures b * span >= a * span + span
  {
    var k := b - a;
    assert b * span == a * span + k * span by { Distributes(a, k, span); }
    assert k * span >= span by { Distributes(1, k - 1, span); AtLeastZero(k - 1, span); }
  }
}
