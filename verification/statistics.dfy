/**
  The five running sums ("sufficient statistics") from which the stability
  scan recomputes a Pearson correlation without revisiting the data.
  Data values are exact reals, so the sums are exact.
 */
module Statistics {

  /** sum of X, sum of Y, sum of X*Y, sum of X*X and sum of Y*Y. */
  datatype Sums = Sums(x: real, y: real, xy: real, xx: real, yy: real)

  /** The accumulators as they are initialised before the first loop. */
  const Zero := Sums(0.0, 0.0, 0.0, 0.0, 0.0)

  /** Reference sum of a sequence, computed from scratch front to back. */
  function Sum(s: seq<real>): real
  {
    if |s| == 0 then 0.0 else s[0] + Sum(s[1..])
  }

  /** Reference sum of pointwise products, computed from scratch. */
  function Dot(a: seq<real>, b: seq<real>): real
    requires |a| == |b|
  {
    if |a| == 0 then 0.0 else a[0] * b[0] + Dot(a[1..], b[1..])
  }

  /** The five sums over a whole pair of equal-length samples. */
  function Stats(X: seq<real>, Y: seq<real>): Sums
    requires |X| == |Y|
  {
    Sums(Sum(X), Sum(Y), Dot(X, Y), Dot(X, X), Dot(Y, Y))
  }

  /** Adds the contribution of one observation (x, y) to every accumulator. */
  function Add(s: Sums, x: real, y: real): Sums
  {
    Sums(s.x + x, s.y + y, s.xy + x * y, s.xx + x * x, s.yy + y * y)
  }

  /** Subtracts the contribution of one observation: the inverse of `Add`. */
  function Remove(s: Sums, x: real, y: real): (r: Sums)
    ensures Add(r, x, y) == s
  {
    Sums(s.x - x, s.y - y, s.xy - x * y, s.xx - x * x, s.yy - y * y)
  }

  /** Appending a value at the end adds it to the from-scratch sum. */
  lemma {:induction false} SumAppend(s: seq<real>, v: real)
    ensures Sum(s + [v]) == Sum(s) + v
  {
    if |s| == 0 {
      assert s + [v] == [v];
      assert [v][1..] == [];
    } else {
      assert (s + [v])[1..] == s[1..] + [v];
      SumAppend(s[1..], v);
    }
  }

  /** Appending a pair at the end adds its product to the from-scratch dot product. */
  lemma {:induction false} DotAppend(a: seq<real>, b: seq<real>, u: real, v: real)
    requires |a| == |b|
    ensures Dot(a + [u], b + [v]) == Dot(a, b) + u * v
  {
    if |a| == 0 {
      assert a + [u] == [u];
      assert b + [v] == [v];
      assert [u][1..] == [];
      assert [v][1..] == [];
    } else {
      assert (a + [u])[1..] == a[1..] + [u];
      assert (b + [v])[1..] == b[1..] + [v];
      DotAppend(a[1..], b[1..], u, v);
    }
  }

  /** Incremental update agrees with recomputation: appending one observation
      to the samples is the same as `Add` on their sums. */
  lemma StatsAppend(X: seq<real>, Y: seq<real>, x: real, y: real)
    requires |X| == |Y|
    ensures Stats(X + [x], Y + [y]) == Add(Stats(X, Y), x, y)
  {
    SumAppend(X, x);
    SumAppend(Y, y);
    DotAppend(X, Y, x, y);
    DotAppend(X, X, x, x);
    DotAppend(Y, Y, y, y);
  }

  /** Growing the prefix [0, i) by element i is one `Add` (the first loop). */
  lemma StatsPrefixGrow(X: seq<real>, Y: seq<real>, i: int)
    requires |X| == |Y| && 0 <= i < |X|
    ensures Stats(X[..i + 1], Y[..i + 1]) == Add(Stats(X[..i], Y[..i]), X[i], Y[i])
  {
    assert X[..i + 1] == X[..i] + [X[i]];
    assert Y[..i + 1] == Y[..i] + [Y[i]];
    StatsAppend(X[..i], Y[..i], X[i], Y[i]);
  }

  /** Shrinking the prefix [0, n) by its last element is one `Remove`
      (the tail removal of the scan). */
  lemma StatsPrefixShrink(X: seq<real>, Y: seq<real>, n: int)
    requires |X| == |Y| && 0 < n <= |X|
    ensures Stats(X[..n - 1], Y[..n - 1]) == Remove(Stats(X[..n], Y[..n]), X[n - 1], Y[n - 1])
  {
    StatsPrefixGrow(X, Y, n - 1);
  }

  /** A real square is never negative. */
  lemma SquareNonNegative(d: real)
    ensures d * d >= 0.0
  {
    if d < 0.0 {
      assert d * d == (-d) * (-d);
      assert -d > 0.0;
    }
  }

  /** The spread of a sample around any point a, sum of (X[i] - a)^2,
      written with the sums: never negative. */
  lemma {:induction false} SpreadAroundNonNegative(X: seq<real>, a: real)
    ensures Dot(X, X) - 2.0 * a * Sum(X) + (|X| as real) * a * a >= 0.0
  {
    if |X| > 0 {
      var R := X[1..];
      SpreadAroundNonNegative(R, a);
      SquareNonNegative(X[0] - a);
      assert Dot(X, X) == X[0] * X[0] + Dot(R, R);
      assert Sum(X) == X[0] + Sum(R);
      assert Dot(X, X) - 2.0 * a * Sum(X) + (|X| as real) * a * a
          == (X[0] - a) * (X[0] - a) + (Dot(R, R) - 2.0 * a * Sum(R) + (|R| as real) * a * a);
    }
  }

  /** n times the sum of squares is at least the squared sum, so the
      radicand factors of the correlation formula are never negative in
      exact arithmetic. */
  lemma {:induction false} VarianceNonNegative(X: seq<real>)
    ensures (|X| as real) * Dot(X, X) - Sum(X) * Sum(X) >= 0.0
  {
    if |X| > 0 {
      var R := X[1..];
      var m := |R| as real;
      VarianceNonNegative(R);
      SpreadAroundNonNegative(R, X[0]);
      assert Dot(X, X) == X[0] * X[0] + Dot(R, R);
      assert Sum(X) == X[0] + Sum(R);
      assert (|X| as real) * Dot(X, X) - Sum(X) * Sum(X)
          == (m * Dot(R, R) - Sum(R) * Sum(R))
           + (Dot(R, R) - 2.0 * X[0] * Sum(R) + m * X[0] * X[0]);
    }
  }

  /** The first loop: accumulates the five sums over the whole sample. */
  method Accumulate(X: seq<real>, Y: seq<real>) returns (acc: Sums)
    requires |X| == |Y|
    ensures acc == Stats(X, Y)
  {
    acc := Zero;
    var i := 0;
    while i < |X|
      invariant 0 <= i <= |X|
      invariant acc == Stats(X[..i], Y[..i])
    {
      StatsPrefixGrow(X, Y, i);
      acc := Add(acc, X[i], Y[i]);
      i := i + 1;
    }
    assert X[..i] == X && Y[..i] == Y;
  }
}
