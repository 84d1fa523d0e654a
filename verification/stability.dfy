/**
  The single-study stability-point scan (`simulate_one_pos`): compute the
  five sums over the whole sample, test the full-sample correlation against
  the corridor, then drop observations from the tail while the correlation
  stays inside the corridor and the size is above the minimum.
 */
module StabilityPoint {
  import opened Wrappers
  import opened Statistics

  /** The correlation as a function of the size n and the five sums.  Its
      formula (a quotient with a square root) is left abstract; `None` is an
      undefined, NaN, value for which every comparison is false. */
  type Correlation = (int, Sums) -> Option<real>

  /** Sample-size bounds and the closed corridor [lower, upper]. */
  datatype Config = Config(sizeMin: int, sizeMax: int, lower: real, upper: real)

  /** One study's result: the stability point, or the NA sentinel. */
  datatype StudyResult = NA | Pos(n: int)

  /** The test that rejects a full sample: `corr < lower | corr > upper`. */
  predicate Outside(c: Option<real>, cfg: Config)
  {
    c.Some? && (c.value < cfg.lower || c.value > cfg.upper)
  }

  /** The test that keeps the scan going: `corr >= lower & corr <= upper`. */
  predicate Inside(c: Option<real>, cfg: Config)
  {
    c.Some? && cfg.lower <= c.value && c.value <= cfg.upper
  }

  /** On a defined correlation exactly one of the two tests holds; on an
      undefined one both are false. */
  lemma TestsComplementaryExactlyWhenDefined(c: Option<real>, cfg: Config)
    ensures (Outside(c, cfg) || Inside(c, cfg)) <==> c.Some?
    ensures !(Outside(c, cfg) && Inside(c, cfg))
  {
  }

  /** The gathered sample pair has one value per drawn index, and the
      minimum size is not negative. */
  ghost predicate WellFormed(X: seq<real>, Y: seq<real>, cfg: Config)
  {
    |X| == cfg.sizeMax && |Y| == cfg.sizeMax && 0 <= cfg.sizeMin
  }

  /** The correlation of the prefix [0, m) of the sample. */
  function CorrAt(corr: Correlation, X: seq<real>, Y: seq<real>, m: int): Option<real>
    requires |X| == |Y| && 0 <= m <= |X|
  {
    corr(m, Stats(X[..m], Y[..m]))
  }

  /** `n` is where the downward scan halts: the correlation is inside the
      corridor at every larger size up to the maximum, the scan only went
      below the maximum while above the minimum, and at `n` the loop guard
      (inside and above the minimum) fails. */
  ghost predicate IsStopSize(corr: Correlation, X: seq<real>, Y: seq<real>, cfg: Config, n: int)
    requires |X| == cfg.sizeMax && |Y| == cfg.sizeMax
  {
    && 0 <= n <= cfg.sizeMax
    && (n >= cfg.sizeMin || n == cfg.sizeMax)
    && (forall m :: n < m <= cfg.sizeMax ==> Inside(CorrAt(corr, X, Y, m), cfg))
    && !(Inside(CorrAt(corr, X, Y, n), cfg) && n > cfg.sizeMin)
  }

  /** The result of a study: NA exactly when the full sample fails the
      outside test, otherwise the size where the scan halts. */
  ghost predicate IsStabilityOutcome(corr: Correlation, X: seq<real>, Y: seq<real>, cfg: Config, r: StudyResult)
    requires |X| == cfg.sizeMax && |Y| == cfg.sizeMax
  {
    match r
    case NA => Outside(CorrAt(corr, X, Y, cfg.sizeMax), cfg)
    case Pos(n) => !Outside(CorrAt(corr, X, Y, cfg.sizeMax), cfg) && IsStopSize(corr, X, Y, cfg, n)
  }

  /** At most one result satisfies `IsStabilityOutcome`, so it determines the scan. */
  lemma OutcomeUnique(corr: Correlation, X: seq<real>, Y: seq<real>, cfg: Config, r1: StudyResult, r2: StudyResult)
    requires |X| == cfg.sizeMax && |Y| == cfg.sizeMax
    requires IsStabilityOutcome(corr, X, Y, cfg, r1)
    requires IsStabilityOutcome(corr, X, Y, cfg, r2)
    ensures r1 == r2
  {
    if r1.Pos? && r2.Pos? {
      StopSizeUnique(corr, X, Y, cfg, r1.n, r2.n);
      StopSizeUnique(corr, X, Y, cfg, r2.n, r1.n);
    }
  }

  /** Two stop sizes cannot differ: a larger one would lie in the smaller
      one's inside range and be above the minimum, so the loop would not
      have halted there. */
  lemma StopSizeUnique(corr: Correlation, X: seq<real>, Y: seq<real>, cfg: Config, n1: int, n2: int)
    requires |X| == cfg.sizeMax && |Y| == cfg.sizeMax
    requires IsStopSize(corr, X, Y, cfg, n1)
    requires IsStopSize(corr, X, Y, cfg, n2)
    ensures n1 >= n2
  {
  }

  /** Gathers population values at the drawn positions (`x_pop[index]`). */
  function Gather(pop: seq<real>, index: seq<int>): (g: seq<real>)
    requires forall i :: 0 <= i < |index| ==> 0 <= index[i] < |pop|
    ensures |g| == |index|
    ensures forall i :: 0 <= i < |index| ==> g[i] == pop[index[i]]
  {
    seq(|index|, i requires 0 <= i < |index| => pop[index[i]])
  }

  /** The scan on an already gathered sample pair. */
  method ScanStabilityPoint(corr: Correlation, X: seq<real>, Y: seq<real>, cfg: Config) returns (r: StudyResult)
    requires WellFormed(X, Y, cfg)
    ensures IsStabilityOutcome(corr, X, Y, cfg, r)
  {
    var n := cfg.sizeMax;
    var acc := Accumulate(X, Y);
    assert X[..n] == X && Y[..n] == Y;
    var c := corr(n, acc);
    if Outside(c, cfg) {
      return NA;
    }
    while Inside(c, cfg) && n > cfg.sizeMin
      invariant 0 <= n <= cfg.sizeMax
      invariant n >= cfg.sizeMin || n == cfg.sizeMax
      invariant acc == Stats(X[..n], Y[..n])
      invariant c == CorrAt(corr, X, Y, n)
      invariant !Outside(CorrAt(corr, X, Y, cfg.sizeMax), cfg)
      invariant forall m :: n < m <= cfg.sizeMax ==> Inside(CorrAt(corr, X, Y, m), cfg)
      decreases n
    {
      StatsPrefixShrink(X, Y, n);
      acc := Remove(acc, X[n - 1], Y[n - 1]);
      n := n - 1;
      c := corr(n, acc);
    }
    r := Pos(n);
  }

  /** `simulate_one_pos` given the sampler's draw of `sizeMax` positions. */
  method SimulateOnePos(corr: Correlation, xPop: seq<real>, yPop: seq<real>, index: seq<int>, cfg: Config)
    returns (r: StudyResult)
    requires |index| == cfg.sizeMax && 0 <= cfg.sizeMin
    requires forall i :: 0 <= i < |index| ==> 0 <= index[i] < |xPop| && index[i] < |yPop|
    ensures IsStabilityOutcome(corr, Gather(xPop, index), Gather(yPop, index), cfg, r)
  {
    var X := Gather(xPop, index);
    var Y := Gather(yPop, index);
    r := ScanStabilityPoint(corr, X, Y, cfg);
  }

  /** A full sample strictly outside the corridor yields NA. */
  lemma FullSampleOutsideIsNotFound(corr: Correlation, X: seq<real>, Y: seq<real>, cfg: Config, r: StudyResult)
    requires |X| == cfg.sizeMax && |Y| == cfg.sizeMax
    requires IsStabilityOutcome(corr, X, Y, cfg, r)
    ensures r == NA <==> Outside(CorrAt(corr, X, Y, cfg.sizeMax), cfg)
  {
  }

  /** A stability point lies between the smaller of the two bounds and the maximum. */
  lemma OutcomeBounds(corr: Correlation, X: seq<real>, Y: seq<real>, cfg: Config, r: StudyResult)
    requires |X| == cfg.sizeMax && |Y| == cfg.sizeMax
    requires IsStabilityOutcome(corr, X, Y, cfg, r)
    ensures r.Pos? ==> r.n <= cfg.sizeMax
    ensures r.Pos? ==> r.n >= cfg.sizeMin || r.n >= cfg.sizeMax
    ensures r.Pos? ==> r.n >= 0
  {
  }

  /** Inside the corridor at every size from the maximum down to the
      minimum: the scan runs all the way and returns the minimum. */
  lemma AllInsideReachesMinimum(corr: Correlation, X: seq<real>, Y: seq<real>, cfg: Config, r: StudyResult)
    requires |X| == cfg.sizeMax && |Y| == cfg.sizeMax
    requires cfg.sizeMin <= cfg.sizeMax
    requires forall m :: cfg.sizeMin <= m <= cfg.sizeMax ==> m >= 0 && Inside(CorrAt(corr, X, Y, m), cfg)
    requires IsStabilityOutcome(corr, X, Y, cfg, r)
    ensures r == Pos(cfg.sizeMin)
  {
    assert Inside(CorrAt(corr, X, Y, cfg.sizeMax), cfg);
    assert r.Pos? && r.n >= cfg.sizeMin;
    assert Inside(CorrAt(corr, X, Y, r.n), cfg);
  }

  /** An undefined full-sample correlation passes neither test: the result
      is the maximum size, not NA. */
  lemma UndefinedFullSampleKeepsMaximum(corr: Correlation, X: seq<real>, Y: seq<real>, cfg: Config, r: StudyResult)
    requires |X| == cfg.sizeMax && |Y| == cfg.sizeMax
    requires CorrAt(corr, X, Y, cfg.sizeMax).None?
    requires IsStabilityOutcome(corr, X, Y, cfg, r)
    ensures r == Pos(cfg.sizeMax)
  {
    assert r.Pos?;
    assert !Inside(CorrAt(corr, X, Y, cfg.sizeMax), cfg);
  }

  /** `c` is what the Pearson formula of the scan gives, in exact
      arithmetic, for size n and sums s: undefined when the radicand
      (n*sumSq_X - sum_X^2) * (n*sumSq_Y - sum_Y^2) is not positive, and
      otherwise the value r with r^2 * radicand == numerator^2 carrying the
      sign of the numerator n*sum_XY - sum_X*sum_Y. */
  ghost predicate IsPearson(c: Option<real>, n: int, s: Sums)
  {
    var num := (n as real) * s.xy - s.x * s.y;
    var rad := ((n as real) * s.xx - s.x * s.x) * ((n as real) * s.yy - s.y * s.y);
    if rad <= 0.0 then c.None?
    else c.Some? && c.value * c.value * rad == num * num && (c.value >= 0.0 <==> num >= 0.0)
  }

  /** A positive factor cancels from both sides of an equation. */
  lemma CancelPositive(a: real, b: real, k: real)
    requires k > 0.0 && a * k == b * k
    ensures a == b
  {
    assert (a - b) * k == 0.0;
  }

  /** The exact Pearson value of identical samples, when defined, is 1:
      numerator and radicand factor are then the same variance v >= 0. */
  lemma IdenticalPearsonIsOne(c: Option<real>, X: seq<real>)
    requires IsPearson(c, |X|, Stats(X, X))
    ensures c.Some? ==> c.value == 1.0
  {
    var v := (|X| as real) * Dot(X, X) - Sum(X) * Sum(X);
    VarianceNonNegative(X);
    var st := Stats(X, X);
    var num := (|X| as real) * st.xy - st.x * st.y;
    var rad := ((|X| as real) * st.xx - st.x * st.x) * ((|X| as real) * st.yy - st.y * st.y);
    assert num == v;
    assert rad == v * v;
    assert num * num == rad;
    if c.Some? {
      var rv := c.value;
      // the defined branch of IsPearson, with num >= 0 from VarianceNonNegative
      assert rad > 0.0 && rv * rv * rad == num * num && (rv >= 0.0 <==> num >= 0.0);
      UnitRoot(rv, rad);
    }
  }

  /** A non-negative r with r^2 * k == k for k > 0 is 1. */
  lemma UnitRoot(r: real, k: real)
    requires k > 0.0 && r >= 0.0 && r * r * k == k
    ensures r == 1.0
  {
    assert r * r * k == 1.0 * k;
    CancelPositive(r * r, 1.0, k);
    assert (r - 1.0) * (r + 1.0) == r * r - 1.0;
    assert (r - 1.0) * (r + 1.0) == 0.0 * (r + 1.0);
    assert r + 1.0 > 0.0;
    CancelPositive(r - 1.0, 0.0, r + 1.0);
  }

  /** Identical samples X == Y: if the correlation of the full sample is the
      Pearson value, it is 1 whenever it is defined, which passes the
      outside test for every upper limit below 1, so the study is NA; with
      zero variance it is undefined and the study keeps the maximum size. */
  lemma IdenticalSamplesAreNotFound(corr: Correlation, X: seq<real>, cfg: Config, r: StudyResult)
    requires |X| == cfg.sizeMax
    requires cfg.upper < 1.0
    requires IsPearson(CorrAt(corr, X, X, cfg.sizeMax), cfg.sizeMax, Stats(X, X))
    requires IsStabilityOutcome(corr, X, X, cfg, r)
    ensures CorrAt(corr, X, X, cfg.sizeMax).Some? ==> r == NA
    ensures CorrAt(corr, X, X, cfg.sizeMax).None? ==> r == Pos(cfg.sizeMax)
  {
    IdenticalPearsonIsOne(CorrAt(corr, X, X, cfg.sizeMax), X);
    if CorrAt(corr, X, X, cfg.sizeMax).None? {
      UndefinedFullSampleKeepsMaximum(corr, X, X, cfg, r);
    }
  }

  /** The reported size may itself be outside the corridor.  The sample
      (0, 0), (1, 1), (0, 1) has Pearson correlation 1/2 at size 3, 1 at
      size 2 and is undefined at size 1; with corridor [0.4, 0.6] and
      minimum 0 the scan steps down once and stops at size 2, where the
      correlation is outside. */
  lemma ReturnedSizeMayBeOutside(r: StudyResult)
    requires IsStabilityOutcome(WitnessCorrelation, [0.0, 1.0, 0.0], [0.0, 1.0, 1.0], Config(0, 3, 0.4, 0.6), r)
    ensures r == Pos(2)
    ensures Outside(CorrAt(WitnessCorrelation, [0.0, 1.0, 0.0], [0.0, 1.0, 1.0], 2), Config(0, 3, 0.4, 0.6))
    ensures forall m :: 0 < m <= 3 ==>
      IsPearson(CorrAt(WitnessCorrelation, [0.0, 1.0, 0.0], [0.0, 1.0, 1.0], m), m,
                Stats([0.0, 1.0, 0.0][..m], [0.0, 1.0, 1.0][..m]))
  {
    var X: seq<real> := [0.0, 1.0, 0.0];
    var Y: seq<real> := [0.0, 1.0, 1.0];
    var cfg := Config(0, 3, 0.4, 0.6);
    assert X[..3] == X && Y[..3] == Y;
    assert X[..2] == [0.0, 1.0] && Y[..2] == [0.0, 1.0];
    assert X[..1] == [0.0] && Y[..1] == [0.0];
    assert Stats(X[..3], Y[..3]) == Sums(1.0, 2.0, 1.0, 1.0, 2.0);
    assert Stats(X[..2], Y[..2]) == Sums(1.0, 1.0, 1.0, 1.0, 1.0);
    assert Stats(X[..1], Y[..1]) == Sums(0.0, 0.0, 0.0, 0.0, 0.0);
    assert CorrAt(WitnessCorrelation, X, Y, 3) == Some(0.5);
    assert CorrAt(WitnessCorrelation, X, Y, 2) == Some(1.0);
    assert IsStopSize(WitnessCorrelation, X, Y, cfg, 2);
    OutcomeUnique(WitnessCorrelation, X, Y, cfg, r, Pos(2));
  }

  /** The Pearson correlation of the prefixes of the sample used by
      `ReturnedSizeMayBeOutside`, as a function of the size. */
  function WitnessCorrelation(n: int, s: Sums): Option<real>
  {
    if n == 3 then Some(0.5) else if n == 2 then Some(1.0) else None
  }
}
