/**
  The batch driver (`simulate_pos`): run `nStudies` studies, each on a fresh
  draw of positions from the identity index domain, store each result at
  its trial position, and poll for an abort every 5000 trials.  The random
  sampler and the abort query are oracles: `draws[k]` is the sampler's
  answer for trial k and `abortAt(k)` is what the abort query answers when
  polled at trial k.
 */
module StudyBatch {
  import opened StabilityPoint

  /** R's missing-integer marker, the NA a study stores in the result vector. */
  const NA_INTEGER: int := -2147483648

  /** Largest value of a 32-bit C int (the type of the size parameters). */
  const INT_MAX: int := 2147483647

  /** The abort query is polled only at trials that are multiples of this. */
  const ABORT_CADENCE: int := 5000

  /** The whole-batch result on abort: the one-element vector [-1]. */
  const ABORTED: seq<int> := [-1]

  /** The integer a study result occupies in the result vector. */
  function Encode(r: StudyResult): (v: int)
    requires r.Pos? ==> 0 <= r.n <= INT_MAX
    ensures Decode(v) == r
    ensures NA_INTEGER <= v <= INT_MAX
    ensures v != -1
  {
    match r
    case NA => NA_INTEGER
    case Pos(n) => n
  }

  /** Reads a result-vector cell back as a study result. */
  function Decode(v: int): StudyResult
  {
    if v == NA_INTEGER then NA else Pos(v)
  }

  /** The shared index domain 0, 1, ..., npop - 1 built once per batch. */
  function IdentityDomain(npop: nat): (d: seq<int>)
    ensures |d| == npop
    ensures forall i :: 0 <= i < npop ==> d[i] == i
    ensures forall v :: v in d ==> 0 <= v < npop
    ensures forall v :: 0 <= v < npop ==> v in d
  {
    var d: seq<int> := seq(npop, (i: int) => i);
    assert forall v :: 0 <= v < npop ==> v in d by {
      forall v | 0 <= v < npop
        ensures v in d
      {
        assert d[v] == v;
      }
    }
    assert forall v :: v in d ==> 0 <= v < npop by {
      forall v | v in d
        ensures 0 <= v < npop
      {
        var i :| 0 <= i < |d| && d[i] == v;
      }
    }
    d
  }

  /** The sampler's answers: for every trial, `size` positions, each taken
      from `domain` (with or without repeats). */
  ghost predicate AllDrawsFrom(draws: seq<seq<int>>, domain: seq<int>, size: int)
  {
    forall k :: 0 <= k < |draws| ==>
      |draws[k]| == size && forall i :: 0 <= i < |draws[k]| ==> draws[k][i] in domain
  }

  /** Some poll before trial `nStudies` is answered with an abort. */
  ghost predicate AbortPolled(nStudies: int, abortAt: int -> bool)
  {
    exists k :: 0 <= k < nStudies && k % ABORT_CADENCE == 0 && abortAt(k)
  }

  /** A completed batch: one cell per trial, in trial order, each the
      result of that trial's study. */
  ghost predicate IsCompletedBatch(corr: Correlation, xPop: seq<real>, yPop: seq<real>, cfg: Config,
                                   draws: seq<seq<int>>, ret: seq<int>)
    requires |xPop| == |yPop| && 0 <= cfg.sizeMax
    requires AllDrawsFrom(draws, IdentityDomain(|xPop|), cfg.sizeMax)
  {
    && |ret| == |draws|
    && forall k :: 0 <= k < |draws| ==>
         IsStabilityOutcome(corr, Gather(xPop, draws[k]), Gather(yPop, draws[k]), cfg, Decode(ret[k]))
  }

  /** No study result encodes as -1, so a completed batch is never mistaken
      for the abort marker, not even a batch of one study. */
  lemma CompletedIsNotAborted(corr: Correlation, xPop: seq<real>, yPop: seq<real>, cfg: Config,
                              draws: seq<seq<int>>, ret: seq<int>)
    requires |xPop| == |yPop| && 0 <= cfg.sizeMax
    requires AllDrawsFrom(draws, IdentityDomain(|xPop|), cfg.sizeMax)
    requires IsCompletedBatch(corr, xPop, yPop, cfg, draws, ret)
    ensures ret != ABORTED
  {
    if |draws| == 1 {
      var X := Gather(xPop, draws[0]);
      var Y := Gather(yPop, draws[0]);
      assert IsStabilityOutcome(corr, X, Y, cfg, Decode(ret[0]));
      assert ret[0] != -1;
    }
  }

  /** Every cell of a completed batch is NA or a size between the smaller
      bound and the maximum. */
  lemma CompletedCellsInRange(corr: Correlation, xPop: seq<real>, yPop: seq<real>, cfg: Config,
                              draws: seq<seq<int>>, ret: seq<int>, k: int)
    requires |xPop| == |yPop| && 0 <= cfg.sizeMax
    requires AllDrawsFrom(draws, IdentityDomain(|xPop|), cfg.sizeMax)
    requires IsCompletedBatch(corr, xPop, yPop, cfg, draws, ret)
    requires 0 <= k < |ret|
    ensures ret[k] == NA_INTEGER || (ret[k] <= cfg.sizeMax && (ret[k] >= cfg.sizeMin || ret[k] == cfg.sizeMax))
  {
    var X := Gather(xPop, draws[k]);
    var Y := Gather(yPop, draws[k]);
    assert IsStabilityOutcome(corr, X, Y, cfg, Decode(ret[k]));
  }

  /** `simulate_pos`: the abort marker exactly when a poll is answered with
      an abort, otherwise one result per trial in trial order. */
  method SimulatePos(corr: Correlation, xPop: seq<real>, yPop: seq<real>, nStudies: nat, cfg: Config,
                     draws: seq<seq<int>>, abortAt: int -> bool)
    returns (ret: seq<int>)
    requires |xPop| == |yPop|
    requires 0 <= cfg.sizeMin && 0 <= cfg.sizeMax <= INT_MAX
    requires |draws| == nStudies
    requires AllDrawsFrom(draws, IdentityDomain(|xPop|), cfg.sizeMax)
    ensures ret == ABORTED <==> AbortPolled(nStudies, abortAt)
    ensures !AbortPolled(nStudies, abortAt) ==> IsCompletedBatch(corr, xPop, yPop, cfg, draws, ret)
  {
    ret := seq(nStudies, _ => 0);
    // the domain every draw is taken from (see the requires on `draws`)
    var indexPop := IdentityDomain(|xPop|);
    var k := 0;
    while k < nStudies
      invariant 0 <= k <= nStudies
      invariant |ret| == nStudies
      invariant forall j :: 0 <= j < k && j % ABORT_CADENCE == 0 ==> !abortAt(j)
      invariant forall j :: 0 <= j < k ==>
        IsStabilityOutcome(corr, Gather(xPop, draws[j]), Gather(yPop, draws[j]), cfg, Decode(ret[j]))
    {
      if k % ABORT_CADENCE == 0 {
        if abortAt(k) {
          return ABORTED;
        }
      }
      var r := SimulateOnePos(corr, xPop, yPop, draws[k], cfg);
      OutcomeBounds(corr, Gather(xPop, draws[k]), Gather(yPop, draws[k]), cfg, r);
      ret := ret[k := Encode(r)];
      k := k + 1;
    }
    CompletedIsNotAborted(corr, xPop, yPop, cfg, draws, ret);
  }
}
