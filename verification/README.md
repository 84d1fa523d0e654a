# fastpos stability-point core, modelled in Dafny

This project models the C++ core of the fastpos R package (`src/rcpparma.cpp`),
which estimates the *point of stability* of a correlation: the sample size from
which a running Pearson correlation stays inside a *corridor of stability*
`[lower_limit, upper_limit]`.

- `simulate_one_pos` draws `sample_size_max` positions, gathers the two
  samples `X`, `Y`, accumulates five running sums (sum of X, of Y, of X*Y, of
  X*X, of Y*Y), and computes the correlation of the full sample. If that
  correlation is strictly outside the corridor the study is `NA`. Otherwise it
  drops observations from the tail, updating the sums incrementally, while the
  correlation stays inside the corridor and `n > sample_size_min`, and returns
  the `n` at which it stops.
- `simulate_pos` builds the index domain `0 .. npop-1`, runs `n_studies`
  studies, stores each result at its trial position, and every 5000 trials
  polls for an abort, returning the one-element vector `[-1]` if one is
  signalled.

Files:

- `wrappers.dfy` — `Option`, whose `None` stands for an undefined (NaN) correlation.
- `statistics.dfy` — module `Statistics`: the `Sums` record, from-scratch
  reference sums (`Sum`, `Dot`, `Stats`), the incremental `Add`/`Remove`
  updates, the lemmas tying them together, and the first accumulation loop.
- `stability.dfy` — module `StabilityPoint`: the two corridor tests exactly as
  written (`Outside` for `corr < lo | corr > hi`, `Inside` for
  `corr >= lo & corr <= hi`), a declarative description of a study's result
  (`IsStabilityOutcome`), the scan itself, and the properties of its result.
- `batch.dfy` — module `StudyBatch`: the integer encoding of results (`NA_INTEGER`),
  the identity index domain, and the batch loop with its abort polling.

Modelling choices:

- Data values are `real`, so the five sums are exact; the source's
  single-precision `float` accumulators are not modelled.
- The correlation formula is left abstract: a parameter
  `corr: (int, Sums) -> Option<real>`, called with `n` and the five sums just
  as the source computes it from them. `None` models a NaN result, for which
  both the outside test and the inside test are false.
- The random sampler is an oracle: a study receives its draw (a sequence of
  `sample_size_max` positions) as input, and the batch receives one draw per
  trial. The abort query is an oracle `abortAt(k)`: its answer when polled at
  trial `k`.
- A study's result is `StudyResult = NA | Pos(n)`; the batch returns the
  integer vector the source returns, with `NA` stored as R's `NA_INTEGER`
  (-2147483648) and an abort as `[-1]`.
- The result of a study is described declaratively (`IsStabilityOutcome`),
  and `OutcomeUnique` shows that `IsStabilityOutcome` admits exactly one result, so
  the scan's contract pins its result down completely.

Behaviour of the code worth knowing:

- Identical samples (`X == Y`) with non-zero variance have exact Pearson
  correlation 1, which passes the outside test at `src/rcpparma.cpp:82` whenever
  `upper_limit < 1`, so the study is `NA`; with zero variance the correlation is
  undefined and the study keeps `sample_size_max` (`IdenticalSamplesAreNotFound`).
- `sample_size_min = 0` is accepted, and the scan of `src/rcpparma.cpp:85` can
  then reach size 0.
- When `sample_size_max < sample_size_min`, the guard at `src/rcpparma.cpp:85`
  fails at once and a non-NA result is `sample_size_max` (the result is NA when
  the full-sample correlation fails the test at line 82), so the bound proved is
  `min(sample_size_min, sample_size_max) <= n <= sample_size_max`.

## Model

| member | source | states |
|---|---|---|
| Statistics.Remove | src/rcpparma.cpp:87-97 | subtracting an observation's contribution is the exact inverse of adding it: adding the observation back restores the previous sums |
| Statistics.SumAppend | src/rcpparma.cpp:62-67 | the running sum after appending a value equals the from-scratch sum of the longer sequence |
| Statistics.DotAppend | src/rcpparma.cpp:69-74 | the running sum of products after appending a pair equals the from-scratch sum of products of the longer sequences |
| Statistics.StatsAppend | src/rcpparma.cpp:62-75 | one incremental update of all five accumulators equals recomputing them from scratch over the extended samples |
| Statistics.StatsPrefixGrow | src/rcpparma.cpp:62-75 | extending the prefix [0, i) by element i is one incremental update of the five sums |
| Statistics.StatsPrefixShrink | src/rcpparma.cpp:87-99 | removing element n-1 from the accumulators of prefix [0, n) gives exactly the from-scratch sums of prefix [0, n-1) |
| Statistics.VarianceNonNegative | src/rcpparma.cpp:77-79 | each factor n*sumSq - sum^2 of the radicand is non-negative in exact arithmetic (n*sum of squares is at least the squared sum), so the radicand of the correlation formula is never negative |
| Statistics.Accumulate | src/rcpparma.cpp:56-75 | after the first loop the five accumulators equal the from-scratch sums over the whole sample |
| StabilityPoint.TestsComplementaryExactlyWhenDefined | src/rcpparma.cpp:82-85 | the outside test and the inside test never both hold, and one of them holds exactly when the correlation is defined (not NaN) |
| StabilityPoint.Gather | src/rcpparma.cpp:53-54 | the gathered sample has one value per drawn position, the population value at that position |
| StabilityPoint.ScanStabilityPoint | src/rcpparma.cpp:56-107 | the result is NA exactly when the full-sample correlation is strictly outside the corridor; otherwise it is the size where the downward scan halts: every larger size up to the maximum is inside the corridor and at the returned size the loop guard fails; every `X[n-1]`, `Y[n-1]` read is in bounds |
| StabilityPoint.SimulateOnePos | src/rcpparma.cpp:41-108 | a study on the samples gathered at the drawn positions returns the unique result `IsStabilityOutcome` admits |
| StabilityPoint.StopSizeUnique | src/rcpparma.cpp:85-107 | the halting size is unique: no two sizes both satisfy the stopping rule |
| StabilityPoint.OutcomeUnique | src/rcpparma.cpp:82-107 | at most one study result satisfies `IsStabilityOutcome`, so the result is determined by the samples, the correlation and the configuration |
| StabilityPoint.FullSampleOutsideIsNotFound | src/rcpparma.cpp:77-83 | the result is NA if and only if the full-sample correlation is strictly below the lower or strictly above the upper limit |
| StabilityPoint.OutcomeBounds | src/rcpparma.cpp:85-107 | a non-NA result n satisfies 0 <= n <= sample_size_max and n >= min(sample_size_min, sample_size_max) |
| StabilityPoint.AllInsideReachesMinimum | src/rcpparma.cpp:85-107 | if the correlation is inside the corridor at every size from the maximum down to the minimum, the result is exactly the minimum |
| StabilityPoint.UndefinedFullSampleKeepsMaximum | src/rcpparma.cpp:82-107 | an undefined full-sample correlation passes neither test, so the result is the maximum size and not NA |
| StabilityPoint.IdenticalPearsonIsOne | src/rcpparma.cpp:77-79 | for identical samples the exact value of the correlation formula, when defined, is 1 |
| StabilityPoint.IdenticalSamplesAreNotFound | src/rcpparma.cpp:77-83 | for identical samples whose full-sample correlation is the exact Pearson value, the study is NA when the correlation is defined (it is then 1, above any upper limit below 1) and sample_size_max when it is undefined |
| StabilityPoint.ReturnedSizeMayBeOutside | src/rcpparma.cpp:85-107 | on the sample (0,0), (1,1), (0,1), whose exact Pearson correlation is 1/2 at size 3, 1 at size 2 and undefined at size 1, with corridor [0.4, 0.6] the scan stops at size 2, where the correlation is outside the corridor: the returned size need not be inside |
| StudyBatch.Encode | src/rcpparma.cpp:83 | a study result stored as an integer cell reads back as the same result, fits a 32-bit int, and is never the abort marker -1 |
| StudyBatch.IdentityDomain | src/rcpparma.cpp:154-158 | the index domain has npop entries, entry i is i, and a position belongs to it exactly when it is in [0, npop) |
| StudyBatch.CompletedIsNotAborted | src/rcpparma.cpp:161-171 | a completed batch is never equal to the abort marker [-1], even with one study |
| StudyBatch.CompletedCellsInRange | src/rcpparma.cpp:167-169 | every cell of a completed batch is NA_INTEGER or a size between min(sample_size_min, sample_size_max) and sample_size_max |
| StudyBatch.SimulatePos | src/rcpparma.cpp:144-172 | the result is [-1] exactly when some poll at a trial k with k % 5000 == 0 answers abort; otherwise it has exactly n_studies cells in trial order, cell k being the result of the study on the k-th draw (so 0 studies give the empty vector) |

## Left out

- Single-precision `float` arithmetic and `sqrt`: rounding cannot be stated exactly, so the sums are exact reals and the correlation is an abstract function of `n` and the sums; results that depend on rounding are not modelled.
- `RcppArmadillo::sample` and R's random number generator: each draw is an input; the `replace` flag only steers the sampler and is not a parameter of the model; distinctness of positions when sampling without replacement, and the sampler's own error when `sample_size_max` exceeds the population without replacement, are not modelled.
- `Progress`, `p.increment()` and the internals of `Progress::check_abort()`: progress display has no effect on results, and the abort query is an oracle of the trial number.
- R/Rcpp binding glue and the `ISATTY`/`FILENO` platform macros: plumbing with no logic.
- Out-of-range positions in the gather `x_pop[index]` are not modelled: draws must lie inside both populations, and the batch requires the two populations to have equal length.
- SimulateOnePos: requires `0 <= sample_size_min`; with a negative minimum the source's scan could read `X[-1]`, which has no defined result.
- SimulatePos: requires the size parameters to be non-negative and at most the 32-bit maximum, as C `int` arguments of a valid call are; a negative `n_studies` (an R allocation error) is excluded by taking it as a natural number.
- Distributional properties of the sampler's draws are not modelled; each draw is an arbitrary input.
