/** The Skunk score without code smells: complexity divided by
    `COMPLEXITY_FACTOR`, scaled by the uncovered percentage, and the bare
    cost (complexity over the factor) at full coverage. Two versions exist:
    the current one in src/metrics/skunk.rs, whose full-coverage guard
    compares the covered fraction with 100 and so never fires for a
    fraction, and the earlier one in src/skunk.rs, which compares it with 1. */
module Skunk {
  import opened Errors
  import opened Values
  import opened Utility

  /** The general branch: complexity over the factor times the uncovered
      percentage. */
  function SkunkFormula(comp: real, cov: real): real
  {
    (comp / COMPLEXITY_FACTOR) * (100.0 - 100.0 * cov)
  }

  /** The general branch is linear in the uncovered fraction, 4 times
      complexity at no coverage, 0 at full coverage, and not negative up
      to full coverage. */
  lemma SkunkFormulaShape(comp: real, cov: real)
    ensures SkunkFormula(comp, cov) == 4.0 * comp * (1.0 - cov)
    ensures SkunkFormula(comp, 0.0) == 4.0 * comp
    ensures SkunkFormula(comp, 1.0) == 0.0
    ensures comp >= 0.0 && cov <= 1.0 ==> SkunkFormula(comp, cov) >= 0.0
    ensures comp >= 0.0 && cov >= 0.0 ==> SkunkFormula(comp, cov) <= 4.0 * comp
  {
    assert (comp / COMPLEXITY_FACTOR) * 100.0 == 4.0 * comp;
    if comp >= 0.0 && cov <= 1.0 {
      assert (4.0 * comp) * (1.0 - cov) >= 0.0;
    }
    if comp >= 0.0 && cov >= 0.0 {
      assert (4.0 * comp) * cov >= 0.0;
    }
  }

  /** Skunk of a file as src/metrics/skunk.rs computes it: the full-coverage
      branch is taken only when the fraction equals 100, i.e. for a given
      percentage of 10000. */
  function SkunkNoSmellsAsWritten(root: FuncSpace, covs: seq<Value>, metric: Complexity,
                                  coverage: Option<real>): (r: Result<real>)
    requires coverage.None? ==> HasNonNull(covs)
    ensures r.Ok? <==> coverage.Some? || WellFormedIn(covs, 0, |covs|)
    ensures r.Err? ==> r.error == ConversionError
    ensures coverage.Some? && coverage.value != 10000.0 ==>
      r == Ok(SkunkFormula(SumComplexity(root, metric), coverage.value / 100.0))
    ensures coverage == Some(10000.0) ==> r == Ok(SumComplexity(root, metric) / COMPLEXITY_FACTOR)
    ensures coverage.None? && r.Ok? ==>
      r.value == SkunkFormula(SumComplexity(root, metric), CoveredFraction(covs, 0, |covs|))
  {
    var comp := SumComplexity(root, metric);
    var cov :- FileCoverage(covs, coverage);
    if cov == 100.0 then Ok(comp / COMPLEXITY_FACTOR) else Ok(SkunkFormula(comp, cov))
  }

  /** At full coverage the current version gives 0, whether full coverage
      comes as a percentage of 100 or from a fully covered array. */
  lemma FullCoverageGivesZeroAsWritten(root: FuncSpace, covs: seq<Value>, metric: Complexity)
    ensures SkunkNoSmellsAsWritten(root, covs, metric, Some(100.0)) == Ok(0.0)
    ensures HasNonNull(covs) && WellFormedIn(covs, 0, |covs|)
            && CountCovered(covs, 0, |covs|) == CountExecutable(covs, 0, |covs|) ==>
      SkunkNoSmellsAsWritten(root, covs, metric, None) == Ok(0.0)
  {
    SkunkFormulaShape(SumComplexity(root, metric), 1.0);
    if HasNonNull(covs) && WellFormedIn(covs, 0, |covs|) {
      var j :| 0 <= j < |covs| && !covs[j].Null?;
      SomeExecutable(covs, 0, |covs|, j);
    }
  }

  /** Skunk of a file with the full-coverage guard on the fraction, as
      src/skunk.rs writes it: the bare cost at full coverage, the general
      branch otherwise. */
  function SkunkNoSmells(root: FuncSpace, covs: seq<Value>, metric: Complexity,
                         coverage: Option<real>): (r: Result<real>)
    requires coverage.None? ==> HasNonNull(covs)
    ensures r.Ok? <==> coverage.Some? || WellFormedIn(covs, 0, |covs|)
    ensures r.Err? ==> r.error == ConversionError
    ensures r.Ok? ==> (r.value == SumComplexity(root, metric) / COMPLEXITY_FACTOR
                       || r.value == SkunkFormula(SumComplexity(root, metric), FileCoverage(covs, coverage).value))
    ensures coverage.Some? && coverage.value != 100.0 ==>
      r == Ok(SkunkFormula(SumComplexity(root, metric), coverage.value / 100.0))
    ensures coverage.None? && r.Ok? && CountCovered(covs, 0, |covs|) < CountExecutable(covs, 0, |covs|) ==>
      r.value == SkunkFormula(SumComplexity(root, metric), CoveredFraction(covs, 0, |covs|))
    ensures coverage.None? && r.Ok? && SumComplexity(root, metric) >= 0.0 ==>
      0.0 <= r.value <= 4.0 * SumComplexity(root, metric)
  {
    var comp := SumComplexity(root, metric);
    var cov :- FileCoverage(covs, coverage);
    SkunkFormulaShape(comp, cov);
    if cov == 1.0 then Ok(comp / COMPLEXITY_FACTOR) else Ok(SkunkFormula(comp, cov))
  }

  /** At full coverage the guarded version gives the bare cost, while the
      general branch tends to 0 there: the score jumps by comp / 25. */
  lemma FullCoverageGivesCost(root: FuncSpace, covs: seq<Value>, metric: Complexity)
    ensures SkunkNoSmells(root, covs, metric, Some(100.0)) == Ok(SumComplexity(root, metric) / COMPLEXITY_FACTOR)
    ensures HasNonNull(covs) && WellFormedIn(covs, 0, |covs|)
            && CountCovered(covs, 0, |covs|) == CountExecutable(covs, 0, |covs|) ==>
      SkunkNoSmells(root, covs, metric, None) == Ok(SumComplexity(root, metric) / COMPLEXITY_FACTOR)
    ensures SkunkFormula(SumComplexity(root, metric), 1.0) == 0.0
  {
    SkunkFormulaShape(SumComplexity(root, metric), 1.0);
    if HasNonNull(covs) && WellFormedIn(covs, 0, |covs|) {
      var j :| 0 <= j < |covs| && !covs[j].Null?;
      SomeExecutable(covs, 0, |covs|, j);
    }
  }

  /** The two versions differ only at full coverage. Below it (and away
      from the as-written guard's fraction of 100) they give the same
      score, and with an unreadable array they fail alike. At a fraction
      of 1 the current version gives 0 where the guarded one gives the
      bare cost. */
  lemma GuardsDifferOnlyAtFullCoverage(root: FuncSpace, covs: seq<Value>, metric: Complexity,
                                       coverage: Option<real>)
    requires coverage.None? ==> HasNonNull(covs)
    ensures FileCoverage(covs, coverage).Err? ==>
      SkunkNoSmellsAsWritten(root, covs, metric, coverage) == SkunkNoSmells(root, covs, metric, coverage)
    ensures FileCoverage(covs, coverage).Ok? && FileCoverage(covs, coverage).value != 1.0
            && FileCoverage(covs, coverage).value != 100.0 ==>
      SkunkNoSmellsAsWritten(root, covs, metric, coverage) == SkunkNoSmells(root, covs, metric, coverage)
    ensures FileCoverage(covs, coverage) == Ok(1.0) ==>
      && SkunkNoSmellsAsWritten(root, covs, metric, coverage) == Ok(0.0)
      && SkunkNoSmells(root, covs, metric, coverage) == Ok(SumComplexity(root, metric) / COMPLEXITY_FACTOR)
  {
    SkunkFormulaShape(SumComplexity(root, metric), 1.0);
  }
}
