/** The CRAP score (src/metrics/crap.rs): complexity squared times the
    cube of the uncovered fraction, plus complexity. */
module Crap {
  import opened Errors
  import opened Values
  import opened Utility

  function Cube(x: real): real
  {
    x * x * x
  }

  /** CRAP of a complexity `comp` at covered fraction `cov`. */
  function CrapFormula(comp: real, cov: real): real
  {
    comp * comp * Cube(1.0 - cov) + comp
  }

  lemma CubeMonotone(a: real, b: real)
    requires a <= b
    ensures Cube(a) <= Cube(b)
  {
    var d := b - a;
    var s := a * a + a * b + b * b;
    assert Cube(b) - Cube(a) == d * s;
    assert s >= 0.0 by {
      var h := a + b / 2.0;
      assert s == h * h + 3.0 * (b * b) / 4.0;
      assert h * h >= 0.0 && b * b >= 0.0;
    }
    assert d >= 0.0;
    assert d * s >= 0.0;
  }

  /** At full coverage CRAP is the complexity; at no coverage it is
      complexity squared plus complexity. */
  lemma CrapEnds(comp: real)
    ensures CrapFormula(comp, 1.0) == comp
    ensures CrapFormula(comp, 0.0) == comp * comp + comp
  {
  }

  /** More coverage never raises CRAP, and up to full coverage CRAP is at
      least the complexity. */
  lemma CrapMonotone(comp: real, cov1: real, cov2: real)
    requires cov1 <= cov2
    ensures CrapFormula(comp, cov2) <= CrapFormula(comp, cov1)
    ensures cov2 <= 1.0 ==> CrapFormula(comp, cov2) >= comp
  {
    CubeMonotone(1.0 - cov2, 1.0 - cov1);
    if cov2 <= 1.0 {
      CubeMonotone(0.0, 1.0 - cov2);
      assert Cube(0.0) == 0.0;
      assert comp * comp >= 0.0;
    }
  }

  /** CRAP of a file: with a coverage percentage given, the array is not
      read; otherwise the covered fraction of the whole array is used. */
  function Crap(root: FuncSpace, covs: seq<Value>, metric: Complexity, coverage: Option<real>): (r: Result<real>)
    requires coverage.None? ==> HasNonNull(covs)
    ensures r.Ok? <==> coverage.Some? || WellFormedIn(covs, 0, |covs|)
    ensures r.Err? ==> r.error == ConversionError
    ensures coverage.Some? ==> r == Ok(CrapFormula(SumComplexity(root, metric), coverage.value / 100.0))
    ensures coverage.None? && r.Ok? ==>
      r.value == CrapFormula(SumComplexity(root, metric), CoveredFraction(covs, 0, |covs|))
    ensures coverage.None? && r.Ok? ==> r.value >= SumComplexity(root, metric)
  {
    var comp := SumComplexity(root, metric);
    var cov :- FileCoverage(covs, coverage);
    CrapMonotone(comp, cov, cov);
    Ok(CrapFormula(comp, cov))
  }

  /** CRAP of one scope: without a coverage percentage, the covered
      fraction of the scope's own range, or 0 when the range has no
      executable line. */
  function CrapFunction(space: FuncSpace, covs: seq<Value>, metric: Complexity, coverage: Option<real>): (r: Result<real>)
    requires coverage.None? ==> space.startLine >= 1
    ensures coverage.Some? ==> r == Ok(CrapFormula(SumComplexity(space, metric), coverage.value / 100.0))
    ensures coverage.None? ==> (r.Ok? <==> WellFormedIn(covs, space.startLine - 1, space.endLine))
    ensures r.Err? ==> r.error == ConversionError
    ensures coverage.None? && r.Ok? ==>
      r.value == CrapFormula(SumComplexity(space, metric), CoveredFraction(covs, space.startLine - 1, space.endLine))
    ensures coverage.None? && r.Ok? ==> r.value >= SumComplexity(space, metric)
    ensures coverage.None? && r.Ok? && CountExecutable(covs, space.startLine - 1, space.endLine) == 0 ==>
      r.value == SumComplexity(space, metric) * SumComplexity(space, metric) + SumComplexity(space, metric)
  {
    var comp := SumComplexity(space, metric);
    if coverage.Some? then
      Ok(CrapFormula(comp, coverage.value / 100.0))
    else
      var lines :- GetCoveredLines(covs, space.startLine, space.endLine);
      var cov := if lines.1 != 0.0 then lines.0 / lines.1 else 0.0;
      CrapMonotone(comp, cov, cov);
      Ok(CrapFormula(comp, cov))
  }

  /** On a scope whose range starts at line 1 and reaches the end of the
      array, the scope variant agrees with the file variant. */
  lemma CrapFunctionOnWholeFile(root: FuncSpace, covs: seq<Value>, metric: Complexity, coverage: Option<real>)
    requires root.startLine == 1 && root.endLine >= |covs|
    requires coverage.None? ==> HasNonNull(covs)
    ensures CrapFunction(root, covs, metric, coverage) == Crap(root, covs, metric, coverage)
  {
    CountsUpToEnd(covs, 0, root.endLine);
    if coverage.None? {
      var j :| 0 <= j < |covs| && !covs[j].Null?;
      SomeExecutable(covs, 0, |covs|, j);
    }
  }
}
