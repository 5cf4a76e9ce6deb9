/** Building rows from scores (src/utility.rs): the scores of one scope,
    the AVG/MAX/MIN rows over a list of rows, and the PROJECT row from the
    summed numerators of all files. */
module Aggregate {
  import opened Errors
  import opened Values
  import opened Utility
  import opened Sifis
  import opened Crap
  import opened Skunk
  import opened Records

  /** The Skunk score of a scope range. Its definition is not part of this
      model, so the scope-level row builder takes it as a parameter. */
  type SkunkOf = (FuncSpace, seq<Value>, Complexity, Option<real>) -> Result<real>

  /** In the coveralls dialect a SIFIS fold fails exactly where counting
      the covered lines fails. */
  lemma ReadableCoveralls(covs: seq<Value>, lo: int, hi: int)
    ensures Readable(covs, false, lo, hi) <==> WellFormedIn(covs, lo, hi)
  {
    if Readable(covs, false, lo, hi) {
      forall j | 0 <= j < |covs| && InRange(j, lo, hi)
        ensures !IsMalformed(covs[j])
      {
        assert !LineFails(covs[j], j, false, lo, hi);
      }
    }
  }

  /** Coverage percentage of the 1-based line range `[start, end]`, 0 when
      it holds no executable line. */
  function RangeCoverage(covs: seq<Value>, start: nat, end: nat): (r: Result<real>)
    requires start >= 1
    ensures r.Ok? <==> WellFormedIn(covs, start - 1, end)
    ensures r.Err? ==> r.error == ConversionError
    ensures r.Ok? ==> r.value == 100.0 * CoveredFraction(covs, start - 1, end)
    ensures r.Ok? ==> 0.0 <= r.value <= 100.0
  {
    var lines :- GetCoveredLines(covs, start, end);
    Ok(if lines.1 == 0.0 then 0.0 else (lines.0 / lines.1) * 100.0)
  }

  /** `Tree::get_metrics_from_space`: the row of one scope and its two
      SIFIS numerators. A given coverage percentage selects the covdir
      dialect, feeds CRAP and Skunk and becomes the row's coverage; without
      one the coverage is that of the scope's own line range. The SIFIS
      folds run first, so an unreadable range fails with `ConversionError`
      before the Skunk score is asked for; a failing Skunk score gives its
      own error. */
  function GetMetricsFromSpace(space: FuncSpace, covs: seq<Value>, metric: Complexity,
                               coverage: Option<real>, thresholds: seq<real>,
                               skunkOf: SkunkOf): (r: Result<(Metrics, (real, real))>)
    requires space.ploc != 0.0 && space.startLine >= 1 && |thresholds| >= 4
    ensures r.Ok? <==> Readable(covs, coverage.Some?, space.startLine - 1, space.endLine)
                       && skunkOf(space, covs, metric, coverage).Ok?
    ensures !Readable(covs, coverage.Some?, space.startLine - 1, space.endLine) ==> r == Err(ConversionError)
    ensures var skunk := skunkOf(space, covs, metric, coverage);
      Readable(covs, coverage.Some?, space.startLine - 1, space.endLine) && skunk.Err? ==> r == Err(skunk.error)
    ensures r.Ok? ==>
      var m := r.value.0;
      && SifisPlainFunction(space, covs, metric, coverage.Some?) == Ok((m.sifisPlain, r.value.1.0))
      && SifisQuantizedFunction(space, covs, metric, coverage.Some?) == Ok((m.sifisQuantized, r.value.1.1))
      && CrapFunction(space, covs, metric, coverage) == Ok(m.crap)
      && skunkOf(space, covs, metric, coverage) == Ok(m.skunk)
      && (m.isComplex <==> m.sifisPlain > thresholds[0] || m.sifisQuantized > thresholds[1]
                           || m.crap > thresholds[2] || m.skunk > thresholds[3])
    ensures r.Ok? && coverage.Some? ==> r.value.0.coverage == coverage.value
    ensures r.Ok? && coverage.None? ==>
      r.value.0.coverage == 100.0 * CoveredFraction(covs, space.startLine - 1, space.endLine)
      && 0.0 <= r.value.0.coverage <= 100.0
  {
    ReadableCoveralls(covs, space.startLine - 1, space.endLine);
    var covdir := coverage.Some?;
    var plain :- SifisPlainFunction(space, covs, metric, covdir);
    // Once the plain fold has read every entry, the quantized fold, the
    // CRAP score and the range coverage read the same entries and cannot fail.
    var quantized := SifisQuantizedFunction(space, covs, metric, covdir).value;
    var crap := CrapFunction(space, covs, metric, coverage).value;
    var skunk :- skunkOf(space, covs, metric, coverage);
    var isComplex := CheckComplexity(plain.0, quantized.0, crap, skunk, thresholds);
    var cov := if coverage.Some? then coverage.value
               else RangeCoverage(covs, space.startLine, space.endLine).value;
    Ok((Metrics(plain.0, quantized.0, crap, skunk, isComplex, cov), (plain.1, quantized.1)))
  }

  // ---------------------------------------------------------------------
  // AVG, MAX and MIN rows

  /** The four scores a summary row aggregates. */
  datatype Score = Plain | Quantized | CrapScore | SkunkScore

  function Get(m: Metrics, k: Score): real
  {
    match k
    case Plain => m.sifisPlain
    case Quantized => m.sifisQuantized
    case CrapScore => m.crap
    case SkunkScore => m.skunk
  }

  /** `f64::max` and `f64::min` on numbers. */
  function Max(a: real, b: real): real { if a >= b then a else b }
  function Min(a: real, b: real): real { if a <= b then a else b }

  /** Sum of one score over the rows. */
  function Total(ms: seq<Metrics>, k: Score): real
  {
    if ms == [] then 0.0 else Total(ms[..|ms| - 1], k) + Get(ms[|ms| - 1], k)
  }

  /** Sum of the coverage percentages of the rows. */
  function TotalCoverage(ms: seq<Metrics>): real
  {
    if ms == [] then 0.0 else TotalCoverage(ms[..|ms| - 1]) + ms[|ms| - 1].coverage
  }

  /** The largest of `seed` and the score of every row. */
  function Highest(ms: seq<Metrics>, k: Score, seed: real): real
  {
    if ms == [] then seed else Max(Highest(ms[..|ms| - 1], k, seed), Get(ms[|ms| - 1], k))
  }

  /** The smallest of `seed` and the score of every row. */
  function Lowest(ms: seq<Metrics>, k: Score, seed: real): real
  {
    if ms == [] then seed else Min(Lowest(ms[..|ms| - 1], k, seed), Get(ms[|ms| - 1], k))
  }

  /** `Highest` is an upper bound of the seed and the rows, and is one of them. */
  lemma {:induction false} HighestIsMaximum(ms: seq<Metrics>, k: Score, seed: real)
    ensures seed <= Highest(ms, k, seed)
    ensures forall j :: 0 <= j < |ms| ==> Get(ms[j], k) <= Highest(ms, k, seed)
    ensures Highest(ms, k, seed) == seed || exists j :: 0 <= j < |ms| && Highest(ms, k, seed) == Get(ms[j], k)
  {
    if ms != [] {
      var pre := ms[..|ms| - 1];
      HighestIsMaximum(pre, k, seed);
      if Highest(pre, k, seed) != seed && Highest(ms, k, seed) != Get(ms[|ms| - 1], k) {
        var j :| 0 <= j < |pre| && Highest(pre, k, seed) == Get(pre[j], k);
        assert ms[j] == pre[j];
      }
      assert forall j :: 0 <= j < |pre| ==> ms[j] == pre[j];
    }
  }

  /** `Lowest` is a lower bound of the seed and the rows, and is one of them. */
  lemma {:induction false} LowestIsMinimum(ms: seq<Metrics>, k: Score, seed: real)
    ensures Lowest(ms, k, seed) <= seed
    ensures forall j :: 0 <= j < |ms| ==> Lowest(ms, k, seed) <= Get(ms[j], k)
    ensures Lowest(ms, k, seed) == seed || exists j :: 0 <= j < |ms| && Lowest(ms, k, seed) == Get(ms[j], k)
  {
    if ms != [] {
      var pre := ms[..|ms| - 1];
      LowestIsMinimum(pre, k, seed);
      if Lowest(pre, k, seed) != seed && Lowest(ms, k, seed) != Get(ms[|ms| - 1], k) {
        var j :| 0 <= j < |pre| && Lowest(pre, k, seed) == Get(pre[j], k);
        assert ms[j] == pre[j];
      }
      assert forall j :: 0 <= j < |pre| ==> ms[j] == pre[j];
    }
  }

  /** The sum of a score lies between its count times any lower bound
      and its count times any upper bound of the rows. */
  lemma {:induction false} TotalBetween(ms: seq<Metrics>, k: Score, lo: real, hi: real)
    requires forall j :: 0 <= j < |ms| ==> lo <= Get(ms[j], k) <= hi
    ensures |ms| as real * lo <= Total(ms, k) <= |ms| as real * hi
  {
    if ms != [] {
      var pre := ms[..|ms| - 1];
      assert forall j :: 0 <= j < |pre| ==> pre[j] == ms[j];
      TotalBetween(pre, k, lo, hi);
      var n := |pre| as real;
      var x := Get(ms[|ms| - 1], k);
      assert Total(ms, k) == Total(pre, k) + x;
      assert |ms| as real == n + 1.0;
      StepBounds(Total(pre, k), x, n, lo, hi);
    }
  }

  /** Adding one more value between `lo` and `hi` to a sum of `n` such values. */
  lemma StepBounds(t: real, x: real, n: real, lo: real, hi: real)
    requires n * lo <= t <= n * hi && lo <= x <= hi
    ensures (n + 1.0) * lo <= t + x <= (n + 1.0) * hi
  {
    assert (n + 1.0) * lo == n * lo + lo;
    assert (n + 1.0) * hi == n * hi + hi;
  }

  /** The AVG row: mean of each score, undivided sum of the coverages. */
  function AvgRow(ms: seq<Metrics>): Metrics
    requires |ms| > 0
  {
    var l := |ms| as real;
    Metrics(Total(ms, Plain) / l, Total(ms, Quantized) / l, Total(ms, CrapScore) / l,
            Total(ms, SkunkScore) / l, false, TotalCoverage(ms))
  }

  /** The MAX row: largest of 0 and every row for each score, coverage 0. */
  function MaxRow(ms: seq<Metrics>): Metrics
  {
    Metrics(Highest(ms, Plain, 0.0), Highest(ms, Quantized, 0.0), Highest(ms, CrapScore, 0.0),
            Highest(ms, SkunkScore, 0.0), false, 0.0)
  }

  /** The MIN row: smallest of the largest double and every row for each
      score, coverage 100. */
  function MinRow(ms: seq<Metrics>): Metrics
  {
    Metrics(Lowest(ms, Plain, MaxF64), Lowest(ms, Quantized, MaxF64), Lowest(ms, CrapScore, MaxF64),
            Lowest(ms, SkunkScore, MaxF64), false, 100.0)
  }

  /** `get_cumulative_values`: the AVG row averages the four scores but
      sums the coverages; the MAX row starts from the all-zero row and the
      MIN row from `MinMetrics`, and only their four scores are updated,
      so MAX keeps coverage 0 and MIN keeps coverage 100. No summary row is
      complex. The source divides by the row count; an empty list (where
      IEEE arithmetic would give NaN) is excluded. */
  method GetCumulativeValues(metrics: seq<Metrics>) returns (avg: Metrics, max: Metrics, min: Metrics)
    requires |metrics| > 0
    ensures avg == AvgRow(metrics)
    ensures max == MaxRow(metrics)
    ensures min == MinRow(metrics)
  {
    min := MinMetrics();
    max := DefaultMetrics();
    var acc := (0.0, 0.0, 0.0, 0.0, 0.0);
    for i := 0 to |metrics|
      invariant acc == (Total(metrics[..i], Plain), Total(metrics[..i], Quantized),
                        Total(metrics[..i], CrapScore), Total(metrics[..i], SkunkScore),
                        TotalCoverage(metrics[..i]))
      invariant max == Metrics(Highest(metrics[..i], Plain, 0.0), Highest(metrics[..i], Quantized, 0.0),
                               Highest(metrics[..i], CrapScore, 0.0), Highest(metrics[..i], SkunkScore, 0.0),
                               false, 0.0)
      invariant min == Metrics(Lowest(metrics[..i], Plain, MaxF64), Lowest(metrics[..i], Quantized, MaxF64),
                               Lowest(metrics[..i], CrapScore, MaxF64), Lowest(metrics[..i], SkunkScore, MaxF64),
                               false, 100.0)
    {
      var m := metrics[i];
      assert metrics[..i + 1][..i] == metrics[..i];
      max := max.(sifisPlain := Max(max.sifisPlain, m.sifisPlain));
      max := max.(sifisQuantized := Max(max.sifisQuantized, m.sifisQuantized));
      max := max.(crap := Max(max.crap, m.crap));
      max := max.(skunk := Max(max.skunk, m.skunk));
      min := min.(sifisPlain := Min(min.sifisPlain, m.sifisPlain));
      min := min.(sifisQuantized := Min(min.sifisQuantized, m.sifisQuantized));
      min := min.(crap := Min(min.crap, m.crap));
      min := min.(skunk := Min(min.skunk, m.skunk));
      acc := (acc.0 + m.sifisPlain, acc.1 + m.sifisQuantized, acc.2 + m.crap, acc.3 + m.skunk,
              acc.4 + m.coverage);
    }
    assert metrics[..|metrics|] == metrics;
    var l := |metrics| as real;
    avg := Metrics(acc.0 / l, acc.1 / l, acc.2 / l, acc.3 / l, false, acc.4);
  }

  /** Dividing bounds by a positive factor. */
  lemma ScaleBounds(v: real, s: real, lo: real, hi: real)
    requires s > 0.0 && lo * s <= v * s <= hi * s
    ensures lo <= v <= hi
  {
  }

  /** Each score of the AVG row lies between that of the MIN row and that
      of the MAX row; MAX is at least 0 and at least every row, MIN is at
      most the largest double and at most every row, and each is attained
      by a row unless it is still its seed. */
  lemma SummaryRowsOrdered(metrics: seq<Metrics>, k: Score)
    requires |metrics| > 0
    ensures Get(MinRow(metrics), k) <= Get(AvgRow(metrics), k) <= Get(MaxRow(metrics), k)
  {
    var lo, hi := Lowest(metrics, k, MaxF64), Highest(metrics, k, 0.0);
    HighestIsMaximum(metrics, k, 0.0);
    LowestIsMinimum(metrics, k, MaxF64);
    MeanBetween(metrics, k, lo, hi);
    AvgRowGet(metrics, k);
  }

  /** The mean of scores that all lie between `lo` and `hi`. */
  lemma MeanBetween(ms: seq<Metrics>, k: Score, lo: real, hi: real)
    requires |ms| > 0
    requires forall j :: 0 <= j < |ms| ==> lo <= Get(ms[j], k) <= hi
    ensures lo <= Total(ms, k) / |ms| as real <= hi
  {
    TotalBetween(ms, k, lo, hi);
    DivBounds(Total(ms, k), |ms| as real, lo, hi);
  }

  lemma AvgRowGet(ms: seq<Metrics>, k: Score)
    requires |ms| > 0
    ensures Get(AvgRow(ms), k) == Total(ms, k) / |ms| as real
  {
  }

  /** Multiplying bounds by a positive factor. */
  lemma MulBounds(x: real, p: real, lo: real, hi: real)
    requires p > 0.0 && lo <= x <= hi
    ensures lo * p <= x * p <= hi * p
  {
    assert (x - lo) * p >= 0.0;
    assert (hi - x) * p >= 0.0;
  }

  /** A ratio times its denominator gives back its numerator. */
  lemma RatioTimes(sum: real, ploc: real)
    requires ploc != 0.0
    ensures (sum / ploc) * ploc == sum
  {
  }

  /** A ratio whose numerator lies between `ploc * lo` and `ploc * hi`. */
  lemma RatioBounds(v: real, ploc: real, sum: real, lo: real, hi: real)
    requires ploc > 0.0 && v * ploc == sum && lo * ploc <= sum <= hi * ploc
    ensures lo <= v <= hi
  {
    ScaleBounds(v, ploc, lo, hi);
  }

  /** Dividing a value that lies between `l * lo` and `l * hi` by `l`. */
  lemma DivBounds(t: real, l: real, lo: real, hi: real)
    requires l > 0.0 && l * lo <= t <= l * hi
    ensures lo <= t / l <= hi
  {
    var q := t / l;
    assert q * l == t;
    ScaleBounds(q, l, lo, hi);
  }

  // ---------------------------------------------------------------------
  // PROJECT row

  /** `get_project_metrics`: the PROJECT row from summed numerators. The
      SIFIS scores divide the summed numerators by the summed physical
      lines (sum first, then divide); CRAP and Skunk apply their formulas
      to the summed complexity and the project coverage, which is the given
      percentage or else covered over executable lines (0 when there are
      none). The source returns it as a `Result` that is always `Ok`. */
  function GetProjectMetrics(values: JobComposer, projectCoverage: Option<real>): (r: Result<Metrics>)
    requires values.plocSum != 0.0
    ensures r.Ok?
    ensures r.value.coverage == ProjectCoverage(values, projectCoverage)
    ensures r.value.sifisPlain == values.sifisPlainSum / values.plocSum
    ensures r.value.sifisQuantized == values.sifisQuantizedSum / values.plocSum
    ensures r.value.crap == CrapFormula(values.compSum, r.value.coverage / 100.0)
    ensures r.value.skunk == SkunkFormula(values.compSum, r.value.coverage / 100.0)
    ensures !r.value.isComplex
    ensures r.value.coverage <= 100.0 ==> r.value.crap >= values.compSum
    ensures r.value.coverage <= 100.0 && values.compSum >= 0.0 ==> r.value.skunk >= 0.0
  {
    var cov := ProjectCoverage(values, projectCoverage);
    var comp := values.compSum;
    var uncovered := 1.0 - cov / 100.0;
    ProjectFormulas(comp, cov);
    var m := DefaultMetrics();
    var m := m.(sifisPlain := values.sifisPlainSum / values.plocSum);
    var m := m.(sifisQuantized := values.sifisQuantizedSum / values.plocSum);
    var m := m.(crap := (comp * comp) * (uncovered * uncovered * uncovered) + comp);
    var m := m.(skunk := (comp / COMPLEXITY_FACTOR) * (100.0 - cov));
    var m := m.(coverage := cov);
    Ok(m)
  }

  /** The project coverage: the given percentage, or else the covered
      share of the executable lines in percent, 0 when there are none. */
  function ProjectCoverage(values: JobComposer, projectCoverage: Option<real>): (c: real)
    ensures projectCoverage.Some? ==> c == projectCoverage.value
    ensures projectCoverage.None? && values.totalLines == 0.0 ==> c == 0.0
    ensures projectCoverage.None? && 0.0 <= values.coveredLines <= values.totalLines ==> 0.0 <= c <= 100.0
    ensures projectCoverage.None? && 0.0 <= values.coveredLines == values.totalLines ==> c == 0.0 || c == 100.0
  {
    if projectCoverage.Some? then projectCoverage.value
    else if values.totalLines != 0.0 then
      PercentOf(values.coveredLines, values.totalLines);
      (values.coveredLines / values.totalLines) * 100.0
    else 0.0
  }

  /** A part of a whole, in percent. */
  lemma PercentOf(part: real, whole: real)
    requires whole != 0.0
    ensures 0.0 <= part <= whole ==> 0.0 <= (part / whole) * 100.0 <= 100.0
    ensures part == whole ==> (part / whole) * 100.0 == 100.0
  {
    if 0.0 <= part <= whole {
      FractionOf(part, whole);
    }
  }

  /** The expressions `get_project_metrics` writes out are the shared
      formulas at coverage `cov / 100`, and its ratios give back their
      numerators. */
  lemma ProjectFormulas(comp: real, cov: real)
    ensures (comp * comp) * ((1.0 - cov / 100.0) * (1.0 - cov / 100.0) * (1.0 - cov / 100.0)) + comp
            == CrapFormula(comp, cov / 100.0)
    ensures (comp / COMPLEXITY_FACTOR) * (100.0 - cov) == SkunkFormula(comp, cov / 100.0)
    ensures cov <= 100.0 ==> CrapFormula(comp, cov / 100.0) >= comp
    ensures cov <= 100.0 && comp >= 0.0 ==> SkunkFormula(comp, cov / 100.0) >= 0.0
  {
    CrapMonotone(comp, cov / 100.0, cov / 100.0);
    SkunkFormulaShape(comp, cov / 100.0);
  }

  /** Each file contributes its physical lines and a numerator equal to
      its score times those lines; then the summed numerator over the
      summed lines lies between the smallest and the largest file score. */
  lemma {:induction false} WeightedBounds(js: seq<JobComposer>, lo: real, hi: real)
    requires forall j :: 0 <= j < |js| ==>
      js[j].plocSum > 0.0
      && lo * js[j].plocSum <= js[j].sifisPlainSum <= hi * js[j].plocSum
    ensures lo * SumJobs(js).plocSum <= SumJobs(js).sifisPlainSum <= hi * SumJobs(js).plocSum
  {
    if js != [] {
      var pre, last := js[..|js| - 1], js[|js| - 1];
      assert forall j :: 0 <= j < |pre| ==> pre[j] == js[j];
      WeightedBounds(pre, lo, hi);
      WeightedStep(SumJobs(pre), last, lo, hi);
    }
  }

  /** One more file keeps the summed numerator within the bounds. */
  lemma WeightedStep(sum: JobComposer, last: JobComposer, lo: real, hi: real)
    requires lo * sum.plocSum <= sum.sifisPlainSum <= hi * sum.plocSum
    requires lo * last.plocSum <= last.sifisPlainSum <= hi * last.plocSum
    ensures lo * sum.Add(last).plocSum <= sum.Add(last).sifisPlainSum <= hi * sum.Add(last).plocSum
  {
    AddBounds(sum.plocSum, sum.sifisPlainSum, last.plocSum, last.sifisPlainSum, lo, hi);
  }

  /** Bounds proportional to the lines add up. */
  lemma AddBounds(p: real, s: real, q: real, t: real, lo: real, hi: real)
    requires lo * p <= s <= hi * p && lo * q <= t <= hi * q
    ensures lo * (p + q) <= s + t <= hi * (p + q)
  {
    assert lo * (p + q) == lo * p + lo * q;
    assert hi * (p + q) == hi * p + hi * q;
  }

  /** Summing positive line counts of at least one file gives a positive count. */
  lemma {:induction false} PlocSumPositive(js: seq<JobComposer>)
    requires forall j :: 0 <= j < |js| ==> js[j].plocSum > 0.0
    ensures SumJobs(js).plocSum >= 0.0
    ensures js != [] ==> SumJobs(js).plocSum > 0.0
  {
    if js != [] {
      var pre := js[..|js| - 1];
      assert forall j :: 0 <= j < |pre| ==> pre[j] == js[j];
      PlocSumPositive(pre);
    }
  }

  /** A file whose numerator is its score times its lines, with the score
      between `lo` and `hi`. */
  lemma FileBounds(js: seq<JobComposer>, scores: seq<real>, lo: real, hi: real)
    requires |js| == |scores|
    requires forall j :: 0 <= j < |js| ==>
      js[j].plocSum > 0.0 && js[j].sifisPlainSum == scores[j] * js[j].plocSum
    requires forall j :: 0 <= j < |scores| ==> lo <= scores[j] <= hi
    ensures forall j :: 0 <= j < |js| ==>
      js[j].plocSum > 0.0 && lo * js[j].plocSum <= js[j].sifisPlainSum <= hi * js[j].plocSum
  {
    forall j | 0 <= j < |js|
      ensures lo * js[j].plocSum <= js[j].sifisPlainSum <= hi * js[j].plocSum
    {
      MulBounds(scores[j], js[j].plocSum, lo, hi);
    }
  }

  /** The plain SIFIS score of the PROJECT row is the ploc-weighted mean of
      the file scores: it lies between the smallest and the largest of them. */
  lemma ProjectPlainIsWeightedMean(js: seq<JobComposer>, scores: seq<real>, coverage: Option<real>,
                                    lo: real, hi: real)
    requires |js| == |scores| > 0
    requires forall j :: 0 <= j < |js| ==>
      js[j].plocSum > 0.0 && js[j].sifisPlainSum == scores[j] * js[j].plocSum
    requires forall j :: 0 <= j < |scores| ==> lo <= scores[j] <= hi
    ensures SumJobs(js).plocSum > 0.0
    ensures lo <= GetProjectMetrics(SumJobs(js), coverage).value.sifisPlain <= hi
  {
    PlocSumPositive(js);
    WeightedMean(js, scores, lo, hi);
  }

  /** The summed numerators over the summed lines lie between the smallest
      and the largest file score. */
  lemma WeightedMean(js: seq<JobComposer>, scores: seq<real>, lo: real, hi: real)
    requires |js| == |scores| > 0
    requires forall j :: 0 <= j < |js| ==>
      js[j].plocSum > 0.0 && js[j].sifisPlainSum == scores[j] * js[j].plocSum
    requires forall j :: 0 <= j < |scores| ==> lo <= scores[j] <= hi
    ensures SumJobs(js).plocSum > 0.0
    ensures lo <= SumJobs(js).sifisPlainSum / SumJobs(js).plocSum <= hi
  {
    PlocSumPositive(js);
    SummedBounds(js, scores, lo, hi);
    var total := SumJobs(js);
    DivBounds(total.sifisPlainSum, total.plocSum, lo, hi);
  }

  /** The summed numerators lie between `lo` and `hi` times the summed lines. */
  lemma SummedBounds(js: seq<JobComposer>, scores: seq<real>, lo: real, hi: real)
    requires |js| == |scores|
    requires forall j :: 0 <= j < |js| ==>
      js[j].plocSum > 0.0 && js[j].sifisPlainSum == scores[j] * js[j].plocSum
    requires forall j :: 0 <= j < |scores| ==> lo <= scores[j] <= hi
    ensures lo * SumJobs(js).plocSum <= SumJobs(js).sifisPlainSum <= hi * SumJobs(js).plocSum
  {
    FileBounds(js, scores, lo, hi);
    WeightedBounds(js, lo, hi);
  }
}
