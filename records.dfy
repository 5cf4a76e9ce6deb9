/** The records the pipeline produces and exchanges (src/files.rs and
    src/functions.rs): the six scores of a row, a file row, a function row
    and the per-consumer accumulator of summed numerators. */
module Records {

  /** `f64::MAX`, the largest finite double, 2^1024 - 2^971. */
  const MaxF64: real := 179769313486231570814527423731704356798070567525844996598917476803157260780028538760589558632766878171540458953514382464234321326889464182768467546703537516986049910576551282076245490090389328944075868508455133942304583236903222948165808559332123348274797826204144723168738177180919299881250404026184124858368.0

  /** The scores of one row; `coverage` is a percentage. */
  datatype Metrics = Metrics(
    sifisPlain: real,
    sifisQuantized: real,
    crap: real,
    skunk: real,
    isComplex: bool,
    coverage: real)

  /** `Metrics::default()`: every score 0, not complex. */
  function DefaultMetrics(): Metrics
  {
    Metrics(0.0, 0.0, 0.0, 0.0, false, 0.0)
  }

  /** `Metrics::min()`: the seed of the MIN row, every score at the largest
      double and a coverage of 100. */
  function MinMetrics(): Metrics
  {
    Metrics(MaxF64, MaxF64, MaxF64, MaxF64, false, 100.0)
  }

  /** A row of the file-level report. */
  datatype FileMetrics = FileMetrics(metrics: Metrics, file: string, filePath: string)

  /** A synthetic row of the file-level report (PROJECT, AVG, MAX, MIN),
      whose path is "-". */
  function FileSummary(m: Metrics, name: string): FileMetrics { FileMetrics(m, name, "-") }

  /** A row of the function-level report, with the 1-based line range. */
  datatype FunctionMetrics = FunctionMetrics(
    metrics: Metrics,
    functionName: string,
    filePath: string,
    startLine: nat,
    endLine: nat)

  /** A synthetic row of the function-level report, with path "-" and
      lines 0 and 0. */
  function FunctionSummary(m: Metrics, name: string): FunctionMetrics { FunctionMetrics(m, name, "-", 0, 0) }

  /** The numerators a consumer accumulates and the composer sums. */
  datatype JobComposer = JobComposer(
    coveredLines: real,
    totalLines: real,
    sifisPlainSum: real,
    sifisQuantizedSum: real,
    plocSum: real,
    compSum: real)
  {
    /** Field-wise sum. */
    function Add(o: JobComposer): JobComposer
    {
      JobComposer(coveredLines + o.coveredLines, totalLines + o.totalLines,
                  sifisPlainSum + o.sifisPlainSum, sifisQuantizedSum + o.sifisQuantizedSum,
                  plocSum + o.plocSum, compSum + o.compSum)
    }
  }

  /** `JobComposer::default()`. */
  const EmptyJob: JobComposer := JobComposer(0.0, 0.0, 0.0, 0.0, 0.0, 0.0)

  /** Field-wise sum of a sequence of accumulators. */
  function SumJobs(js: seq<JobComposer>): JobComposer
  {
    if js == [] then EmptyJob else SumJobs(js[..|js| - 1]).Add(js[|js| - 1])
  }

  /** Summing is compatible with concatenation. */
  lemma {:induction false} SumJobsAppend(a: seq<JobComposer>, b: seq<JobComposer>)
    ensures SumJobs(a + b) == SumJobs(a).Add(SumJobs(b))
    decreases |b|
  {
    if b == [] {
      assert a + b == a;
    } else {
      assert (a + b)[..|a + b| - 1] == a + b[..|b| - 1];
      SumJobsAppend(a, b[..|b| - 1]);
    }
  }

  /** Taking out the element at index `k` takes it out of the sum. */
  lemma SumJobsRemove(js: seq<JobComposer>, k: nat)
    requires k < |js|
    ensures SumJobs(js) == SumJobs(js[..k] + js[k + 1..]).Add(js[k])
  {
    var pre, x, suf := js[..k], js[k], js[k + 1..];
    assert js == pre + ([x] + suf);
    SumJobsAppend(pre, [x] + suf);
    SumJobsAppend([x], suf);
    assert [x][..0] == [];
    var p, s := SumJobs(pre), SumJobs(suf);
    assert SumJobs(js) == p.Add(EmptyJob.Add(x).Add(s));
    SumJobsAppend(pre, suf);
    assert SumJobs(pre + suf) == p.Add(s);
  }

  /** The sum does not depend on the order of the accumulators. */
  lemma {:induction false} SumJobsPermutation(a: seq<JobComposer>, b: seq<JobComposer>)
    requires multiset(a) == multiset(b)
    ensures SumJobs(a) == SumJobs(b)
    decreases |a|
  {
    if a != [] {
      var x := a[|a| - 1];
      assert x in multiset(b);
      var k :| 0 <= k < |b| && b[k] == x;
      var rest := b[..k] + b[k + 1..];
      assert b == b[..k] + [x] + b[k + 1..];
      assert multiset(rest) == multiset(b) - multiset{x};
      assert a == a[..|a| - 1] + [x];
      assert multiset(a[..|a| - 1]) == multiset(a) - multiset{x};
      SumJobsPermutation(a[..|a| - 1], rest);
      SumJobsRemove(b, k);
    } else {
      assert |b| == |multiset(b)| == 0;
    }
  }
}
