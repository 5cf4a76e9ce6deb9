/** The file-level report (src/files.rs): one row per source file found in
    the coverage data, with the SIFIS plain and quantized, CRAP and Skunk
    scores, the complexity flag and the coverage percentage, in three
    flavours: the sequential `get_metrics`, and the concurrent
    `get_metrics_concurrent` (coveralls coverage arrays) and
    `get_metrics_concurrent_covdir` (covdir arrays with a precomputed
    percentage per file). */
module Files {
  import opened Errors
  import opened Values
  import opened Strings
  import opened Utility
  import opened Sifis
  import opened Crap
  import opened Skunk
  import opened Records
  import opened Aggregate
  import opened Pipeline

  /** What the report takes from outside the model: `get_root` (reading a
      source file and analysing it into its tree of scopes) and the Skunk
      score of a scope. */
  datatype Env = Env(roots: string -> Result<FuncSpace>, skunkOf: SkunkOf)

  /** A root the scores can be computed on: physical lines to divide by and
      a 1-based first line. */
  predicate Shaped(root: FuncSpace)
  {
    root.ploc > 0.0 && root.startLine >= 1
  }

  /** A file the report may be asked about. Only a file with coverage data
      is analysed and has the project prefix cut off, so only then must its
      path be at least `prefix` characters long, for `split_off` to cut
      there, and its analysis, when it succeeds, give a shaped root.
      `prefix` is the length of the project path in characters of the
      model's `string`; the source's `len()` counts UTF-8 bytes, and the
      cut falls in the same place when the path begins with the project
      path. */
  predicate Admissible<V>(env: Env, covs: map<string, V>, prefix: nat, file: string)
  {
    file in covs ==> prefix <= |file| && (env.roots(file).Ok? ==> Shaped(env.roots(file).value))
  }

  /** One covdir entry: the coverage array and the file's coverage percentage. */
  datatype Covdir = Covdir(arr: seq<Value>, coverage: real)

  function FileKey(r: FileMetrics): string { r.file }

  function FileScores(r: FileMetrics): Metrics { r.metrics }

  // ---------------------------------------------------------------------
  // concurrent, coveralls

  /** What the coveralls consumer does with one file: its name (or
      `PathConversionError`), ignoring it when the coverage data does not
      know it, otherwise the row of the root scope and the numerators for
      the accumulator: covered and executable lines of the root's range,
      the two SIFIS numerators, the physical lines and the complexity.
      Errors come in the source's order: the name, the root, then
      `ConversionError` on a malformed range, then the Skunk score's. */
  function FileStep(env: Env, covs: map<string, seq<Value>>, metric: Complexity, prefix: nat,
                    thresholds: seq<real>, file: string): (r: Result<Outcome<FileMetrics>>)
    requires Admissible(env, covs, prefix, file) && |thresholds| >= 4
    ensures FileName(file).None? ==> r == Err(PathConversionError)
    ensures FileName(file).Some? && file !in covs ==> r == Ok(Ignored)
    ensures FileName(file).Some? && file in covs && env.roots(file).Err? ==> r == Err(env.roots(file).error)
    ensures FileName(file).Some? && file in covs && env.roots(file).Ok? ==>
      var root, skunk := env.roots(file).value, env.skunkOf(env.roots(file).value, covs[file], metric, None);
      && (r.Ok? <==> WellFormedIn(covs[file], root.startLine - 1, root.endLine) && skunk.Ok?)
      && (!WellFormedIn(covs[file], root.startLine - 1, root.endLine) ==> r == Err(ConversionError))
      && (WellFormedIn(covs[file], root.startLine - 1, root.endLine) && skunk.Err? ==> r == Err(skunk.error))
    ensures r.Ok? ==> (r.value.Rows? <==> file in covs)
    ensures r.Ok? && r.value.Rows? ==>
      var root, arr := env.roots(file).value, covs[file];
      var m := GetMetricsFromSpace(root, arr, metric, None, thresholds, env.skunkOf).value;
      && r.value.rows == [FileMetrics(m.0, FileName(file).value, file[prefix..])]
      && r.value.job == JobComposer(CountCovered(arr, root.startLine - 1, root.endLine) as real,
                                    CountExecutable(arr, root.startLine - 1, root.endLine) as real,
                                    m.1.0, m.1.1, root.ploc, SumComplexity(root, metric))
      && 0.0 <= r.value.job.coveredLines <= r.value.job.totalLines
      && r.value.job.plocSum > 0.0
  {
    var name :- OkOr(FileName(file), PathConversionError);
    if file !in covs then Ok(Ignored)
    else
      var arr := covs[file];
      var root :- env.roots(file);
      var lines :- GetCoveredLines(arr, root.startLine, root.endLine);
      ReadableCoveralls(arr, root.startLine - 1, root.endLine);
      var m :- GetMetricsFromSpace(root, arr, metric, None, thresholds, env.skunkOf);
      Ok(Rows([FileMetrics(m.0, name, file[prefix..])],
              JobComposer(lines.0, lines.1, m.1.0, m.1.1, root.ploc, SumComplexity(root, metric))))
  }

  /** The coveralls consumer's per-file step as a value. */
  function Step(env: Env, covs: map<string, seq<Value>>, metric: Complexity, prefix: nat,
                thresholds: seq<real>): string --> Result<Outcome<FileMetrics>>
  {
    f requires Admissible(env, covs, prefix, f) && |thresholds| >= 4 => FileStep(env, covs, metric, prefix, thresholds, f)
  }

  /** `get_metrics_concurrent`. The files are cut into chunks by
      `chunk_vector`; consumer `t` takes the chunks `parts[t]` (any
      contiguous distribution of the chunks among the `nThreads`
      consumers); the composer sums the consumers' accumulators into the
      PROJECT row. The report is the processing of the files in order,
      whatever the distribution: rows sorted by file name, ignored paths
      sorted, complex rows, PROJECT, AVG, MAX and MIN, and the PROJECT
      coverage (a percentage) as the project coverage. At least one file
      must have coverage data: the PROJECT and AVG rows divide by the
      summed physical lines and the row count. */
  method GetMetricsConcurrent(files: seq<string>, covs: map<string, seq<Value>>, env: Env, metric: Complexity,
                              nThreads: nat, parts: seq<seq<seq<string>>>, prefix: nat, thresholds: seq<real>)
    returns (r: Result<Output<FileMetrics>>)
    requires nThreads > 0 && |parts| == nThreads && Flatten(parts) == ChunkVector(files, nThreads)
    requires forall f :: f in files ==> Admissible(env, covs, prefix, f)
    requires exists f :: f in files && f in covs
    ensures |thresholds| != 4 ==> r == Err(ThresholdsError)
    ensures |thresholds| == 4 ==> (r.Ok? <==> Consume(files, Step(env, covs, metric, prefix, thresholds)).Ok?)
    ensures |thresholds| == 4 && r.Err? ==> r.error == Consume(files, Step(env, covs, metric, prefix, thresholds)).error
    ensures r.Ok? ==>
      && |thresholds| == 4
      && var c := Consume(files, Step(env, covs, metric, prefix, thresholds)).value;
      && c.job.plocSum > 0.0
      && Assembled(r.value, c.rows, c.ignored, FileKey, FileScores, FileSummary, GetProjectMetrics(c.job, None).value)
      && 0.0 <= r.value.projectCoverage.value <= 100.0
  {
    if |thresholds| != 4 {
      return Err(ThresholdsError);
    }
    var step := Step(env, covs, metric, prefix, thresholds);
    ChunkVectorPartition(files, nThreads);
    var c :- RunConsumers(parts, step);
    ConsumeSucceeds(files, step);
    ConsumeLineCounts(files, step);
    var f :| f in files && f in covs;
    assert step(f).value.Rows?;
    var project := GetProjectMetrics(c.job, None).value;
    var out := Assemble(c.rows, c.ignored, FileKey, FileScores, FileSummary, project);
    return Ok(out);
  }

  // ---------------------------------------------------------------------
  // concurrent, covdir

  /** What the covdir consumer does with one file: as the coveralls one,
      but the scores use the file's given percentage (and the covdir null
      test), and the accumulator gets no line counts. An unreadable range
      gives `ConversionError` before the Skunk score is asked for. */
  function FileStepCovdir(env: Env, covs: map<string, Covdir>, metric: Complexity, prefix: nat,
                          thresholds: seq<real>, file: string): (r: Result<Outcome<FileMetrics>>)
    requires Admissible(env, covs, prefix, file) && |thresholds| >= 4
    ensures FileName(file).None? ==> r == Err(PathConversionError)
    ensures FileName(file).Some? && file !in covs ==> r == Ok(Ignored)
    ensures FileName(file).Some? && file in covs && env.roots(file).Err? ==> r == Err(env.roots(file).error)
    ensures FileName(file).Some? && file in covs && env.roots(file).Ok? ==>
      var root, d := env.roots(file).value, covs[file];
      var skunk := env.skunkOf(root, d.arr, metric, Some(d.coverage));
      && (r.Ok? <==> Readable(d.arr, true, root.startLine - 1, root.endLine) && skunk.Ok?)
      && (!Readable(d.arr, true, root.startLine - 1, root.endLine) ==> r == Err(ConversionError))
      && (Readable(d.arr, true, root.startLine - 1, root.endLine) && skunk.Err? ==> r == Err(skunk.error))
    ensures r.Ok? ==> (r.value.Rows? <==> file in covs)
    ensures r.Ok? && r.value.Rows? ==>
      var root, d := env.roots(file).value, covs[file];
      var m := GetMetricsFromSpace(root, d.arr, metric, Some(d.coverage), thresholds, env.skunkOf).value;
      && r.value.rows == [FileMetrics(m.0, FileName(file).value, file[prefix..])]
      && r.value.rows[0].metrics.coverage == d.coverage
      && r.value.job == JobComposer(0.0, 0.0, m.1.0, m.1.1, root.ploc, SumComplexity(root, metric))
      && r.value.job.plocSum > 0.0
  {
    var name :- OkOr(FileName(file), PathConversionError);
    if file !in covs then Ok(Ignored)
    else
      var d := covs[file];
      var root :- env.roots(file);
      var m :- GetMetricsFromSpace(root, d.arr, metric, Some(d.coverage), thresholds, env.skunkOf);
      Ok(Rows([FileMetrics(m.0, name, file[prefix..])],
              JobComposer(0.0, 0.0, m.1.0, m.1.1, root.ploc, SumComplexity(root, metric))))
  }

  /** The covdir consumer's per-file step as a value. */
  function StepCovdir(env: Env, covs: map<string, Covdir>, metric: Complexity, prefix: nat,
                      thresholds: seq<real>): string --> Result<Outcome<FileMetrics>>
  {
    f requires Admissible(env, covs, prefix, f) && |thresholds| >= 4 => FileStepCovdir(env, covs, metric, prefix, thresholds, f)
  }

  /** The key under which the covdir data holds the whole project. */
  const PROJECT_ROOT: string := "PROJECT_ROOT"

  /** `get_metrics_concurrent_covdir`: as `GetMetricsConcurrent`, except
      that once the consumers are done the project's percentage is looked
      up under `PROJECT_ROOT` (`HashMapError` when absent) and becomes the
      PROJECT row's coverage and the reported project coverage. */
  method GetMetricsConcurrentCovdir(files: seq<string>, covs: map<string, Covdir>, env: Env, metric: Complexity,
                                    nThreads: nat, parts: seq<seq<seq<string>>>, prefix: nat, thresholds: seq<real>)
    returns (r: Result<Output<FileMetrics>>)
    requires nThreads > 0 && |parts| == nThreads && Flatten(parts) == ChunkVector(files, nThreads)
    requires forall f :: f in files ==> Admissible(env, covs, prefix, f)
    requires exists f :: f in files && f in covs
    ensures |thresholds| != 4 ==> r == Err(ThresholdsError)
    ensures |thresholds| == 4 ==>
      (r.Ok? <==> Consume(files, StepCovdir(env, covs, metric, prefix, thresholds)).Ok? && PROJECT_ROOT in covs)
    ensures |thresholds| == 4 && r.Err? ==>
      r.error == (if Consume(files, StepCovdir(env, covs, metric, prefix, thresholds)).Err?
                  then Consume(files, StepCovdir(env, covs, metric, prefix, thresholds)).error
                  else HashMapError)
    ensures r.Ok? ==>
      && |thresholds| == 4
      && PROJECT_ROOT in covs
      && var c := Consume(files, StepCovdir(env, covs, metric, prefix, thresholds)).value;
      && c.job.plocSum > 0.0
      && Assembled(r.value, c.rows, c.ignored, FileKey, FileScores, FileSummary,
                   GetProjectMetrics(c.job, Some(covs[PROJECT_ROOT].coverage)).value)
      && r.value.projectCoverage == Some(covs[PROJECT_ROOT].coverage)
  {
    if |thresholds| != 4 {
      return Err(ThresholdsError);
    }
    var step := StepCovdir(env, covs, metric, prefix, thresholds);
    ChunkVectorPartition(files, nThreads);
    var c :- RunConsumers(parts, step);
    if PROJECT_ROOT !in covs {
      return Err(HashMapError);
    }
    var projectCoverage := covs[PROJECT_ROOT].coverage;
    ConsumeSucceeds(files, step);
    var f :| f in files && f in covs;
    assert step(f).value.Rows?;
    var project := GetProjectMetrics(c.job, Some(projectCoverage)).value;
    var out := Assemble(c.rows, c.ignored, FileKey, FileScores, FileSummary, project);
    return Ok(out);
  }

  // ---------------------------------------------------------------------
  // sequential

  /** The file-level scores of a root over its whole coverage array, as
      the sequential report and the function-level report compute them:
      SIFIS plain and quantized, CRAP and Skunk of the file, the complexity
      flag, and the coverage percentage, which is the given one (covdir
      data) or else the array's covered fraction as a percentage.
      `FileLevelScores` states what they are. */
  function FileLevelMetrics(root: FuncSpace, arr: seq<Value>, metric: Complexity, coverage: Option<real>,
                            thresholds: seq<real>): (r: Result<Metrics>)
    requires root.ploc != 0.0 && (coverage.None? ==> HasNonNull(arr)) && |thresholds| >= 4
    ensures r.Ok? <==> Readable(arr, coverage.Some?, 0, |arr|)
    ensures r.Err? ==> r.error == ConversionError
    ensures r.Ok? ==>
      && r.value.sifisPlain == SifisPlain(root, arr, metric, coverage.Some?).value.0
      && r.value.sifisQuantized == SifisQuantized(root, arr, metric, coverage.Some?).value.0
      && r.value.crap == Crap.Crap(root, arr, metric, coverage).value
      && r.value.skunk == SkunkNoSmells(root, arr, metric, coverage).value
      && r.value.coverage == (if coverage.Some? then coverage.value else GetCoveragePerc(arr).value * 100.0)
      && (r.value.isComplex <==> CheckComplexity(r.value.sifisPlain, r.value.sifisQuantized,
                                                 r.value.crap, r.value.skunk, thresholds))
  {
    ReadableCoveralls(arr, 0, |arr|);
    var plain :- SifisPlain(root, arr, metric, coverage.Some?);
    // Once the plain fold has read the whole array, the other file-level
    // scores read the same entries (or none, given a percentage) and
    // cannot fail.
    var quantized := SifisQuantized(root, arr, metric, coverage.Some?).value;
    var crap := Crap.Crap(root, arr, metric, coverage).value;
    var skunk := SkunkNoSmells(root, arr, metric, coverage).value;
    var isComplex := CheckComplexity(plain.0, quantized.0, crap, skunk, thresholds);
    var cov := if coverage.Some? then coverage.value else GetCoveragePerc(arr).value * 100.0;
    Ok(Metrics(plain.0, quantized.0, crap, skunk, isComplex, cov))
  }

  /** What the file-level scores are beyond the SIFIS ones (whose meaning
      `SifisPlain` and `SifisQuantized` state). With a given percentage:
      CRAP is the formula on that percentage as a fraction and the coverage
      is the percentage itself. From the array: CRAP is the formula on the
      array's covered fraction and at least the complexity, Skunk lies
      between 0 and 4 times a non-negative complexity, and the coverage is
      the covered fraction as a percentage. */
  lemma FileLevelScores(root: FuncSpace, arr: seq<Value>, metric: Complexity, coverage: Option<real>,
                        thresholds: seq<real>)
    requires root.ploc != 0.0 && (coverage.None? ==> HasNonNull(arr)) && |thresholds| >= 4
    requires Readable(arr, coverage.Some?, 0, |arr|)
    ensures var comp, m := SumComplexity(root, metric), FileLevelMetrics(root, arr, metric, coverage, thresholds).value;
      coverage.Some? ==> m.crap == CrapFormula(comp, coverage.value / 100.0) && m.coverage == coverage.value
    ensures var comp, frac, m := SumComplexity(root, metric), CoveredFraction(arr, 0, |arr|),
                                 FileLevelMetrics(root, arr, metric, coverage, thresholds).value;
      coverage.None? ==>
      && m.crap == CrapFormula(comp, frac) && m.crap >= comp
      && (comp >= 0.0 ==> 0.0 <= m.skunk <= 4.0 * comp)
      && m.coverage == 100.0 * frac
      && 0.0 <= m.coverage <= 100.0
  {
    ReadableCoveralls(arr, 0, |arr|);
    if coverage.None? {
      PercentOfFraction(arr);
    }
  }

  /** What the sequential report does with one file: as the coveralls
      consumer, but with the file-level scores over the whole array; only
      the line counts of the root's range are summed. */
  function SeqFileStep(env: Env, covs: map<string, seq<Value>>, metric: Complexity, prefix: nat,
                       thresholds: seq<real>, file: string): (r: Result<Outcome<FileMetrics>>)
    requires Admissible(env, covs, prefix, file) && |thresholds| >= 4
    requires file in covs ==> HasNonNull(covs[file])
    ensures FileName(file).None? ==> r == Err(PathConversionError)
    ensures FileName(file).Some? && file !in covs ==> r == Ok(Ignored)
    ensures FileName(file).Some? && file in covs && env.roots(file).Err? ==> r == Err(env.roots(file).error)
    ensures FileName(file).Some? && file in covs && env.roots(file).Ok? ==>
      var root, arr := env.roots(file).value, covs[file];
      (r.Ok? <==> WellFormedIn(arr, root.startLine - 1, root.endLine) && WellFormedIn(arr, 0, |arr|))
      && (r.Err? ==> r.error == ConversionError)
    ensures r.Ok? ==> (r.value.Rows? <==> file in covs)
    ensures r.Ok? && r.value.Rows? ==>
      var root, arr := env.roots(file).value, covs[file];
      && r.value.rows == [FileMetrics(FileLevelMetrics(root, arr, metric, None, thresholds).value,
                                      FileName(file).value, file[prefix..])]
      && r.value.job == JobComposer(CountCovered(arr, root.startLine - 1, root.endLine) as real,
                                    CountExecutable(arr, root.startLine - 1, root.endLine) as real,
                                    0.0, 0.0, 0.0, 0.0)
      && 0.0 <= r.value.job.coveredLines <= r.value.job.totalLines
  {
    var name :- OkOr(FileName(file), PathConversionError);
    if file !in covs then Ok(Ignored)
    else
      var arr := covs[file];
      var root :- env.roots(file);
      var lines :- GetCoveredLines(arr, root.startLine, root.endLine);
      ReadableCoveralls(arr, 0, |arr|);
      var m :- FileLevelMetrics(root, arr, metric, None, thresholds);
      Ok(Rows([FileMetrics(m, name, file[prefix..])], JobComposer(lines.0, lines.1, 0.0, 0.0, 0.0, 0.0)))
  }

  /** The array's coverage percentage is 100 times its covered fraction. */
  lemma PercentOfFraction(arr: seq<Value>)
    requires HasNonNull(arr) && WellFormedIn(arr, 0, |arr|)
    ensures GetCoveragePerc(arr).value * 100.0 == 100.0 * CoveredFraction(arr, 0, |arr|)
  {
  }

  /** The sequential report's per-file step as a value. */
  function SeqStep(env: Env, covs: map<string, seq<Value>>, metric: Complexity, prefix: nat,
                   thresholds: seq<real>): string --> Result<Outcome<FileMetrics>>
  {
    f requires Admissible(env, covs, prefix, f) && |thresholds| >= 4 && (f in covs ==> HasNonNull(covs[f]))
      => SeqFileStep(env, covs, metric, prefix, thresholds, f)
  }

  /** `get_metrics`, the sequential report: the files in order, the rows in
      that order followed by AVG, MAX and MIN (no PROJECT row, no sorting),
      the ignored paths in order, the complex rows, and as project coverage
      the covered lines over the executable lines of all the roots' ranges
      — a fraction, not a percentage. The source divides without a guard;
      with no executable line the division gives no number, modelled as
      `None`. Every array must have a non-null entry (the file's coverage
      percentage divides by their count) and one file must have coverage
      data (AVG divides by the row count). */
  method GetMetrics(files: seq<string>, covs: map<string, seq<Value>>, env: Env, metric: Complexity,
                    prefix: nat, thresholds: seq<real>)
    returns (r: Result<Output<FileMetrics>>)
    requires forall f :: f in files ==> Admissible(env, covs, prefix, f)
    requires forall f :: f in files && f in covs ==> HasNonNull(covs[f])
    requires exists f :: f in files && f in covs
    ensures |thresholds| != 4 ==> r == Err(ThresholdsError)
    ensures |thresholds| == 4 ==> (r.Ok? <==> Consume(files, SeqStep(env, covs, metric, prefix, thresholds)).Ok?)
    ensures |thresholds| == 4 && r.Err? ==> r.error == Consume(files, SeqStep(env, covs, metric, prefix, thresholds)).error
    ensures r.Ok? ==>
      && |thresholds| == 4
      && var c := Consume(files, SeqStep(env, covs, metric, prefix, thresholds)).value;
      var ms := Column(c.rows, FileScores);
      && |c.rows| > 0
      && r.value.res == c.rows + [FileSummary(AvgRow(ms), "AVG"), FileSummary(MaxRow(ms), "MAX"),
                                  FileSummary(MinRow(ms), "MIN")]
      && r.value.filesIgnored == c.ignored
      && r.value.complexFiles == Complex(c.rows, FileScores)
      && r.value.projectCoverage == (if c.job.totalLines != 0.0 then Some(c.job.coveredLines / c.job.totalLines)
                                     else None)
      && (r.value.projectCoverage.Some? ==> 0.0 <= r.value.projectCoverage.value <= 1.0)
  {
    if |thresholds| != 4 {
      return Err(ThresholdsError);
    }
    SeqLinesOnly(files, covs, env, metric, prefix, thresholds);
    var c :- ConsumeInOrder(files, SeqStep(env, covs, metric, prefix, thresholds));
    ghost var consumed := Consume(files, SeqStep(env, covs, metric, prefix, thresholds)).value;
    assert c.0 == [] + consumed.rows == consumed.rows;
    assert c.1 == [] + consumed.ignored == consumed.ignored;
    SeqRunFacts(files, covs, env, metric, prefix, thresholds);
    var out := AssembleInOrder(c.0, c.1, c.2, c.3);
    r := Ok(out);
  }

  /** Every file's step adds line counts only: the other four
      accumulators stay zero. */
  ghost predicate LinesOnly<R>(files: seq<string>, step: string --> Result<Outcome<R>>)
    requires forall f :: f in files ==> step.requires(f)
  {
    forall f :: f in files && step(f).Ok? && step(f).value.Rows? ==>
      var job := step(f).value.job;
      job == JobComposer(job.coveredLines, job.totalLines, 0.0, 0.0, 0.0, 0.0)
  }

  /** The sequential report's step fills in the line counts only. */
  lemma SeqLinesOnly(files: seq<string>, covs: map<string, seq<Value>>, env: Env, metric: Complexity,
                     prefix: nat, thresholds: seq<real>)
    requires forall f :: f in files ==> Admissible(env, covs, prefix, f)
    requires forall f :: f in files && f in covs ==> HasNonNull(covs[f])
    requires |thresholds| >= 4
    ensures LinesOnly(files, SeqStep(env, covs, metric, prefix, thresholds))
  {
  }

  /** The loop of the sequential report: each file's step in order, the
      rows and the ignored paths appended, the covered and executable
      lines summed; the first failing file stops it with its error. */
  method ConsumeInOrder<R>(files: seq<string>, step: string --> Result<Outcome<R>>)
    returns (r: Result<(seq<R>, seq<string>, real, real)>)
    requires forall f :: f in files ==> step.requires(f)
    requires LinesOnly(files, step)
    ensures var c := Consume(files, step);
      && (r.Ok? <==> c.Ok?)
      && (r.Err? ==> r.error == c.error)
      && (r.Ok? ==> Mirrors(c, JobComposer(r.value.2, r.value.3, 0.0, 0.0, 0.0, 0.0), r.value.0, r.value.1, [], []))
  {
    var coveredLines, totLines := 0.0, 0.0;
    var filesIgnored: seq<string> := [];
    var res: seq<R> := [];
    for i := 0 to |files|
      invariant Mirrors(Consume(files[..i], step), JobComposer(coveredLines, totLines, 0.0, 0.0, 0.0, 0.0),
                        res, filesIgnored, [], [])
    {
      var file := files[i];
      assert files[..i + 1] == files[..i] + [file];
      var o := step(file);
      if o.Err? {
        assert files == files[..i] + [file] + files[i + 1..];
        ConsumeStopsAt(files[..i], file, files[i + 1..], step);
        return Err(o.error);
      }
      ConsumeSnoc(files[..i], file, step);
      match o.value
      case Ignored =>
        filesIgnored := filesIgnored + [file];
      case Rows(rows, job) =>
        res := res + rows;
        coveredLines := coveredLines + job.coveredLines;
        totLines := totLines + job.totalLines;
    }
    assert files[..|files|] == files;
    r := Ok((res, filesIgnored, coveredLines, totLines));
  }

  /** The tail of the sequential report: the complex rows, then AVG, MAX
      and MIN appended to the rows in their order, and the project
      coverage as a fraction (`None` where the unguarded division by zero
      executable lines gives no number). */
  method AssembleInOrder(res: seq<FileMetrics>, filesIgnored: seq<string>, coveredLines: real, totLines: real)
    returns (out: Output<FileMetrics>)
    requires |res| > 0 && 0.0 <= coveredLines <= totLines
    ensures out.res == res + [FileSummary(AvgRow(Column(res, FileScores)), "AVG"),
                              FileSummary(MaxRow(Column(res, FileScores)), "MAX"),
                              FileSummary(MinRow(Column(res, FileScores)), "MIN")]
    ensures out.filesIgnored == filesIgnored
    ensures out.complexFiles == Complex(res, FileScores)
    ensures out.projectCoverage == (if totLines != 0.0 then Some(coveredLines / totLines) else None)
    ensures out.projectCoverage.Some? ==> 0.0 <= out.projectCoverage.value <= 1.0
  {
    var complexFiles := Complex(res, FileScores);
    var avg, max, min := GetCumulativeValues(Column(res, FileScores));
    var projectCoverage := if totLines != 0.0 then Some(coveredLines / totLines) else None;
    if totLines != 0.0 {
      FractionBounds(coveredLines, totLines);
    }
    out := Output(res + [FileSummary(avg, "AVG"), FileSummary(max, "MAX"), FileSummary(min, "MIN")],
                  filesIgnored, complexFiles, projectCoverage);
  }

  /** A successful sequential run over files of which one has coverage
      data has a row, and covers at most its executable lines. */
  lemma SeqRunFacts(files: seq<string>, covs: map<string, seq<Value>>, env: Env, metric: Complexity,
                    prefix: nat, thresholds: seq<real>)
    requires forall f :: f in files ==> Admissible(env, covs, prefix, f)
    requires forall f :: f in files && f in covs ==> HasNonNull(covs[f])
    requires exists f :: f in files && f in covs
    requires |thresholds| == 4
    requires Consume(files, SeqStep(env, covs, metric, prefix, thresholds)).Ok?
    ensures var c := Consume(files, SeqStep(env, covs, metric, prefix, thresholds)).value;
      |c.rows| > 0 && 0.0 <= c.job.coveredLines <= c.job.totalLines
  {
    var step := SeqStep(env, covs, metric, prefix, thresholds);
    ConsumeKeepsRows(files, step);
    ConsumeLineCounts(files, step);
    var f :| f in files && f in covs;
    assert step(f).value.Rows?;
  }

  lemma FractionBounds(covered: real, total: real)
    requires 0.0 <= covered <= total && total != 0.0
    ensures 0.0 <= covered / total <= 1.0
  {
  }
}
