/** The function-level report (src/functions.rs): for every source file
    found in the coverage data, one row per Function-kind scope below its
    root, named `file/name (start, end)`, followed by one row for the file
    itself; in two flavours, `get_functions_metrics_concurrent` (coveralls
    coverage arrays) and `get_functions_metrics_concurrent_covdir` (covdir
    arrays with a precomputed percentage per file). */
module Functions {
  import opened Errors
  import opened Values
  import opened Strings
  import opened Utility
  import opened Sifis
  import opened Crap
  import opened Skunk
  import opened Records
  import opened Aggregate
  import opened Pipeline
  import opened Files

  /** Every Function-kind scope below the root can be scored: it has
      physical lines to divide by and a 1-based first line. */
  predicate ScopesShaped(root: FuncSpace)
  {
    SpacesOf(root).Ok? ==>
      forall k :: 0 <= k < |SpacesOf(root).value| ==> Shaped(SpacesOf(root).value[k].0)
  }

  /** A file the function-level report may be asked about: as for the
      file-level report, only a file with coverage data has its scopes
      scored. */
  predicate Reportable<V>(env: Env, covs: map<string, V>, prefix: nat, file: string)
  {
    Admissible(env, covs, prefix, file)
    && (file in covs && env.roots(file).Ok? ==> ScopesShaped(env.roots(file).value))
  }

  function FunctionKey(r: FunctionMetrics): string { r.functionName }

  function FunctionScores(r: FunctionMetrics): Metrics { r.metrics }

  /** The row name of a function scope: the file name, the scope's name and
      its lines, as `file/name (start, end)`. */
  function FunctionName(fileName: string, space: FuncSpace): (n: string)
    requires space.name.Some?
    ensures |n| > |fileName| + 1 + |space.name.value|
    ensures n[..|fileName|] == fileName && n[|fileName|] == '/'
  {
    fileName + "/" + space.name.value + LinePair(space.startLine, space.endLine)
  }

  /** The pieces of a row name: after the file name and `/` come the
      scope's name and then its lines as ` (start, end)`. */
  lemma FunctionNameParts(fileName: string, space: FuncSpace)
    requires space.name.Some?
    ensures var n, k := FunctionName(fileName, space), |fileName| + 1 + |space.name.value|;
      && n[|fileName| + 1..k] == space.name.value
      && n[k..] == LinePair(space.startLine, space.endLine)
  {
  }

  /** Two scopes of one file with the same name get the same row name only
      when they span the same lines. */
  lemma FunctionNameDeterminesLines(fileName: string, a: FuncSpace, b: FuncSpace)
    requires a.name.Some? && a.name == b.name
    requires FunctionName(fileName, a) == FunctionName(fileName, b)
    ensures a.startLine == b.startLine && a.endLine == b.endLine
  {
    FunctionNameParts(fileName, a);
    FunctionNameParts(fileName, b);
    LinePairInjective(a.startLine, a.endLine, b.startLine, b.endLine);
  }

  /** The row of one function scope: its scores over its own range (or
      with the file's given percentage), under its row name and with its
      lines; the first failing score's error, or `ConversionError` for an
      unnamed scope. */
  function FunctionRow(space: FuncSpace, arr: seq<Value>, metric: Complexity, coverage: Option<real>,
                       thresholds: seq<real>, skunkOf: SkunkOf, fileName: string, filePath: string)
    : (r: Result<FunctionMetrics>)
    requires Shaped(space) && |thresholds| >= 4
    ensures var m := GetMetricsFromSpace(space, arr, metric, coverage, thresholds, skunkOf);
      && (r.Ok? <==> m.Ok? && space.name.Some?)
      && (r.Err? ==> r.error == if m.Err? then m.error else ConversionError)
      && (r.Ok? ==>
          && r.value.metrics == m.value.0
          && r.value.functionName == FunctionName(fileName, space)
          && r.value.filePath == filePath
          && r.value.startLine == space.startLine && r.value.endLine == space.endLine)
  {
    var m :- GetMetricsFromSpace(space, arr, metric, coverage, thresholds, skunkOf);
    var _ :- OkOr(space.name, ConversionError);
    Ok(FunctionMetrics(m.0, FunctionName(fileName, space), filePath, space.startLine, space.endLine))
  }

  /** `try_for_each` over the first `n` items: their results in order,
      or the error of the first item that fails. */
  function TryMap<T, R>(xs: seq<T>, n: nat, f: T --> Result<R>): (r: Result<seq<R>>)
    requires n <= |xs|
    requires forall k :: 0 <= k < |xs| ==> f.requires(xs[k])
    ensures r.Ok? <==> forall k :: 0 <= k < n ==> f(xs[k]).Ok?
    ensures r.Ok? ==> |r.value| == n && forall k :: 0 <= k < n ==> r.value[k] == f(xs[k]).value
    ensures r.Err? ==>
      exists k :: 0 <= k < n && f(xs[k]) == Err(r.error) && forall i :: 0 <= i < k ==> f(xs[i]).Ok?
    decreases n
  {
    if n == 0 then Ok([])
    else
      var before :- TryMap(xs, n - 1, f);
      var y :- f(xs[n - 1]);
      Ok(before + [y])
  }

  /** The rows of the function scopes of a file, in order; the first scope
      whose row fails stops it with that row's error. */
  function FunctionRows(spaces: seq<(FuncSpace, string)>, arr: seq<Value>, metric: Complexity,
                        coverage: Option<real>, thresholds: seq<real>, skunkOf: SkunkOf,
                        fileName: string, filePath: string): (r: Result<seq<FunctionMetrics>>)
    requires forall k :: 0 <= k < |spaces| ==> Shaped(spaces[k].0)
    requires |thresholds| >= 4
    ensures r.Ok? <==> forall k :: 0 <= k < |spaces| ==>
      FunctionRow(spaces[k].0, arr, metric, coverage, thresholds, skunkOf, fileName, filePath).Ok?
    ensures r.Ok? ==> |r.value| == |spaces| && forall k :: 0 <= k < |spaces| ==>
      r.value[k] == FunctionRow(spaces[k].0, arr, metric, coverage, thresholds, skunkOf, fileName, filePath).value
    ensures r.Err? ==> exists k ::
      && 0 <= k < |spaces|
      && FunctionRow(spaces[k].0, arr, metric, coverage, thresholds, skunkOf, fileName, filePath) == Err(r.error)
      && forall i :: 0 <= i < k ==>
           FunctionRow(spaces[i].0, arr, metric, coverage, thresholds, skunkOf, fileName, filePath).Ok?
  {
    TryMap(spaces, |spaces|,
           (s: (FuncSpace, string)) requires Shaped(s.0) => FunctionRow(s.0, arr, metric, coverage, thresholds, skunkOf, fileName, filePath))
  }

  /** The rows a covered file contributes: one per function scope below
      its root, in `get_spaces` order, then the file's own row with the
      file-level scores and the root's lines; an unnamed scope gives
      `PathConversionError`, a failing row its error, a malformed array
      `ConversionError`. */
  function FileRows(root: FuncSpace, arr: seq<Value>, metric: Complexity, coverage: Option<real>,
                    thresholds: seq<real>, skunkOf: SkunkOf, name: string, filePath: string)
    : (r: Result<seq<FunctionMetrics>>)
    requires Shaped(root) && ScopesShaped(root) && |thresholds| >= 4
    requires coverage.None? ==> HasNonNull(arr)
    ensures SpacesOf(root).Err? ==> r == Err(PathConversionError)
    ensures SpacesOf(root).Ok? ==>
      var rows := FunctionRows(SpacesOf(root).value, arr, metric, coverage, thresholds, skunkOf, name, filePath);
      && (r.Ok? <==> rows.Ok? && Readable(arr, coverage.Some?, 0, |arr|))
      && (rows.Err? ==> r == Err(rows.error))
      && (rows.Ok? && !Readable(arr, coverage.Some?, 0, |arr|) ==> r == Err(ConversionError))
      && (r.Ok? ==>
          && r.value == rows.value + [FunctionMetrics(FileLevelMetrics(root, arr, metric, coverage, thresholds).value,
                                                      name, filePath, root.startLine, root.endLine)]
          && |r.value| == |SpacesOf(root).value| + 1)
  {
    var spaces :- SpacesOf(root);
    var rows :- FunctionRows(spaces, arr, metric, coverage, thresholds, skunkOf, name, filePath);
    var m :- FileLevelMetrics(root, arr, metric, coverage, thresholds);
    Ok(rows + [FunctionMetrics(m, name, filePath, root.startLine, root.endLine)])
  }

  // ---------------------------------------------------------------------
  // concurrent, coveralls

  /** What the coveralls consumer does with one file: its name (or
      `PathConversionError`), ignoring it when the coverage data does not
      know it; otherwise the line counts of the root's range, the function
      scopes (`get_spaces`), one row per scope, then the file's row with
      the file-level scores over the whole array; the accumulator gets the
      root-level numbers once per file. Errors come in the source's order:
      the name, the root, `ConversionError` on a malformed root range, then
      the error of the file's rows. */
  function FunctionStep(env: Env, covs: map<string, seq<Value>>, metric: Complexity, prefix: nat,
                        thresholds: seq<real>, file: string): (r: Result<Outcome<FunctionMetrics>>)
    requires Reportable(env, covs, prefix, file) && |thresholds| >= 4
    requires file in covs ==> HasNonNull(covs[file])
    ensures FileName(file).None? ==> r == Err(PathConversionError)
    ensures FileName(file).Some? && file !in covs ==> r == Ok(Ignored)
    ensures FileName(file).Some? && file in covs && env.roots(file).Err? ==> r == Err(env.roots(file).error)
    ensures FileName(file).Some? && file in covs && env.roots(file).Ok? ==>
      var root, arr := env.roots(file).value, covs[file];
      var rows := FileRows(root, arr, metric, None, thresholds, env.skunkOf, FileName(file).value, file[prefix..]);
      && (r.Ok? <==> WellFormedIn(arr, root.startLine - 1, root.endLine) && rows.Ok?)
      && (!WellFormedIn(arr, root.startLine - 1, root.endLine) ==> r == Err(ConversionError))
      && (WellFormedIn(arr, root.startLine - 1, root.endLine) && rows.Err? ==> r == Err(rows.error))
    ensures r.Ok? ==> (r.value.Rows? <==> file in covs)
    ensures r.Ok? && r.value.Rows? ==>
      var root, arr := env.roots(file).value, covs[file];
      && r.value.rows == FileRows(root, arr, metric, None, thresholds, env.skunkOf, FileName(file).value,
                                  file[prefix..]).value
      && r.value.job == JobComposer(CountCovered(arr, root.startLine - 1, root.endLine) as real,
                                    CountExecutable(arr, root.startLine - 1, root.endLine) as real,
                                    SifisPlain(root, arr, metric, false).value.1,
                                    SifisQuantized(root, arr, metric, false).value.1,
                                    root.ploc, SumComplexity(root, metric))
      && 0.0 <= r.value.job.coveredLines <= r.value.job.totalLines
      && r.value.job.plocSum > 0.0
  {
    var name :- OkOr(FileName(file), PathConversionError);
    if file !in covs then Ok(Ignored)
    else
      var arr := covs[file];
      var root :- env.roots(file);
      var lines :- GetCoveredLines(arr, root.startLine, root.endLine);
      var rows :- FileRows(root, arr, metric, None, thresholds, env.skunkOf, name, file[prefix..]);
      ReadableCoveralls(arr, 0, |arr|);
      var plain, quantized := SifisPlain(root, arr, metric, false).value, SifisQuantized(root, arr, metric, false).value;
      Ok(Rows(rows, JobComposer(lines.0, lines.1, plain.1, quantized.1, root.ploc, SumComplexity(root, metric))))
  }

  /** The coveralls consumer's per-file step as a value. */
  function FunctionsStep(env: Env, covs: map<string, seq<Value>>, metric: Complexity, prefix: nat,
                         thresholds: seq<real>): string --> Result<Outcome<FunctionMetrics>>
  {
    f requires Reportable(env, covs, prefix, f) && |thresholds| >= 4 && (f in covs ==> HasNonNull(covs[f]))
      => FunctionStep(env, covs, metric, prefix, thresholds, f)
  }

  /** `get_functions_metrics_concurrent`: the files cut into chunks by
      `chunk_vector` and distributed contiguously among the consumers, the
      composer summing their accumulators into the PROJECT row; the report
      is the processing of the files in order: rows sorted by row name,
      ignored paths sorted, complex rows, PROJECT, AVG, MAX and MIN, and
      the PROJECT coverage (a percentage) as the project coverage. Every
      array must have a non-null entry (the file row's coverage divides by
      their count) and one file must have coverage data. */
  method GetFunctionsMetricsConcurrent(files: seq<string>, covs: map<string, seq<Value>>, env: Env,
                                       metric: Complexity, nThreads: nat, parts: seq<seq<seq<string>>>,
                                       prefix: nat, thresholds: seq<real>)
    returns (r: Result<Output<FunctionMetrics>>)
    requires nThreads > 0 && |parts| == nThreads && Flatten(parts) == ChunkVector(files, nThreads)
    requires forall f :: f in files ==> Reportable(env, covs, prefix, f)
    requires forall f :: f in files && f in covs ==> HasNonNull(covs[f])
    requires exists f :: f in files && f in covs
    ensures |thresholds| != 4 ==> r == Err(ThresholdsError)
    ensures |thresholds| == 4 ==>
      (r.Ok? <==> Consume(files, FunctionsStep(env, covs, metric, prefix, thresholds)).Ok?)
    ensures |thresholds| == 4 && r.Err? ==>
      r.error == Consume(files, FunctionsStep(env, covs, metric, prefix, thresholds)).error
    ensures r.Ok? ==>
      && |thresholds| == 4
      && var c := Consume(files, FunctionsStep(env, covs, metric, prefix, thresholds)).value;
      && c.job.plocSum > 0.0
      && Assembled(r.value, c.rows, c.ignored, FunctionKey, FunctionScores, FunctionSummary,
                   GetProjectMetrics(c.job, None).value)
      && 0.0 <= r.value.projectCoverage.value <= 100.0
  {
    if |thresholds| != 4 {
      return Err(ThresholdsError);
    }
    var step := FunctionsStep(env, covs, metric, prefix, thresholds);
    ChunkVectorPartition(files, nThreads);
    var c :- RunConsumers(parts, step);
    RunFacts(files, covs, env, metric, prefix, thresholds);
    var project := GetProjectMetrics(c.job, None).value;
    var out := Assemble(c.rows, c.ignored, FunctionKey, FunctionScores, FunctionSummary, project);
    return Ok(out);
  }

  /** A successful coveralls run over files of which one has coverage
      data has rows and physical lines, and covers at most its executable lines. */
  lemma RunFacts(files: seq<string>, covs: map<string, seq<Value>>, env: Env, metric: Complexity,
                 prefix: nat, thresholds: seq<real>)
    requires forall f :: f in files ==> Reportable(env, covs, prefix, f)
    requires forall f :: f in files && f in covs ==> HasNonNull(covs[f])
    requires exists f :: f in files && f in covs
    requires |thresholds| == 4
    requires Consume(files, FunctionsStep(env, covs, metric, prefix, thresholds)).Ok?
    ensures var c := Consume(files, FunctionsStep(env, covs, metric, prefix, thresholds)).value;
      |c.rows| > 0 && c.job.plocSum > 0.0 && 0.0 <= c.job.coveredLines <= c.job.totalLines
  {
    var step := FunctionsStep(env, covs, metric, prefix, thresholds);
    ConsumeSucceeds(files, step);
    ConsumeLineCounts(files, step);
    var f :| f in files && f in covs;
    assert step(f).value.Rows?;
  }

  // ---------------------------------------------------------------------
  // concurrent, covdir

  /** What the covdir consumer does with one file: as the coveralls one,
      but every score uses the file's given percentage (and the covdir
      null test), every row carries that percentage as its coverage, and
      the accumulator gets no line counts. */
  function FunctionStepCovdir(env: Env, covs: map<string, Covdir>, metric: Complexity, prefix: nat,
                              thresholds: seq<real>, file: string): (r: Result<Outcome<FunctionMetrics>>)
    requires Reportable(env, covs, prefix, file) && |thresholds| >= 4
    ensures FileName(file).None? ==> r == Err(PathConversionError)
    ensures FileName(file).Some? && file !in covs ==> r == Ok(Ignored)
    ensures FileName(file).Some? && file in covs && env.roots(file).Err? ==> r == Err(env.roots(file).error)
    ensures FileName(file).Some? && file in covs && env.roots(file).Ok? ==>
      var root, d := env.roots(file).value, covs[file];
      var rows := FileRows(root, d.arr, metric, Some(d.coverage), thresholds, env.skunkOf, FileName(file).value,
                           file[prefix..]);
      && (r.Ok? <==> rows.Ok?)
      && (rows.Err? ==> r == Err(rows.error))
    ensures r.Ok? ==> (r.value.Rows? <==> file in covs)
    ensures r.Ok? && r.value.Rows? ==>
      var root, d := env.roots(file).value, covs[file];
      && r.value.rows == FileRows(root, d.arr, metric, Some(d.coverage), thresholds, env.skunkOf,
                                  FileName(file).value, file[prefix..]).value
      && (forall k :: 0 <= k < |r.value.rows| ==> r.value.rows[k].metrics.coverage == d.coverage)
      && r.value.job == JobComposer(0.0, 0.0, SifisPlain(root, d.arr, metric, true).value.1,
                                    SifisQuantized(root, d.arr, metric, true).value.1,
                                    root.ploc, SumComplexity(root, metric))
      && r.value.job.plocSum > 0.0
  {
    var name :- OkOr(FileName(file), PathConversionError);
    if file !in covs then Ok(Ignored)
    else
      var d := covs[file];
      var root :- env.roots(file);
      var rows :- FileRows(root, d.arr, metric, Some(d.coverage), thresholds, env.skunkOf, name, file[prefix..]);
      CovdirRows(root, d.arr, metric, d.coverage, thresholds, env.skunkOf, name, file[prefix..]);
      var plain, quantized := SifisPlain(root, d.arr, metric, true).value, SifisQuantized(root, d.arr, metric, true).value;
      Ok(Rows(rows, JobComposer(0.0, 0.0, plain.1, quantized.1, root.ploc, SumComplexity(root, metric))))
  }

  /** With a given percentage every row of a file carries it, and the
      file-level SIFIS folds succeed. */
  lemma CovdirRows(root: FuncSpace, arr: seq<Value>, metric: Complexity, coverage: real, thresholds: seq<real>,
                   skunkOf: SkunkOf, name: string, filePath: string)
    requires Shaped(root) && ScopesShaped(root) && |thresholds| >= 4
    requires FileRows(root, arr, metric, Some(coverage), thresholds, skunkOf, name, filePath).Ok?
    ensures var rows := FileRows(root, arr, metric, Some(coverage), thresholds, skunkOf, name, filePath).value;
      forall k :: 0 <= k < |rows| ==> rows[k].metrics.coverage == coverage
    ensures SifisPlain(root, arr, metric, true).Ok? && SifisQuantized(root, arr, metric, true).Ok?
  {
  }

  /** The covdir consumer's per-file step as a value. */
  function FunctionsStepCovdir(env: Env, covs: map<string, Covdir>, metric: Complexity, prefix: nat,
                               thresholds: seq<real>): string --> Result<Outcome<FunctionMetrics>>
  {
    f requires Reportable(env, covs, prefix, f) && |thresholds| >= 4
      => FunctionStepCovdir(env, covs, metric, prefix, thresholds, f)
  }

  /** `get_functions_metrics_concurrent_covdir`: as
      `GetFunctionsMetricsConcurrent`, except that once the consumers are
      done the project's percentage is looked up under `PROJECT_ROOT`
      (`HashMapError` when absent) and becomes the PROJECT row's coverage
      and the reported project coverage. */
  method GetFunctionsMetricsConcurrentCovdir(files: seq<string>, covs: map<string, Covdir>, env: Env,
                                             metric: Complexity, nThreads: nat, parts: seq<seq<seq<string>>>,
                                             prefix: nat, thresholds: seq<real>)
    returns (r: Result<Output<FunctionMetrics>>)
    requires nThreads > 0 && |parts| == nThreads && Flatten(parts) == ChunkVector(files, nThreads)
    requires forall f :: f in files ==> Reportable(env, covs, prefix, f)
    requires exists f :: f in files && f in covs
    ensures |thresholds| != 4 ==> r == Err(ThresholdsError)
    ensures |thresholds| == 4 ==>
      (r.Ok? <==> Consume(files, FunctionsStepCovdir(env, covs, metric, prefix, thresholds)).Ok?
                  && PROJECT_ROOT in covs)
    ensures |thresholds| == 4 && r.Err? ==>
      r.error == (if Consume(files, FunctionsStepCovdir(env, covs, metric, prefix, thresholds)).Err?
                  then Consume(files, FunctionsStepCovdir(env, covs, metric, prefix, thresholds)).error
                  else HashMapError)
    ensures r.Ok? ==>
      && |thresholds| == 4
      && PROJECT_ROOT in covs
      && var c := Consume(files, FunctionsStepCovdir(env, covs, metric, prefix, thresholds)).value;
      && c.job.plocSum > 0.0
      && Assembled(r.value, c.rows, c.ignored, FunctionKey, FunctionScores, FunctionSummary,
                   GetProjectMetrics(c.job, Some(covs[PROJECT_ROOT].coverage)).value)
      && r.value.projectCoverage == Some(covs[PROJECT_ROOT].coverage)
  {
    if |thresholds| != 4 {
      return Err(ThresholdsError);
    }
    var step := FunctionsStepCovdir(env, covs, metric, prefix, thresholds);
    ChunkVectorPartition(files, nThreads);
    var c :- RunConsumers(parts, step);
    if PROJECT_ROOT !in covs {
      return Err(HashMapError);
    }
    var projectCoverage := covs[PROJECT_ROOT].coverage;
    RunFactsCovdir(files, covs, env, metric, prefix, thresholds);
    var project := GetProjectMetrics(c.job, Some(projectCoverage)).value;
    var out := Assemble(c.rows, c.ignored, FunctionKey, FunctionScores, FunctionSummary, project);
    return Ok(out);
  }

  /** A successful covdir run over files of which one has coverage data has
      rows and physical lines. */
  lemma RunFactsCovdir(files: seq<string>, covs: map<string, Covdir>, env: Env, metric: Complexity,
                       prefix: nat, thresholds: seq<real>)
    requires forall f :: f in files ==> Reportable(env, covs, prefix, f)
    requires exists f :: f in files && f in covs
    requires |thresholds| == 4
    requires Consume(files, FunctionsStepCovdir(env, covs, metric, prefix, thresholds)).Ok?
    ensures var c := Consume(files, FunctionsStepCovdir(env, covs, metric, prefix, thresholds)).value;
      |c.rows| > 0 && c.job.plocSum > 0.0
  {
    var step := FunctionsStepCovdir(env, covs, metric, prefix, thresholds);
    ConsumeSucceeds(files, step);
    var f :| f in files && f in covs;
    assert step(f).value.Rows?;
  }
}
