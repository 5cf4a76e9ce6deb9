/** An earlier file-level report kept in the source tree (src/lib.rs); it
    calls helpers the current src/utility.rs no longer provides. It has a
    sequential `get_metrics`, a coveralls `get_metrics_concurrent` that
    sends one job per file, and a covdir variant that sends one job per
    chunk of files. The helpers it calls (`get_covered_lines`, `get_root`,
    the four scores, `check_complexity`, `get_coverage_perc`,
    `get_cumulative_values`) have signatures that differ from the ones in
    src/utility.rs, so they are taken as parameters. */
module Legacy {
  import opened Errors
  import opened Values
  import opened Strings
  import opened Utility
  import opened Records
  import opened Sorting
  import opened Pipeline
  import Files

  /** One row of the report: the `Metrics` struct of src/lib.rs. */
  datatype Row = Row(sifisPlain: real, sifisQuantized: real, crap: real, skunk: real,
                     file: string, filePath: string, isComplex: bool, coverage: real)

  /** The helpers the report calls. `scores` gives SIFIS plain, SIFIS
      quantized, CRAP and Skunk of a root; its last argument is the covdir
      percentage (`None` in the coveralls dialect). `cumulative` gives the
      average, maximum and minimum rows and the complex rows. */
  datatype Helpers = Helpers(
    coveredLines: seq<Value> -> Result<(real, real)>,
    roots: string -> Result<FuncSpace>,
    scores: (FuncSpace, seq<Value>, Complexity, Option<real>) -> Result<(real, real, real, real)>,
    isComplex: (real, real, real, real) -> bool,
    coveragePerc: seq<Value> -> Result<real>,
    cumulative: seq<Row> -> (Row, Row, Row, seq<Row>))

  /** What the three variants return: the rows followed by the average,
      maximum and minimum rows, the ignored files, the complex rows and the
      project coverage (`None` where it would divide by zero). */
  datatype Report = Report(res: seq<Row>, filesIgnored: seq<string>, complexFiles: seq<Row>,
                           projectCoverage: Option<real>)

  /** A path the report may be given: `file_name` succeeds on it and it
      is at least `prefix` characters long, so that `split_off` can cut the
      first `prefix` characters off. `prefix` stands for the length of the
      project path counted in characters of the model's `string`; the
      source counts bytes of its UTF-8 text, which cuts in the same place
      as long as the project path is that path's own first characters. */
  predicate Named(prefix: nat, path: string)
  {
    FileName(path).Some? && prefix <= |path|
  }

  function RowKey(r: Row): string { r.file }

  // ---------------------------------------------------------------------
  // chunck_vector

  /** `chunck_vector`: copies the pieces of `slice::chunks` element by
      element into a vector of vectors. */
  method ChunckVector(vec: seq<string>, nThreads: nat) returns (result: seq<seq<string>>)
    requires nThreads > 0
    ensures result == ChunkVector(vec, nThreads)
    ensures Flatten(result) == vec
    ensures forall i :: 0 <= i < |result| ==> 1 <= |result[i]| <= ChunkSize(|vec|, nThreads)
    ensures forall i :: 0 <= i < |result| - 1 ==> |result[i]| == ChunkSize(|vec|, nThreads)
  {
    var chuncks := Chunks(vec, ChunkSize(|vec|, nThreads));
    result := [];
    for i := 0 to |chuncks|
      invariant result == chuncks[..i]
    {
      var c := chuncks[i];
      var v: seq<string> := [];
      for j := 0 to |c|
        invariant v == c[..j]
      {
        v := v + [c[j]];
      }
      assert c[..|c|] == c;
      result := result + [v];
    }
    assert chuncks[..|chuncks|] == chuncks;
    ChunkVectorPartition(vec, nThreads);
  }

  // ---------------------------------------------------------------------
  // the job queue

  /** The sending side of the concurrent variants: one `Some` job per item,
      then one `None` per consumer to stop it. */
  method Enqueue<T>(items: seq<T>, nThreads: nat) returns (queue: seq<Option<T>>)
    ensures |queue| == |items| + nThreads
    ensures forall i :: 0 <= i < |items| ==> queue[i] == Some(items[i])
    ensures forall i :: |items| <= i < |queue| ==> queue[i].None?
  {
    queue := [];
    for i := 0 to |items|
      invariant |queue| == i
      invariant forall k :: 0 <= k < i ==> queue[k] == Some(items[k])
    {
      queue := queue + [Some(items[i])];
    }
    for t := 0 to nThreads
      invariant |queue| == |items| + t
      invariant forall k :: 0 <= k < |items| ==> queue[k] == Some(items[k])
      invariant forall k :: |items| <= k < |queue| ==> queue[k].None?
    {
      queue := queue + [None];
    }
  }

  // ---------------------------------------------------------------------
  // get_metrics (sequential)

  /** The covered share of the executable lines as a fraction; `None`
      where there is no executable line to divide by. */
  function Share(covered: real, total: real): (p: Option<real>)
    ensures p.None? <==> total == 0.0
    ensures p.Some? && 0.0 <= covered <= total ==> 0.0 <= p.value <= 1.0
  {
    if total == 0.0 then None else Some(covered / total)
  }

  /** What the sequential loop makes of one file. */
  datatype Seen = Skipped(name: string) | Measured(row: Row, covered: real, total: real)

  /** One iteration of the sequential loop: a file without coverage data is
      skipped under its file name; otherwise the line counts, the root and
      the scores are obtained in that order, the first failure ending the
      report. The coverage percentage is unwrapped. */
  function SeqFile(h: Helpers, covs: map<string, seq<Value>>, metric: Complexity, prefix: nat,
                   path: string): (r: Result<Seen>)
    requires Named(prefix, path)
    requires path in covs ==> h.coveragePerc(covs[path]).Ok?
    ensures path !in covs ==> r == Ok(Skipped(FileName(path).value))
    ensures path in covs && h.coveredLines(covs[path]).Err? ==> r == Err(h.coveredLines(covs[path]).error)
    ensures path in covs && h.coveredLines(covs[path]).Ok? && h.roots(path).Err? ==> r == Err(h.roots(path).error)
    ensures path in covs ==>
      (r.Ok? <==> && h.coveredLines(covs[path]).Ok? && h.roots(path).Ok?
                  && h.scores(h.roots(path).value, covs[path], metric, None).Ok?)
    ensures r.Ok? && path in covs ==>
      var arr := covs[path];
      var s := h.scores(h.roots(path).value, arr, metric, None).value;
      && r.value == Measured(Row(s.0, s.1, s.2, s.3, FileName(path).value, path[prefix..],
                                 h.isComplex(s.0, s.1, s.2, s.3), h.coveragePerc(arr).value),
                             h.coveredLines(arr).value.0, h.coveredLines(arr).value.1)
  {
    var file := FileName(path).value;
    if path !in covs then Ok(Skipped(file))
    else
      var arr := covs[path];
      var lines :- h.coveredLines(arr);
      var root :- h.roots(path);
      var s :- h.scores(root, arr, metric, None);
      Ok(Measured(Row(s.0, s.1, s.2, s.3, file, path[prefix..], h.isComplex(s.0, s.1, s.2, s.3),
                      h.coveragePerc(arr).value), lines.0, lines.1))
  }

  /** The file names of the files without coverage data, in order. */
  function MissingNames(files: seq<string>, covs: map<string, seq<Value>>, prefix: nat): seq<string>
    requires forall f :: f in files ==> Named(prefix, f)
  {
    if files == [] then []
    else
      var f := files[|files| - 1];
      assert f in files && Named(prefix, f);
      assert forall g :: g in files[..|files| - 1] ==> g in files;
      MissingNames(files[..|files| - 1], covs, prefix) + (if f in covs then [] else [FileName(f).value])
  }

  /** The number of files with coverage data. */
  function CountPresent(files: seq<string>, covs: map<string, seq<Value>>): nat
  {
    if files == [] then 0
    else CountPresent(files[..|files| - 1], covs) + (if files[|files| - 1] in covs then 1 else 0)
  }

  /** The sequential loop over `files` with the per-file step `step`: the
      rows, the ignored names and the summed line counts, or the first
      failure. */
  function SeqRun(files: seq<string>, step: string --> Result<Seen>): (r: Result<(seq<Row>, seq<string>, real, real)>)
    requires forall f :: f in files ==> step.requires(f)
    ensures r.Ok? <==> forall k :: 0 <= k < |files| ==> step(files[k]).Ok?
    ensures r.Err? ==> exists k :: 0 <= k < |files| && step(files[k]) == Err(r.error)
    decreases |files|
  {
    if files == [] then Ok(([], [], 0.0, 0.0))
    else
      var n := |files| - 1;
      assert forall f :: f in files[..n] ==> f in files;
      var before := SeqRun(files[..n], step);
      if before.Err? then
        var k :| 0 <= k < n && step(files[..n][k]) == Err(before.error);
        assert files[k] == files[..n][k];
        before
      else
        var seen := step(files[n]);
        if seen.Err? then Err(seen.error)
        else Ok(Note(before.value, seen.value))
  }

  /** What the loop keeps after one more file. */
  function Note(acc: (seq<Row>, seq<string>, real, real), seen: Seen): (seq<Row>, seq<string>, real, real)
  {
    var (rows, ignored, covered, total) := acc;
    match seen
    case Skipped(name) => (rows, ignored + [name], covered, total)
    case Measured(row, c, t) => (rows + [row], ignored, covered + c, total + t)
  }

  /** One more file whose step succeeds is noted after the others. */
  lemma SeqRunSnoc(files: seq<string>, i: nat, step: string --> Result<Seen>)
    requires i < |files|
    requires forall f :: f in files ==> step.requires(f)
    requires forall f :: f in files[..i + 1] ==> f in files
    requires SeqRun(files[..i], step).Ok? && step(files[i]).Ok?
    ensures SeqRun(files[..i + 1], step) == Ok(Note(SeqRun(files[..i], step).value, step(files[i]).value))
  {
    assert files[..i + 1][..i] == files[..i];
  }

  function SeqFiles(h: Helpers, covs: map<string, seq<Value>>, metric: Complexity, prefix: nat)
    : string --> Result<Seen>
  {
    (f: string) requires Named(prefix, f) && (f in covs ==> h.coveragePerc(covs[f]).Ok?) =>
      SeqFile(h, covs, metric, prefix, f)
  }

  /** A file is ignored under its name exactly when the coverage data lacks
      it, and every other file gives one row. */
  lemma {:induction false} SequentialIgnoresNames(h: Helpers, covs: map<string, seq<Value>>, metric: Complexity,
                                                  prefix: nat, files: seq<string>)
    requires forall f :: f in files ==> Named(prefix, f) && (f in covs ==> h.coveragePerc(covs[f]).Ok?)
    requires SeqRun(files, SeqFiles(h, covs, metric, prefix)).Ok?
    ensures SeqRun(files, SeqFiles(h, covs, metric, prefix)).value.1 == MissingNames(files, covs, prefix)
    ensures |SeqRun(files, SeqFiles(h, covs, metric, prefix)).value.0| == CountPresent(files, covs)
    decreases |files|
  {
    if files != [] {
      var n := |files| - 1;
      var f := files[n];
      assert f in files;
      assert forall g :: g in files[..n] ==> g in files;
      SequentialIgnoresNames(h, covs, metric, prefix, files[..n]);
    }
  }

  /** The body of the sequential loop for one path, returning early on the
      first failing helper. */
  method MeasureFile(h: Helpers, covs: map<string, seq<Value>>, metric: Complexity, prefix: nat, path: string)
    returns (r: Result<Seen>)
    requires Named(prefix, path) && (path in covs ==> h.coveragePerc(covs[path]).Ok?)
    ensures r == SeqFile(h, covs, metric, prefix, path)
  {
    var file := FileName(path).value;
    if path !in covs {
      return Ok(Skipped(file));
    }
    var arr := covs[path];
    var lines := h.coveredLines(arr);
    if lines.Err? {
      return Err(lines.error);
    }
    var root := h.roots(path);
    if root.Err? {
      return Err(root.error);
    }
    var s := h.scores(root.value, arr, metric, None);
    if s.Err? {
      return Err(s.error);
    }
    var (sifisPlain, sifisQuantized, crap, skunk) := s.value;
    var isComplex := h.isComplex(sifisPlain, sifisQuantized, crap, skunk);
    var row := Row(sifisPlain, sifisQuantized, crap, skunk, file, path[prefix..], isComplex, h.coveragePerc(arr).value);
    return Ok(Measured(row, lines.value.0, lines.value.1));
  }

  /** `get_metrics` of src/lib.rs: the loop, then the average, maximum and
      minimum rows appended and the project coverage as a fraction. */
  method GetMetrics(files: seq<string>, covs: map<string, seq<Value>>, h: Helpers, metric: Complexity,
                    prefix: nat) returns (r: Result<Report>)
    requires forall f :: f in files ==> Named(prefix, f) && (f in covs ==> h.coveragePerc(covs[f]).Ok?)
    ensures var run := SeqRun(files, SeqFiles(h, covs, metric, prefix));
      && (r.Ok? <==> run.Ok?)
      && (r.Err? ==> r.error == run.error)
      && (r.Ok? ==>
            var (rows, ignored, covered, total) := run.value;
            var (avg, max, min, complex) := h.cumulative(rows);
            && r.value.res == rows + [avg, max, min]
            && r.value.filesIgnored == ignored
            && r.value.complexFiles == complex
            && r.value.projectCoverage == Share(covered, total))
  {
    ghost var step := SeqFiles(h, covs, metric, prefix);
    var coveredLines, totLines := 0.0, 0.0;
    var filesIgnored: seq<string> := [];
    var res: seq<Row> := [];
    for i := 0 to |files|
      invariant forall f :: f in files[..i] ==> f in files
      invariant SeqRun(files[..i], step) == Ok((res, filesIgnored, coveredLines, totLines))
    {
      assert files[..i + 1][..i] == files[..i];
      assert forall f :: f in files[..i + 1] ==> f in files;
      assert files[i] in files;
      var seen := MeasureFile(h, covs, metric, prefix, files[i]);
      if seen.Err? {
        PrefixFails(files, i + 1, step);
        return Err(seen.error);
      }
      assert step(files[i]) == seen;
      SeqRunSnoc(files, i, step);
      var next := Note((res, filesIgnored, coveredLines, totLines), seen.value);
      res, filesIgnored, coveredLines, totLines := next.0, next.1, next.2, next.3;
    }
    assert files[..|files|] == files;
    var (avg, max, min, complexFiles) := h.cumulative(res);
    var projectCoverage := Share(coveredLines, totLines);
    r := Ok(Report(res + [avg, max, min], filesIgnored, complexFiles, projectCoverage));
  }

  /** A failure on the first `n` files is the failure of the whole run. */
  lemma {:induction false} PrefixFails(files: seq<string>, n: nat, step: string --> Result<Seen>)
    requires n <= |files|
    requires forall f :: f in files ==> step.requires(f)
    requires forall f :: f in files[..n] ==> f in files
    requires SeqRun(files[..n], step).Err?
    ensures SeqRun(files, step) == SeqRun(files[..n], step)
    decreases |files| - n
  {
    if n < |files| {
      assert files[..n + 1][..n] == files[..n];
      assert forall f :: f in files[..n + 1] ==> f in files;
      PrefixFails(files, n + 1, step);
    } else {
      assert files[..n] == files;
    }
  }

  // ---------------------------------------------------------------------
  // the tail of the concurrent variants

  /** The covered share of the executable lines, in percent: 100 times the
      fraction the sequential variant reports. */
  function Percent(covered: real, total: real): (p: Option<real>)
    ensures p.None? <==> total == 0.0
    ensures p.Some? ==> p.value == Share(covered, total).value * 100.0
    ensures p.Some? && 0.0 <= covered <= total ==> 0.0 <= p.value <= 100.0
  {
    if total == 0.0 then None else Some(covered / total * 100.0)
  }

  /** The report after the consumers: the rows sorted by file name and the
      ignored paths sorted, both keeping every element, then the average,
      maximum and minimum rows of the sorted rows appended. */
  predicate Finished(out: Report, c: Consumed<Row>, cumulative: seq<Row> -> (Row, Row, Row, seq<Row>))
  {
    var n := |c.rows|;
    && |out.res| == n + 3
    && SortedBy(out.res[..n], RowKey) && multiset(out.res[..n]) == multiset(c.rows)
    && SortedBy(out.filesIgnored, Itself) && multiset(out.filesIgnored) == multiset(c.ignored)
    && (var (avg, max, min, complex) := cumulative(out.res[..n]);
        out.res[n..] == [avg, max, min] && out.complexFiles == complex)
  }

  /** Sorting and appending, for a project coverage computed by the caller. */
  method Finish(c: Consumed<Row>, cumulative: seq<Row> -> (Row, Row, Row, seq<Row>), projectCoverage: Option<real>)
    returns (out: Report)
    ensures Finished(out, c, cumulative) && out.projectCoverage == projectCoverage
  {
    var filesIgnored := SortBy(c.ignored, Itself);
    var res := SortBy(c.rows, RowKey);
    assert |res| == |multiset(res)| == |multiset(c.rows)| == |c.rows|;
    var (avg, max, min, complexFiles) := cumulative(res);
    var all := res + [avg, max, min];
    assert all[..|res|] == res;
    out := Report(all, filesIgnored, complexFiles, projectCoverage);
  }

  // ---------------------------------------------------------------------
  // get_metrics_concurrent (coveralls)

  /** What the coveralls consumer does with one file: a file without
      coverage data is ignored under its full path; otherwise the line
      counts, the root, the scores and the coverage percentage are obtained
      in that order, the first failure ending the consumer, and the row
      records the percentage times 100 while the counts go to the shared
      totals. */
  function ConcStep(h: Helpers, covs: map<string, seq<Value>>, metric: Complexity, prefix: nat,
                    path: string): (r: Result<Outcome<Row>>)
    requires Named(prefix, path)
    ensures path !in covs ==> r == Ok(Ignored)
    ensures path in covs && h.coveredLines(covs[path]).Err? ==> r == Err(h.coveredLines(covs[path]).error)
    ensures path in covs && h.coveredLines(covs[path]).Ok? && h.roots(path).Err? ==> r == Err(h.roots(path).error)
    ensures path in covs ==>
      (r.Ok? <==> && h.coveredLines(covs[path]).Ok? && h.roots(path).Ok?
                  && h.scores(h.roots(path).value, covs[path], metric, None).Ok?
                  && h.coveragePerc(covs[path]).Ok?)
    ensures r.Ok? && path in covs ==>
      var arr := covs[path];
      var s := h.scores(h.roots(path).value, arr, metric, None).value;
      && r.value.Rows?
      && r.value.rows == [Row(s.0, s.1, s.2, s.3, FileName(path).value, path[prefix..],
                              h.isComplex(s.0, s.1, s.2, s.3), h.coveragePerc(arr).value * 100.0)]
      && r.value.job.coveredLines == h.coveredLines(arr).value.0
      && r.value.job.totalLines == h.coveredLines(arr).value.1
  {
    var file := FileName(path).value;
    if path !in covs then Ok(Ignored)
    else
      var arr := covs[path];
      var lines :- h.coveredLines(arr);
      var root :- h.roots(path);
      var s :- h.scores(root, arr, metric, None);
      var perc :- h.coveragePerc(arr);
      Ok(Rows([Row(s.0, s.1, s.2, s.3, file, path[prefix..], h.isComplex(s.0, s.1, s.2, s.3), perc * 100.0)],
              JobComposer(lines.0, lines.1, 0.0, 0.0, 0.0, 0.0)))
  }

  function ConcSteps(h: Helpers, covs: map<string, seq<Value>>, metric: Complexity, prefix: nat)
    : string --> Result<Outcome<Row>>
  {
    (f: string) requires Named(prefix, f) => ConcStep(h, covs, metric, prefix, f)
  }

  /** The paths of the files without coverage data, in order. */
  function MissingPaths(files: seq<string>, covs: map<string, seq<Value>>): (m: seq<string>)
    ensures forall f :: f in m ==> f in files && f !in covs
  {
    if files == [] then []
    else
      var f := files[|files| - 1];
      MissingPaths(files[..|files| - 1], covs) + (if f in covs then [] else [f])
  }

  /** The concurrent consumers ignore files under their full paths where
      the sequential loop uses their file names, and give one row per file
      with coverage data. */
  lemma {:induction false} ConcurrentIgnoresPaths(h: Helpers, covs: map<string, seq<Value>>, metric: Complexity,
                                                  prefix: nat, files: seq<string>)
    requires forall f :: f in files ==> Named(prefix, f)
    requires Consume(files, ConcSteps(h, covs, metric, prefix)).Ok?
    ensures Consume(files, ConcSteps(h, covs, metric, prefix)).value.ignored == MissingPaths(files, covs)
    ensures |Consume(files, ConcSteps(h, covs, metric, prefix)).value.rows| == CountPresent(files, covs)
    decreases |files|
  {
    if files != [] {
      var n := |files| - 1;
      var f := files[n];
      var step := ConcSteps(h, covs, metric, prefix);
      assert f in files;
      assert forall g :: g in files[..n] ==> g in files;
      var before := Consume(files[..n], step);
      assert before.Ok? && step(f).Ok?;
      assert Consume(files, step) == Ok(Record(before.value, f, step(f).value));
      ConcurrentIgnoresPaths(h, covs, metric, prefix, files[..n]);
    }
  }

  /** The sequential loop's ignored names are the file names of the paths
      the concurrent consumers ignore, in the same order. */
  lemma {:induction false} NamesOfMissingPaths(files: seq<string>, covs: map<string, seq<Value>>, prefix: nat)
    requires forall f :: f in files ==> Named(prefix, f)
    ensures |MissingNames(files, covs, prefix)| == |MissingPaths(files, covs)|
    ensures forall k :: 0 <= k < |MissingPaths(files, covs)| ==>
      FileName(MissingPaths(files, covs)[k]).Some?
      && MissingNames(files, covs, prefix)[k] == FileName(MissingPaths(files, covs)[k]).value
    decreases |files|
  {
    if files != [] {
      var n := |files| - 1;
      var f := files[n];
      assert f in files;
      assert forall g :: g in files[..n] ==> g in files;
      NamesOfMissingPaths(files[..n], covs, prefix);
      var names, paths := MissingNames(files[..n], covs, prefix), MissingPaths(files[..n], covs);
      if f !in covs {
        assert MissingNames(files, covs, prefix) == names + [FileName(f).value];
        assert MissingPaths(files, covs) == paths + [f];
      }
    }
  }

  /** `get_metrics_concurrent` of src/lib.rs. The file jobs and the stop
      sentinels are queued; consumer `t` takes the files of `parts[t]`, one
      file per job; any failing consumer makes the report fail with
      `ConcurrentError`; the rows are sorted by file name, the ignored paths
      sorted, the average, maximum and minimum rows appended, and the project
      coverage is the covered share of the executable lines, in percent.
      With no consumer at all nothing takes the queued jobs: every send
      still succeeds, and the report is that of no file, whose project
      coverage divides 0 by 0. */
  method GetMetricsConcurrent(files: seq<string>, covs: map<string, seq<Value>>, h: Helpers, metric: Complexity,
                              nThreads: nat, parts: seq<seq<seq<string>>>, prefix: nat)
    returns (r: Result<Report>)
    requires forall f :: f in files ==> Named(prefix, f)
    requires |parts| == nThreads && (nThreads > 0 ==> Flatten(Flatten(parts)) == files)
    requires forall t, j :: 0 <= t < |parts| && 0 <= j < |parts[t]| ==> |parts[t][j]| == 1
    ensures var taken := if nThreads == 0 then [] else files;
      && (r.Ok? <==> Consume(taken, ConcSteps(h, covs, metric, prefix)).Ok?)
      && (r.Err? ==> r.error == ConcurrentError)
      && (r.Ok? ==>
          var c := Consume(taken, ConcSteps(h, covs, metric, prefix)).value;
          && Finished(r.value, c, h.cumulative)
          && r.value.projectCoverage == Percent(c.job.coveredLines, c.job.totalLines))
    ensures nThreads == 0 ==>
      r.Ok? && |r.value.res| == 3 && r.value.filesIgnored == [] && r.value.projectCoverage.None?
  {
    var queue := Enqueue(files, nThreads);
    // the consumers' jobs, in order, are the payloads of the queue
    assert nThreads > 0 ==> forall i :: 0 <= i < |files| ==> queue[i] == Some(Flatten(Flatten(parts))[i]);
    var step := ConcSteps(h, covs, metric, prefix);
    var c := RunConsumers(parts, step);
    if c.Err? {
      return Err(ConcurrentError);
    }
    var job := c.value.job;
    var projectCoverage := Percent(job.coveredLines, job.totalLines);
    var out := Finish(c.value, h.cumulative, projectCoverage);
    assert |out.filesIgnored| == |multiset(out.filesIgnored)|;
    r := Ok(out);
  }

  // ---------------------------------------------------------------------
  // get_metrics_concurrent_covdir

  /** What the covdir consumer does with one file: a file without coverage
      data is ignored under its full path; otherwise the root and the scores
      (given the file's percentage) are obtained in that order, and the row
      records the file's percentage as given. No line counts are kept. */
  function CovdirStep(h: Helpers, covs: map<string, Files.Covdir>, metric: Complexity, prefix: nat,
                      path: string): (r: Result<Outcome<Row>>)
    requires Named(prefix, path)
    ensures path !in covs ==> r == Ok(Ignored)
    ensures path in covs && h.roots(path).Err? ==> r == Err(h.roots(path).error)
    ensures path in covs ==>
      (r.Ok? <==> h.roots(path).Ok? && h.scores(h.roots(path).value, covs[path].arr, metric, Some(covs[path].coverage)).Ok?)
    ensures r.Ok? && path in covs ==>
      var d := covs[path];
      var s := h.scores(h.roots(path).value, d.arr, metric, Some(d.coverage)).value;
      r.value == Rows([Row(s.0, s.1, s.2, s.3, FileName(path).value, path[prefix..],
                           h.isComplex(s.0, s.1, s.2, s.3), d.coverage)], EmptyJob)
  {
    var file := FileName(path).value;
    if path !in covs then Ok(Ignored)
    else
      var d := covs[path];
      var root :- h.roots(path);
      var s :- h.scores(root, d.arr, metric, Some(d.coverage));
      Ok(Rows([Row(s.0, s.1, s.2, s.3, file, path[prefix..], h.isComplex(s.0, s.1, s.2, s.3), d.coverage)],
              EmptyJob))
  }

  function CovdirSteps(h: Helpers, covs: map<string, Files.Covdir>, metric: Complexity, prefix: nat)
    : string --> Result<Outcome<Row>>
  {
    (f: string) requires Named(prefix, f) => CovdirStep(h, covs, metric, prefix, f)
  }

  /** `get_metrics_concurrent_covdir` of src/lib.rs. The chunks of
      `chunck_vector` are the jobs, consumer `t` taking those of `parts[t]`;
      the tail is that of the coveralls variant, and the project coverage is
      the percentage recorded under `PROJECT_ROOT`. */
  method GetMetricsConcurrentCovdir(files: seq<string>, covs: map<string, Files.Covdir>, h: Helpers,
                                    metric: Complexity, nThreads: nat, parts: seq<seq<seq<string>>>, prefix: nat)
    returns (r: Result<Report>)
    requires forall f :: f in files ==> Named(prefix, f)
    requires nThreads > 0 && |parts| == nThreads && Flatten(parts) == ChunkVector(files, nThreads)
    requires "PROJECT_ROOT" in covs
    ensures r.Ok? <==> Consume(files, CovdirSteps(h, covs, metric, prefix)).Ok?
    ensures r.Err? ==> r.error == ConcurrentError
    ensures r.Ok? ==>
      && Finished(r.value, Consume(files, CovdirSteps(h, covs, metric, prefix)).value, h.cumulative)
      && r.value.projectCoverage == Some(covs["PROJECT_ROOT"].coverage)
  {
    var chuncks := ChunckVector(files, nThreads);
    var queue := Enqueue(chuncks, nThreads);
    // the consumers' jobs, in order, are the payloads of the queue
    assert forall i :: 0 <= i < |chuncks| ==> queue[i] == Some(Flatten(parts)[i]);
    var step := CovdirSteps(h, covs, metric, prefix);
    var c := RunConsumers(parts, step);
    if c.Err? {
      return Err(ConcurrentError);
    }
    var out := Finish(c.value, h.cumulative, Some(covs["PROJECT_ROOT"].coverage));
    r := Ok(out);
  }
}
