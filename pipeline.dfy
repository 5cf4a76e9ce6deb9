/** The sequential skeleton of the concurrent pipeline shared by the
    file-level (src/files.rs) and function-level (src/functions.rs)
    reports: splitting the file list into chunks, the consumers that turn
    each file into rows or an ignored path while summing numerators, the
    composer that adds up the consumers' sums, and the final assembly of
    the report. Threads and channels are replaced by running the consumers
    one chunk after the other. */
module Pipeline {
  import opened Errors
  import opened Strings
  import opened Sorting
  import opened Records
  import opened Aggregate

  // ---------------------------------------------------------------------
  // chunk_vector

  /** Chunk length: files per thread, at least 1. */
  function ChunkSize(len: nat, n: nat): (k: nat)
    requires n > 0
    ensures k >= 1
  {
    if len / n >= 1 then len / n else 1
  }

  /** `slice::chunks(k)`: consecutive pieces of length `k`, the last one
      possibly shorter. */
  function Chunks<T>(v: seq<T>, k: nat): seq<seq<T>>
    requires k > 0
    decreases |v|
  {
    if v == [] then []
    else if |v| <= k then [v]
    else [v[..k]] + Chunks(v[k..], k)
  }

  /** Concatenation of the pieces. */
  function Flatten<T>(ss: seq<seq<T>>): seq<T>
  {
    if ss == [] then [] else Flatten(ss[..|ss| - 1]) + ss[|ss| - 1]
  }

  lemma {:induction false} FlattenCons<T>(a: seq<T>, ss: seq<seq<T>>)
    ensures Flatten([a] + ss) == a + Flatten(ss)
    decreases |ss|
  {
    if ss == [] {
      assert [a] + ss == [a];
      assert [a][..0] == [];
    } else {
      assert ([a] + ss)[..|ss|] == [a] + ss[..|ss| - 1];
      FlattenCons(a, ss[..|ss| - 1]);
    }
  }

  lemma {:induction false} FlattenAppend<T>(a: seq<seq<T>>, b: seq<seq<T>>)
    ensures Flatten(a + b) == Flatten(a) + Flatten(b)
    decreases |b|
  {
    if b == [] {
      assert a + b == a;
    } else {
      var front, last := b[..|b| - 1], b[|b| - 1];
      assert (a + b)[..|a + b| - 1] == a + front;
      assert Flatten(a + b) == Flatten(a + front) + last;
      FlattenAppend(a, front);
      assert Flatten(b) == Flatten(front) + last;
    }
  }

  /** `chunks` cuts the sequence into non-empty pieces of length `k` except
      possibly the last, ⌈|v| / k⌉ of them, whose concatenation is `v`. */
  lemma ChunksPartition<T>(v: seq<T>, k: nat)
    requires k > 0
    ensures Flatten(Chunks(v, k)) == v
    ensures forall i :: 0 <= i < |Chunks(v, k)| ==> 1 <= |Chunks(v, k)[i]| <= k
    ensures forall i :: 0 <= i < |Chunks(v, k)| - 1 ==> |Chunks(v, k)[i]| == k
    ensures |Chunks(v, k)| == (|v| + k - 1) / k
  {
    ChunksFlatten(v, k);
    ChunksSizes(v, k);
    ChunksCount(v, k);
  }

  lemma {:induction false} ChunksFlatten<T>(v: seq<T>, k: nat)
    requires k > 0
    ensures Flatten(Chunks(v, k)) == v
    decreases |v|
  {
    if v == [] {
    } else if |v| <= k {
      assert [v][..0] == [];
    } else {
      ChunksFlatten(v[k..], k);
      FlattenCons(v[..k], Chunks(v[k..], k));
      assert v[..k] + v[k..] == v;
    }
  }

  lemma {:induction false} ChunksSizes<T>(v: seq<T>, k: nat)
    requires k > 0
    ensures forall i :: 0 <= i < |Chunks(v, k)| ==> 1 <= |Chunks(v, k)[i]| <= k
    ensures forall i :: 0 <= i < |Chunks(v, k)| - 1 ==> |Chunks(v, k)[i]| == k
    decreases |v|
  {
    if |v| > k {
      ChunksSizes(v[k..], k);
      var c := Chunks(v, k);
      var rest := Chunks(v[k..], k);
      assert c == [v[..k]] + rest;
      assert forall i :: 1 <= i < |c| ==> c[i] == rest[i - 1];
    }
  }

  lemma {:induction false} ChunksCount<T>(v: seq<T>, k: nat)
    requires k > 0
    ensures |Chunks(v, k)| == (|v| + k - 1) / k
    decreases |v|
  {
    if v == [] {
      DivUnique(k - 1, k, 0, k - 1);
    } else if |v| <= k {
      DivOne(|v| + k - 1, k);
    } else {
      var x := |v| - 1;
      assert |Chunks(v, k)| == 1 + |Chunks(v[k..], k)|;
      ChunksCount(v[k..], k);
      assert |v[k..]| + k - 1 == x;
      DivStep(x, k);
      assert |v| + k - 1 == x + k;
    }
  }

  lemma DivOne(x: nat, k: nat)
    requires k > 0 && k <= x < 2 * k
    ensures x / k == 1
  {
  }

  lemma DivStep(x: nat, k: nat)
    requires k > 0
    ensures (x + k) / k == x / k + 1
  {
    var q, r := x / k, x % k;
    assert x == q * k + r;
    assert x + k == (q + 1) * k + r;
    DivUnique(x + k, k, q + 1, r);
  }

  lemma DivUnique(x: int, k: int, q: int, r: int)
    requires k > 0 && 0 <= r < k && x == q * k + r
    ensures x / k == q
  {
    var d, m := x / k, x % k;
    assert x == d * k + m;
    assert (d - q) * k == r - m;
    if d > q {
      MulAtLeast(d - q, k);
    } else if d < q {
      MulAtLeast(q - d, k);
    }
  }

  lemma MulAtLeast(a: int, k: int)
    requires a >= 1 && k > 0
    ensures a * k >= k
  {
  }

  /** `chunk_vector` of src/files.rs and src/functions.rs. */
  function ChunkVector(vec: seq<string>, nThreads: nat): seq<seq<string>>
    requires nThreads > 0
  {
    Chunks(vec, ChunkSize(|vec|, nThreads))
  }

  /** With `k = max(|vec| / n, 1)`, `chunk_vector` is a partition of the
      file list into non-empty consecutive chunks of `k` files except
      possibly the last, and there are ⌈|vec| / k⌉ of them, which can be
      more than `n`. */
  lemma ChunkVectorPartition(vec: seq<string>, nThreads: nat)
    requires nThreads > 0
    ensures var r := ChunkVector(vec, nThreads); var k := ChunkSize(|vec|, nThreads);
      && Flatten(r) == vec
      && (forall i :: 0 <= i < |r| ==> 1 <= |r[i]| <= k)
      && (forall i :: 0 <= i < |r| - 1 ==> |r[i]| == k)
      && |r| == (|vec| + k - 1) / k
  {
    ChunksPartition(vec, ChunkSize(|vec|, nThreads));
  }

  /** How many jobs `chunk_vector` makes for `n` threads: one per file when
      there are fewer files than threads; otherwise between `n` and
      `2n - 1`, exactly `n` when `n` divides the number of files. So
      unless it does, there are more chunks than threads. */
  lemma ChunkCount(vec: seq<string>, n: nat)
    requires n > 0
    ensures |vec| < n ==> |ChunkVector(vec, n)| == |vec|
    ensures |vec| >= n ==> n <= |ChunkVector(vec, n)| < 2 * n
    ensures |vec| >= n ==> (|ChunkVector(vec, n)| == n <==> |vec| % n == 0)
  {
    ChunksCount(vec, ChunkSize(|vec|, n));
    ChunkCountOf(|vec|, n);
  }

  /** `ChunkCount` on the lengths: the number of pieces of
      `k = max(len / n, 1)` that `len` items make. */
  lemma ChunkCountOf(len: nat, n: nat)
    requires n > 0
    ensures var k := ChunkSize(len, n);
      && (len < n ==> (len + k - 1) / k == len)
      && (len >= n ==> n <= (len + k - 1) / k < 2 * n)
      && (len >= n ==> ((len + k - 1) / k == n <==> len % n == 0))
  {
    if len >= n {
      var q, r := len / n, len % n;
      assert len == q * n + r;
      ChunkCountArith(n, q, r);
    }
  }

  /** The arithmetic of `ChunkCount`: with `len = n·q + r`, the count
      `⌈len / q⌉` is `n` plus `⌈r / q⌉`, which is 0 exactly when `r` is. */
  lemma ChunkCountArith(n: nat, q: nat, r: nat)
    requires n >= 1 && q >= 1 && r < n
    ensures n <= (q * n + r + q - 1) / q < 2 * n
    ensures (q * n + r + q - 1) / q == n <==> r == 0
  {
    var x := q * n + r + q - 1;
    MulLe(1, q, n - 1);
    assert (n - 1) * q == q * n - q;
    assert 2 * n * q == q * n + q * n;
    if r == 0 {
      assert (n + 1) * q == q * n + q;
      DivBounds(x, q, n, n + 1);
    } else {
      assert (n + 1) * q == q * n + q;
      assert n * q == q * n;
      DivBounds(x, q, n + 1, 2 * n);
    }
  }

  /** A quotient lies between the bounds its dividend lies between. */
  lemma DivBounds(x: nat, k: nat, lo: nat, hi: nat)
    requires k > 0 && lo * k <= x < hi * k
    ensures lo <= x / k < hi
  {
    var q, m := x / k, x % k;
    assert x == q * k + m;
    if q < lo {
      assert (q + 1) * k == q * k + k;
      MulLe(q + 1, lo, k);
    }
    if q >= hi {
      MulLe(hi, q, k);
    }
  }

  lemma MulLe(a: int, b: int, k: nat)
    requires a <= b
    ensures a * k <= b * k
  {
    assert b * k - a * k == (b - a) * k;
  }

  // ---------------------------------------------------------------------
  // composer

  /** Index of the first `None`, or the length when there is none. */
  function FirstNone(ms: seq<Option<JobComposer>>): (n: nat)
    ensures n <= |ms|
    ensures forall k :: 0 <= k < n ==> ms[k].Some?
    ensures n < |ms| ==> ms[n].None?
  {
    if ms == [] || ms[0].None? then 0 else 1 + FirstNone(ms[1..])
  }

  /** The payloads of a run of `Some` messages. */
  function Payloads(ms: seq<Option<JobComposer>>): seq<JobComposer>
    requires forall k :: 0 <= k < |ms| ==> ms[k].Some?
  {
    if ms == [] then [] else Payloads(ms[..|ms| - 1]) + [ms[|ms| - 1].value]
  }

  /** The accumulators the composer takes in: those before the first `None`. */
  function Received(ms: seq<Option<JobComposer>>): seq<JobComposer>
  {
    Payloads(ms[..FirstNone(ms)])
  }

  /** `composer`: receives accumulators until the first `None` (or the end
      of the channel) and returns their field-wise sums, always `Ok`. */
  method Composer(messages: seq<Option<JobComposer>>) returns (r: Result<JobComposer>)
    ensures r == Ok(SumJobs(Received(messages)))
  {
    var coveredLines, totalLines, sifisPlainSum, sifisQuantizedSum, plocSum, compSum :=
      0.0, 0.0, 0.0, 0.0, 0.0, 0.0;
    var i := 0;
    while i < |messages| && messages[i].Some?
      invariant i <= FirstNone(messages)
      invariant JobComposer(coveredLines, totalLines, sifisPlainSum, sifisQuantizedSum, plocSum, compSum)
                == SumJobs(Payloads(messages[..i]))
    {
      var job := messages[i].value;
      assert messages[..i + 1][..i] == messages[..i];
      coveredLines := coveredLines + job.coveredLines;
      totalLines := totalLines + job.totalLines;
      sifisPlainSum := sifisPlainSum + job.sifisPlainSum;
      sifisQuantizedSum := sifisQuantizedSum + job.sifisQuantizedSum;
      plocSum := plocSum + job.plocSum;
      compSum := compSum + job.compSum;
      i := i + 1;
    }
    r := Ok(JobComposer(coveredLines, totalLines, sifisPlainSum, sifisQuantizedSum, plocSum, compSum));
  }

  /** The composer's result does not depend on the order in which the
      accumulators arrive. */
  lemma ComposerOrderIndependent(a: seq<Option<JobComposer>>, b: seq<Option<JobComposer>>)
    requires multiset(Received(a)) == multiset(Received(b))
    ensures SumJobs(Received(a)) == SumJobs(Received(b))
  {
    SumJobsPermutation(Received(a), Received(b));
  }

  // ---------------------------------------------------------------------
  // consumers

  /** What one file gives a consumer: an ignored path (no coverage data),
      or rows and the numerators to add to the consumer's accumulator. */
  datatype Outcome<R> = Ignored | Rows(rows: seq<R>, job: JobComposer)

  /** What a consumer has produced so far. */
  datatype Consumed<R> = Consumed(rows: seq<R>, ignored: seq<string>, job: JobComposer)

  function Record<R>(c: Consumed<R>, file: string, o: Outcome<R>): Consumed<R>
  {
    match o
    case Ignored => c.(ignored := c.ignored + [file])
    case Rows(rows, job) => c.(rows := c.rows + rows, job := c.job.Add(job))
  }

  /** Processing `files` in order with the per-file step `step`, stopping
      at the first error. */
  function Consume<R>(files: seq<string>, step: string --> Result<Outcome<R>>): Result<Consumed<R>>
    requires forall f :: f in files ==> step.requires(f)
    decreases |files|
  {
    if files == [] then Ok(Consumed([], [], EmptyJob))
    else
      var before :- Consume(files[..|files| - 1], step);
      var o :- step(files[|files| - 1]);
      Ok(Record(before, files[|files| - 1], o))
  }

  /** Two consumers' results side by side, accumulators added. */
  function Combine<R>(a: Consumed<R>, b: Consumed<R>): Consumed<R>
  {
    Consumed(a.rows + b.rows, a.ignored + b.ignored, a.job.Add(b.job))
  }

  /** Recording a file after combining is combining after recording it. */
  lemma RecordCombine<R>(a: Consumed<R>, b: Consumed<R>, file: string, o: Outcome<R>)
    ensures Record(Combine(a, b), file, o) == Combine(a, Record(b, file, o))
  {
    if o.Rows? {
      assert (a.rows + b.rows) + o.rows == a.rows + (b.rows + o.rows);
    } else {
      assert (a.ignored + b.ignored) + [file] == a.ignored + (b.ignored + [file]);
    }
  }

  /** Two results in sequence: the first error wins, otherwise the two
      consumers' results are combined. */
  function Then<R>(x: Result<Consumed<R>>, y: Result<Consumed<R>>): Result<Consumed<R>>
  {
    if x.Err? then x else if y.Err? then y else Ok(Combine(x.value, y.value))
  }

  /** What the step accepts for `a + b` it accepts for `a` and for `b`. */
  lemma SplitRequires<R>(a: seq<string>, b: seq<string>, step: string --> Result<Outcome<R>>)
    requires forall f :: f in a + b ==> step.requires(f)
    ensures forall f :: f in a ==> step.requires(f)
    ensures forall f :: f in b ==> step.requires(f)
  {
    assert forall f :: f in a ==> f in a + b;
    assert forall f :: f in b ==> f in a + b;
  }

  /** One more file whose step succeeds is recorded after the others. */
  lemma ConsumeSnoc<R>(xs: seq<string>, f: string, step: string --> Result<Outcome<R>>)
    requires forall g :: g in xs + [f] ==> step.requires(g)
    requires forall g :: g in xs ==> step.requires(g)
    requires step.requires(f) && Consume(xs, step).Ok? && step(f).Ok?
    ensures Consume(xs + [f], step) == Ok(Record(Consume(xs, step).value, f, step(f).value))
  {
    assert (xs + [f])[..|xs|] == xs;
  }

  /** Processing nothing more changes nothing. */
  lemma ConsumeEmptyRight<R>(a: seq<string>, step: string --> Result<Outcome<R>>)
    requires forall f :: f in a ==> step.requires(f)
    ensures Consume(a + [], step) == Then(Consume(a, step), Consume([], step))
  {
    assert a + [] == a;
    var c := Consume(a, step);
    if c.Ok? {
      assert c.value.rows + [] == c.value.rows;
      assert c.value.ignored + [] == c.value.ignored;
    }
  }

  /** Processing `a + b` is processing `a`, then `b` from a fresh state,
      and combining: the first error wins. */
  lemma {:induction false} ConsumeAppend<R>(a: seq<string>, b: seq<string>, step: string --> Result<Outcome<R>>)
    requires forall f :: f in a + b ==> step.requires(f)
    requires forall f :: f in a ==> step.requires(f)
    requires forall f :: f in b ==> step.requires(f)
    ensures Consume(a + b, step) == Then(Consume(a, step), Consume(b, step))
    decreases |b|
  {
    if b == [] {
      ConsumeEmptyRight(a, step);
    } else {
      var b' := b[..|b| - 1];
      var last := b[|b| - 1];
      assert (a + b)[..|a + b| - 1] == a + b';
      assert (a + b)[|a + b| - 1] == last;
      SplitRequires(a + b', [last], step);
      SplitRequires(b', [last], step);
      assert a + b' + [last] == a + b;
      assert b' + [last] == b;
      ConsumeAppend(a, b', step);
      ConsumeAppendStep(a, b', last, step);
    }
  }

  /** The inductive step of `ConsumeAppend`: one more file after `b`. */
  lemma ConsumeAppendStep<R>(a: seq<string>, b: seq<string>, last: string, step: string --> Result<Outcome<R>>)
    requires forall f :: f in a + b + [last] ==> step.requires(f)
    requires forall f :: f in a + b ==> step.requires(f)
    requires forall f :: f in a ==> step.requires(f)
    requires forall f :: f in b + [last] ==> step.requires(f)
    requires forall f :: f in b ==> step.requires(f)
    requires step.requires(last)
    requires Consume(a + b, step) == Then(Consume(a, step), Consume(b, step))
    ensures Consume(a + b + [last], step) == Then(Consume(a, step), Consume(b + [last], step))
  {
    assert (a + b + [last])[..|a + b|] == a + b;
    assert (b + [last])[..|b|] == b;
    var ca, cb := Consume(a, step), Consume(b, step);
    if ca.Ok? && cb.Ok? && step(last).Ok? {
      RecordCombine(ca.value, cb.value, last, step(last).value);
    }
  }

  /** A failing file ends the processing with its error, whatever follows. */
  lemma ConsumeStopsAt<R>(pre: seq<string>, f: string, post: seq<string>, step: string --> Result<Outcome<R>>)
    requires forall g :: g in pre + [f] + post ==> step.requires(g)
    requires forall g :: g in pre ==> step.requires(g)
    requires step.requires(f) && Consume(pre, step).Ok? && step(f).Err?
    ensures Consume(pre + [f] + post, step) == Err(step(f).error)
  {
    assert (pre + [f])[..|pre|] == pre;
    SplitRequires(pre + [f], post, step);
    ConsumeAppend(pre + [f], post, step);
  }

  /** On success every file's step succeeded; the rows and accumulators of
      files whose step gives rows with positive physical lines make the
      total positive. */
  lemma {:induction false} ConsumeSucceeds<R>(files: seq<string>, step: string --> Result<Outcome<R>>)
    requires forall f :: f in files ==> step.requires(f)
    requires Consume(files, step).Ok?
    requires forall f :: f in files && step(f).Ok? && step(f).value.Rows? ==>
      |step(f).value.rows| > 0 && step(f).value.job.plocSum > 0.0
    ensures forall f :: f in files ==> step(f).Ok?
    ensures Consume(files, step).value.job.plocSum >= 0.0
    ensures (exists f :: f in files && step(f).value.Rows?) ==>
      |Consume(files, step).value.rows| > 0 && Consume(files, step).value.job.plocSum > 0.0
    decreases |files|
  {
    if files != [] {
      var pre := files[..|files| - 1];
      var last := files[|files| - 1];
      assert forall f :: f in pre ==> f in files;
      ConsumeSucceeds(pre, step);
      assert forall f :: f in files ==> f in pre || f == last;
    }
  }

  /** On success every file's step succeeded, and a file whose step gives
      at least one row leaves the run with at least one row. */
  lemma {:induction false} ConsumeKeepsRows<R>(files: seq<string>, step: string --> Result<Outcome<R>>)
    requires forall f :: f in files ==> step.requires(f)
    requires Consume(files, step).Ok?
    requires forall f :: f in files && step(f).Ok? && step(f).value.Rows? ==> |step(f).value.rows| > 0
    ensures forall f :: f in files ==> step(f).Ok?
    ensures (exists f :: f in files && step(f).value.Rows?) ==> |Consume(files, step).value.rows| > 0
    decreases |files|
  {
    if files != [] {
      var pre := files[..|files| - 1];
      var last := files[|files| - 1];
      assert forall f :: f in pre ==> f in files;
      ConsumeKeepsRows(pre, step);
      assert forall f :: f in files ==> f in pre || f == last;
    }
  }

  /** When every file covers at most its executable lines, so does the run. */
  lemma {:induction false} ConsumeLineCounts<R>(files: seq<string>, step: string --> Result<Outcome<R>>)
    requires forall f :: f in files ==> step.requires(f)
    requires Consume(files, step).Ok?
    requires forall f :: f in files && step(f).Ok? && step(f).value.Rows? ==>
      0.0 <= step(f).value.job.coveredLines <= step(f).value.job.totalLines
    ensures 0.0 <= Consume(files, step).value.job.coveredLines <= Consume(files, step).value.job.totalLines
    decreases |files|
  {
    if files != [] {
      var pre := files[..|files| - 1];
      assert forall f :: f in pre ==> f in files;
      ConsumeLineCounts(pre, step);
    }
  }

  /** Where job `i` sits in the concatenation of all the jobs: right after
      the files of the jobs before it. */
  lemma FlattenAt<T>(jobs: seq<seq<T>>, i: nat)
    requires i < |jobs|
    ensures var all, n := Flatten(jobs), |Flatten(jobs[..i])|;
      && n + |jobs[i]| <= |all|
      && all[..n] == Flatten(jobs[..i])
      && all[..n + |jobs[i]|] == Flatten(jobs[..i + 1])
      && forall j :: 0 <= j < |jobs[i]| ==> all[n + j] == jobs[i][j]
  {
    FlattenPrefix(jobs, i);
    var front, back := jobs[..i + 1], jobs[i + 1..];
    assert front + back == jobs;
    FlattenAppend(front, back);
  }

  lemma FlattenPrefix<T>(jobs: seq<seq<T>>, i: nat)
    requires i < |jobs|
    ensures Flatten(jobs[..i + 1]) == Flatten(jobs[..i]) + jobs[i]
  {
    var front := jobs[..i + 1];
    assert front[..|front| - 1] == jobs[..i];
  }

  /** A consumer's shared output: the rows and the ignored paths, each
      behind a mutex in the source. */
  class Config<R> {
    var res: seq<R>
    var filesIgnored: seq<string>

    constructor()
      ensures res == [] && filesIgnored == []
    {
      res := [];
      filesIgnored := [];
    }
  }

  /** The consumer's state mirrors a successful run over some files: its
      accumulator is the run's, and the run's rows and ignored paths were
      appended to what the shared configuration held before. */
  ghost predicate Mirrors<R>(c: Result<Consumed<R>>, job: JobComposer, res: seq<R>, ignored: seq<string>,
                            res0: seq<R>, ignored0: seq<string>)
  {
    c.Ok? && job == c.value.job && res == res0 + c.value.rows && ignored == ignored0 + c.value.ignored
  }

  /** One job of a consumer: its files in order, after the files `seen`
      of the consumer's earlier jobs. */
  method ConsumeChunk<R>(cfg: Config<R>, ghost seen: seq<string>, chunk: seq<string>, acc: JobComposer,
                         step: string --> Result<Outcome<R>>, ghost res0: seq<R>, ghost ignored0: seq<string>)
    returns (r: Result<JobComposer>)
    requires forall f :: f in seen + chunk ==> step.requires(f)
    requires forall f :: f in seen ==> step.requires(f)
    requires Mirrors(Consume(seen, step), acc, cfg.res, cfg.filesIgnored, res0, ignored0)
    modifies cfg
    ensures r.Ok? <==> Consume(seen + chunk, step).Ok?
    ensures r.Err? ==> r.error == Consume(seen + chunk, step).error
    ensures r.Ok? ==> Mirrors(Consume(seen + chunk, step), r.value, cfg.res, cfg.filesIgnored, res0, ignored0)
  {
    ghost var all := seen + chunk;
    ghost var n := |seen|;
    assert all[..n] == seen;
    var composerOutput := acc;
    for j := 0 to |chunk|
      invariant Mirrors(Consume(all[..n + j], step), composerOutput, cfg.res, cfg.filesIgnored, res0, ignored0)
    {
      var file := chunk[j];
      assert file == all[n + j];
      assert all[..n + j + 1] == all[..n + j] + [file];
      var o := step(file);
      if o.Err? {
        assert all == all[..n + j] + [file] + all[n + j + 1..];
        ConsumeStopsAt(all[..n + j], file, all[n + j + 1..], step);
        return Err(o.error);
      }
      ConsumeSnoc(all[..n + j], file, step);
      match o.value
      case Ignored =>
        cfg.filesIgnored := cfg.filesIgnored + [file];
      case Rows(rows, job) =>
        cfg.res := cfg.res + rows;
        composerOutput := composerOutput.Add(job);
    }
    assert all[..n + |chunk|] == all;
    r := Ok(composerOutput);
  }

  /** A consumer thread: takes its jobs (chunks of files) one at a time,
      appends rows and ignored paths to the shared configuration, sums the
      numerators in its own accumulator and hands the accumulator on. The
      first failing file ends the consumer with that error. */
  method Consumer<R>(cfg: Config<R>, jobs: seq<seq<string>>, step: string --> Result<Outcome<R>>)
    returns (r: Result<JobComposer>)
    requires forall f :: f in Flatten(jobs) ==> step.requires(f)
    modifies cfg
    ensures Consume(Flatten(jobs), step).Ok? <==> r.Ok?
    ensures r.Err? ==> r.error == Consume(Flatten(jobs), step).error
    ensures r.Ok? ==>
      var c := Consume(Flatten(jobs), step).value;
      && r.value == c.job
      && cfg.res == old(cfg.res) + c.rows
      && cfg.filesIgnored == old(cfg.filesIgnored) + c.ignored
  {
    ghost var all := Flatten(jobs);
    ghost var n: nat := 0;
    var composerOutput := EmptyJob;
    for i := 0 to |jobs|
      invariant n == |Flatten(jobs[..i])| <= |all|
      invariant all[..n] == Flatten(jobs[..i])
      invariant Mirrors(Consume(all[..n], step), composerOutput, cfg.res, cfg.filesIgnored,
                        old(cfg.res), old(cfg.filesIgnored))
    {
      FlattenAt(jobs, i);
      var chunk := jobs[i];
      ghost var rest := all[n + |chunk|..];
      assert all == all[..n] + chunk + rest;
      SplitRequires(all[..n] + chunk, rest, step);
      SplitRequires(all[..n], chunk, step);
      var out := ConsumeChunk(cfg, all[..n], chunk, composerOutput, step, old(cfg.res), old(cfg.filesIgnored));
      if out.Err? {
        ConsumeAppend(all[..n] + chunk, rest, step);
        return out;
      }
      composerOutput := out.value;
      n := n + |chunk|;
    }
    assert jobs[..|jobs|] == jobs;
    assert all[..n] == all;
    r := Ok(composerOutput);
  }

  // ---------------------------------------------------------------------
  // assembly of the report

  /** What a report returns: the rows (followed by the summary rows), the
      ignored paths, the complex rows and the project coverage. */
  datatype Output<R> = Output(res: seq<R>, filesIgnored: seq<string>, complexFiles: seq<R>,
                           projectCoverage: Option<real>)

  /** The scores of each row, in order. */
  function Column<R>(rows: seq<R>, metricsOf: R -> Metrics): (ms: seq<Metrics>)
    ensures |ms| == |rows|
    ensures forall i :: 0 <= i < |rows| ==> ms[i] == metricsOf(rows[i])
  {
    if rows == [] then [] else Column(rows[..|rows| - 1], metricsOf) + [metricsOf(rows[|rows| - 1])]
  }

  /** The rows flagged complex, in their order. */
  function Complex<R(!new)>(rows: seq<R>, metricsOf: R -> Metrics): (c: seq<R>)
    ensures |c| <= |rows|
    ensures forall x :: multiset(c)[x] == if metricsOf(x).isComplex then multiset(rows)[x] else 0
  {
    if rows == [] then []
    else
      var last := rows[|rows| - 1];
      var before := Complex(rows[..|rows| - 1], metricsOf);
      assert rows == rows[..|rows| - 1] + [last];
      if metricsOf(last).isComplex then before + [last] else before
  }

  /** Picking out the complex rows works piece by piece: those of `a + b`
      are those of `a` followed by those of `b`, so the picked rows keep
      the order they had. */
  lemma {:induction false} ComplexAppend<R(!new)>(a: seq<R>, b: seq<R>, metricsOf: R -> Metrics)
    ensures Complex(a + b, metricsOf) == Complex(a, metricsOf) + Complex(b, metricsOf)
    decreases |b|
  {
    if b != [] {
      var n := |b| - 1;
      assert (a + b)[..|a + b| - 1] == a + b[..n];
      ComplexAppend(a, b[..n], metricsOf);
    } else {
      assert a + b == a;
    }
  }

  /** The complex rows of rows sorted by a key are sorted by it too. */
  lemma {:induction false} ComplexKeepsOrder<R(!new)>(rows: seq<R>, metricsOf: R -> Metrics, key: R -> string)
    requires SortedBy(rows, key)
    ensures SortedBy(Complex(rows, metricsOf), key)
    decreases |rows|
  {
    if rows != [] {
      var n := |rows| - 1;
      var before := Complex(rows[..n], metricsOf);
      assert Complex(rows, metricsOf) == if metricsOf(rows[n]).isComplex then before + [rows[n]] else before;
      SortedPrefix(rows, n, key);
      ComplexKeepsOrder(rows[..n], metricsOf, key);
      if metricsOf(rows[n]).isComplex {
        forall i | 0 <= i < |before|
          ensures LexLe(key(before[i]), key(rows[n]))
        {
          var k := PickedFrom(rows[..n], metricsOf, i);
          assert rows[..n][k] == rows[k];
        }
        SortedSnoc(before, rows[n], key);
      }
    }
  }

  /** Every picked row is one of the rows. */
  lemma PickedFrom<R(!new)>(rows: seq<R>, metricsOf: R -> Metrics, i: nat) returns (k: nat)
    requires i < |Complex(rows, metricsOf)|
    ensures k < |rows| && rows[k] == Complex(rows, metricsOf)[i]
  {
    var x := Complex(rows, metricsOf)[i];
    assert multiset(Complex(rows, metricsOf))[x] > 0;
    assert x in rows;
    k :| 0 <= k < |rows| && rows[k] == x;
  }

  lemma SortedPrefix<R>(s: seq<R>, n: nat, key: R -> string)
    requires SortedBy(s, key) && n <= |s|
    ensures SortedBy(s[..n], key)
  {
    forall i, j | 0 <= i < j < n
      ensures LexLe(key(s[..n][i]), key(s[..n][j]))
    {
      assert s[..n][i] == s[i] && s[..n][j] == s[j];
    }
  }

  lemma SortedSnoc<R>(s: seq<R>, x: R, key: R -> string)
    requires SortedBy(s, key)
    requires forall i :: 0 <= i < |s| ==> LexLe(key(s[i]), key(x))
    ensures SortedBy(s + [x], key)
  {
    forall i, j | 0 <= i < j < |s| + 1
      ensures LexLe(key((s + [x])[i]), key((s + [x])[j]))
    {
      assert (s + [x])[i] == s[i];
    }
  }

  /** Sorting the texts themselves. */
  function Itself(s: string): string { s }

  /** `out` is the report assembled from the consumers' rows `res` and
      ignored paths `ignored`, with PROJECT row `project`: the ignored paths
      sorted, the rows sorted by name, the complex rows picked out of the
      sorted rows, and the PROJECT, AVG, MAX and MIN rows appended, the last
      three computed over the sorted rows; the reported project coverage is
      the PROJECT row's. */
  ghost predicate Assembled<R(!new)>(out: Output<R>, res: seq<R>, ignored: seq<string>, key: R -> string,
                                     metricsOf: R -> Metrics, summary: (Metrics, string) -> R, project: Metrics)
  {
    && |out.res| == |res| + 4
    && SortedBy(out.res[..|res|], key) && multiset(out.res[..|res|]) == multiset(res)
    && SortedBy(out.filesIgnored, Itself) && multiset(out.filesIgnored) == multiset(ignored)
    && out.complexFiles == Complex(out.res[..|res|], metricsOf)
    && |res| > 0
    && (var ms := Column(out.res[..|res|], metricsOf);
        out.res[|res|..] == [summary(project, "PROJECT"), summary(AvgRow(ms), "AVG"),
                             summary(MaxRow(ms), "MAX"), summary(MinRow(ms), "MIN")])
    && out.projectCoverage == Some(project.coverage)
  }

  /** The common tail of the concurrent reports. The source divides by the
      row count for AVG; at least one row is required. */
  method Assemble<R(!new)>(res: seq<R>, ignored: seq<string>, key: R -> string, metricsOf: R -> Metrics,
                           summary: (Metrics, string) -> R, project: Metrics)
    returns (out: Output<R>)
    requires |res| > 0
    ensures Assembled(out, res, ignored, key, metricsOf, summary, project)
    ensures SortedBy(out.complexFiles, key)
  {
    var filesIgnored := SortBy(ignored, Itself);
    var rows := SortBy(res, key);
    assert |rows| == |multiset(rows)| == |multiset(res)| == |res|;
    var complexFiles := Complex(rows, metricsOf);
    ComplexKeepsOrder(rows, metricsOf, key);
    var avg, max, min := GetCumulativeValues(Column(rows, metricsOf));
    var all := rows + [summary(project, "PROJECT"), summary(avg, "AVG"), summary(max, "MAX"), summary(min, "MIN")];
    assert all[..|res|] == rows;
    out := Output(all, filesIgnored, complexFiles, Some(project.coverage));
  }

  /** Every message of the consumers is an accumulator. */
  predicate AllSent(ms: seq<Option<JobComposer>>)
  {
    forall k :: 0 <= k < |ms| ==> ms[k].Some?
  }

  /** After the consumers' accumulators comes the poison `None`: the
      composer takes exactly the accumulators in. */
  lemma ReceivedAll(ms: seq<Option<JobComposer>>)
    requires AllSent(ms)
    ensures Received(ms + [None]) == Payloads(ms)
  {
    assert forall k :: 0 <= k < |ms| ==> (ms + [None])[k] == ms[k];
    assert (ms + [None])[|ms|].None?;
    assert (ms + [None])[..|ms|] == ms;
  }

  /** One more accumulator adds to the payload sum. */
  lemma PayloadsSnoc(ms: seq<Option<JobComposer>>, j: JobComposer)
    requires AllSent(ms)
    ensures AllSent(ms + [Some(j)])
    ensures SumJobs(Payloads(ms + [Some(j)])) == SumJobs(Payloads(ms)).Add(j)
  {
    assert (ms + [Some(j)])[..|ms|] == ms;
  }

  /** The consumers' run followed by the composer: consumer `t` takes the
      jobs `parts[t]`, one consumer after the other, each appending to the
      shared configuration and sending its accumulator; then the poison
      `None` is sent and the composer sums what it received. The first
      failing consumer ends the run with its error. Each consumer takes a
      contiguous run of the jobs, in queue order; for every such
      distribution the result is the processing of all the files in order. */
  method RunConsumers<R>(parts: seq<seq<seq<string>>>, step: string --> Result<Outcome<R>>)
    returns (r: Result<Consumed<R>>)
    requires forall f :: f in Flatten(Flatten(parts)) ==> step.requires(f)
    ensures r == Consume(Flatten(Flatten(parts)), step)
  {
    ghost var all := Flatten(Flatten(parts));
    var cfg := new Config<R>();
    var messages: seq<Option<JobComposer>> := [];
    ghost var n: nat := 0;
    for t := 0 to |parts|
      invariant n == |Flatten(Flatten(parts[..t]))| <= |all|
      invariant all[..n] == Flatten(Flatten(parts[..t]))
      invariant AllSent(messages)
      invariant Mirrors(Consume(all[..n], step), SumJobs(Payloads(messages)), cfg.res, cfg.filesIgnored, [], [])
    {
      PartsAt(parts, t);
      var jobs := parts[t];
      ghost var rest := all[n + |Flatten(jobs)|..];
      assert all == all[..n] + Flatten(jobs) + rest;
      SplitRequires(all[..n] + Flatten(jobs), rest, step);
      SplitRequires(all[..n], Flatten(jobs), step);
      ghost var job0, res0, ignored0 := SumJobs(Payloads(messages)), cfg.res, cfg.filesIgnored;
      var out := Consumer(cfg, jobs, step);
      ConsumeAppend(all[..n], Flatten(jobs), step);
      if out.Err? {
        ConsumeAppend(all[..n] + Flatten(jobs), rest, step);
        return Err(out.error);
      }
      MirrorsThen(Consume(all[..n], step), Consume(Flatten(jobs), step), job0, res0, ignored0,
                  out.value, cfg.res, cfg.filesIgnored);
      PayloadsSnoc(messages, out.value);
      messages := messages + [Some(out.value)];
      n := n + |Flatten(jobs)|;
    }
    assert parts[..|parts|] == parts;
    assert all[..n] == all;
    ReceivedAll(messages);
    var composed := Composer(messages + [None]);
    ghost var c := Consume(all, step).value;
    assert cfg.res == [] + c.rows == c.rows;
    assert cfg.filesIgnored == [] + c.ignored == c.ignored;
    r := Ok(Consumed(cfg.res, cfg.filesIgnored, composed.value));
  }

  /** A consumer's successful run after the earlier ones keeps the shared
      configuration and the sent accumulators in step with the processing. */
  lemma MirrorsThen<R>(a: Result<Consumed<R>>, b: Result<Consumed<R>>, job: JobComposer, res: seq<R>,
                       ignored: seq<string>, jobB: JobComposer, res2: seq<R>, ignored2: seq<string>)
    requires Mirrors(a, job, res, ignored, [], []) && b.Ok?
    requires jobB == b.value.job && res2 == res + b.value.rows && ignored2 == ignored + b.value.ignored
    ensures Mirrors(Then(a, b), job.Add(jobB), res2, ignored2, [], [])
  {
    assert [] + (a.value.rows + b.value.rows) == ([] + a.value.rows) + b.value.rows;
    assert [] + (a.value.ignored + b.value.ignored) == ([] + a.value.ignored) + b.value.ignored;
  }

  /** Where the jobs of consumer `t` sit among all the files. */
  lemma PartsAt(parts: seq<seq<seq<string>>>, t: nat)
    requires t < |parts|
    ensures var all, n := Flatten(Flatten(parts)), |Flatten(Flatten(parts[..t]))|;
      && n + |Flatten(parts[t])| <= |all|
      && all[..n] == Flatten(Flatten(parts[..t]))
      && all[..n + |Flatten(parts[t])|] == Flatten(Flatten(parts[..t + 1]))
      && all[n..n + |Flatten(parts[t])|] == Flatten(parts[t])
  {
    var front, back := parts[..t + 1], parts[t + 1..];
    var x, y := Flatten(Flatten(parts[..t])), Flatten(parts[t]);
    FlattenPrefix(parts, t);
    FlattenAppend(Flatten(parts[..t]), parts[t]);
    assert Flatten(Flatten(front)) == x + y;
    assert front + back == parts;
    FlattenAppend(front, back);
    FlattenAppend(Flatten(front), Flatten(back));
    var z := Flatten(Flatten(back));
    assert Flatten(Flatten(parts)) == (x + y) + z;
  }
}
