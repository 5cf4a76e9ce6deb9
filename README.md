# weighted-code-coverage, modelled in Dafny

weighted-code-coverage scores a Rust project by combining line coverage
(grcov output, in the *coveralls* or the *covdir* JSON dialect) with the
complexity of the code (cyclomatic or cognitive, from rust-code-analysis).
For every file — or, in the function mode, every function scope and every
file — it computes four scores:

- SIFIS plain: every covered line weighs the complexity of the whole scope, over the physical lines.
- SIFIS quantized: every covered line weighs 1, or 2 when the innermost scope around it has an own complexity above 15.
- CRAP: `comp² · (1 − cov)³ + comp`.
- Skunk without code smells: `comp / 25 · (100 − 100 · cov)`.

A row whose score exceeds one of four thresholds is flagged complex. The
reports list the rows and the files without coverage data, and add summary
rows (AVG, MAX, MIN and, in the concurrent reports, PROJECT). The PROJECT
row comes from numerators that the consumer threads sum and a composer
thread adds up.

The model keeps the source's structure:

| file | module | models |
|---|---|---|
| errors.dfy | `Errors` | the error variants, `Result`, `Option` |
| values.dfy | `Values` | JSON coverage entries, the `FuncSpace` scope tree |
| strings.dfy | `Strings` | `Path::file_name`, decimal rendering, byte-wise string order |
| utility.dfy | `Utility` | src/utility.rs: the enums, line counting, `get_spaces`, `check_complexity` |
| sifis.dfy | `Sifis` | src/metrics/sifis.rs: `get_min_space` and the four SIFIS folds |
| crap.dfy, skunk.dfy | `Crap`, `Skunk` | src/metrics/crap.rs, src/metrics/skunk.rs and src/skunk.rs |
| records.dfy | `Records` | `Metrics`, the summary-row builders, `JobComposer` |
| aggregate.dfy | `Aggregate` | `get_metrics_from_space`, `get_cumulative_values`, `get_project_metrics` |
| sorting.dfy | `Sorting` | `sort` / `sort_by` on the rows and the ignored paths |
| pipeline.dfy | `Pipeline` | `chunk_vector`, the consumer threads, the composer, the common tail of the reports |
| files.dfy | `Files` | src/files.rs: the file-level reports |
| functions.dfy | `Functions` | src/functions.rs: the function-level reports |
| legacy_sifis.dfy, legacy.dfy | `LegacySifis`, `Legacy` | an earlier version kept in the source tree (src/sifis.rs, src/lib.rs); it does not build against the current src/utility.rs |

The state changes step by step in these places, and there the model is
imperative:

- the loops of `get_min_space`, `get_spaces`, `composer` and `get_cumulative_values`;
- the loops of the sequential reports and of the legacy SIFIS scores;
- each consumer, which appends to a shared configuration (a `class` with `seq` fields).

Each such method is proved against a function that specifies it. The
per-file work (roots, scores) is made of functions.

Floating point is modelled by exact reals. A division the source can make by
zero (NaN or infinity in IEEE arithmetic) is either excluded by a
precondition or modelled as `None`. Each case is stated on the member
concerned.

The concurrent reports are modelled as follows:

- The threads run one after the other.
- Consumer `t` takes the jobs `parts[t]`.
- `parts` is any contiguous distribution of the chunks: consumer 0 takes the first jobs of the queue, consumer 1 the next ones, and so on. Their concatenation is what `chunk_vector` produces.
- The proofs show that the report equals the in-order processing of all the files, for every such distribution. The composer's sum is also shown not to depend on the order in which the accumulators arrive.

## Model

| member | source | states |
|---|---|---|
| Errors.OkOr | src/files.rs:132-137 | `ok_or` gives the value when present and the given error otherwise |
| Values.AsU64 | src/utility.rs:272 | succeeds exactly on the integers that fit in a `u64`, with that integer |
| Values.AsI64 | src/metrics/sifis.rs:40 | succeeds exactly on the integers that fit in an `i64`, with that integer |
| Strings.FileName | src/files.rs:132-137 | `Path::file_name`: none for an empty path, `.` or `..`; a name is non-empty, never contains a separator and is neither `.` nor `..` |
| Strings.FileNameIsLastComponent | src/files.rs:132-137 | `Path::file_name` is Some exactly when the path's last component, leaving out separators and `.` components, exists and is not `..`, and then it is that component |
| Strings.NatToString | src/functions.rs:200-206 | renders a line number as decimal digits whose decimal value is the number, with no leading zero except for 0 |
| Strings.LinePairInjective | src/functions.rs:200-206 | the ` (start, end)` tail of a row name gives back both line numbers |
| Strings.LexLeTotal | src/files.rs:463-464 | the byte-wise string order used to sort paths is total |
| Strings.LexLeTransitive | src/files.rs:463-464 | the byte-wise string order is transitive |
| Utility.CoveredAtMostExecutable | src/utility.rs:287-308 | a range never has more covered lines than executable ones |
| Utility.CountFoldCounts | src/utility.rs:287-308 | the counting fold fails exactly on a malformed entry in range, and otherwise yields the covered and executable counts |
| Utility.GetCoveredLines | src/utility.rs:287-308 | `ConversionError` iff a non-null entry of the 1-based range `[start, end]` is not a non-negative integer; otherwise (covered, executable) of that range |
| Utility.GetCoveragePerc | src/utility.rs:264-284 | fails exactly on a malformed entry; otherwise the covered fraction of the executable lines, between 0 and 1 |
| Utility.CoveredFraction | src/metrics/crap.rs:45-50 | the covered share of a range, between 0 and 1; 0 when nothing is executable; when everything executable is covered, 1 (or 0 for an empty range) |
| Utility.FileCoverage | src/metrics/crap.rs:20-24 | the given percentage over 100, or else the array's covered fraction; fails only on a malformed array |
| Utility.CountsUpToEnd | src/utility.rs:295 | a range reaching past the array counts only up to its end |
| Utility.GetSpaces | src/utility.rs:323-342 | fails with `PathConversionError` iff some scope below the root is unnamed; otherwise exactly the Function-kind scopes strictly below the root, each once, with its path (a permutation of the depth-first enumeration) |
| Utility.SpacesOf | src/utility.rs:323-342 | the result of the stack traversal; its only error is `PathConversionError` |
| Utility.PushChildren | src/utility.rs:327-339 | pushing the children of a popped scope stops on the first unnamed one and otherwise grows the stack by exactly their sizes |
| Utility.PushChild | src/utility.rs:328-338 | pushing a named child keeps the traversal invariant: nothing reported twice or lost |
| Utility.UnnamedChild | src/utility.rs:331 | meeting an unnamed child means some scope below the root is unnamed |
| Utility.PopScope | src/utility.rs:326 | popping a scope starts the visit of its children with the invariant intact |
| Utility.ChildrenPushed | src/utility.rs:327-339 | once all children are pushed the invariant between pops holds again |
| Utility.CheckComplexity | src/utility.rs:347-358 | complex iff some score, in the order plain, quantized, CRAP, Skunk, exceeds its threshold |
| Utility.CheckComplexityMonotone | src/utility.rs:347-358 | raising the thresholds never makes a row complex |
| Sifis.Matching | src/metrics/sifis.rs:14-19 | only children that contain the line, and none exactly when no child contains it |
| Sifis.GetMinSpace | src/metrics/sifis.rs:10-22 | the stack descent returns the scope `MinSpace` specifies |
| Sifis.MinSpaceSpec | src/metrics/sifis.rs:10-22 | `get_min_space` returns the root when no child contains the line, and otherwise a scope strictly below the root that contains it; no child of the result contains the line |
| Sifis.RunStackInnermost | src/metrics/sifis.rs:13-20 | the descent ends on a scope none of whose children contains the line |
| Sifis.RunStackBelow | src/metrics/sifis.rs:13-20 | once a scope below the root containing the line is found, the result also is one |
| Sifis.IsNullLine | src/metrics/sifis.rs:39-43 | covdir: null iff the entry is -1, failing on an entry that is not an `i64`; coveralls: null iff JSON null |
| Sifis.SifisFoldSum | src/metrics/sifis.rs:37-57 | the fold fails exactly on an unreadable entry, and otherwise adds the weight of every covered line |
| Sifis.PlainIsComplexityTimesCovered | src/metrics/sifis.rs:33-57 | the plain numerator is the subtree complexity times the number of covered lines |
| Sifis.QuantizedBounds | src/metrics/sifis.rs:83-101 | the quantized numerator lies between the number of covered lines and twice that number |
| Sifis.QuantizedWithoutHotScope | src/metrics/sifis.rs:89-95 | without a scope above the threshold the quantized numerator is the number of covered lines |
| Sifis.SifisPlain | src/metrics/sifis.rs:26-59 | Ok iff every entry is readable; then (numerator / ploc, numerator), the numerator being complexity × covered lines |
| Sifis.SifisQuantized | src/metrics/sifis.rs:64-107 | Ok iff every entry is readable; then (numerator / ploc, numerator), each covered line adding 1 or 2 |
| Sifis.SifisPlainFunction | src/metrics/sifis.rs:109-145 | as `SifisPlain`, counting only the lines of the scope's range |
| Sifis.SifisQuantizedFunction | src/metrics/sifis.rs:147-190 | as `SifisQuantized`, counting only the lines of the scope's range |
| Crap.CubeMonotone | src/metrics/crap.rs:25 | `(1 − cov)³` decreases as coverage grows |
| Crap.CrapEnds | src/metrics/crap.rs:25 | CRAP is the complexity at full coverage and complexity² + complexity at none |
| Crap.CrapMonotone | src/metrics/crap.rs:25 | more coverage never raises CRAP; up to full coverage CRAP is at least the complexity |
| Crap.Crap | src/metrics/crap.rs:10-26 | Ok iff a percentage is given or the array is well formed; then the CRAP formula on that coverage, at least the complexity |
| Crap.CrapFunction | src/metrics/crap.rs:31-53 | as `Crap`, on the covered share of the scope's own range, 0 when it has no executable line |
| Crap.CrapFunctionOnWholeFile | src/metrics/crap.rs:31-53 | on a scope covering the whole array the scope variant equals the file variant |
| Skunk.SkunkFormulaShape | src/metrics/skunk.rs:30 | the general branch is `4 · comp · (1 − cov)`: `4 · comp` at no coverage, 0 at full coverage, between them in between |
| Skunk.SkunkNoSmellsAsWritten | src/metrics/skunk.rs:11-32 | the guard compares the fraction with 100: with a given percentage the bare cost is returned only for 10000, otherwise the general branch |
| Skunk.FullCoverageGivesZeroAsWritten | src/metrics/skunk.rs:27-31 | at full coverage (100 % given, or a fully covered array) the current version gives 0, never the bare cost |
| Skunk.SkunkNoSmells | src/skunk.rs:9-33 | the guard on the fraction 1: the bare cost at full coverage, the general branch otherwise, between 0 and `4 · comp` |
| Skunk.FullCoverageGivesCost | src/skunk.rs:28-29 | at full coverage the guarded version gives `comp / 25` |
| Skunk.GuardsDifferOnlyAtFullCoverage | src/metrics/skunk.rs:27-31 | the current and the guarded Skunk agree on every input except a covered fraction of 1 (where the current one gives 0 and the guarded one `comp / 25`) and the as-written guard's fraction of 100 |
| Records.SumJobsAppend | src/files.rs:247-254 | summing accumulators is compatible with concatenation |
| Records.SumJobsPermutation | src/files.rs:247-254 | the field-wise sum does not depend on the order of the accumulators |
| Aggregate.ReadableCoveralls | src/metrics/sifis.rs:39-48 | with coveralls data a SIFIS fold fails exactly where line counting fails |
| Aggregate.RangeCoverage | src/utility.rs:97-106 | the percentage of the range's executable lines that are covered, between 0 and 100, 0 when none are executable |
| Aggregate.GetMetricsFromSpace | src/utility.rs:84-116 | Ok iff the range is readable and Skunk succeeds; `ConversionError` whenever the range is unreadable (the SIFIS folds run before Skunk), otherwise Skunk's error; the row carries the scope's SIFIS, CRAP and Skunk scores, the complexity flag from the thresholds, and the given percentage or the range's coverage in [0, 100], plus the two SIFIS numerators |
| Aggregate.HighestIsMaximum | src/utility.rs:366-369 | the running maximum bounds the seed and every row, and equals one of them |
| Aggregate.LowestIsMinimum | src/utility.rs:370-373 | the running minimum is below the seed and every row, and equals one of them |
| Aggregate.TotalBetween | src/utility.rs:374-381 | the sum of a score lies between the count times any lower bound and the count times any upper bound |
| Aggregate.GetCumulativeValues | src/utility.rs:361-385 | AVG holds the mean of each score and the sum of the coverages; MAX and MIN the maximum and minimum from their seeds, keeping the seeds' coverages; no summary row is complex |
| Aggregate.SummaryRowsOrdered | src/utility.rs:361-385 | for each score, MIN ≤ AVG ≤ MAX |
| Aggregate.MeanBetween | src/utility.rs:382-383 | a mean of values between two bounds lies between them |
| Aggregate.GetProjectMetrics | src/utility.rs:389-409 | always Ok; SIFIS scores are summed numerators over summed ploc; CRAP and Skunk are their formulas at the project coverage; CRAP ≥ complexity and Skunk ≥ 0 up to 100 % |
| Aggregate.ProjectCoverage | src/utility.rs:393-399 | the given percentage, or the covered share of the executable lines in percent (0 when none), between 0 and 100 |
| Aggregate.ProjectFormulas | src/utility.rs:403-406 | the expressions written out are the shared CRAP and Skunk formulas at `cov / 100` |
| Aggregate.ProjectPlainIsWeightedMean | src/utility.rs:401 | the PROJECT plain score is the ploc-weighted mean of the file scores: between their minimum and maximum |
| Aggregate.WeightedBounds | src/files.rs:343-348 | summed numerators lie between the smallest and largest score times the summed ploc |
| Sorting.Insert | src/files.rs:464 | inserting into a sorted sequence keeps it sorted and adds exactly the element |
| Sorting.SortBy | src/files.rs:463-464 | the result is sorted by the key and is a permutation of the input |
| Pipeline.ChunksPartition | src/files.rs:364-369 | `chunks(k)` gives non-empty pieces of `k` except possibly the last, ⌈|v| / k⌉ of them, concatenating to `v` |
| Pipeline.ChunkVectorPartition | src/files.rs:364-369 | `chunk_vector` partitions the files into consecutive chunks; there can be more chunks than threads |
| Pipeline.ChunkCount | src/files.rs:364-369 | one chunk per file when there are fewer files than threads; otherwise between `n` and `2n − 1` chunks for `n` threads, exactly `n` iff `n` divides the number of files |
| Pipeline.FirstNone | src/files.rs:246-249 | the composer stops at the first `None`: every earlier message is `Some` |
| Pipeline.Composer | src/files.rs:239-266 | always Ok, with the field-wise sum of the accumulators received before the first `None` |
| Pipeline.ComposerOrderIndependent | src/files.rs:239-266 | the composer's result does not depend on the order of arrival |
| Pipeline.ConsumeAppend | src/files.rs:313-350 | processing `a + b` is processing `a`, then `b`, and combining; the first error wins |
| Pipeline.ConsumeStopsAt | src/files.rs:318-331 | a failing file ends the processing with its error, whatever follows |
| Pipeline.ConsumeSucceeds | src/files.rs:313-350 | on success every file's step succeeded, and a file with rows leaves rows and positive ploc |
| Pipeline.ConsumeLineCounts | src/files.rs:336-344 | when each file covers at most its executable lines, so does the sum |
| Pipeline.ConsumeChunk | src/files.rs:313-350 | one job: its files' rows and ignored paths appended to the shared lists, numerators added, or the first error |
| Pipeline.Consumer | src/files.rs:293-359 | a consumer appends the processing of its jobs, in order, to the shared lists and returns its accumulator, or the first error |
| Pipeline.RunConsumers | src/files.rs:398-456 | consumers then composer give exactly the in-order processing of all the files, however the jobs are distributed |
| Pipeline.Column | src/files.rs:471-474 | one score record per row, in order |
| Pipeline.Complex | src/files.rs:466-470 | every complex row with its multiplicity and no other row |
| Pipeline.ComplexAppend | src/files.rs:466-470 | the complex rows of `a + b` are those of `a` followed by those of `b`, so `filter` keeps the rows' order |
| Pipeline.ComplexKeepsOrder | src/files.rs:463-470 | the complex rows picked from rows sorted by a key are sorted by that key |
| Pipeline.Assemble | src/files.rs:463-479 | rows sorted by key and a permutation of the input, ignored paths sorted and a permutation, complex rows picked from the sorted rows and sorted like them, then PROJECT, AVG, MAX and MIN |
| Pipeline.ReceivedAll | src/files.rs:451-453 | after every consumer's accumulator the poison `None` makes the composer take exactly those accumulators |
| Files.FileStep | src/files.rs:313-350 | `PathConversionError` without a file name; ignored without coverage data; else, in this order, the root's error, `ConversionError` on a malformed range of the root, the Skunk score's error, or the root row and its numerators |
| Files.GetMetricsConcurrent | src/files.rs:375-486 | `ThresholdsError` unless 4 thresholds; otherwise Ok iff the in-order processing succeeds, with its error, and the report assembled from it with the PROJECT row, project coverage between 0 and 100 |
| Files.FileStepCovdir | src/files.rs:527-590 | as `FileStep` with the given percentage and the covdir null test (`ConversionError` on an unreadable range, before Skunk's error); the row's coverage is that percentage and no lines are counted |
| Files.GetMetricsConcurrentCovdir | src/files.rs:596-709 | as `GetMetricsConcurrent`; `HashMapError` without `PROJECT_ROOT`, whose percentage becomes the PROJECT coverage and the project coverage |
| Files.FileLevelMetrics | src/files.rs:146-164 | Ok iff the array is readable; the file's SIFIS, CRAP and Skunk scores, complexity flag and coverage percentage |
| Files.FileLevelScores | src/files.rs:146-164 | CRAP is the formula on the file coverage and at least the complexity, Skunk between 0 and `4 · comp`, coverage 100 × the covered fraction or the given percentage |
| Files.SeqFileStep | src/files.rs:130-167 | errors in source order (name, root, range, scores); ignored without data; else one row and the root range's line counts |
| Files.PercentOfFraction | src/files.rs:159 | the file row's coverage is 100 times the covered fraction of the array |
| Files.GetMetrics | src/files.rs:109-188 | `ThresholdsError` unless 4 thresholds; the rows in file order then AVG, MAX, MIN; ignored paths in order; project coverage covered/executable as a fraction in [0, 1], `None` where the source divides by 0 |
| Files.ConsumeInOrder | src/files.rs:130-167 | the loop's rows, ignored paths and line sums are those of the in-order processing; the first error is returned |
| Files.AssembleInOrder | src/files.rs:168-187 | the rows unsorted followed by AVG, MAX, MIN; project coverage a fraction in [0, 1] |
| Files.SeqRunFacts | src/files.rs:109-188 | a successful run over files of which one has data has a row and covers at most its executable lines |
| Functions.FunctionName | src/functions.rs:200-206 | the row name starts with the file name and `/`, and is longer than the file name, `/` and the scope name together |
| Functions.FunctionNameParts | src/functions.rs:200-206 | after the file name and `/` the row name holds the scope name, then ` (start, end)` with both lines in decimal |
| Functions.FunctionNameDeterminesLines | src/functions.rs:200-206 | two same-named scopes of one file get the same row name only when they span the same lines |
| Functions.FunctionRow | src/functions.rs:194-232 | the scope's scores, or their first error, then `ConversionError` for an unnamed scope; the row name and lines |
| Functions.TryMap | src/functions.rs:194-232 | `try_for_each`: every item's result in order, or the first item's error |
| Functions.FunctionRows | src/functions.rs:194-232 | Ok iff every scope's row is Ok; the rows in `get_spaces` order; otherwise the error of the first scope whose row fails, every earlier row being Ok |
| Functions.FileRows | src/functions.rs:188-262 | `PathConversionError` for an unnamed scope, then the first failing row's error, then `ConversionError` on an unreadable array; otherwise one row per scope, then the file row |
| Functions.FunctionStep | src/functions.rs:163-263 | `PathConversionError` without a file name; ignored without data; else, in this order, the root's error, `ConversionError` on a malformed root range, then the error of `FileRows`; or the file's rows and the root-level numerators with positive ploc |
| Functions.GetFunctionsMetricsConcurrent | src/functions.rs:286-399 | as the file-level report, with one row per function scope and per file; project coverage between 0 and 100 |
| Functions.FunctionStepCovdir | src/functions.rs:440-556 | as `FunctionStep` with the given percentage, which every row carries as its coverage; no lines are counted, so after the root only the error of `FileRows` can come back |
| Functions.GetFunctionsMetricsConcurrentCovdir | src/functions.rs:558-674 | as the covdir file-level report, `HashMapError` without `PROJECT_ROOT` |
| Functions.RunFacts | src/functions.rs:286-399 | a successful run over files of which one has data has rows and positive ploc, and covers at most its executable lines |
| LegacySifis.PrefixStep | src/sifis.rs:33-50 | after each entry the running sum is the weighted coverage of the prefix |
| LegacySifis.SifisPlain | src/sifis.rs:24-53 | `ConversionError` iff an entry is malformed; otherwise the weighted coverage over ploc, equal to the current `sifis_plain` |
| LegacySifis.SifisQuantized | src/sifis.rs:57-92 | `ConversionError` iff an entry is malformed; otherwise the 1-or-2 weighted coverage over ploc, equal to the current `sifis_quantized` |
| Legacy.ChunckVector | src/lib.rs:198-209 | the nested loops give `chunk_vector`'s chunks: concatenating to the files, each of 1 to `k` files, all but the last of `k` |
| Legacy.Enqueue | src/lib.rs:260-278 | one `Some` job per file in order, then one `None` per consumer |
| Legacy.Share | src/lib.rs:126 | covered over executable lines, between 0 and 1; `None` where the source divides by 0 |
| Legacy.SeqFile | src/lib.rs:89-121 | a file without data is skipped under its name; errors in the order line counts, root, scores; the row with the unwrapped percentage |
| Legacy.SeqRun | src/lib.rs:89-121 | Ok iff every file's step is Ok; otherwise the error of some file |
| Legacy.SequentialIgnoresNames | src/lib.rs:92-98 | the ignored names are exactly the file names of the files lacking data, one row for each other file |
| Legacy.MeasureFile | src/lib.rs:89-121 | the loop body computes `SeqFile` |
| Legacy.GetMetrics | src/lib.rs:63-128 | Ok iff every file's step is Ok, with its error otherwise; rows then AVG, MAX, MIN, ignored names, complex rows, project coverage as a fraction |
| Legacy.PrefixFails | src/lib.rs:89-121 | a failure among the first files is the failure of the whole loop |
| Legacy.Percent | src/lib.rs:295 | 100 times `Share`, between 0 and 100 |
| Legacy.Finish | src/lib.rs:289-294 | rows sorted by file name and a permutation, ignored paths sorted and a permutation, then AVG, MAX, MIN |
| Legacy.ConcStep | src/lib.rs:145-196 | a file without data is ignored under its full path; errors in the order lines, root, scores, percentage; the row records 100 × the percentage |
| Legacy.MissingPaths | src/lib.rs:160-166 | only paths of listed files lacking data |
| Legacy.ConcurrentIgnoresPaths | src/lib.rs:160-166 | the concurrent consumers ignore exactly the paths lacking data, in order, and give one row per other file |
| Legacy.NamesOfMissingPaths | src/lib.rs:92-98 | the sequential loop ignores the file names of those same paths, in the same order |
| Legacy.GetMetricsConcurrent | src/lib.rs:212-302 | Ok iff the in-order processing of the files the consumers take is Ok, else `ConcurrentError`; sorted report with project coverage in percent; with 0 consumers no file is taken and the report is empty with no project coverage (0 / 0) |
| Legacy.CovdirStep | src/lib.rs:315-362 | ignored under its path without data; errors in the order root, scores; the row carries the given percentage |
| Legacy.GetMetricsConcurrentCovdir | src/lib.rs:364-440 | as `GetMetricsConcurrent` over `chunck_vector`'s chunks, the project coverage being the `PROJECT_ROOT` percentage |

## Left out

- Reading the file list, the JSON files and the sources (`read_files`, `read_json`, `read_json_covdir`, `get_root`) is I/O. The coverage data comes in as a map from path to entries, and the roots as a function from path to a scope tree or its error.
- rust-code-analysis is left out; a `FuncSpace` carries its own ploc, complexities, kind, name and lines.
- `skunk_nosmells_function`, called by `get_metrics_from_space`, is not part of this model. It is a parameter (`SkunkOf`) whose result is used as given.
- Threads, channels and mutexes are left out. The consumers run one after the other. An unbounded channel never fails to send, so `SenderError` is not produced. A poisoned mutex and a panicking thread are not modelled.
- Pipeline.RunConsumers: each consumer takes a contiguous run of the queued jobs. In the source the consumers share one channel, so a consumer can take any job, and `join` reports the error of the first failing consumer in spawn order. With two failing files the source can report either file's error; the model reports the first failing file in file order. The model does not cover a consumer taking jobs that are not contiguous in the queue.
- Files.GetMetricsConcurrent: its error is that of the first failing file in file order, as for `Pipeline.RunConsumers`; the source can report another failing file's error.
- Files.GetMetricsConcurrentCovdir: the same restriction as `Files.GetMetricsConcurrent`.
- Functions.GetFunctionsMetricsConcurrent: the same restriction as `Files.GetMetricsConcurrent`.
- Functions.GetFunctionsMetricsConcurrentCovdir: the same restriction as `Files.GetMetricsConcurrent`.
- `f64::round(x * 100) / 100` on the reported coverages is left out; coverages are exact.
- IEEE NaN and infinity are not modelled:
  - a physical-line count of 0 is excluded by a precondition where the source divides by it;
  - the AVG row needs at least one row;
  - `get_coverage_perc` needs a non-null entry, so the array of every walked file that has coverage data must hold one (arrays of other paths are never read and are unconstrained);
  - the sequential project coverage is `None` where the source divides 0 by 0.
- In src/lib.rs, `unwrap` on a missing file name, on a failing `get_coverage_perc` or on a missing `PROJECT_ROOT` panics. Each is a precondition of the member concerned.
- In src/lib.rs, the helpers `get_covered_lines`, `get_root`, the scores, `check_complexity`, `get_coverage_perc` and `get_cumulative_values` have signatures of their own. They are parameters (`Legacy.Helpers`), used as given.
- `chunk_vector` with 0 threads divides by zero and is excluded.
- Parsing the command-line spellings of the enums (`Complexity`, `JsonFormat`, `Mode`) is generated by the `ArgEnum` derive, which is not part of this model; the enums and their spellings are.
- The command line, CSV and JSON output (src/output.rs, src/bin, `get_metrics_output*`, `print_metrics_*`) are left out.
- src/crap.rs, the legacy CRAP, is not part of this model.
- The `debug!` and timing output is left out.
- Files.FileLevelMetrics: the file row's Skunk uses the corrected guard (`Skunk.SkunkNoSmells`), following the finding below, where src/files.rs:152 calls the current `skunk_nosmells`. At full coverage the row has `comp / 25` where the source has 0, and the complexity flag can differ with it; `Skunk.GuardsDifferOnlyAtFullCoverage` shows that no other input is affected.
- Files.SeqFileStep: its row carries the corrected Skunk of `Files.FileLevelMetrics`, so it differs from the source at full coverage only.
- Files.GetMetrics: its file rows, complexity flags and AVG, MAX and MIN rows carry the corrected Skunk of `Files.FileLevelMetrics`, so they differ from the source at full coverage only.
- Functions.FileRows: the file row uses the corrected Skunk, where src/functions.rs:236 calls the current one; it differs at full coverage only.
- Functions.FunctionStep: its file row carries the corrected Skunk of `Functions.FileRows`.
- Functions.FunctionStepCovdir: its file row carries the corrected Skunk, where src/functions.rs:524 calls the current one; it differs at a given coverage of 100 (and of 10000) only.
- Functions.GetFunctionsMetricsConcurrent: its file rows and summary rows carry the corrected Skunk of `Functions.FileRows`.
- Functions.GetFunctionsMetricsConcurrentCovdir: its file rows and summary rows carry the corrected Skunk of `Functions.FunctionStepCovdir`.
- Utility.SpacesOf: its contract states only the error it can give. What it computes is stated by `Utility.GetSpaces`, which is proved equal to it.
- Legacy.SeqRun: its error is that of some failing file, not necessarily the first. `Legacy.PrefixFails` and `Legacy.GetMetrics` tie the loop to it.

## Findings

| source | as written | input that shows it | evidently intended | confidence | as-written member | corrected member |
|---|---|---|---|---|---|---|
| src/metrics/skunk.rs:27-31 | the full-coverage guard compares the covered *fraction* with `100.`, so it never fires; full coverage gives 0 | a root of complexity 10 with a given coverage of 100 %: `cov` is 1.0, the guard is false, the result is `0.4 · 0 = 0` instead of `10 / 25 = 0.4` | compare the fraction with `1.`, as src/skunk.rs:28 does, so full coverage gives the bare cost `comp / 25` | not executed | Skunk.SkunkNoSmellsAsWritten, Skunk.FullCoverageGivesZeroAsWritten | Skunk.SkunkNoSmells, Skunk.FullCoverageGivesCost |
