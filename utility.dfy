/** Shared vocabulary of the tool (src/utility.rs): the command-line enums,
    the complexity constant, the coverage-line counters, the enumeration of
    function scopes and the complexity classification. */
module Utility {
  import opened Errors
  import opened Values
  import opened Strings

  /** Divisor of the Skunk score. */
  const COMPLEXITY_FACTOR: real := 25.0

  /** Which complexity measure weights the coverage. */
  datatype Complexity = Cyclomatic | Cognitive
  {
    /** Command-line spelling of the variant. */
    function Name(): string
    {
      match this
      case Cyclomatic => "cyclomatic"
      case Cognitive => "cognitive"
    }
  }

  /** Dialect of the coverage report. */
  datatype JsonFormat = Covdir | Coveralls
  {
    function Name(): string
    {
      match this
      case Covdir => "covdir"
      case Coveralls => "coveralls"
    }
  }

  /** Granularity of the report: one row per file or one per function. */
  datatype Mode = Files | Functions
  {
    function Name(): string
    {
      match this
      case Files => "files"
      case Functions => "functions"
    }
  }

  const DEFAULT_COMPLEXITY: string := "cyclomatic"
  const DEFAULT_JSON_FORMAT: string := "coveralls"
  const DEFAULT_MODE: string := "files"

  /** Complexity of a scope and everything below it, for the chosen measure. */
  function SumComplexity(s: FuncSpace, metric: Complexity): real
  {
    match metric
    case Cyclomatic => s.cyclomaticSum
    case Cognitive => s.cognitiveSum
  }

  /** Complexity of a scope alone, for the chosen measure. */
  function OwnComplexity(s: FuncSpace, metric: Complexity): real
  {
    match metric
    case Cyclomatic => s.cyclomatic
    case Cognitive => s.cognitive
  }

  // ---------------------------------------------------------------------
  // Coverage entries

  /** A line that was executed at least once. */
  predicate IsCovered(v: Value)
  {
    v.Int? && v.n > 0
  }

  /** A non-null entry that is not a hit count: reading it fails. */
  predicate IsMalformed(v: Value)
  {
    !v.Null? && AsU64(v).None?
  }

  /** Index `j` lies in the half-open range `[lo, hi)`. */
  predicate InRange(j: int, lo: int, hi: int)
  {
    lo <= j < hi
  }

  /** Number of non-null entries whose index lies in `[lo, hi)`. */
  function CountExecutable(covs: seq<Value>, lo: int, hi: int): nat
    decreases |covs|
  {
    if covs == [] then 0
    else
      CountExecutable(covs[..|covs| - 1], lo, hi)
      + (if InRange(|covs| - 1, lo, hi) && !covs[|covs| - 1].Null? then 1 else 0)
  }

  /** Number of entries with a positive hit count whose index lies in `[lo, hi)`. */
  function CountCovered(covs: seq<Value>, lo: int, hi: int): nat
    decreases |covs|
  {
    if covs == [] then 0
    else
      CountCovered(covs[..|covs| - 1], lo, hi)
      + (if InRange(|covs| - 1, lo, hi) && IsCovered(covs[|covs| - 1]) then 1 else 0)
  }

  /** No entry with index in `[lo, hi)` is malformed. */
  predicate WellFormedIn(covs: seq<Value>, lo: int, hi: int)
  {
    forall j :: 0 <= j < |covs| && InRange(j, lo, hi) ==> !IsMalformed(covs[j])
  }

  lemma {:induction false} CoveredAtMostExecutable(covs: seq<Value>, lo: int, hi: int)
    ensures CountCovered(covs, lo, hi) <= CountExecutable(covs, lo, hi)
    decreases |covs|
  {
    if covs != [] {
      CoveredAtMostExecutable(covs[..|covs| - 1], lo, hi);
    }
  }

  lemma {:induction false} SomeExecutable(covs: seq<Value>, lo: int, hi: int, j: nat)
    requires j < |covs| && InRange(j, lo, hi) && !covs[j].Null?
    ensures CountExecutable(covs, lo, hi) >= 1
    decreases |covs|
  {
    if j < |covs| - 1 {
      SomeExecutable(covs[..|covs| - 1], lo, hi, j);
    }
  }

  /** One step of the counting fold: accumulator is (executable, covered). */
  function CountStep(acc: (real, real), i: nat, line: Value, lo: int, hi: int): Result<(real, real)>
  {
    if !line.Null? && InRange(i, lo, hi) then
      var cov :- OkOr(AsU64(line), ConversionError);
      Ok(if cov > 0 then (acc.0 + 1.0, acc.1 + 1.0) else (acc.0 + 1.0, acc.1))
    else
      Ok(acc)
  }

  /** `try_fold` of `CountStep` over the entries from index `i` on. */
  function CountFold(covs: seq<Value>, i: nat, acc: (real, real), lo: int, hi: int): Result<(real, real)>
    requires i <= |covs|
    decreases |covs| - i
  {
    if i == |covs| then Ok(acc)
    else
      var next :- CountStep(acc, i, covs[i], lo, hi);
      CountFold(covs, i + 1, next, lo, hi)
  }

  /** The counting fold fails exactly on a malformed entry in range, and
      otherwise adds the two counts of the remaining entries. */
  lemma {:induction false} CountFoldCounts(covs: seq<Value>, i: nat, acc: (real, real), lo: int, hi: int)
    requires i <= |covs|
    ensures CountFold(covs, i, acc, lo, hi).Err? ==> CountFold(covs, i, acc, lo, hi).error == ConversionError
    ensures CountFold(covs, i, acc, lo, hi).Ok?
        <==> forall j :: i <= j < |covs| && InRange(j, lo, hi) ==> !IsMalformed(covs[j])
    ensures CountFold(covs, i, acc, lo, hi).Ok? ==>
      CountFold(covs, i, acc, lo, hi).value
        == (acc.0 + (CountExecutable(covs, lo, hi) - CountExecutable(covs[..i], lo, hi)) as real,
            acc.1 + (CountCovered(covs, lo, hi) - CountCovered(covs[..i], lo, hi)) as real)
    decreases |covs| - i
  {
    if i < |covs| {
      assert covs[..i + 1][..i] == covs[..i];
      var step := CountStep(acc, i, covs[i], lo, hi);
      if step.Ok? {
        CountFoldCounts(covs, i + 1, step.value, lo, hi);
        if i + 1 == |covs| {
          assert covs[..i + 1] == covs;
        }
      }
    } else {
      assert covs[..i] == covs;
    }
  }

  /** Covered and executable lines of the 1-based inclusive line range
      `[start, end]`, i.e. of the indices `[start - 1, end)`. */
  function GetCoveredLines(covs: seq<Value>, start: nat, end: nat): (r: Result<(real, real)>)
    requires start >= 1
    ensures r.Ok? <==> WellFormedIn(covs, start - 1, end)
    ensures r.Ok? ==> r.value.0 == CountCovered(covs, start - 1, end) as real
    ensures r.Ok? ==> r.value.1 == CountExecutable(covs, start - 1, end) as real
    ensures r.Ok? ==> r.value.0 <= r.value.1
    ensures r.Err? ==> r.error == ConversionError
  {
    CountFoldCounts(covs, 0, (0.0, 0.0), start - 1, end);
    CoveredAtMostExecutable(covs, start - 1, end);
    assert covs[..0] == [];
    var counts :- CountFold(covs, 0, (0.0, 0.0), start - 1, end);
    Ok((counts.1, counts.0))
  }

  /** Some entry is not null, so the ratio below has a non-zero denominator
      whenever it is computed. */
  predicate HasNonNull(covs: seq<Value>)
  {
    exists j :: 0 <= j < |covs| && !covs[j].Null?
  }

  /** Fraction of the executable lines of the whole array that are covered. */
  function GetCoveragePerc(covs: seq<Value>): (r: Result<real>)
    requires HasNonNull(covs)
    ensures r.Ok? <==> WellFormedIn(covs, 0, |covs|)
    ensures r.Ok? ==> CountExecutable(covs, 0, |covs|) > 0
    ensures r.Ok? ==>
      r.value == CountCovered(covs, 0, |covs|) as real / CountExecutable(covs, 0, |covs|) as real
    ensures r.Ok? ==> 0.0 <= r.value <= 1.0
    ensures r.Err? ==> r.error == ConversionError
  {
    CountFoldCounts(covs, 0, (0.0, 0.0), 0, |covs|);
    CoveredAtMostExecutable(covs, 0, |covs|);
    var j :| 0 <= j < |covs| && !covs[j].Null?;
    SomeExecutable(covs, 0, |covs|, j);
    assert covs[..0] == [];
    var counts :- CountFold(covs, 0, (0.0, 0.0), 0, |covs|);
    Ok(counts.1 / counts.0)
  }

  /** Covered fraction of the executable lines with index in `[lo, hi)`,
      0 when there are none. */
  function CoveredFraction(covs: seq<Value>, lo: int, hi: int): (f: real)
    ensures 0.0 <= f <= 1.0
    ensures CountExecutable(covs, lo, hi) == 0 ==> f == 0.0
    ensures CountCovered(covs, lo, hi) == CountExecutable(covs, lo, hi) ==> f == 1.0 || f == 0.0
  {
    CoveredAtMostExecutable(covs, lo, hi);
    var covered, executable := CountCovered(covs, lo, hi) as real, CountExecutable(covs, lo, hi) as real;
    if executable == 0.0 then 0.0
    else
      FractionOf(covered, executable);
      covered / executable
  }

  /** A part of a positive whole is a fraction between 0 and 1, and 1 when
      it is the whole. */
  lemma FractionOf(part: real, whole: real)
    requires 0.0 <= part <= whole && whole > 0.0
    ensures 0.0 <= part / whole <= 1.0
    ensures part == whole ==> part / whole == 1.0
  {
  }

  /** The coverage fraction a file-level score uses: the given percentage
      divided by 100, or else the covered fraction of the whole array. */
  function FileCoverage(covs: seq<Value>, coverage: Option<real>): (r: Result<real>)
    requires coverage.None? ==> HasNonNull(covs)
    ensures r.Ok? <==> coverage.Some? || WellFormedIn(covs, 0, |covs|)
    ensures r.Err? ==> r.error == ConversionError
    ensures r.Ok? && coverage.Some? ==> r.value == coverage.value / 100.0
    ensures r.Ok? && coverage.None? ==> r.value == CoveredFraction(covs, 0, |covs|)
  {
    if coverage.Some? then Ok(coverage.value / 100.0) else GetCoveragePerc(covs)
  }

  /** Counting over a range that reaches past the array is counting up to its end. */
  lemma {:induction false} CountsUpToEnd(covs: seq<Value>, lo: int, hi: int)
    requires hi >= |covs|
    ensures CountCovered(covs, lo, hi) == CountCovered(covs, lo, |covs|)
    ensures CountExecutable(covs, lo, hi) == CountExecutable(covs, lo, |covs|)
    ensures WellFormedIn(covs, lo, hi) <==> WellFormedIn(covs, lo, |covs|)
    decreases |covs|
  {
    if covs != [] {
      CountsPrefixRange(covs[..|covs| - 1], lo, hi, |covs|);
      CountsUpToEnd(covs[..|covs| - 1], lo, hi);
      CountsPrefixRange(covs[..|covs| - 1], lo, |covs| - 1, |covs|);
    }
  }

  /** On an array of length at most both bounds, the upper bound does not matter. */
  lemma {:induction false} CountsPrefixRange(covs: seq<Value>, lo: int, h1: int, h2: int)
    requires h1 >= |covs| && h2 >= |covs|
    ensures CountCovered(covs, lo, h1) == CountCovered(covs, lo, h2)
    ensures CountExecutable(covs, lo, h1) == CountExecutable(covs, lo, h2)
    decreases |covs|
  {
    if covs != [] {
      CountsPrefixRange(covs[..|covs| - 1], lo, h1, h2);
    }
  }

  // ---------------------------------------------------------------------
  // Function scopes

  /** Every scope strictly below the ones in `ss`, and those themselves, has a name. */
  predicate AllNamed(ss: seq<FuncSpace>)
    decreases ss
  {
    ss == [] || (ss[0].name.Some? && AllNamed(ss[0].spaces) && AllNamed(ss[1..]))
  }

  /** Path of a named child scope under its parent's path: `parent/name (start,end)`. */
  function SpacePath(parent: string, s: FuncSpace): (p: string)
    requires s.name.Some?
    ensures |p| > |parent| + |s.name.value|
  {
    parent + "/" + s.name.value + " (" + NatToString(s.startLine) + ","
      + NatToString(s.endLine) + ")"
  }

  /** Reference enumeration: the Function-kind scopes in the forest `ss`
      and below, each with its path, in depth-first order. */
  ghost function FunctionsIn(ss: seq<FuncSpace>, path: string): seq<(FuncSpace, string)>
    decreases ss
  {
    if ss == [] then []
    else
      var s := ss[0];
      (if s.name.None? then []
       else
         var p := SpacePath(path, s);
         (if s.kind == Function then [(s, p)] else []) + FunctionsIn(s.spaces, p))
      + FunctionsIn(ss[1..], path)
  }

  /** Scopes still to visit in a stack of (scope, path) pairs. */
  function StackSize(stack: seq<(FuncSpace, string)>): nat
    decreases |stack|
  {
    if stack == [] then 0 else StackSize(stack[..|stack| - 1]) + SizeOf(stack[|stack| - 1].0)
  }

  /** Function scopes still to be reported from a stack of (scope, path) pairs. */
  ghost function StackFunctions(stack: seq<(FuncSpace, string)>): multiset<(FuncSpace, string)>
    decreases |stack|
  {
    if stack == [] then multiset{}
    else
      var top := stack[|stack| - 1];
      StackFunctions(stack[..|stack| - 1]) + multiset(FunctionsIn(top.0.spaces, top.1))
  }

  /** Every stacked scope has only named descendants. */
  predicate StackNamed(stack: seq<(FuncSpace, string)>)
    decreases |stack|
  {
    stack == [] || (StackNamed(stack[..|stack| - 1]) && AllNamed(stack[|stack| - 1].0.spaces))
  }

  lemma {:induction false} FunctionsInSplit(ss: seq<FuncSpace>, j: nat, path: string)
    requires j < |ss|
    ensures FunctionsIn(ss[j..], path)
         == (if ss[j].name.None? then []
             else
               (if ss[j].kind == Function then [(ss[j], SpacePath(path, ss[j]))] else [])
               + FunctionsIn(ss[j].spaces, SpacePath(path, ss[j])))
            + FunctionsIn(ss[j + 1..], path)
  {
    assert ss[j..][1..] == ss[j + 1..];
  }

  lemma FunctionsInStep(ss: seq<FuncSpace>, j: nat, path: string)
    requires j < |ss| && ss[j].name.Some?
    ensures var p := SpacePath(path, ss[j]);
      multiset(FunctionsIn(ss[j..], path))
        == (if ss[j].kind == Function then multiset{(ss[j], p)} else multiset{})
           + multiset(FunctionsIn(ss[j].spaces, p)) + multiset(FunctionsIn(ss[j + 1..], path))
  {
    FunctionsInSplit(ss, j, path);
  }

  lemma {:induction false} AllNamedSplit(ss: seq<FuncSpace>, j: nat)
    requires j < |ss|
    ensures AllNamed(ss[j..]) <==> ss[j].name.Some? && AllNamed(ss[j].spaces) && AllNamed(ss[j + 1..])
  {
    assert ss[j..][1..] == ss[j + 1..];
  }

  /** Pushing one pair on a stack, as seen by the three stack measures. */
  lemma StackPush(stack: seq<(FuncSpace, string)>, x: (FuncSpace, string))
    ensures StackSize(stack + [x]) == StackSize(stack) + SizeOf(x.0)
    ensures StackFunctions(stack + [x]) == StackFunctions(stack) + multiset(FunctionsIn(x.0.spaces, x.1))
    ensures StackNamed(stack + [x]) <==> StackNamed(stack) && AllNamed(x.0.spaces)
  {
    assert (stack + [x])[..|stack|] == stack;
  }

  /** The loop invariant of `GetSpaces` in the middle of visiting the
      children `ss` of a popped scope with path `path`, `j` of them pushed. */
  ghost predicate Visiting(root: FuncSpace, base: seq<(FuncSpace, string)>, stack: seq<(FuncSpace, string)>,
                           result: seq<(FuncSpace, string)>, ss: seq<FuncSpace>, j: nat, path: string)
  {
    && j <= |ss|
    && StackSize(stack) == StackSize(base) + SizesOf(ss[..j])
    && (AllNamed(root.spaces) <==> StackNamed(stack) && AllNamed(ss[j..]))
    && multiset(result) + StackFunctions(stack) + multiset(FunctionsIn(ss[j..], path))
       == multiset(FunctionsIn(root.spaces, ""))
  }

  /** Pushing the named child `ss[j]` (and reporting it when it is a
      function) keeps `Visiting`. */
  lemma PushChild(root: FuncSpace, base: seq<(FuncSpace, string)>, stack: seq<(FuncSpace, string)>,
                  result: seq<(FuncSpace, string)>, ss: seq<FuncSpace>, j: nat, path: string)
    requires Visiting(root, base, stack, result, ss, j, path)
    requires j < |ss| && ss[j].name.Some?
    ensures var p := SpacePath(path, ss[j]);
      Visiting(root, base, stack + [(ss[j], p)],
               if ss[j].kind == Function then result + [(ss[j], p)] else result, ss, j + 1, path)
  {
    var p := SpacePath(path, ss[j]);
    StackPush(stack, (ss[j], p));
    PushSize(stack, base, ss, j, p);
    AllNamedSplit(ss, j);
    PushFunctions(root, stack, result, ss, j, path);
  }

  lemma PushSize(stack: seq<(FuncSpace, string)>, base: seq<(FuncSpace, string)>, ss: seq<FuncSpace>, j: nat, p: string)
    requires j < |ss| && StackSize(stack) == StackSize(base) + SizesOf(ss[..j])
    ensures StackSize(stack + [(ss[j], p)]) == StackSize(base) + SizesOf(ss[..j + 1])
  {
    StackPush(stack, (ss[j], p));
    assert ss[..j + 1][..j] == ss[..j];
  }

  lemma PushFunctions(root: FuncSpace, stack: seq<(FuncSpace, string)>, result: seq<(FuncSpace, string)>,
                      ss: seq<FuncSpace>, j: nat, path: string)
    requires j < |ss| && ss[j].name.Some?
    requires multiset(result) + StackFunctions(stack) + multiset(FunctionsIn(ss[j..], path))
             == multiset(FunctionsIn(root.spaces, ""))
    ensures var p := SpacePath(path, ss[j]);
      var result' := if ss[j].kind == Function then result + [(ss[j], p)] else result;
      multiset(result') + StackFunctions(stack + [(ss[j], p)]) + multiset(FunctionsIn(ss[j + 1..], path))
        == multiset(FunctionsIn(root.spaces, ""))
  {
    var p := SpacePath(path, ss[j]);
    StackPush(stack, (ss[j], p));
    FunctionsInStep(ss, j, path);
    var result' := if ss[j].kind == Function then result + [(ss[j], p)] else result;
    assert multiset(result') == multiset(result)
      + (if ss[j].kind == Function then multiset{(ss[j], p)} else multiset{});
  }

  /** An unnamed child `ss[j]` means some scope below the root is unnamed. */
  lemma UnnamedChild(root: FuncSpace, base: seq<(FuncSpace, string)>, stack: seq<(FuncSpace, string)>,
                     result: seq<(FuncSpace, string)>, ss: seq<FuncSpace>, j: nat, path: string)
    requires Visiting(root, base, stack, result, ss, j, path)
    requires j < |ss| && ss[j].name.None?
    ensures !AllNamed(root.spaces)
  {
    AllNamedSplit(ss, j);
  }

  /** The loop invariant of `GetSpaces` between two pops. */
  ghost predicate Pending(root: FuncSpace, stack: seq<(FuncSpace, string)>, result: seq<(FuncSpace, string)>)
  {
    && (AllNamed(root.spaces) <==> StackNamed(stack))
    && multiset(result) + StackFunctions(stack) == multiset(FunctionsIn(root.spaces, ""))
  }

  /** Before the first pop, only the root is on the stack. */
  lemma StartScope(root: FuncSpace)
    ensures Pending(root, [(root, "")], [])
  {
    assert [(root, "")][..0] == [];
  }

  /** Popping the top of the stack starts the visit of its children. */
  lemma PopScope(root: FuncSpace, stack: seq<(FuncSpace, string)>, result: seq<(FuncSpace, string)>)
    requires Pending(root, stack, result) && stack != []
    ensures var top := stack[|stack| - 1];
      Visiting(root, stack[..|stack| - 1], stack[..|stack| - 1], result, top.0.spaces, 0, top.1)
    ensures StackSize(stack) == StackSize(stack[..|stack| - 1]) + 1 + SizesOf(stack[|stack| - 1].0.spaces)
  {
    var top := stack[|stack| - 1];
    assert top.0.spaces[0..] == top.0.spaces;
  }

  /** Once every child is pushed, the invariant between pops holds again. */
  lemma ChildrenPushed(root: FuncSpace, base: seq<(FuncSpace, string)>, stack: seq<(FuncSpace, string)>,
                       result: seq<(FuncSpace, string)>, ss: seq<FuncSpace>, path: string)
    requires Visiting(root, base, stack, result, ss, |ss|, path)
    ensures Pending(root, stack, result)
    ensures StackSize(stack) == StackSize(base) + SizesOf(ss)
  {
    assert ss[..|ss|] == ss;
    assert ss[|ss|..] == [];
  }

  /** Pushing the children `ss[j..]` of a popped scope with path `path`
      onto the stack, each with its own path, and reporting the
      Function-kind ones; an unnamed child stops the traversal with
      `PathConversionError`. */
  function PushChildren(ss: seq<FuncSpace>, j: nat, path: string, stack: seq<(FuncSpace, string)>,
                        result: seq<(FuncSpace, string)>): (r: Result<(seq<(FuncSpace, string)>, seq<(FuncSpace, string)>)>)
    requires j <= |ss|
    ensures r.Ok? <==> AllNamedFrom(ss, j)
    ensures r.Err? ==> r.error == PathConversionError
    ensures r.Ok? ==> StackSize(r.value.0) == StackSize(stack) + SizesOf(ss[j..])
    ensures r.Ok? ==> |r.value.1| >= |result| && r.value.1[..|result|] == result
    decreases |ss| - j
  {
    if j == |ss| then Ok((stack, result))
    else if ss[j].name.None? then Err(PathConversionError)
    else
      var p := SpacePath(path, ss[j]);
      var reported := if ss[j].kind == Function then result + [(ss[j], p)] else result;
      StackSizePush(stack, (ss[j], p));
      SizesOfFrom(ss, j);
      assert reported[..|result|] == result;
      PushChildren(ss, j + 1, path, stack + [(ss[j], p)], reported)
  }

  /** Every child from `ss[j]` on has a name (their own descendants aside). */
  predicate AllNamedFrom(ss: seq<FuncSpace>, j: nat)
  {
    forall k :: j <= k < |ss| ==> ss[k].name.Some?
  }

  lemma StackSizePush(stack: seq<(FuncSpace, string)>, x: (FuncSpace, string))
    ensures StackSize(stack + [x]) == StackSize(stack) + SizeOf(x.0)
  {
    assert (stack + [x])[..|stack|] == stack;
  }

  lemma SizesOfFrom(ss: seq<FuncSpace>, j: nat)
    requires j < |ss|
    ensures SizesOf(ss[j..]) == SizeOf(ss[j]) + SizesOf(ss[j + 1..])
  {
    assert ss[j..] == [ss[j]] + ss[j + 1..];
    SizesOfAppend([ss[j]], ss[j + 1..]);
    assert [ss[j]][..0] == [];
  }

  /** The traversal of `get_spaces` from a stack and the scopes reported so
      far: pop the top, push its children, until the stack is empty. */
  function Drain(stack: seq<(FuncSpace, string)>, result: seq<(FuncSpace, string)>): (r: Result<seq<(FuncSpace, string)>>)
    ensures r.Err? ==> r.error == PathConversionError
    decreases StackSize(stack)
  {
    if stack == [] then Ok(result)
    else
      var top := stack[|stack| - 1];
      assert top.0.spaces[0..] == top.0.spaces;
      var next :- PushChildren(top.0.spaces, 0, top.1, stack[..|stack| - 1], result);
      Drain(next.0, next.1)
  }

  /** The rest of the traversal once the children `ss[j..]` are still to
      be pushed. */
  function Resume(ss: seq<FuncSpace>, j: nat, path: string, stack: seq<(FuncSpace, string)>,
                  result: seq<(FuncSpace, string)>): Result<seq<(FuncSpace, string)>>
    requires j <= |ss|
  {
    var next :- PushChildren(ss, j, path, stack, result);
    Drain(next.0, next.1)
  }

  lemma PopResume(stack: seq<(FuncSpace, string)>, result: seq<(FuncSpace, string)>)
    requires stack != []
    ensures var top := stack[|stack| - 1];
      Drain(stack, result) == Resume(top.0.spaces, 0, top.1, stack[..|stack| - 1], result)
  {
  }

  lemma PushResume(ss: seq<FuncSpace>, j: nat, path: string, stack: seq<(FuncSpace, string)>,
                   result: seq<(FuncSpace, string)>)
    requires j < |ss|
    ensures ss[j].name.None? ==> Resume(ss, j, path, stack, result) == Err(PathConversionError)
    ensures ss[j].name.Some? ==>
      var p := SpacePath(path, ss[j]);
      Resume(ss, j, path, stack, result)
        == Resume(ss, j + 1, path, stack + [(ss[j], p)], if ss[j].kind == Function then result + [(ss[j], p)] else result)
  {
  }

  lemma DoneResume(ss: seq<FuncSpace>, path: string, stack: seq<(FuncSpace, string)>, result: seq<(FuncSpace, string)>)
    ensures Resume(ss, |ss|, path, stack, result) == Drain(stack, result)
  {
  }

  /** The Function-kind scopes below `root`, with their paths, in the order
      `get_spaces` reports them. */
  function SpacesOf(root: FuncSpace): (r: Result<seq<(FuncSpace, string)>>)
    ensures r.Err? ==> r.error == PathConversionError
  {
    Drain([(root, "")], [])
  }

  /** Every Function-kind scope strictly below the root, each paired with its
      path; fails with `PathConversionError` on an unnamed scope. */
  method GetSpaces(root: FuncSpace) returns (r: Result<seq<(FuncSpace, string)>>)
    ensures r.Ok? <==> AllNamed(root.spaces)
    ensures r.Ok? ==> multiset(r.value) == multiset(FunctionsIn(root.spaces, ""))
    ensures r.Err? ==> r.error == PathConversionError
    ensures r == SpacesOf(root)
  {
    var stack := [(root, "")];
    var result := [];
    StartScope(root);
    while stack != []
      invariant Pending(root, stack, result)
      invariant Drain(stack, result) == SpacesOf(root)
      decreases StackSize(stack)
    {
      var top := stack[|stack| - 1];
      var space, path := top.0, top.1;
      PopScope(root, stack, result);
      PopResume(stack, result);
      stack := stack[..|stack| - 1];
      ghost var base := stack;
      var j := 0;
      while j < |space.spaces|
        invariant j <= |space.spaces|
        invariant Visiting(root, base, stack, result, space.spaces, j, path)
        invariant Resume(space.spaces, j, path, stack, result) == SpacesOf(root)
      {
        var s := space.spaces[j];
        PushResume(space.spaces, j, path, stack, result);
        if s.name.None? {
          UnnamedChild(root, base, stack, result, space.spaces, j, path);
          return Err(PathConversionError);
        }
        var p := SpacePath(path, s);
        PushChild(root, base, stack, result, space.spaces, j, path);
        stack := stack + [(s, p)];
        if s.kind == Function {
          result := result + [(s, p)];
        }
        j := j + 1;
      }
      ChildrenPushed(root, base, stack, result, space.spaces, path);
      DoneResume(space.spaces, path, stack, result);
    }
    return Ok(result);
  }

  // ---------------------------------------------------------------------
  // Classification

  /** A row is complex when at least one score exceeds its threshold; the
      thresholds are read in the order plain, quantized, CRAP, Skunk. */
  function CheckComplexity(sifisPlain: real, sifisQuantized: real, crap: real, skunk: real,
                           thresholds: seq<real>): (r: bool)
    requires |thresholds| >= 4
    ensures r <==> exists k :: 0 <= k < 4 && [sifisPlain, sifisQuantized, crap, skunk][k] > thresholds[k]
  {
    sifisPlain > thresholds[0]
    || sifisQuantized > thresholds[1]
    || crap > thresholds[2]
    || skunk > thresholds[3]
  }

  /** Raising the thresholds can only turn a complex row into a simple one. */
  lemma CheckComplexityMonotone(sp: real, sq: real, crap: real, skunk: real, t: seq<real>, u: seq<real>)
    requires |t| >= 4 && |u| >= 4
    requires forall k :: 0 <= k < 4 ==> t[k] <= u[k]
    ensures CheckComplexity(sp, sq, crap, skunk, u) ==> CheckComplexity(sp, sq, crap, skunk, t)
  {
  }
}
