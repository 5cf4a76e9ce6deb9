/** The SIFIS scores (src/metrics/sifis.rs): coverage weighted by
    complexity. "Plain" weights every covered line by the complexity of the
    whole scope; "quantized" weights it 1 or 2 depending on whether the
    innermost scope around the line is more complex than `THRESHOLD`. Each
    comes in a file variant, over the whole coverage array, and a
    `_function` variant, over the scope's own line range. */
module Sifis {
  import opened Errors
  import opened Values
  import opened Utility

  /** Own complexity above which a covered line counts twice. */
  const THRESHOLD: real := 15.0

  // ---------------------------------------------------------------------
  // The innermost scope around a line

  /** The scope's line range contains `i` (both ends inclusive). */
  predicate Contains(s: FuncSpace, i: int)
  {
    s.startLine <= i <= s.endLine
  }

  /** The scopes of `ss` whose range contains `i`, in order. */
  function Matching(ss: seq<FuncSpace>, i: int): (m: seq<FuncSpace>)
    ensures |m| <= |ss|
    ensures forall x :: x in m ==> x in ss && Contains(x, i)
    ensures m == [] <==> forall k :: 0 <= k < |ss| ==> !Contains(ss[k], i)
    decreases |ss|
  {
    if ss == [] then []
    else
      var last := ss[|ss| - 1];
      Matching(ss[..|ss| - 1], i) + (if Contains(last, i) then [last] else [])
  }

  lemma {:induction false} MatchingSize(ss: seq<FuncSpace>, i: int)
    ensures SizesOf(Matching(ss, i)) <= SizesOf(ss)
    decreases |ss|
  {
    if ss != [] {
      var last := ss[|ss| - 1];
      MatchingSize(ss[..|ss| - 1], i);
      SizesOfAppend(Matching(ss[..|ss| - 1], i), if Contains(last, i) then [last] else []);
      if !Contains(last, i) {
        assert SizesOf([]) == 0;
      } else {
        assert [last][..0] == [];
      }
    }
  }

  /** The last element of `m`, or `d` when `m` is empty. */
  function LastOr(m: seq<FuncSpace>, d: FuncSpace): FuncSpace
  {
    if m == [] then d else m[|m| - 1]
  }

  /** Extending the scanned prefix by one scope. */
  lemma MatchingStep(ss: seq<FuncSpace>, j: nat, i: int)
    requires j < |ss|
    ensures Matching(ss[..j + 1], i) == Matching(ss[..j], i) + (if Contains(ss[j], i) then [ss[j]] else [])
  {
    assert ss[..j + 1][..j] == ss[..j];
  }

  lemma SizesOfPop(stack: seq<FuncSpace>)
    requires stack != []
    ensures SizesOf(stack) == SizesOf(stack[..|stack| - 1]) + 1 + SizesOf(stack[|stack| - 1].spaces)
  {
  }

  /** What is left of the descent once the scopes `stack` are still to be
      popped and `min` is the last scope found to contain `i`: pop the top,
      push its children that contain `i`, the last of them becoming `min`. */
  function RunStack(stack: seq<FuncSpace>, i: int, min: FuncSpace): FuncSpace
    decreases SizesOf(stack)
  {
    if stack == [] then min
    else
      var top := stack[|stack| - 1];
      var m := Matching(top.spaces, i);
      MatchingSize(top.spaces, i);
      SizesOfAppend(stack[..|stack| - 1], m);
      SizesOfPop(stack);
      RunStack(stack[..|stack| - 1] + m, i, LastOr(m, min))
  }

  /** One pop of the descent. */
  lemma RunStackPop(base: seq<FuncSpace>, top: FuncSpace, i: int, min: FuncSpace)
    ensures RunStack(base + [top], i, min) == RunStack(base + Matching(top.spaces, i), i, LastOr(Matching(top.spaces, i), min))
  {
    assert (base + [top])[..|base|] == base;
  }

  /** The scope `get_min_space(root, i)` returns. `i` is the 0-based index
      of a coverage entry while the scopes carry 1-based line numbers; the
      comparison is made as is. */
  function MinSpace(root: FuncSpace, i: int): FuncSpace
  {
    RunStack([root], i, root)
  }

  /** Loop invariant of `GetMinSpace` while scanning the children `ss` of
      a popped scope: the first `j` were scanned, those containing `i` were
      pushed on `base`, and the last of them replaced `min0`. */
  predicate Scanning(base: seq<FuncSpace>, stack: seq<FuncSpace>, min0: FuncSpace, minSpace: FuncSpace,
                     ss: seq<FuncSpace>, j: nat, i: int)
  {
    && j <= |ss|
    && stack == base + Matching(ss[..j], i)
    && minSpace == LastOr(Matching(ss[..j], i), min0)
  }

  lemma ScanStart(base: seq<FuncSpace>, min0: FuncSpace, ss: seq<FuncSpace>, i: int)
    ensures Scanning(base, base, min0, min0, ss, 0, i)
  {
    assert ss[..0] == [];
    assert base + [] == base;
  }

  lemma ScanChild(base: seq<FuncSpace>, stack: seq<FuncSpace>, min0: FuncSpace, minSpace: FuncSpace,
                  ss: seq<FuncSpace>, j: nat, i: int)
    requires Scanning(base, stack, min0, minSpace, ss, j, i) && j < |ss|
    ensures Contains(ss[j], i) ==> Scanning(base, stack + [ss[j]], min0, ss[j], ss, j + 1, i)
    ensures !Contains(ss[j], i) ==> Scanning(base, stack, min0, minSpace, ss, j + 1, i)
  {
    MatchingStep(ss, j, i);
    var found := Matching(ss[..j], i);
    assert base + (found + [ss[j]]) == (base + found) + [ss[j]];
    assert found + [] == found;
  }

  /** Stack-based descent from the root, keeping the last scope whose
      range contains `i`. */
  method GetMinSpace(root: FuncSpace, i: nat) returns (minSpace: FuncSpace)
    ensures minSpace == MinSpace(root, i)
  {
    minSpace := root;
    var stack := [root];
    while stack != []
      invariant RunStack(stack, i, minSpace) == MinSpace(root, i)
      decreases SizesOf(stack)
    {
      var space := stack[|stack| - 1];
      ghost var whole := stack;
      stack := stack[..|stack| - 1];
      ghost var base, min0 := stack, minSpace;
      ScanStart(base, min0, space.spaces, i);
      var j := 0;
      while j < |space.spaces|
        invariant Scanning(base, stack, min0, minSpace, space.spaces, j, i)
        decreases |space.spaces| - j
      {
        var s := space.spaces[j];
        ScanChild(base, stack, min0, minSpace, space.spaces, j, i);
        if i >= s.startLine && i <= s.endLine {
          minSpace := s;
          stack := stack + [s];
        }
        j := j + 1;
      }
      ScanDone(whole, base, stack, min0, minSpace, j, i);
    }
  }

  /** Once every child of the popped scope was scanned, the descent left
      to run is the same and the stack is smaller. */
  lemma ScanDone(whole: seq<FuncSpace>, base: seq<FuncSpace>, stack: seq<FuncSpace>,
                 min0: FuncSpace, minSpace: FuncSpace, j: nat, i: int)
    requires whole != [] && base == whole[..|whole| - 1]
    requires j == |whole[|whole| - 1].spaces|
    requires Scanning(base, stack, min0, minSpace, whole[|whole| - 1].spaces, j, i)
    ensures RunStack(stack, i, minSpace) == RunStack(whole, i, min0)
    ensures SizesOf(stack) < SizesOf(whole)
  {
    var space := whole[|whole| - 1];
    assert space.spaces[..j] == space.spaces;
    assert whole == base + [space];
    RunStackPop(base, space, i, min0);
    MatchingSize(space.spaces, i);
    SizesOfAppend(base, Matching(space.spaces, i));
    SizesOfPop(whole);
  }

  /** A scope none of whose children contains `i`. */
  predicate Innermost(s: FuncSpace, i: int)
  {
    forall k :: 0 <= k < |s.spaces| ==> !Contains(s.spaces[k], i)
  }

  lemma {:induction false} ChildIsStrictSubSpace(c: FuncSpace, top: FuncSpace, root: FuncSpace)
    requires IsSubSpace(top, root) && c in top.spaces
    ensures IsStrictSubSpace(c, root)
    decreases root
  {
    if top == root {
      var k :| 0 <= k < |root.spaces| && root.spaces[k] == c;
      assert IsSubSpace(c, root.spaces[k]);
    } else {
      var k :| 0 <= k < |root.spaces| && IsSubSpace(top, root.spaces[k]);
      ChildIsStrictSubSpace(c, top, root.spaces[k]);
      assert IsSubSpace(c, root.spaces[k]);
    }
  }

  /** The descent ends on a scope none of whose children contains `i`. */
  lemma {:induction false} RunStackInnermost(stack: seq<FuncSpace>, i: int, min: FuncSpace)
    requires min in stack || Innermost(min, i)
    ensures Innermost(RunStack(stack, i, min), i)
    decreases SizesOf(stack)
  {
    if stack != [] {
      var top := stack[|stack| - 1];
      var base := stack[..|stack| - 1];
      var m := Matching(top.spaces, i);
      MatchingSize(top.spaces, i);
      SizesOfAppend(base, m);
      SizesOfPop(stack);
      var next := LastOr(m, min);
      assert stack == base + [top];
      assert next in base + m || Innermost(next, i);
      RunStackInnermost(base + m, i, next);
    }
  }

  /** Once the last scope found lies strictly below the root and contains
      `i`, so does the scope the descent ends on. */
  lemma {:induction false} RunStackBelow(root: FuncSpace, stack: seq<FuncSpace>, i: int, min: FuncSpace)
    requires forall x :: x in stack ==> IsSubSpace(x, root)
    requires IsStrictSubSpace(min, root) && Contains(min, i)
    ensures IsStrictSubSpace(RunStack(stack, i, min), root) && Contains(RunStack(stack, i, min), i)
    decreases SizesOf(stack)
  {
    if stack != [] {
      var top := stack[|stack| - 1];
      var base := stack[..|stack| - 1];
      var m := Matching(top.spaces, i);
      MatchingSize(top.spaces, i);
      SizesOfAppend(base, m);
      SizesOfPop(stack);
      assert stack == base + [top];
      forall x | x in base + m
        ensures IsSubSpace(x, root)
      {
        if x in m {
          ChildIsStrictSubSpace(x, top, root);
        }
      }
      forall x | x in m
        ensures IsSubSpace(x, root)
      {
        ChildIsStrictSubSpace(x, top, root);
      }
      if m != [] {
        ChildIsStrictSubSpace(m[|m| - 1], top, root);
      }
      RunStackBelow(root, base + m, i, LastOr(m, min));
    }
  }

  /** `get_min_space` returns the root when no child of the root contains
      `i`, and otherwise a scope strictly below the root that contains `i`;
      either way none of the children of what it returns contains `i`. */
  lemma MinSpaceSpec(root: FuncSpace, i: int)
    ensures Innermost(root, i) ==> MinSpace(root, i) == root
    ensures !Innermost(root, i) ==>
      IsStrictSubSpace(MinSpace(root, i), root) && Contains(MinSpace(root, i), i)
    ensures Innermost(MinSpace(root, i), i)
    ensures IsSubSpace(MinSpace(root, i), root)
  {
    RunStackInnermost([root], i, root);
    var m := Matching(root.spaces, i);
    RunStackPop([], root, i, root);
    assert [] + [root] == [root];
    assert [] + m == m;
    if m == [] {
      assert RunStack([], i, root) == root;
    } else {
      ChildIsStrictSubSpace(m[|m| - 1], root, root);
      forall x | x in m
        ensures IsSubSpace(x, root)
      {
        ChildIsStrictSubSpace(x, root, root);
      }
      RunStackBelow(root, m, i, m[|m| - 1]);
    }
  }

  // ---------------------------------------------------------------------
  // The four folds

  /** The null test of the folds. In the covdir dialect a line is null when
      it is -1, and an entry that is not an `i64` makes the test fail; in
      the coveralls dialect a line is null when it is JSON null. */
  function IsNullLine(line: Value, isCovdir: bool): (r: Result<bool>)
    ensures r.Err? <==> isCovdir && AsI64(line).None?
    ensures r.Err? ==> r.error == ConversionError
    ensures r.Ok? ==> (r.value <==> if isCovdir then line == Int(-1) else line.Null?)
  {
    if isCovdir then
      var n :- OkOr(AsI64(line), ConversionError);
      Ok(n == -1)
    else
      Ok(line.Null?)
  }

  /** What a covered line adds: the scope's subtree complexity (plain), or
      2 or 1 depending on the own complexity of the innermost scope around
      the line (quantized). */
  function Weight(space: FuncSpace, metric: Complexity, quantized: bool, i: int): real
  {
    if quantized then
      (if OwnComplexity(MinSpace(space, i), metric) > THRESHOLD then 2.0 else 1.0)
    else
      SumComplexity(space, metric)
  }

  /** One step of a SIFIS fold at index `i`; only indices in `[lo, hi)`
      are counted. */
  function SifisStep(acc: real, i: nat, line: Value, space: FuncSpace, metric: Complexity,
                     isCovdir: bool, quantized: bool, lo: int, hi: int): Result<real>
  {
    var isNull :- IsNullLine(line, isCovdir);
    if !isNull && InRange(i, lo, hi) then
      var cov :- OkOr(AsU64(line), ConversionError);
      Ok(if cov > 0 then acc + Weight(space, metric, quantized, i) else acc)
    else
      Ok(acc)
  }

  /** `try_fold` of `SifisStep` over the entries from index `i` on. */
  function SifisFold(covs: seq<Value>, i: nat, acc: real, space: FuncSpace, metric: Complexity,
                     isCovdir: bool, quantized: bool, lo: int, hi: int): Result<real>
    requires i <= |covs|
    decreases |covs| - i
  {
    if i == |covs| then Ok(acc)
    else
      var next :- SifisStep(acc, i, covs[i], space, metric, isCovdir, quantized, lo, hi);
      SifisFold(covs, i + 1, next, space, metric, isCovdir, quantized, lo, hi)
  }

  /** Reading the entry at index `j` fails: the covdir null test fails, or
      the entry is counted and is not a hit count. */
  predicate LineFails(line: Value, j: int, isCovdir: bool, lo: int, hi: int)
  {
    (isCovdir && AsI64(line).None?)
    || (!(if isCovdir then line == Int(-1) else line.Null?) && InRange(j, lo, hi) && AsU64(line).None?)
  }

  /** No entry of `covs` makes a SIFIS fold fail. */
  predicate Readable(covs: seq<Value>, isCovdir: bool, lo: int, hi: int)
  {
    forall j :: 0 <= j < |covs| ==> !LineFails(covs[j], j, isCovdir, lo, hi)
  }

  /** Reference definition of a SIFIS numerator: the weights of the covered
      lines with index in `[lo, hi)`. */
  function WeightedCoverage(covs: seq<Value>, space: FuncSpace, metric: Complexity,
                            quantized: bool, lo: int, hi: int): real
    decreases |covs|
  {
    if covs == [] then 0.0
    else
      var j := |covs| - 1;
      WeightedCoverage(covs[..j], space, metric, quantized, lo, hi)
      + (if IsCovered(covs[j]) && InRange(j, lo, hi) then Weight(space, metric, quantized, j) else 0.0)
  }

  /** The fold fails exactly on an unreadable entry and otherwise adds the
      weights of the covered lines it visits. */
  lemma {:induction false} SifisFoldSum(covs: seq<Value>, i: nat, acc: real, space: FuncSpace,
                                        metric: Complexity, isCovdir: bool, quantized: bool, lo: int, hi: int)
    requires i <= |covs|
    ensures SifisFold(covs, i, acc, space, metric, isCovdir, quantized, lo, hi).Ok?
        <==> forall j :: i <= j < |covs| ==> !LineFails(covs[j], j, isCovdir, lo, hi)
    ensures SifisFold(covs, i, acc, space, metric, isCovdir, quantized, lo, hi).Err? ==>
      SifisFold(covs, i, acc, space, metric, isCovdir, quantized, lo, hi).error == ConversionError
    ensures SifisFold(covs, i, acc, space, metric, isCovdir, quantized, lo, hi).Ok? ==>
      SifisFold(covs, i, acc, space, metric, isCovdir, quantized, lo, hi).value
        == acc + WeightedCoverage(covs, space, metric, quantized, lo, hi)
               - WeightedCoverage(covs[..i], space, metric, quantized, lo, hi)
    decreases |covs| - i
  {
    if i < |covs| {
      assert covs[..i + 1][..i] == covs[..i];
      var step := SifisStep(acc, i, covs[i], space, metric, isCovdir, quantized, lo, hi);
      if step.Ok? {
        SifisFoldSum(covs, i + 1, step.value, space, metric, isCovdir, quantized, lo, hi);
        if i + 1 == |covs| {
          assert covs[..i + 1] == covs;
        }
      }
    } else {
      assert covs[..i] == covs;
    }
  }

  /** With plain weights the numerator is the subtree complexity times the
      number of covered lines. */
  lemma {:induction false} PlainIsComplexityTimesCovered(covs: seq<Value>, space: FuncSpace, metric: Complexity,
                                                         lo: int, hi: int)
    ensures WeightedCoverage(covs, space, metric, false, lo, hi)
         == SumComplexity(space, metric) * CountCovered(covs, lo, hi) as real
    decreases |covs|
  {
    if covs != [] {
      PlainIsComplexityTimesCovered(covs[..|covs| - 1], space, metric, lo, hi);
    }
  }

  /** With quantized weights every covered line adds 1 or 2. */
  lemma {:induction false} QuantizedBounds(covs: seq<Value>, space: FuncSpace, metric: Complexity, lo: int, hi: int)
    ensures CountCovered(covs, lo, hi) as real <= WeightedCoverage(covs, space, metric, true, lo, hi)
    ensures WeightedCoverage(covs, space, metric, true, lo, hi) <= 2.0 * CountCovered(covs, lo, hi) as real
    decreases |covs|
  {
    if covs != [] {
      QuantizedBounds(covs[..|covs| - 1], space, metric, lo, hi);
    }
  }

  /** No scope in the tree is more complex on its own than `THRESHOLD`. */
  ghost predicate NoHotScope(space: FuncSpace, metric: Complexity)
  {
    forall d :: IsSubSpace(d, space) ==> OwnComplexity(d, metric) <= THRESHOLD
  }

  /** Without a hot scope every covered line adds exactly 1. */
  lemma {:induction false} QuantizedWithoutHotScope(covs: seq<Value>, space: FuncSpace, metric: Complexity,
                                                    lo: int, hi: int)
    ensures NoHotScope(space, metric) ==>
      WeightedCoverage(covs, space, metric, true, lo, hi) == CountCovered(covs, lo, hi) as real
    decreases |covs|
  {
    if covs != [] && NoHotScope(space, metric) {
      QuantizedWithoutHotScope(covs[..|covs| - 1], space, metric, lo, hi);
      MinSpaceSpec(space, |covs| - 1);
    }
  }

  /** Shared contract of the four public functions, given the counted range. */
  lemma SifisResult(root: FuncSpace, covs: seq<Value>, metric: Complexity, isCovdir: bool,
                    quantized: bool, lo: int, hi: int)
    ensures var r := SifisFold(covs, 0, 0.0, root, metric, isCovdir, quantized, lo, hi);
      && (r.Ok? <==> Readable(covs, isCovdir, lo, hi))
      && (r.Err? ==> r.error == ConversionError)
      && (r.Ok? ==> r.value == WeightedCoverage(covs, root, metric, quantized, lo, hi))
  {
    SifisFoldSum(covs, 0, 0.0, root, metric, isCovdir, quantized, lo, hi);
    assert covs[..0] == [];
  }

  /** SIFIS plain of a file: (numerator / ploc, numerator) over the whole
      array, the numerator being the root's subtree complexity times the
      number of covered lines. */
  function SifisPlain(root: FuncSpace, covs: seq<Value>, metric: Complexity, isCovdir: bool): (r: Result<(real, real)>)
    requires root.ploc != 0.0
    ensures r.Ok? <==> Readable(covs, isCovdir, 0, |covs|)
    ensures r.Err? ==> r.error == ConversionError
    ensures r.Ok? ==> r.value.1 == SumComplexity(root, metric) * CountCovered(covs, 0, |covs|) as real
    ensures r.Ok? ==> r.value.0 == r.value.1 / root.ploc
  {
    SifisResult(root, covs, metric, isCovdir, false, 0, |covs|);
    PlainIsComplexityTimesCovered(covs, root, metric, 0, |covs|);
    var sum :- SifisFold(covs, 0, 0.0, root, metric, isCovdir, false, 0, |covs|);
    Ok((sum / root.ploc, sum))
  }

  /** SIFIS quantized of a file: (numerator / ploc, numerator) over the
      whole array, each covered line adding 1 or 2. */
  function SifisQuantized(root: FuncSpace, covs: seq<Value>, metric: Complexity, isCovdir: bool): (r: Result<(real, real)>)
    requires root.ploc != 0.0
    ensures r.Ok? <==> Readable(covs, isCovdir, 0, |covs|)
    ensures r.Err? ==> r.error == ConversionError
    ensures r.Ok? ==> r.value.1 == WeightedCoverage(covs, root, metric, true, 0, |covs|)
    ensures r.Ok? ==> CountCovered(covs, 0, |covs|) as real <= r.value.1 <= 2.0 * CountCovered(covs, 0, |covs|) as real
    ensures r.Ok? && NoHotScope(root, metric) ==> r.value.1 == CountCovered(covs, 0, |covs|) as real
    ensures r.Ok? ==> r.value.0 == r.value.1 / root.ploc
  {
    SifisResult(root, covs, metric, isCovdir, true, 0, |covs|);
    QuantizedBounds(covs, root, metric, 0, |covs|);
    QuantizedWithoutHotScope(covs, root, metric, 0, |covs|);
    var sum :- SifisFold(covs, 0, 0.0, root, metric, isCovdir, true, 0, |covs|);
    Ok((sum / root.ploc, sum))
  }

  /** SIFIS plain of one scope: as `SifisPlain`, counting only the lines of
      the scope's range; the covdir null test still reads every entry. */
  function SifisPlainFunction(space: FuncSpace, covs: seq<Value>, metric: Complexity, isCovdir: bool): (r: Result<(real, real)>)
    requires space.ploc != 0.0 && space.startLine >= 1
    ensures r.Ok? <==> Readable(covs, isCovdir, space.startLine - 1, space.endLine)
    ensures r.Err? ==> r.error == ConversionError
    ensures r.Ok? ==>
      r.value.1 == SumComplexity(space, metric) * CountCovered(covs, space.startLine - 1, space.endLine) as real
    ensures r.Ok? ==> r.value.0 == r.value.1 / space.ploc
  {
    SifisResult(space, covs, metric, isCovdir, false, space.startLine - 1, space.endLine);
    PlainIsComplexityTimesCovered(covs, space, metric, space.startLine - 1, space.endLine);
    var sum :- SifisFold(covs, 0, 0.0, space, metric, isCovdir, false, space.startLine - 1, space.endLine);
    Ok((sum / space.ploc, sum))
  }

  /** SIFIS quantized of one scope, counting only the lines of its range. */
  function SifisQuantizedFunction(space: FuncSpace, covs: seq<Value>, metric: Complexity, isCovdir: bool): (r: Result<(real, real)>)
    requires space.ploc != 0.0 && space.startLine >= 1
    ensures r.Ok? <==> Readable(covs, isCovdir, space.startLine - 1, space.endLine)
    ensures r.Err? ==> r.error == ConversionError
    ensures r.Ok? ==> r.value.1 == WeightedCoverage(covs, space, metric, true, space.startLine - 1, space.endLine)
    ensures r.Ok? ==>
      var n := CountCovered(covs, space.startLine - 1, space.endLine) as real;
      n <= r.value.1 <= 2.0 * n
    ensures r.Ok? && NoHotScope(space, metric) ==>
      r.value.1 == CountCovered(covs, space.startLine - 1, space.endLine) as real
    ensures r.Ok? ==> r.value.0 == r.value.1 / space.ploc
  {
    SifisResult(space, covs, metric, isCovdir, true, space.startLine - 1, space.endLine);
    QuantizedBounds(covs, space, metric, space.startLine - 1, space.endLine);
    QuantizedWithoutHotScope(covs, space, metric, space.startLine - 1, space.endLine);
    var sum :- SifisFold(covs, 0, 0.0, space, metric, isCovdir, true, space.startLine - 1, space.endLine);
    Ok((sum / space.ploc, sum))
  }
}
