/** The two external inputs of the core: a coverage entry as the JSON
    reader hands it over (serde_json's `Value`), and the scope tree that the
    structural-analysis library builds for a file (its `FuncSpace`). */
module Values {
  import opened Errors

  /** A JSON value found in a coverage array: JSON null, a JSON integer
      (hit count, or -1 for "not executable" in the covdir dialect), or
      anything else (float, string, bool, array, object). */
  datatype Value = Null | Int(n: int) | NonNumber

  /** `Value::is_null`. */
  predicate IsNull(v: Value) { v.Null? }

  /** Bounds of Rust's `i64` and `u64`: `I64_MIN <= n < I64_LIMIT`,
      `0 <= n < U64_LIMIT`. */
  const I64_MIN: int := -0x8000_0000_0000_0000
  const I64_LIMIT: int := 0x8000_0000_0000_0000
  const U64_LIMIT: int := 0x1_0000_0000_0000_0000

  /** `Value::as_i64`: succeeds on the integers that fit in an `i64`
      (a larger JSON integer is read as a float). */
  function AsI64(v: Value): (r: Option<int>)
    ensures r.Some? <==> v.Int? && I64_MIN <= v.n < I64_LIMIT
    ensures r.Some? ==> r.value == v.n
  {
    if v.Int? && I64_MIN <= v.n < I64_LIMIT then Some(v.n) else None
  }

  /** `Value::as_u64`: succeeds on the non-negative integers that fit in a
      `u64`. */
  function AsU64(v: Value): (r: Option<nat>)
    ensures r.Some? <==> v.Int? && 0 <= v.n < U64_LIMIT
    ensures r.Some? ==> r.value == v.n
  {
    if v.Int? && 0 <= v.n < U64_LIMIT then Some(v.n) else None
  }

  datatype SpaceKind = Unknown | Function | Class | Struct | Trait | Impl | Unit | Namespace | Interface

  /** One scope of a file, with the metric values the analysis library
      attached to it: own (`cyclomatic`, `cognitive`) and subtree
      (`..._sum`) complexity, and physical lines of code. Line numbers are
      1-based and inclusive. */
  datatype FuncSpace = FuncSpace(
    name: Option<string>,
    startLine: nat,
    endLine: nat,
    kind: SpaceKind,
    spaces: seq<FuncSpace>,
    cyclomatic: real,
    cyclomaticSum: real,
    cognitive: real,
    cognitiveSum: real,
    ploc: real)

  /** Number of scopes in a tree. */
  function SizeOf(s: FuncSpace): nat
    decreases s
  {
    1 + SizesOf(s.spaces)
  }

  /** Number of scopes in a forest. */
  function SizesOf(ss: seq<FuncSpace>): nat
    decreases ss
  {
    if ss == [] then 0 else SizesOf(ss[..|ss| - 1]) + SizeOf(ss[|ss| - 1])
  }

  lemma {:induction false} SizesOfAppend(a: seq<FuncSpace>, b: seq<FuncSpace>)
    ensures SizesOf(a + b) == SizesOf(a) + SizesOf(b)
    decreases |b|
  {
    if b != [] {
      assert (a + b)[..|a + b| - 1] == a + b[..|b| - 1];
      SizesOfAppend(a, b[..|b| - 1]);
    } else {
      assert a + b == a;
    }
  }

  /** `d` is `s` or lies somewhere below it. */
  ghost predicate IsSubSpace(d: FuncSpace, s: FuncSpace)
    decreases s
  {
    d == s || exists k :: 0 <= k < |s.spaces| && IsSubSpace(d, s.spaces[k])
  }

  /** `d` lies strictly below `s`. */
  ghost predicate IsStrictSubSpace(d: FuncSpace, s: FuncSpace)
  {
    exists k :: 0 <= k < |s.spaces| && IsSubSpace(d, s.spaces[k])
  }
}
