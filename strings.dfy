/** The pieces of Rust's standard library the core relies on for text:
    decimal rendering of line numbers (`format!("{}")`), the byte-wise
    lexicographic order that `String::cmp` uses when the results are
    sorted, and `Path::file_name`. */
module Strings {
  import opened Errors

  /** Decimal digits of `n`, as `format!("{}", n)` renders a `usize`: read
      back as a decimal numeral they give `n`, and there is no leading zero
      unless `n` is 0 itself. */
  function NatToString(n: nat): (s: string)
    ensures |s| >= 1
    ensures forall k :: 0 <= k < |s| ==> '0' <= s[k] <= '9'
    ensures DecimalValue(s) == n
    ensures s[0] == '0' <==> n == 0
    ensures |s| > 1 ==> s[0] != '0'
    decreases n
  {
    if n < 10 then [Digit(n)]
    else
      var s := NatToString(n / 10) + [Digit(n % 10)];
      assert s[..|s| - 1] == NatToString(n / 10);
      s
  }

  /** The value of a decimal numeral, read from the left: each digit
      multiplies what was read so far by ten and adds itself. */
  function DecimalValue(s: string): nat
    requires forall k :: 0 <= k < |s| ==> '0' <= s[k] <= '9'
  {
    if s == [] then 0 else 10 * DecimalValue(s[..|s| - 1]) + DigitValue(s[|s| - 1])
  }

  function DigitValue(c: char): nat
    requires '0' <= c <= '9'
  {
    c as int - '0' as int
  }

  function Digit(d: nat): (c: char)
    requires d < 10
    ensures '0' <= c <= '9' && DigitValue(c) == d
  {
    ('0' as int + d) as char
  }

  /** The ` (start, end)` tail that `"{} ({}, {})"` writes after a name. */
  function LinePair(start: nat, end: nat): (t: string)
    ensures |t| == |NatToString(start)| + |NatToString(end)| + 5
    ensures t[2 + |NatToString(start)|] == ','
  {
    " (" + NatToString(start) + ", " + NatToString(end) + ")"
  }

  /** The tail gives its two numbers back: the first ends where the first
      comma stands, since no digit is a comma. */
  lemma {:induction false} LinePairInjective(start: nat, end: nat, start': nat, end': nat)
    requires LinePair(start, end) == LinePair(start', end')
    ensures start == start' && end == end'
  {
    var t, a, b, a', b' := LinePair(start, end), NatToString(start), NatToString(end),
                           NatToString(start'), NatToString(end');
    assert |a| == |a'|;
    assert a == t[2..2 + |a|] == a';
    assert b == t[4 + |a|..|t| - 1] == b';
  }

  /** Lexicographic order on strings (`a <= b` for Rust's `String`). */
  predicate LexLe(a: string, b: string)
    decreases |a|
  {
    a == [] || (b != [] && (a[0] < b[0] || (a[0] == b[0] && LexLe(a[1..], b[1..]))))
  }

  lemma {:induction false} LexLeTotal(a: string, b: string)
    ensures LexLe(a, b) || LexLe(b, a)
    decreases |a|
  {
    if a != [] && b != [] && a[0] == b[0] {
      LexLeTotal(a[1..], b[1..]);
    }
  }

  lemma {:induction false} LexLeTransitive(a: string, b: string, c: string)
    requires LexLe(a, b) && LexLe(b, c)
    ensures LexLe(a, c)
    decreases |a|
  {
    if a != [] && b != [] && c != [] && a[0] == b[0] && b[0] == c[0] {
      LexLeTransitive(a[1..], b[1..], c[1..]);
    }
  }

  /** `Path::file_name` on a `/`-separated path: the last component of the
      path when that is a normal name. Trailing separators and trailing `.`
      components are no components, so `a/b/` and `a/b/.` both name `b`;
      there is no name when no component is left or the last one is the
      parent component `..`. */
  function FileName(path: string): (r: Option<string>)
    ensures path == [] || path == "." || path == ".." ==> r.None?
    ensures r.Some? ==> r.value != [] && '/' !in r.value && r.value != ".." && r.value != "."
  {
    var end := TrimEnd(path, |path|);
    var k := LastSeparator(path, end);
    var name := path[k..end];
    if name == [] || name == ".." || name == "." then None else Some(name)
  }

  /** `FileName` gives the last component of the path when it is a normal
      name, and nothing when there is no component or the last is `..`. */
  lemma FileNameIsLastComponent(path: string)
    ensures FileName(path).Some? <==> Components(path, |path|) != [] && Last(Components(path, |path|)) != ".."
    ensures FileName(path).Some? ==> FileName(path).value == Last(Components(path, |path|))
  {
    NameIsLastComponent(path, TrimEnd(path, |path|));
  }

  function Last(cs: seq<string>): string
    requires cs != []
  {
    cs[|cs| - 1]
  }

  /** The components of `path[..upto]` as `Path::components` lists them,
      leaving out the root and `.`: the pieces between separators that
      are neither empty nor `.`, in order. */
  function Components(path: string, upto: nat): seq<string>
    requires upto <= |path|
    decreases upto
  {
    if upto == 0 then []
    else
      var k := LastSeparator(path, upto);
      var rest := if k == 0 then [] else Components(path, k - 1);
      if path[k..upto] == [] || path[k..upto] == "." then rest else rest + [path[k..upto]]
  }

  /** Length of `path[..upto]` without what ends it but is no component:
      trailing separators and trailing `.` components. */
  function TrimEnd(path: string, upto: nat): (e: nat)
    requires upto <= |path|
    ensures e <= upto
    ensures Components(path, e) == Components(path, upto)
    ensures e > 0 ==> path[e - 1] != '/'
    ensures e > 1 ==> !(path[e - 1] == '.' && path[e - 2] == '/')
    decreases upto
  {
    if upto > 0 && path[upto - 1] == '/' then
      SkipSeparator(path, upto);
      TrimEnd(path, upto - 1)
    else if upto > 1 && path[upto - 1] == '.' && path[upto - 2] == '/' then
      SkipDot(path, upto);
      TrimEnd(path, upto - 2)
    else upto
  }

  /** A trailing separator ends an empty piece, which is no component. */
  lemma SkipSeparator(path: string, upto: nat)
    requires 0 < upto <= |path| && path[upto - 1] == '/'
    ensures Components(path, upto) == Components(path, upto - 1)
  {
    assert LastSeparator(path, upto) == upto;
  }

  /** A trailing `/.` ends a `.` piece, which is no component. */
  lemma SkipDot(path: string, upto: nat)
    requires 1 < upto <= |path| && path[upto - 1] == '.' && path[upto - 2] == '/'
    ensures Components(path, upto) == Components(path, upto - 2)
  {
    assert LastSeparator(path, upto) == upto - 1;
    assert path[upto - 1..upto] == ".";
  }

  /** Once the end is trimmed, the last piece is the last component, unless
      the path is a lone `.`, which has none. */
  lemma NameIsLastComponent(path: string, end: nat)
    requires end <= |path|
    requires end > 0 ==> path[end - 1] != '/'
    requires end > 1 ==> !(path[end - 1] == '.' && path[end - 2] == '/')
    ensures var k := LastSeparator(path, end);
      var name := path[k..end];
      if name == [] || name == "." then Components(path, end) == []
      else Components(path, end) != [] && Last(Components(path, end)) == name
  {
    if end > 0 {
      var k := LastSeparator(path, end);
      if path[k..end] == "." {
        assert path[k] == '.';
        assert k == end - 1;
      }
    }
  }

  /** Index just after the last `/` among the first `upto` characters. */
  function LastSeparator(path: string, upto: nat): (k: nat)
    requires upto <= |path|
    ensures k <= upto
    ensures forall j :: k <= j < upto ==> path[j] != '/'
    ensures k > 0 ==> path[k - 1] == '/'
    decreases upto
  {
    if upto == 0 then 0
    else if path[upto - 1] == '/' then upto
    else LastSeparator(path, upto - 1)
  }
}
