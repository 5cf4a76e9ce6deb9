/** The in-place sorts of the assembly step (`slice::sort` on the ignored
    paths, `slice::sort_by` on the rows by name), specified by the order
    they establish and the multiset of elements they keep. */
module Sorting {
  import opened Strings

  /** Every element's key is at most the key of every later element. */
  predicate SortedBy<T>(s: seq<T>, key: T -> string)
  {
    forall i, j :: 0 <= i < j < |s| ==> LexLe(key(s[i]), key(s[j]))
  }

  /** Insertion of `x` into a sorted sequence, after the leading elements
      whose key is at most `x`'s. */
  method Insert<T>(s: seq<T>, x: T, key: T -> string) returns (r: seq<T>)
    requires SortedBy(s, key)
    ensures SortedBy(r, key)
    ensures multiset(r) == multiset(s) + multiset{x}
  {
    var k := 0;
    while k < |s| && LexLe(key(s[k]), key(x))
      invariant 0 <= k <= |s|
      invariant forall i :: 0 <= i < k ==> LexLe(key(s[i]), key(x))
    {
      k := k + 1;
    }
    if k < |s| {
      LexLeTotal(key(s[k]), key(x));
      forall j | k <= j < |s|
        ensures LexLe(key(x), key(s[j]))
      {
        if j > k {
          LexLeTransitive(key(x), key(s[k]), key(s[j]));
        }
      }
    }
    r := s[..k] + [x] + s[k..];
    assert s == s[..k] + s[k..];
  }

  /** Sorts by key, keeping every element. */
  method SortBy<T>(s: seq<T>, key: T -> string) returns (r: seq<T>)
    ensures SortedBy(r, key)
    ensures multiset(r) == multiset(s)
  {
    r := [];
    for i := 0 to |s|
      invariant SortedBy(r, key)
      invariant multiset(r) == multiset(s[..i])
    {
      assert s[..i + 1] == s[..i] + [s[i]];
      r := Insert(r, s[i], key);
    }
    assert s[..|s|] == s;
  }
}
