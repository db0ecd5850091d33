/** `Array.prototype.filter` and the subsequence order it keeps: the three
    filters of the application (blank checklist items, the status filter,
    the pins shown) are all this one. */
module Sequences {

  /** `a` is `b` with some elements left out, the rest in their order. */
  predicate IsSubsequence<T(==)>(a: seq<T>, b: seq<T>) {
    if |a| == 0 then true
    else if |b| == 0 then false
    else if a[0] == b[0] then IsSubsequence(a[1..], b[1..])
    else IsSubsequence(a, b[1..])
  }

  /** A subsequence of the tail is a subsequence of the whole. */
  lemma {:induction false} SubsequenceOfTail<T>(a: seq<T>, b: seq<T>)
    requires |b| > 0 && IsSubsequence(a, b[1..])
    ensures IsSubsequence(a, b)
    decreases |a| + |b|
  {
    if |a| > 0 && a[0] == b[0] {
      SubsequenceDropFirst(a, b[1..]);
    }
  }

  /** Dropping the first element keeps a subsequence. */
  lemma {:induction false} SubsequenceDropFirst<T>(a: seq<T>, c: seq<T>)
    requires |a| > 0 && IsSubsequence(a, c)
    ensures IsSubsequence(a[1..], c)
    decreases |a| + |c|
  {
    if a[0] == c[0] {
      SubsequenceOfTail(a[1..], c);
    } else {
      SubsequenceDropFirst(a, c[1..]);
      SubsequenceOfTail(a[1..], c);
    }
  }

  /** `s.filter(keep)`: every element satisfying `keep`, as often as it
      occurs, in order, and nothing else. */
  function Filter<T(==)>(s: seq<T>, keep: T -> bool): (r: seq<T>)
    ensures |r| <= |s|
    ensures forall i :: 0 <= i < |r| ==> keep(r[i])
    ensures IsSubsequence(r, s)
  {
    if |s| == 0 then []
    else
      var rest := Filter(s[1..], keep);
      if keep(s[0]) then [s[0]] + rest
      else
        SubsequenceOfTail(rest, s);
        rest
  }

  /** Each kept element occurs in the result exactly as often as in the
      input, and no other element occurs at all. */
  lemma {:induction false} FilterCounts<T>(s: seq<T>, keep: T -> bool, x: T)
    ensures multiset(Filter(s, keep))[x] == if keep(x) then multiset(s)[x] else 0
  {
    if |s| > 0 {
      FilterCounts(s[1..], keep, x);
      assert s == [s[0]] + s[1..];
      assert multiset(s) == multiset{s[0]} + multiset(s[1..]);
    }
  }

  /** Filtering distributes over concatenation. */
  lemma {:induction false} FilterAppend<T>(a: seq<T>, b: seq<T>, keep: T -> bool)
    ensures Filter(a + b, keep) == Filter(a, keep) + Filter(b, keep)
  {
    if |a| > 0 {
      assert (a + b)[1..] == a[1..] + b;
      FilterAppend(a[1..], b, keep);
    } else {
      assert a + b == b;
    }
  }

  /** When every element is kept, the filter changes nothing. */
  lemma {:induction false} FilterKeepsAll<T>(s: seq<T>, keep: T -> bool)
    requires forall i :: 0 <= i < |s| ==> keep(s[i])
    ensures Filter(s, keep) == s
  {
    if |s| > 0 {
      FilterKeepsAll(s[1..], keep);
      assert s == [s[0]] + s[1..];
    }
  }

  /** Filtering twice is filtering once. */
  lemma FilterIdempotent<T>(s: seq<T>, keep: T -> bool)
    ensures Filter(Filter(s, keep), keep) == Filter(s, keep)
  {
    FilterKeepsAll(Filter(s, keep), keep);
  }
}
