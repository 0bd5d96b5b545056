/** Sequence helpers shared by the pipeline stages: filtering (Python's list
    comprehension with an `if`), subsequences and maximal runs. */
module Seqs {

  /** The elements of `s` that satisfy `p`, in their original order. */
  function Filter<T(!new)>(s: seq<T>, p: T -> bool): (r: seq<T>)
    ensures |r| <= |s|
    ensures forall i :: 0 <= i < |r| ==> p(r[i])
    decreases |s|
  {
    if s == [] then [] else (if p(s[0]) then [s[0]] else []) + Filter(s[1..], p)
  }

  /** Filtering keeps every occurrence of a satisfying element and no other. */
  lemma {:induction false} FilterCounts<T(!new)>(s: seq<T>, p: T -> bool)
    ensures forall x :: multiset(Filter(s, p))[x] == if p(x) then multiset(s)[x] else 0
    decreases |s|
  {
    if s != [] {
      FilterCounts(s[1..], p);
      assert s == [s[0]] + s[1..];
      assert multiset(s) == multiset{s[0]} + multiset(s[1..]);
    }
  }

  /** `r` can be obtained from `s` by deleting elements (order and multiplicity kept). */
  ghost predicate IsSubsequence<T>(r: seq<T>, s: seq<T>)
    decreases |s|
  {
    r == [] ||
    (s != [] && ((r[0] == s[0] && IsSubsequence(r[1..], s[1..])) || IsSubsequence(r, s[1..])))
  }

  lemma {:induction false} FilterIsSubsequence<T(!new)>(s: seq<T>, p: T -> bool)
    ensures IsSubsequence(Filter(s, p), s)
    decreases |s|
  {
    if s != [] {
      FilterIsSubsequence(s[1..], p);
      if p(s[0]) {
        assert Filter(s, p) == [s[0]] + Filter(s[1..], p);
        assert Filter(s, p)[1..] == Filter(s[1..], p);
      } else {
        assert Filter(s, p) == Filter(s[1..], p);
      }
    }
  }

  lemma {:induction false} FilterAppend<T(!new)>(a: seq<T>, b: seq<T>, p: T -> bool)
    ensures Filter(a + b, p) == Filter(a, p) + Filter(b, p)
    decreases |a|
  {
    if a != [] {
      var head := if p(a[0]) then [a[0]] else [];
      assert (a + b)[0] == a[0];
      assert (a + b)[1..] == a[1..] + b;
      FilterAppend(a[1..], b, p);
      calc {
        Filter(a + b, p);
        head + Filter(a[1..] + b, p);
        head + (Filter(a[1..], p) + Filter(b, p));
        (head + Filter(a[1..], p)) + Filter(b, p);
        Filter(a, p) + Filter(b, p);
      }
    } else {
      assert a + b == b;
    }
  }

  lemma {:induction false} FilterKeepsAll<T(!new)>(s: seq<T>, p: T -> bool)
    requires forall i :: 0 <= i < |s| ==> p(s[i])
    ensures Filter(s, p) == s
    decreases |s|
  {
    if s != [] {
      FilterKeepsAll(s[1..], p);
    }
  }

  /** Two sequences of equal length with `x` and `y` at the same positions
      have as many `x` as the other has `y`. */
  lemma {:induction false} SameCount<T, U>(a: seq<T>, b: seq<U>, x: T, y: U)
    requires |a| == |b|
    requires forall i :: 0 <= i < |a| ==> (a[i] == x <==> b[i] == y)
    ensures multiset(a)[x] == multiset(b)[y]
    decreases |a|
  {
    if a != [] {
      SameCount(a[1..], b[1..], x, y);
      assert a == [a[0]] + a[1..] && b == [b[0]] + b[1..];
      assert multiset(a) == multiset{a[0]} + multiset(a[1..]);
      assert multiset(b) == multiset{b[0]} + multiset(b[1..]);
    }
  }

  /** A prefix of a suffix is a slice. */
  lemma SliceOfSlice<T>(s: seq<T>, a: int, k: int)
    requires 0 <= a <= |s| && 0 <= k <= |s| - a
    ensures s[a..][..k] == s[a..a + k]
  {
  }

  /** Filtering twice is filtering once by both conditions. */
  lemma {:induction false} FilterFilter<T(!new)>(s: seq<T>, p: T -> bool, q: T -> bool, both: T -> bool)
    requires forall x :: both(x) == (p(x) && q(x))
    ensures Filter(Filter(s, p), q) == Filter(s, both)
    decreases |s|
  {
    if s != [] {
      FilterFilter(s[1..], p, q, both);
      var head := if p(s[0]) then [s[0]] else [];
      FilterAppend(head, Filter(s[1..], p), q);
    }
  }

  /** Filtering a slice loses nothing when no element outside it is kept. */
  lemma {:induction false} FilterOfSlice<T(!new)>(s: seq<T>, a: int, b: int, p: T -> bool)
    requires 0 <= a <= b <= |s|
    requires forall i :: 0 <= i < a || b <= i < |s| ==> !p(s[i])
    ensures Filter(s[a..b], p) == Filter(s, p)
  {
    var pre, mid, post := s[..a], s[a..b], s[b..];
    assert s == pre + mid + post by {
      assert s == s[..b] + post && s[..b] == pre + mid;
    }
    forall i | 0 <= i < |pre|
      ensures !p(pre[i])
    {
      assert pre[i] == s[i];
    }
    forall i | 0 <= i < |post|
      ensures !p(post[i])
    {
      assert post[i] == s[b + i];
    }
    FilterAppend(pre + mid, post, p);
    FilterAppend(pre, mid, p);
    NoneKept(pre, p);
    NoneKept(post, p);
    assert [] + Filter(mid, p) + [] == Filter(mid, p);
  }

  /** A property that every element has holds in every slice. */
  lemma SlicePreserves<T>(s: seq<T>, a: int, b: int, q: T -> bool)
    requires 0 <= a <= b <= |s|
    requires forall i :: 0 <= i < |s| ==> q(s[i])
    ensures forall i :: 0 <= i < b - a ==> q(s[a..b][i])
  {
    forall i | 0 <= i < b - a
      ensures q(s[a..b][i])
    {
      assert s[a..b][i] == s[a + i];
    }
  }

  /** A property that every element has survives filtering. */
  lemma {:induction false} FilterPreserves<T(!new)>(s: seq<T>, p: T -> bool, q: T -> bool)
    requires forall i :: 0 <= i < |s| ==> q(s[i])
    ensures forall i :: 0 <= i < |Filter(s, p)| ==> q(Filter(s, p)[i])
    decreases |s|
  {
    if s != [] {
      FilterPreserves(s[1..], p, q);
      var head := if p(s[0]) then [s[0]] else [];
      var r := Filter(s, p);
      assert r == head + Filter(s[1..], p);
      forall i | 0 <= i < |r|
        ensures q(r[i])
      {
        if i >= |head| {
          assert r[i] == Filter(s[1..], p)[i - |head|];
        }
      }
    }
  }

  /** Length of the longest prefix of `s` whose elements all satisfy `p`. */
  function RunLength<T>(s: seq<T>, p: T -> bool): (k: nat)
    ensures k <= |s|
    ensures forall i :: 0 <= i < k ==> p(s[i])
    ensures k == |s| || !p(s[k])
    decreases |s|
  {
    if s == [] || !p(s[0]) then 0 else 1 + RunLength(s[1..], p)
  }

  /** The concatenation of a sequence of sequences. */
  function Concat<T>(ss: seq<seq<T>>): seq<T>
    decreases |ss|
  {
    if ss == [] then [] else ss[0] + Concat(ss[1..])
  }

  /** The set of elements of `s`. */
  function Elements<T(!new)>(s: seq<T>): (r: set<T>)
    ensures forall x :: x in r <==> x in s
    ensures |r| <= |s|
    decreases |s|
  {
    if s == [] then {}
    else
      var rest := Elements(s[1..]);
      assert forall x :: x in s <==> x == s[0] || x in s[1..];
      {s[0]} + rest
  }

  lemma MultisetOfSlices<T>(s: seq<T>, a: int, b: int)
    requires 0 <= a <= b <= |s|
    ensures multiset(s) == multiset(s[0..a]) + multiset(s[a..b]) + multiset(s[b..|s|])
  {
    assert s == s[0..a] + s[a..b] + s[b..|s|];
  }

  lemma {:induction false} NoneKept<T(!new)>(s: seq<T>, p: T -> bool)
    requires forall i :: 0 <= i < |s| ==> !p(s[i])
    ensures Filter(s, p) == []
    decreases |s|
  {
    if s != [] {
      NoneKept(s[1..], p);
    }
  }

  lemma FilterElements<T(!new)>(s: seq<T>, p: T -> bool)
    ensures forall x :: x in Filter(s, p) ==> x in s && p(x)
  {
    FilterCounts(s, p);
  }

  lemma {:induction false} ConcatContains<T>(ss: seq<seq<T>>, i: int, j: int)
    requires 0 <= i < |ss| && 0 <= j < |ss[i]|
    ensures ss[i][j] in Concat(ss)
    decreases i
  {
    if i > 0 {
      ConcatContains(ss[1..], i - 1, j);
    }
  }

  lemma {:induction false} ConcatLength<T>(ss: seq<seq<T>>)
    requires forall i :: 0 <= i < |ss| ==> |ss[i]| > 0
    ensures |ss| <= |Concat(ss)|
    ensures ss != [] ==> Concat(ss) != []
    decreases |ss|
  {
    if ss != [] {
      ConcatLength(ss[1..]);
    }
  }
}
