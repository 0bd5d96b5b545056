/** Frequency tables: `FreqDist(tokens)` and `Counter(bigrams)` (app.py:110,
    114), and their `most_common(n)` views (app.py:148, 169).

    Both are Python dictionaries, which keep their keys in insertion order, so a
    table is modelled as a sequence of (item, count) entries with distinct items,
    ordered by first occurrence. `most_common(n)` is documented to equal
    `sorted(items, key=count, reverse=True)[:n]`, a stable sort, so among equal
    counts the earlier-inserted item comes first. */
module FrequencyCounter {

  /** The items of a table, in table order. */
  function Keys<T>(t: seq<(T, nat)>): (k: seq<T>)
    ensures |k| == |t|
    ensures forall i :: 0 <= i < |t| ==> k[i] == t[i].0
    decreases |t|
  {
    if t == [] then [] else [t[0].0] + Keys(t[1..])
  }

  ghost predicate NoDuplicates<T>(s: seq<T>)
  {
    forall i, j :: 0 <= i < j < |s| ==> s[i] != s[j]
  }

  /** `counter[x] += 1`: the entry of `x` goes up by one, or a new entry
      `(x, 1)` is appended when `x` is not yet a key. */
  function Bump<T(==)>(t: seq<(T, nat)>, x: T): (r: seq<(T, nat)>)
    requires NoDuplicates(Keys(t))
    ensures NoDuplicates(Keys(r))
    ensures x in Keys(t) ==> |r| == |t| && forall i :: 0 <= i < |t| ==>
      r[i].0 == t[i].0 && r[i].1 == (if t[i].0 == x then t[i].1 + 1 else t[i].1)
    ensures x !in Keys(t) ==> r == t + [(x, 1)]
  {
    var keys := Keys(t);
    if x in keys then
      var i := FirstIndex(keys, x);
      var r := t[i := (x, t[i].1 + 1)];
      assert Keys(r) == keys;
      r
    else
      var r := t + [(x, 1)];
      assert Keys(r) == keys + [x];
      r
  }

  /** `Counter(xs)` / `FreqDist(xs)`: count the items one after the other. */
  function Tally<T(==,!new)>(xs: seq<T>): (t: seq<(T, nat)>)
    ensures NoDuplicates(Keys(t))
    ensures forall x :: x in Keys(t) <==> x in xs
    ensures forall i :: 0 <= i < |t| ==> t[i].1 == multiset(xs)[t[i].0]
    decreases |xs|
  {
    if xs == [] then []
    else
      var prefix := xs[..|xs| - 1];
      var x := xs[|xs| - 1];
      assert xs == prefix + [x];
      assert multiset(xs) == multiset(prefix) + multiset{x};
      var before := Tally(prefix);
      var r := Bump(before, x);
      assert Keys(r) == if x in Keys(before) then Keys(before) else Keys(before) + [x];
      r
  }

  /** Counting one more item is one `Bump` of the table counted so far. */
  lemma TallySnoc<T(!new)>(xs: seq<T>, x: T)
    ensures Tally(xs + [x]) == Bump(Tally(xs), x)
  {
    assert (xs + [x])[..|xs|] == xs;
  }

  /** Position of the first occurrence of `x`. */
  function FirstIndex<T(==)>(xs: seq<T>, x: T): (k: nat)
    requires x in xs
    ensures k < |xs| && xs[k] == x
    ensures forall j :: 0 <= j < k ==> xs[j] != x
    decreases |xs|
  {
    if xs[0] == x then 0 else 1 + FirstIndex(xs[1..], x)
  }

  lemma FirstIndexExtend<T>(p: seq<T>, y: T, z: T)
    requires z in p
    ensures FirstIndex(p + [y], z) == FirstIndex(p, z)
  {
    var a := FirstIndex(p, z);
    var b := FirstIndex(p + [y], z);
    assert (p + [y])[a] == z;
    assert b <= a;
    assert p[b] == z;
  }

  lemma FirstIndexNew<T>(p: seq<T>, z: T)
    requires z !in p
    ensures FirstIndex(p + [z], z) == |p|
  {
    assert forall j :: 0 <= j < |p| ==> (p + [z])[j] != z;
  }

  /** The table lists the items in order of first occurrence. */
  lemma {:induction false} TallyFirstOccurrenceOrder<T(!new)>(xs: seq<T>)
    ensures forall i, j :: 0 <= i < j < |Tally(xs)| ==>
      FirstIndex(xs, Tally(xs)[i].0) < FirstIndex(xs, Tally(xs)[j].0)
    decreases |xs|
  {
    if xs != [] {
      var prefix := xs[..|xs| - 1];
      var x := xs[|xs| - 1];
      assert xs == prefix + [x];
      TallyFirstOccurrenceOrder(prefix);
      var before := Tally(prefix);
      var after := Tally(xs);
      assert after == Bump(before, x);
      forall k | 0 <= k < |before|
        ensures FirstIndex(xs, before[k].0) == FirstIndex(prefix, before[k].0)
      {
        assert before[k].0 in Keys(before);
        FirstIndexExtend(prefix, x, before[k].0);
      }
      if x !in Keys(before) {
        FirstIndexNew(prefix, x);
      }
    }
  }

  /** Sum of the counts of a table. */
  function Total<T>(t: seq<(T, nat)>): nat
    decreases |t|
  {
    if t == [] then 0 else t[0].1 + Total(t[1..])
  }

  lemma {:induction false} TotalAppend<T>(t: seq<(T, nat)>, e: (T, nat))
    ensures Total(t + [e]) == Total(t) + e.1
    decreases |t|
  {
    if t == [] {
      assert [] + [e] == [e];
    } else {
      assert (t + [e])[1..] == t[1..] + [e];
      TotalAppend(t[1..], e);
    }
  }

  lemma {:induction false} TotalUpdate<T>(t: seq<(T, nat)>, i: nat, e: (T, nat))
    requires i < |t|
    ensures Total(t[i := e]) == Total(t) - t[i].1 + e.1
    decreases i
  {
    if i == 0 {
      assert t[i := e][1..] == t[1..];
    } else {
      assert t[i := e][1..] == t[1..][i - 1 := e];
      TotalUpdate(t[1..], i - 1, e);
    }
  }

  lemma BumpTotal<T>(t: seq<(T, nat)>, x: T)
    requires NoDuplicates(Keys(t))
    ensures Total(Bump(t, x)) == Total(t) + 1
  {
    var keys := Keys(t);
    if x in keys {
      var i := FirstIndex(keys, x);
      assert Bump(t, x) == t[i := (x, t[i].1 + 1)];
      TotalUpdate(t, i, (x, t[i].1 + 1));
    } else {
      assert Bump(t, x) == t + [(x, 1)];
      TotalAppend(t, (x, 1));
    }
  }

  /** The counts add up to the number of items counted. */
  lemma {:induction false} TallyTotal<T(!new)>(xs: seq<T>)
    ensures Total(Tally(xs)) == |xs|
    decreases |xs|
  {
    if xs != [] {
      var prefix := xs[..|xs| - 1];
      TallyTotal(prefix);
      BumpTotal(Tally(prefix), xs[|xs| - 1]);
    }
  }

  /** Counts never increase along the sequence. */
  ghost predicate Descending<T>(s: seq<(T, nat)>)
  {
    forall i, j :: 0 <= i < j < |s| ==> s[i].1 >= s[j].1
  }

  /** Insert `e` before the first entry whose count is not larger, that is
      after every entry with a larger count and before those with an equal one. */
  function InsertByCount<T(!new)>(e: (T, nat), s: seq<(T, nat)>): (r: seq<(T, nat)>)
    ensures |r| == |s| + 1
    ensures forall x :: x in r <==> x == e || x in s
    ensures multiset(r) == multiset(s) + multiset{e}
    decreases |s|
  {
    if s == [] || s[0].1 <= e.1 then [e] + s
    else
      assert s == [s[0]] + s[1..];
      [s[0]] + InsertByCount(e, s[1..])
  }

  /** An entry whose count is at least the head's can go in front. */
  lemma DescendingCons<T>(x: (T, nat), s: seq<(T, nat)>)
    requires Descending(s)
    requires s == [] || s[0].1 <= x.1
    ensures Descending([x] + s)
  {
    var r := [x] + s;
    forall i, j | 0 <= i < j < |r|
      ensures r[i].1 >= r[j].1
    {
      assert r[j] == s[j - 1];
      if i > 0 {
        assert r[i] == s[i - 1];
      } else {
        assert s[0].1 >= s[j - 1].1;
      }
    }
  }

  /** Inserting into a descending list keeps it descending; the new head is
      either the inserted entry or the old head. */
  lemma {:induction false} InsertByCountDescending<T(!new)>(e: (T, nat), s: seq<(T, nat)>)
    requires Descending(s)
    ensures Descending(InsertByCount(e, s))
    ensures InsertByCount(e, s)[0] == e || (s != [] && InsertByCount(e, s)[0] == s[0])
    decreases |s|
  {
    if s == [] || s[0].1 <= e.1 {
      DescendingCons(e, s);
    } else {
      var rest := InsertByCount(e, s[1..]);
      InsertByCountDescending(e, s[1..]);
      assert rest[0].1 <= s[0].1;
      DescendingCons(s[0], rest);
    }
  }

  /** Stable sort by descending count (insertion sort from the back). */
  function SortByCount<T(!new)>(t: seq<(T, nat)>): (r: seq<(T, nat)>)
    ensures |r| == |t|
    ensures forall x :: x in r <==> x in t
    ensures multiset(r) == multiset(t)
    ensures Descending(r)
    decreases |t|
  {
    if t == [] then []
    else
      assert t == [t[0]] + t[1..];
      InsertByCountDescending(t[0], SortByCount(t[1..]));
      InsertByCount(t[0], SortByCount(t[1..]))
  }

  /** `most_common(n)`: the first `n` entries of the stable sort. */
  function MostCommon<T(!new)>(t: seq<(T, nat)>, n: nat): (r: seq<(T, nat)>)
    ensures |r| == if n < |t| then n else |t|
    ensures Descending(r)
    ensures forall i :: 0 <= i < |r| ==> r[i] in t
  {
    var sorted := SortByCount(t);
    var m := if n < |t| then n else |t|;
    sorted[..m]
  }

  /** The entries with count `c`, in order. */
  function WithCount<T>(s: seq<(T, nat)>, c: nat): seq<(T, nat)>
    decreases |s|
  {
    if s == [] then []
    else (if s[0].1 == c then [s[0]] else []) + WithCount(s[1..], c)
  }

  lemma {:induction false} InsertByCountWithCount<T(!new)>(e: (T, nat), s: seq<(T, nat)>, c: nat)
    ensures WithCount(InsertByCount(e, s), c)
         == if e.1 == c then [e] + WithCount(s, c) else WithCount(s, c)
    decreases |s|
  {
    if s == [] || s[0].1 <= e.1 {
      assert ([e] + s)[1..] == s;
    } else {
      InsertByCountWithCount(e, s[1..], c);
      var rest := InsertByCount(e, s[1..]);
      assert ([s[0]] + rest)[1..] == rest;
    }
  }

  /** Stability: the sort keeps every group of equal counts in table order. */
  lemma {:induction false} SortByCountIsStable<T(!new)>(t: seq<(T, nat)>, c: nat)
    ensures WithCount(SortByCount(t), c) == WithCount(t, c)
    decreases |t|
  {
    if t != [] {
      SortByCountIsStable(t[1..], c);
      InsertByCountWithCount(t[0], SortByCount(t[1..]), c);
    }
  }

  lemma {:induction false} WithCountOfPrefix<T>(s: seq<(T, nat)>, k: nat, c: nat)
    requires k <= |s|
    ensures WithCount(s[..k], c) <= WithCount(s, c)
    decreases k
  {
    if k > 0 {
      assert s[..k][0] == s[0] && s[..k][1..] == s[1..][..k - 1];
      WithCountOfPrefix(s[1..], k - 1, c);
    }
  }

  /** Ties in `most_common(n)`: among entries of equal count, those kept are the
      first ones in table order (first occurrence), and they stay in that order. */
  lemma MostCommonTies<T(!new)>(t: seq<(T, nat)>, n: nat, c: nat)
    ensures WithCount(MostCommon(t, n), c) <= WithCount(t, c)
  {
    var sorted := SortByCount(t);
    var m := if n < |t| then n else |t|;
    WithCountOfPrefix(sorted, m, c);
    SortByCountIsStable(t, c);
  }

  /** `most_common(n)` keeps the largest counts: no entry left out has a larger
      count than an entry kept. */
  lemma MostCommonTop<T(!new)>(t: seq<(T, nat)>, n: nat, e: (T, nat))
    requires e in t && e !in MostCommon(t, n)
    ensures forall i :: 0 <= i < |MostCommon(t, n)| ==> e.1 <= MostCommon(t, n)[i].1
  {
    var sorted := SortByCount(t);
    var m := if n < |t| then n else |t|;
    assert sorted == sorted[..m] + sorted[m..];
    assert e in sorted[m..];
    var j :| 0 <= j < |sorted[m..]| && sorted[m..][j] == e;
    assert sorted[m + j] == e;
  }
}
