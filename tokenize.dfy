/** Tokenisation, `tokenize_text` in app.py: `re.findall(r'\b\w+\b', text)`
    returns the maximal runs of word characters, left to right. Python's
    `str.split()` (used for the word count) is the same scan with "not
    whitespace" in place of "word character". */
module Tokenizer {
  import opened Chars
  import opened Seqs

  /** The maximal runs of elements satisfying `p`, in order of appearance: the
      scan skips an element outside the class, and at an element inside it takes
      the whole run at once (greedy `+`, bounded by `\b`). */
  function Runs<T>(s: seq<T>, p: T -> bool): (r: seq<seq<T>>)
    ensures forall i :: 0 <= i < |r| ==> |r[i]| > 0
    ensures forall i, j :: 0 <= i < |r| && 0 <= j < |r[i]| ==> p(r[i][j])
    decreases |s|
  {
    if s == [] then []
    else if !p(s[0]) then Runs(s[1..], p)
    else
      var k := RunLength(s, p);
      [s[..k]] + Runs(s[k..], p)
  }

  /** `re.findall(r'\b\w+\b', text)`: the non-empty pieces of the text cut at
      every non-word character, which read back to back are its word
      characters. */
  function Tokenize(text: string): (r: seq<string>)
    ensures r == NonEmpty(SplitAt(text, IsWord))
    ensures Concat(r) == Filter(text, IsWord)
  {
    RunsAreNonEmptyPieces(text, IsWord);
    RunsConcat(text, IsWord);
    Runs(text, IsWord)
  }

  /** `text.split()` with no separator: the non-empty pieces of the text cut at
      every whitespace character. */
  function SplitWhitespace(text: string): (r: seq<string>)
    ensures r == NonEmpty(SplitAt(text, NotSpace))
    ensures Concat(r) == Filter(text, NotSpace)
  {
    RunsAreNonEmptyPieces(text, NotSpace);
    RunsConcat(text, NotSpace);
    Runs(text, NotSpace)
  }

  /** Reference definition: cut the sequence at every element outside the class
      (as `re.split` would), giving one piece more than there are separators. */
  function SplitAt<T>(s: seq<T>, p: T -> bool): (r: seq<seq<T>>)
    ensures |r| >= 1
    decreases |s|
  {
    if s == [] then [[]]
    else
      var rest := SplitAt(s[1..], p);
      if p(s[0]) then [[s[0]] + rest[0]] + rest[1..] else [[]] + rest
  }

  /** The non-empty pieces, in order. */
  function NonEmpty<T>(ss: seq<seq<T>>): seq<seq<T>>
    decreases |ss|
  {
    if ss == [] then []
    else if ss[0] == [] then NonEmpty(ss[1..])
    else [ss[0]] + NonEmpty(ss[1..])
  }

  /** The elements joined with one separator between neighbours (`sep.join`). */
  function JoinWith<T>(ss: seq<seq<T>>, sep: T): seq<T>
    decreases |ss|
  {
    if ss == [] then []
    else if |ss| == 1 then ss[0]
    else ss[0] + [sep] + JoinWith(ss[1..], sep)
  }

  /** How `SplitAt` sees a leading run. */
  lemma {:induction false} SplitAtRun<T>(s: seq<T>, p: T -> bool)
    ensures var k := RunLength(s, p);
      if k == |s| then SplitAt(s, p) == [s]
      else SplitAt(s, p) == [s[..k]] + SplitAt(s[k + 1..], p)
    decreases |s|
  {
    if s != [] && p(s[0]) {
      SplitAtRun(s[1..], p);
      var k := RunLength(s, p);
      assert RunLength(s[1..], p) == k - 1;
      if k < |s| {
        assert s[1..][k..] == s[k + 1..];
        assert [s[0]] + s[1..][..k - 1] == s[..k];
      } else {
        assert [s[0]] + s[1..] == s;
      }
    }
  }

  lemma {:induction false} NonEmptyCons<T>(x: seq<T>, ss: seq<seq<T>>)
    ensures NonEmpty([x] + ss) == if x == [] then NonEmpty(ss) else [x] + NonEmpty(ss)
  {
    assert ([x] + ss)[0] == x;
    assert ([x] + ss)[1..] == ss;
  }

  /** Tokens are exactly the non-empty pieces between separators: the runs are
      maximal. */
  lemma {:induction false} RunsAreNonEmptyPieces<T>(s: seq<T>, p: T -> bool)
    ensures Runs(s, p) == NonEmpty(SplitAt(s, p))
    decreases |s|
  {
    if s == [] {
    } else if !p(s[0]) {
      RunsAreNonEmptyPieces(s[1..], p);
      NonEmptyCons([], SplitAt(s[1..], p));
    } else {
      var k := RunLength(s, p);
      SplitAtRun(s, p);
      if k == |s| {
        assert s[..k] == s;
        assert Runs(s[k..], p) == [];
        NonEmptyCons(s, []);
      } else {
        assert s[k..][0] == s[k] && s[k..][1..] == s[k + 1..];
        assert Runs(s[k..], p) == Runs(s[k + 1..], p);
        RunsAreNonEmptyPieces(s[k + 1..], p);
        NonEmptyCons(s[..k], SplitAt(s[k + 1..], p));
      }
    }
  }

  lemma {:induction false} ConcatCons<T>(x: seq<T>, ss: seq<seq<T>>)
    ensures Concat([x] + ss) == x + Concat(ss)
  {
    assert ([x] + ss)[0] == x;
    assert ([x] + ss)[1..] == ss;
  }

  /** Reading the runs back to back gives the in-class elements of the input, in
      order: nothing inside the class is lost, nothing outside it survives. */
  lemma {:induction false} RunsConcat<T(!new)>(s: seq<T>, p: T -> bool)
    ensures Concat(Runs(s, p)) == Filter(s, p)
    decreases |s|
  {
    if s != [] {
      if !p(s[0]) {
        RunsConcat(s[1..], p);
      } else {
        var k := RunLength(s, p);
        RunsConcat(s[k..], p);
        ConcatCons(s[..k], Runs(s[k..], p));
        assert s == s[..k] + s[k..];
        FilterAppend(s[..k], s[k..], p);
        FilterKeepsAll(s[..k], p);
      }
    }
  }

  lemma {:induction false} RunLengthOfPrefix<T>(a: seq<T>, b: seq<T>, p: T -> bool)
    requires forall i :: 0 <= i < |a| ==> p(a[i])
    requires b == [] || !p(b[0])
    ensures RunLength(a + b, p) == |a|
    decreases |a|
  {
    if a != [] {
      assert (a + b)[1..] == a[1..] + b;
      RunLengthOfPrefix(a[1..], b, p);
    } else {
      assert a + b == b;
    }
  }

  /** Joining non-empty runs with a separator from outside the class and
      scanning again gives the runs back. */
  lemma {:induction false} RunsOfJoin<T>(ss: seq<seq<T>>, sep: T, p: T -> bool)
    requires !p(sep)
    requires forall i :: 0 <= i < |ss| ==> |ss[i]| > 0
    requires forall i, j :: 0 <= i < |ss| && 0 <= j < |ss[i]| ==> p(ss[i][j])
    ensures Runs(JoinWith(ss, sep), p) == ss
    decreases |ss|
  {
    if ss != [] {
      var x := ss[0];
      var tail := if |ss| == 1 then [] else [sep] + JoinWith(ss[1..], sep);
      var s := x + tail;
      assert s == JoinWith(ss, sep);
      assert forall j :: 0 <= j < |x| ==> p(x[j]);
      RunLengthOfPrefix(x, tail, p);
      assert s[..|x|] == x && s[|x|..] == tail;
      assert s[0] == x[0];
      if |ss| > 1 {
        RunsOfJoin(ss[1..], sep, p);
        assert tail[1..] == JoinWith(ss[1..], sep);
        assert Runs(tail, p) == ss[1..];
      }
      assert Runs(s, p) == [x] + Runs(tail, p);
    }
  }

  /** Round trip of the tokenizer: word-only tokens joined with single spaces
      tokenise back to the same tokens. */
  lemma TokenizeJoinedTokens(tokens: seq<string>)
    requires forall i :: 0 <= i < |tokens| ==> |tokens[i]| > 0
    requires forall i, j :: 0 <= i < |tokens| && 0 <= j < |tokens[i]| ==> IsWord(tokens[i][j])
    ensures Tokenize(JoinWith(tokens, ' ')) == tokens
  {
    RunsOfJoin(tokens, ' ', IsWord);
  }

  /** A run followed by at least one separator is one token, whatever the
      separators are (a space, a hyphen, several of them). */
  lemma RunsStep<T>(word: seq<T>, sep: seq<T>, rest: seq<T>, p: T -> bool)
    requires |word| > 0 && forall i :: 0 <= i < |word| ==> p(word[i])
    requires |sep| > 0 && forall i :: 0 <= i < |sep| ==> !p(sep[i])
    ensures Runs(word + sep + rest, p) == [word] + Runs(rest, p)
  {
    var s := word + sep + rest;
    RunLengthOfPrefix(word, sep + rest, p);
    assert s == word + (sep + rest);
    assert s[..|word|] == word && s[|word|..] == sep + rest;
    SkipSeparators(sep, rest, p);
  }

  lemma {:induction false} SkipSeparators<T>(sep: seq<T>, rest: seq<T>, p: T -> bool)
    requires forall i :: 0 <= i < |sep| ==> !p(sep[i])
    ensures Runs(sep + rest, p) == Runs(rest, p)
    decreases |sep|
  {
    if sep != [] {
      assert (sep + rest)[1..] == sep[1..] + rest;
      SkipSeparators(sep[1..], rest, p);
    } else {
      assert sep + rest == rest;
    }
  }

  /** The last run of a text that ends in a word character. */
  lemma RunsLast<T>(word: seq<T>, p: T -> bool)
    requires |word| > 0 && forall i :: 0 <= i < |word| ==> p(word[i])
    ensures Runs(word, p) == [word]
  {
    RunLengthOfPrefix(word, [], p);
    assert word + [] == word;
  }

  /** A hyphen separates tokens: `re.findall(r'\b\w+\b', "a-b")` yields `a` and
      `b`, never the hyphenated word. */
  lemma HyphenatedWordSplits(a: string, b: string)
    requires |a| > 0 && forall i :: 0 <= i < |a| ==> IsWord(a[i])
    requires |b| > 0 && forall i :: 0 <= i < |b| ==> IsWord(b[i])
    ensures Tokenize(a + "-" + b) == [a, b]
  {
    RunsLast(b, IsWord);
    RunsStep(a, "-", b, IsWord);
  }
}
