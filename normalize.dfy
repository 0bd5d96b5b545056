/** Normalisation of the raw text, `clean_text` in app.py: lowercase, delete
    digit runs, delete every character that is neither a word character, nor
    whitespace, nor a hyphen, then strip surrounding whitespace. */
module Normalizer {
  import opened Chars
  import opened Seqs

  /** `text.lower()`. */
  function Lower(s: string): (r: string)
    ensures |r| == |s|
    ensures forall i :: 0 <= i < |s| ==> r[i] == ToLower(s[i])
    decreases |s|
  {
    if s == [] then [] else [ToLower(s[0])] + Lower(s[1..])
  }

  /** `re.sub(r'\d+', '', text)`: the scan finds each maximal run of digits and
      deletes it; the result is the text with every digit removed. */
  function DeleteDigitRuns(s: string): (r: string)
    ensures r == Filter(s, NotDigit)
    decreases |s|
  {
    if s == [] then []
    else if IsDigit(s[0]) then
      var k := RunLength(s, IsDigit);
      assert s == s[..k] + s[k..];
      FilterAppend(s[..k], s[k..], NotDigit);
      NoneKept(s[..k], NotDigit);
      DeleteDigitRuns(s[k..])
    else
      [s[0]] + DeleteDigitRuns(s[1..])
  }

  /** The characters that `[^\w\s-]` does not match, so that the second
      substitution keeps them: every hyphen is kept, wherever it stands. */
  predicate IsCleanChar(c: char)
  {
    IsWord(c) || IsSpace(c) || c == '-'
  }

  /** `re.sub(r'[^\w\s-]', '', text)`. */
  function DeletePunctuation(s: string): (r: string)
    ensures forall i :: 0 <= i < |r| ==> IsCleanChar(r[i])
    ensures forall x :: multiset(r)[x] == if IsCleanChar(x) then multiset(s)[x] else 0
    ensures IsSubsequence(r, s)
  {
    FilterCounts(s, IsCleanChar);
    FilterIsSubsequence(s, IsCleanChar);
    Filter(s, IsCleanChar)
  }

  /** `str.lstrip()`: drop the leading whitespace. */
  function StripLeading(s: string): (r: string)
    ensures |r| <= |s| && r == s[|s| - |r|..]
    ensures forall i :: 0 <= i < |s| - |r| ==> IsSpace(s[i])
    ensures r == [] || !IsSpace(r[0])
    decreases |s|
  {
    if s != [] && IsSpace(s[0]) then StripLeading(s[1..]) else s
  }

  /** `str.rstrip()`: drop the trailing whitespace. */
  function StripTrailing(s: string): (r: string)
    ensures |r| <= |s| && r == s[..|r|]
    ensures forall i :: |r| <= i < |s| ==> IsSpace(s[i])
    ensures r == [] || !IsSpace(r[|r| - 1])
    decreases |s|
  {
    if s != [] && IsSpace(s[|s| - 1]) then StripTrailing(s[..|s| - 1]) else s
  }

  /** `text.strip()`. */
  function Strip(s: string): (r: string)
    ensures |r| <= |s|
    ensures HasNoEdgeSpace(r)
  {
    var l := StripLeading(s);
    var r := StripTrailing(l);
    assert r != [] ==> r[0] == l[0];
    r
  }

  /** `r` is `s[a..b]` and everything outside `a..b` is whitespace. */
  ghost predicate IsTrimOf(r: string, s: string, a: int, b: int)
  {
    && 0 <= a <= b <= |s| && r == s[a..b]
    && (forall i :: 0 <= i < a ==> IsSpace(s[i]))
    && (forall i :: b <= i < |s| ==> IsSpace(s[i]))
  }

  ghost predicate HasNoEdgeSpace(r: string)
  {
    r == [] || (!IsSpace(r[0]) && !IsSpace(r[|r| - 1]))
  }

  /** `strip` removes a whitespace prefix and a whitespace suffix and nothing else. */
  lemma StripBounds(s: string) returns (a: int, b: int)
    ensures IsTrimOf(Strip(s), s, a, b)
    ensures HasNoEdgeSpace(Strip(s))
  {
    var l := StripLeading(s);
    var r := StripTrailing(l);
    a := |s| - |l|;
    b := a + |r|;
    SliceOfSlice(s, a, |r|);
    forall i | b <= i < |s|
      ensures IsSpace(s[i])
    {
      assert s[i] == l[i - a];
    }
    if r != [] {
      assert r[0] == l[0];
    }
  }

  /** Stripping text that has no whitespace at either end changes nothing. */
  lemma StripTrimmed(s: string)
    requires HasNoEdgeSpace(s)
    ensures Strip(s) == s
  {
    var l := StripLeading(s);
    assert l == s;
    var r := StripTrailing(l);
    assert r == l;
  }

  /** A character that survives both deletions of `clean_text`. */
  predicate IsKeptChar(c: char)
  {
    IsCleanChar(c) && NotDigit(c)
  }

  /** A word character other than a digit. */
  predicate IsWordNotDigit(c: char)
  {
    IsWord(c) && NotDigit(c)
  }

  /** `clean_text`. */
  function CleanText(s: string): (r: string)
    ensures |r| <= |s|
    ensures s == [] ==> r == []
  {
    Strip(DeletePunctuation(DeleteDigitRuns(Lower(s))))
  }

  /** What `clean_text` may leave: a word character, whitespace or a hyphen,
      and neither a digit nor an uppercase letter. */
  predicate IsCleanOutput(c: char)
  {
    IsCleanChar(c) && !IsDigit(c) && !IsUpper(c)
  }

  /** Before the final strip, every character is already clean output. */
  lemma DeletionsLeaveCleanOutput(s: string)
    ensures forall i :: 0 <= i < |DeletePunctuation(DeleteDigitRuns(Lower(s)))| ==>
      IsCleanOutput(DeletePunctuation(DeleteDigitRuns(Lower(s)))[i])
  {
    var lowered := Lower(s);
    var noDigits := DeleteDigitRuns(lowered);
    FilterPreserves(lowered, NotDigit, c => !IsUpper(c));
    FilterPreserves(noDigits, IsCleanChar, c => NotDigit(c) && !IsUpper(c));
  }

  /** The cleaned text has no uppercase letter and no digit, and every character
      left in it is a word character, whitespace or a hyphen. */
  lemma CleanTextCharacters(s: string)
    ensures forall i :: 0 <= i < |CleanText(s)| ==> IsCleanOutput(CleanText(s)[i])
  {
    var kept := DeletePunctuation(DeleteDigitRuns(Lower(s)));
    DeletionsLeaveCleanOutput(s);
    var a, b := StripBounds(kept);
    SlicePreserves(kept, a, b, IsCleanOutput);
  }

  /** The cleaned text has no whitespace at either end. */
  lemma CleanTextTrimmed(s: string)
    ensures HasNoEdgeSpace(CleanText(s))
  {
    var a, b := StripBounds(DeletePunctuation(DeleteDigitRuns(Lower(s))));
  }

  /** Cleaning a cleaned text changes nothing. */
  lemma CleanTextIdempotent(s: string)
    ensures CleanText(CleanText(s)) == CleanText(s)
  {
    var c := CleanText(s);
    CleanTextCharacters(s);
    CleanTextTrimmed(s);
    forall i | 0 <= i < |c|
      ensures !IsUpper(c[i]) && NotDigit(c[i]) && IsCleanChar(c[i])
    {
      assert IsCleanOutput(c[i]);
    }
    LowerKeepsLowercase(c);
    FilterKeepsAll(c, NotDigit);
    FilterKeepsAll(c, IsCleanChar);
    assert DeletePunctuation(DeleteDigitRuns(Lower(c))) == c;
    StripTrimmed(c);
  }

  /** Lowercasing a text without capitals changes nothing. */
  lemma LowerKeepsLowercase(s: string)
    requires forall i :: 0 <= i < |s| ==> !IsUpper(s[i])
    ensures Lower(s) == s
  {
    assert forall i :: 0 <= i < |s| ==> Lower(s)[i] == s[i];
  }

  lemma LowerKeepsHyphens(s: string)
    ensures multiset(Lower(s))['-'] == multiset(s)['-']
  {
    var l := Lower(s);
    forall i | 0 <= i < |s|
      ensures s[i] == '-' <==> l[i] == '-'
    {
      assert l[i] == ToLower(s[i]);
      ToLowerKeepsClasses(s[i]);
    }
    SameCount(s, l, '-', '-');
  }

  lemma NoHyphenInSpace(s: string, lo: int, hi: int)
    requires 0 <= lo <= hi <= |s|
    requires forall i :: lo <= i < hi ==> IsSpace(s[i])
    ensures multiset(s[lo..hi])['-'] == 0
  {
    assert forall i :: lo <= i < hi ==> s[i] != '-';
    assert '-' !in s[lo..hi];
  }

  /** Every hyphen of the input survives cleaning, including hyphens at the
      start or end of a word. */
  lemma CleanTextKeepsHyphens(s: string)
    ensures multiset(CleanText(s))['-'] == multiset(s)['-']
  {
    var lowered := Lower(s);
    var noDigits := DeleteDigitRuns(lowered);
    var kept := DeletePunctuation(noDigits);
    LowerKeepsHyphens(s);
    FilterCounts(lowered, NotDigit);
    var a, b := StripBounds(kept);
    assert CleanText(s) == kept[a..b];
    assert multiset(noDigits)['-'] == multiset(lowered)['-'];
    assert multiset(kept)['-'] == multiset(noDigits)['-'];
    MultisetOfSlices(kept, a, b);
    NoHyphenInSpace(kept, 0, a);
    NoHyphenInSpace(kept, b, |kept|);
  }

  /** Reference definition in one pass: the two substitutions together keep
      exactly the lowercased characters that are word characters, whitespace or
      hyphens and not digits, in their order. */
  lemma CleanTextOnePass(s: string)
    ensures CleanText(s) == Strip(Filter(Lower(s), IsKeptChar))
  {
    var lowered := Lower(s);
    FilterFilter(lowered, NotDigit, IsCleanChar, IsKeptChar);
  }

  /** Every word character of the lowercased input other than a digit survives
      cleaning, in its order; cleaning adds no word character. */
  lemma CleanTextKeepsWords(s: string)
    ensures Filter(CleanText(s), IsWord) == Filter(Lower(s), IsWordNotDigit)
  {
    var lowered := Lower(s);
    CleanTextOnePass(s);
    StripKeepsWords(Filter(lowered, IsKeptChar));
    FilterFilter(lowered, IsKeptChar, IsWord, IsWordNotDigit);
  }

  /** Stripping removes only whitespace, so no word character. */
  lemma StripKeepsWords(s: string)
    ensures Filter(Strip(s), IsWord) == Filter(s, IsWord)
  {
    var a, b := StripBounds(s);
    forall i | 0 <= i < a || b <= i < |s|
      ensures !IsWord(s[i])
    {
      CharClasses(s[i]);
    }
    FilterOfSlice(s, a, b, IsWord);
  }
}
