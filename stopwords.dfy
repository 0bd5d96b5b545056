/** Stopword and short-word removal (app.py:105-107): the stopword set is the
    union of the Portuguese and English lists, and a token survives when it is
    not a stopword and is longer than two characters. */
module StopwordFilter {
  import opened Seqs

  /** `stop_words_portuguese.union(stop_words_english)`. */
  function StopWords(portuguese: set<string>, english: set<string>): (r: set<string>)
    ensures forall w :: w in r <==> w in portuguese || w in english
  {
    portuguese + english
  }

  /** The condition of the list comprehension. */
  predicate Keep(word: string, stop: set<string>)
  {
    word !in stop && |word| > 2
  }

  /** `[word for word in tokens if word not in stop_words and len(word) > 2]`. */
  function FilterTokens(tokens: seq<string>, stop: set<string>): (r: seq<string>)
    ensures |r| <= |tokens|
    ensures forall i :: 0 <= i < |r| ==> r[i] !in stop && |r[i]| > 2
    ensures forall w :: multiset(r)[w] == if w !in stop && |w| > 2 then multiset(tokens)[w] else 0
    ensures IsSubsequence(r, tokens)
  {
    FilterCounts(tokens, w => Keep(w, stop));
    FilterIsSubsequence(tokens, w => Keep(w, stop));
    Filter(tokens, w => Keep(w, stop))
  }

  /** Filtering with the union equals filtering with one language's list and
      then the other's: the union stands for "a stopword in either language". */
  lemma {:induction false} FilterWithUnion(tokens: seq<string>, portuguese: set<string>, english: set<string>)
    ensures FilterTokens(tokens, StopWords(portuguese, english))
         == FilterTokens(FilterTokens(tokens, portuguese), english)
    decreases |tokens|
  {
    if tokens != [] {
      FilterWithUnion(tokens[1..], portuguese, english);
      var t := tokens[0];
      var once := FilterTokens(tokens, portuguese);
      if Keep(t, portuguese) {
        assert once == [t] + FilterTokens(tokens[1..], portuguese);
        assert once[0] == t && once[1..] == FilterTokens(tokens[1..], portuguese);
      } else {
        assert once == FilterTokens(tokens[1..], portuguese);
      }
    }
  }
}
