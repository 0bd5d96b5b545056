/** Worked examples of the pipeline on small inputs. */
module Scenarios {
  import opened Chars
  import opened Seqs
  import opened Normalizer
  import opened FrequencyCounter

  /** Hyphens at the edges of a word survive cleaning: `[^\w\s-]` never matches
      a hyphen, and `strip()` removes only whitespace. */
  lemma EdgeHyphens()
    ensures CleanText("-Abc-") == "-abc-"
  {
    var s := "-Abc-";
    var l := Lower(s);
    assert l == "-abc-" by {
      assert forall i :: 0 <= i < |s| ==> l[i] == ToLower(s[i]);
    }
    FilterKeepsAll(l, NotDigit);
    FilterKeepsAll(l, IsCleanChar);
    StripTrimmed(l);
  }

  /** `FreqDist([a, b])` for two different items: each counted once, in order. */
  lemma TallyPair(a: string, b: string)
    requires a != b
    ensures Tally([a, b]) == [(a, 1), (b, 1)]
  {
    TallySnoc([], a);
    assert Keys([(a, 1)]) == [a];
    TallySnoc([a], b);
    assert [a] + [b] == [a, b];
  }

  /** `FreqDist([a, b, a])`: the repeated item is counted twice and keeps its
      first place. */
  lemma TallyRepeat(a: string, b: string)
    requires a != b
    ensures Tally([a, b, a]) == [(a, 2), (b, 1)]
  {
    TallyPair(a, b);
    var before := [(a, 1), (b, 1)];
    assert Keys(before) == [a, b];
    TallySnoc([a, b], a);
    assert [a, b] + [a] == [a, b, a];
    var after := Bump(before, a);
    assert |after| == 2 && after[0].0 == a && after[0].1 == 2 && after[1].0 == b && after[1].1 == 1;
    assert after == [(a, 2), (b, 1)];
  }

  /** `FreqDist([a, b, a, c])` for three different items: `a` counted twice,
      the entries in order of first occurrence. */
  lemma TallyThreeWords(a: string, b: string, c: string)
    requires a != b && a != c && b != c
    ensures Tally([a, b, a, c]) == [(a, 2), (b, 1), (c, 1)]
  {
    TallyRepeat(a, b);
    var before := [(a, 2), (b, 1)];
    assert Keys(before) == [a, b];
    assert Bump(before, c) == before + [(c, 1)];
    TallySnoc([a, b, a], c);
    assert [a, b, a] + [c] == [a, b, a, c];
  }

  /** `FreqDist` of a short token list: "gato" counted twice, and the entries
      listed in order of first occurrence. */
  lemma TallyExample()
    ensures Tally(["gato", "correu", "gato", "pulou"]) == [("gato", 2), ("correu", 1), ("pulou", 1)]
  {
    TallyThreeWords("gato", "correu", "pulou");
  }
}
