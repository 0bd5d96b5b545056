/** Bigrams, `list(ngrams(tokens, 2))` (app.py:113): a window of width two slid
    one step at a time over the filtered tokens. */
module BigramBuilder {

  /** `list(ngrams(tokens, 2))`. */
  function Bigrams<T>(tokens: seq<T>): (r: seq<(T, T)>)
    ensures |r| == if |tokens| == 0 then 0 else |tokens| - 1
    ensures forall i :: 0 <= i < |r| ==> r[i] == (tokens[i], tokens[i + 1])
    decreases |tokens|
  {
    if |tokens| < 2 then [] else [(tokens[0], tokens[1])] + Bigrams(tokens[1..])
  }

  /** The second items of the pairs, in order. */
  function Seconds<T>(pairs: seq<(T, T)>): (r: seq<T>)
    ensures |r| == |pairs|
    ensures forall i :: 0 <= i < |r| ==> r[i] == pairs[i].1
    decreases |pairs|
  {
    if pairs == [] then [] else [pairs[0].1] + Seconds(pairs[1..])
  }

  /** Inverse of `Bigrams` on sequences of two or more tokens: the first item of
      the first pair, then the second item of every pair. */
  function Unpair<T>(pairs: seq<(T, T)>): seq<T>
    requires |pairs| > 0
  {
    [pairs[0].0] + Seconds(pairs)
  }

  /** The bigrams determine the token sequence they were built from. */
  lemma {:induction false} BigramsRoundTrip<T>(tokens: seq<T>)
    requires |tokens| >= 2
    ensures Unpair(Bigrams(tokens)) == tokens
    decreases |tokens|
  {
    var pairs := Bigrams(tokens);
    var rest := Bigrams(tokens[1..]);
    assert pairs == [(tokens[0], tokens[1])] + rest;
    assert Seconds(pairs) == [tokens[1]] + Seconds(rest) by {
      assert pairs[1..] == rest;
    }
    if |tokens| == 2 {
      assert rest == [];
      assert tokens == [tokens[0]] + [tokens[1]];
    } else {
      BigramsRoundTrip(tokens[1..]);
      assert rest[0].0 == tokens[1];
      assert Unpair(rest) == tokens[1..];
      assert tokens == [tokens[0]] + tokens[1..];
    }
  }

  /** Neighbouring bigrams overlap in one token. */
  lemma BigramsChain<T>(tokens: seq<T>, i: nat)
    requires i + 1 < |Bigrams(tokens)|
    ensures Bigrams(tokens)[i].1 == Bigrams(tokens)[i + 1].0
  {
    var r := Bigrams(tokens);
    assert r[i] == (tokens[i], tokens[i + 1]);
    assert r[i + 1] == (tokens[i + 1], tokens[i + 2]);
  }
}
