/** The whole analysis of app.py:87-127: clean, tokenise, filter, count words
    and bigrams, take the top-15 views, and compute the summary metrics. */
module Analysis {
  import opened Chars
  import opened Seqs
  import opened Normalizer
  import opened Tokenizer
  import opened StopwordFilter
  import opened FrequencyCounter
  import opened BigramBuilder

  /** How many rows the frequency views show (`most_common(15)`). */
  const TopN: nat := 15

  /** The four figures of the metrics row (app.py:124-127). */
  datatype Metrics = Metrics(words: nat, characters: nat, vocabulary: nat, tokens: nat)

  /** `len(text.split())` is at most the number of characters, and it is zero
      exactly when the text is all whitespace. */
  lemma WordCount(text: string)
    ensures |SplitWhitespace(text)| <= |text|
    ensures SplitWhitespace(text) == [] <==> forall i :: 0 <= i < |text| ==> IsSpace(text[i])
  {
    var words := SplitWhitespace(text);
    RunsConcat(text, NotSpace);
    ConcatLength(words);
    if forall i :: 0 <= i < |text| ==> IsSpace(text[i]) {
      NoneKept(text, NotSpace);
    } else {
      var i :| 0 <= i < |text| && !IsSpace(text[i]);
      FilterCounts(text, NotSpace);
      assert text[i] in multiset(text);
      assert text[i] in multiset(Filter(text, NotSpace));
    }
  }

  /** The figures as the source computes them: words, characters and vocabulary
      are taken from the raw text, the token count from the filtered tokens. */
  function Summarize(text: string, filtered: seq<string>): (m: Metrics)
    ensures m.words == |SplitWhitespace(text)|
    ensures m.vocabulary == |Elements(SplitWhitespace(text))|
    ensures m.characters == |text| && m.tokens == |filtered|
    ensures m.vocabulary <= m.words <= m.characters
    ensures m.words == 0 <==> forall i :: 0 <= i < |text| ==> IsSpace(text[i])
    ensures m.vocabulary == 0 <==> m.words == 0
  {
    var words := SplitWhitespace(text);
    var vocabulary := Elements(words);
    WordCount(text);
    assert words != [] ==> words[0] in vocabulary;
    Metrics(|words|, |text|, |vocabulary|, |filtered|)
  }

  /** Everything the app computes from one text. */
  datatype Report = Report(
    clean: string,
    tokens: seq<string>,
    filtered: seq<string>,
    frequencies: seq<(string, nat)>,
    bigrams: seq<(string, string)>,
    bigramFrequencies: seq<((string, string), nat)>,
    topWords: seq<(string, nat)>,
    topBigrams: seq<((string, string), nat)>,
    metrics: Metrics)

  /** A token of a cleaned text: lowercase, digit-free word characters only. */
  ghost predicate IsCleanToken(w: string)
  {
    forall j :: 0 <= j < |w| ==> IsWord(w[j]) && !IsDigit(w[j]) && !IsUpper(w[j])
  }

  /** Every token of a cleaned text is a run of lowercase, digit-free word
      characters. */
  lemma TokensOfCleanText(text: string)
    ensures forall i :: 0 <= i < |Tokenize(CleanText(text))| ==> IsCleanToken(Tokenize(CleanText(text))[i])
  {
    var clean := CleanText(text);
    var tokens := Tokenize(clean);
    CleanTextCharacters(text);
    RunsConcat(clean, IsWord);
    FilterElements(clean, IsWord);
    forall i | 0 <= i < |tokens|
      ensures IsCleanToken(tokens[i])
    {
      forall j | 0 <= j < |tokens[i]|
        ensures IsWord(tokens[i][j]) && !IsDigit(tokens[i][j]) && !IsUpper(tokens[i][j])
      {
        ConcatContains(tokens, i, j);
        var c := tokens[i][j];
        assert c in clean;
        var k :| 0 <= k < |clean| && clean[k] == c;
      }
    }
  }

  /** What the stages guarantee about any report built from them. */
  lemma StageFacts(text: string, portuguese: set<string>, english: set<string>, r: Report)
    requires r.clean == CleanText(text) && r.tokens == Tokenize(r.clean)
    requires r.filtered == FilterTokens(r.tokens, StopWords(portuguese, english))
    requires r.frequencies == Tally(r.filtered) && r.bigrams == Bigrams(r.filtered)
    requires r.bigramFrequencies == Tally(r.bigrams)
    requires r.topWords == MostCommon(r.frequencies, TopN)
    requires r.topBigrams == MostCommon(r.bigramFrequencies, TopN)
    requires r.metrics == Summarize(text, r.filtered)
    ensures |r.clean| <= |text|
    ensures forall i :: 0 <= i < |r.tokens| ==> IsCleanToken(r.tokens[i])
    ensures IsSubsequence(r.filtered, r.tokens)
    ensures forall i :: 0 <= i < |r.filtered| ==>
      r.filtered[i] !in portuguese && r.filtered[i] !in english && |r.filtered[i]| > 2
    ensures Total(r.frequencies) == |r.filtered|
    ensures |r.bigrams| == if r.filtered == [] then 0 else |r.filtered| - 1
    ensures Total(r.bigramFrequencies) == |r.bigrams|
    ensures |r.topWords| <= TopN && |r.topBigrams| <= TopN
    ensures r.metrics.tokens == |r.filtered| && r.metrics.vocabulary <= r.metrics.words
  {
    TokensOfCleanText(text);
    TallyTotal(r.filtered);
    TallyTotal(r.bigrams);
  }

  /** The pipeline of app.py:87-127, given the two stopword lists. */
  function Analyze(text: string, portuguese: set<string>, english: set<string>): (r: Report)
    ensures r.clean == CleanText(text) && r.tokens == Tokenize(r.clean)
    ensures r.filtered == FilterTokens(r.tokens, StopWords(portuguese, english))
    ensures r.frequencies == Tally(r.filtered) && r.bigrams == Bigrams(r.filtered)
    ensures r.bigramFrequencies == Tally(r.bigrams)
    ensures r.topWords == MostCommon(r.frequencies, TopN)
    ensures r.topBigrams == MostCommon(r.bigramFrequencies, TopN)
    ensures r.metrics == Summarize(text, r.filtered)
    ensures |r.clean| <= |text|
    ensures forall i :: 0 <= i < |r.tokens| ==> IsCleanToken(r.tokens[i])
    ensures IsSubsequence(r.filtered, r.tokens)
    ensures forall i :: 0 <= i < |r.filtered| ==>
      r.filtered[i] !in portuguese && r.filtered[i] !in english && |r.filtered[i]| > 2
    ensures Total(r.frequencies) == |r.filtered|
    ensures |r.bigrams| == if r.filtered == [] then 0 else |r.filtered| - 1
    ensures Total(r.bigramFrequencies) == |r.bigrams|
    ensures |r.topWords| <= TopN && |r.topBigrams| <= TopN
    ensures r.metrics.tokens == |r.filtered| && r.metrics.vocabulary <= r.metrics.words
  {
    var clean := CleanText(text);
    var tokens := Tokenize(clean);
    var filtered := FilterTokens(tokens, StopWords(portuguese, english));
    var frequencies := Tally(filtered);
    var bigrams := Bigrams(filtered);
    var bigramFrequencies := Tally(bigrams);
    var topWords := MostCommon(frequencies, TopN);
    var topBigrams := MostCommon(bigramFrequencies, TopN);
    var metrics := Summarize(text, filtered);
    var r := Report(clean, tokens, filtered, frequencies, bigrams, bigramFrequencies,
                    topWords, topBigrams, metrics);
    StageFacts(text, portuguese, english, r);
    r
  }
}
