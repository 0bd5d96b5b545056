# Text-analysis pipeline of app.py, modelled in Dafny

The application reads a text (typed in, or loaded from a file), cleans it,
splits it into word tokens, removes Portuguese and English stopwords and words
of two characters or fewer, counts word and bigram frequencies, shows the
fifteen most frequent words and bigrams, and reports four summary figures
(words, characters, unique vocabulary, tokens).

This project models that analysis (app.py:79-127 and the two `most_common(15)`
views at app.py:148 and app.py:169) as pure Dafny functions over sequences,
and proves what each step guarantees:

- `Chars`: Python's `\d`, `\s`, `\w` and `str.lower()` on single characters.
- `Seqs`: generic sequence helpers (filtering, runs, concatenation).
- `Normalizer`: `clean_text` (lowercase, delete digit runs, delete punctuation,
  strip).
- `Tokenizer`: `tokenize_text` (`re.findall(r'\b\w+\b', ...)`) and `str.split()`.
- `StopwordFilter`: the stopword union and the comprehension that filters tokens.
- `FrequencyCounter`: `FreqDist`/`Counter` as insertion-ordered tables and
  `most_common(n)` as a stable sort by descending count, cut after `n` entries.
- `BigramBuilder`: `list(ngrams(tokens, 2))`.
- `Analysis`: the whole pipeline and the metrics row.
- `Scenarios`: two worked examples.

Where the comments in app.py and the code disagree, the model follows the code:

- The comment at app.py:82 says hyphens are kept only between letters. The
  pattern `[^\w\s-]` at app.py:83 keeps every hyphen, so `"-Abc-"` cleans to
  `"-abc-"` (`Scenarios.EdgeHyphens`, `Normalizer.CleanTextKeepsHyphens`).
- A hyphen is not a word character, so `\b\w+\b` splits a hyphenated word into
  two tokens. No hyphenated token ever reaches the frequency tables
  (`Tokenizer.HyphenatedWordSplits`).
- The words, characters and vocabulary figures (app.py:124-126) are computed
  from the raw text, not from the cleaned text or the tokens. Only the token
  figure (app.py:127) uses the filtered tokens.

## Model

| member | source | states |
|---|---|---|
| Chars.IsDigit | app.py:81 | `\d` below code point 256: the decimal digits 0-9 |
| Chars.IsSpace | app.py:83-84 | `\s` and `str.isspace()`: Python's whitespace characters, exactly |
| Chars.IsUpper | app.py:80 | the capitals that `lower()` changes below code point 256: A-Z and the Latin-1 capitals except × |
| Chars.IsWord | app.py:83-91 | `\w` below code point 256: ASCII letters and digits, `_`, ª ² ³ µ ¹ º ¼ ½ ¾ and the Latin-1 letters (not × or ÷) |
| Chars.CharClasses | app.py:80-91 | digits and capitals are word characters, whitespace is neither a word character nor a digit, and the hyphen is neither a word character nor whitespace |
| Chars.ToLower | app.py:80 | `str.lower()` on one character: the result is never an uppercase letter, and every character that is not a capital is unchanged |
| Chars.ToLowerKeepsClasses | app.py:80 | lowercasing changes only capitals, each into a word character, so a character is a word character, whitespace or a digit exactly when its lowercase is |
| Normalizer.Lower | app.py:80 | `text.lower()` keeps the length and lowercases every position |
| Normalizer.DeleteDigitRuns | app.py:81 | deleting each maximal run of digits, as `re.sub(r'\d+', '', text)` scans, equals removing every digit character while keeping the rest in order |
| Normalizer.DeletePunctuation | app.py:83 | every character left is a word character, whitespace or a hyphen; each such character keeps its exact number of occurrences; and the result is a subsequence of the input, so the order is kept |
| Normalizer.StripLeading | app.py:84 | `lstrip` drops exactly a whitespace prefix, and the result does not start with whitespace |
| Normalizer.StripTrailing | app.py:84 | `rstrip` drops exactly a whitespace suffix, and the result does not end with whitespace |
| Normalizer.Strip | app.py:84 | `strip()` never makes the text longer and leaves no whitespace at either end |
| Normalizer.StripBounds | app.py:84 | `strip()` returns a slice `s[a..b]` with only whitespace outside it and no whitespace at either end of it |
| Normalizer.StripTrimmed | app.py:84 | stripping a text with no whitespace at either end returns it unchanged |
| Normalizer.CleanText | app.py:79-85 | `clean_text` never makes the text longer and maps the empty text to the empty text |
| Normalizer.CleanTextCharacters | app.py:79-85 | every character of the cleaned text is a word character, whitespace or hyphen, and none is a digit or an uppercase letter |
| Normalizer.CleanTextTrimmed | app.py:84 | the cleaned text has no whitespace at either end |
| Normalizer.CleanTextIdempotent | app.py:79-85 | cleaning a cleaned text changes nothing |
| Normalizer.CleanTextKeepsHyphens | app.py:82-83 | the cleaned text has exactly as many hyphens as the input: every hyphen is kept, at word edges too |
| Normalizer.CleanTextOnePass | app.py:79-85 | reference definition: `clean_text` equals stripping the lowercased text filtered once by "word character, whitespace or hyphen, and not a digit" |
| Normalizer.CleanTextKeepsWords | app.py:79-85 | the word characters of the cleaned text are exactly the non-digit word characters of the lowercased input, in their order |
| Normalizer.StripKeepsWords | app.py:84 | `strip()` removes only whitespace, so the text keeps all its word characters, in order |
| Tokenizer.Tokenize | app.py:90-92 | `tokenize_text` returns the non-empty pieces of the text cut at every non-word character, and those tokens read back to back are the text's word characters in order |
| Tokenizer.SplitWhitespace | app.py:124 | `text.split()` returns the non-empty pieces of the text cut at every whitespace character, and they read back to back are its non-whitespace characters |
| Tokenizer.Runs | app.py:91 | every token is non-empty and made only of characters in the class |
| Tokenizer.RunsAreNonEmptyPieces | app.py:91 | the tokens are exactly the non-empty pieces left when the text is cut at every character outside the class: the runs are maximal |
| Tokenizer.RunsConcat | app.py:91 | the tokens read back to back are the in-class characters of the text, in order |
| Tokenizer.TokenizeJoinedTokens | app.py:90-92 | tokenising the space-joined tokens gives the same tokens back |
| Tokenizer.RunsStep | app.py:91 | a run followed by one or more separators is taken as one token, and the scan resumes after the separators |
| Tokenizer.HyphenatedWordSplits | app.py:91 | `a-b` with word-character runs `a` and `b` tokenises to the two tokens `a` and `b` |
| StopwordFilter.StopWords | app.py:105 | a word is in the union exactly when it is in the Portuguese list or in the English list |
| StopwordFilter.FilterTokens | app.py:107 | every kept token is not a stopword and is longer than two characters; the kept tokens form an order-preserving subsequence; each word keeps its exact multiplicity when it passes the test and has none otherwise |
| StopwordFilter.FilterWithUnion | app.py:105-107 | filtering with the union equals filtering with the Portuguese list and then with the English list |
| FrequencyCounter.Bump | app.py:110 | one increment: an existing key's count goes up by one and nothing else changes, or `(x, 1)` is appended for a new key; keys stay distinct |
| FrequencyCounter.Tally | app.py:110-114 | the keys are distinct, are exactly the items of the input, and each count equals the number of occurrences of its key |
| FrequencyCounter.TallySnoc | app.py:110 | counting one more item changes the table by exactly one increment of that item |
| FrequencyCounter.TallyFirstOccurrenceOrder | app.py:110-114 | the table lists items in the order of their first occurrence in the input |
| FrequencyCounter.TallyTotal | app.py:110-114 | the counts add up to the number of items counted |
| FrequencyCounter.InsertByCount | app.py:148 | inserting an entry into the sorted list adds exactly that entry |
| FrequencyCounter.InsertByCountDescending | app.py:148 | inserting an entry keeps the list in descending count order |
| FrequencyCounter.SortByCount | app.py:148 | the sort is a permutation of the table and is in descending count order |
| FrequencyCounter.SortByCountIsStable | app.py:148 | the sort keeps every group of entries with equal counts in table order |
| FrequencyCounter.MostCommon | app.py:148 | `most_common(n)` returns `min(n, len)` entries of the table in descending count order |
| FrequencyCounter.MostCommonTies | app.py:148 | among entries with one count, those returned are the first ones in table order (first occurrence), in that order |
| FrequencyCounter.MostCommonTop | app.py:148 | no entry left out of `most_common(n)` has a larger count than an entry returned |
| BigramBuilder.Bigrams | app.py:113 | there is one bigram fewer than tokens (none for no tokens), and bigram `i` is the pair of tokens `i` and `i+1` |
| BigramBuilder.BigramsRoundTrip | app.py:113 | with two or more tokens, the bigrams determine the token sequence they were built from |
| BigramBuilder.BigramsChain | app.py:113 | neighbouring bigrams share one token |
| Seqs.Elements | app.py:126 | `set(...)`: membership is membership in the sequence, and the set is no larger than the sequence |
| Analysis.WordCount | app.py:124 | `len(text.split())` is at most `len(text)` and is zero exactly when the text is all whitespace |
| Analysis.Summarize | app.py:124-127 | words is `len(text.split())`, characters `len(text)`, vocabulary `len(set(text.split()))` and tokens the filtered-token count; vocabulary ≤ words ≤ characters; words is zero exactly when the text is all whitespace, and so is vocabulary |
| Analysis.TokensOfCleanText | app.py:87-94 | every character of every token of the cleaned text is a lowercase, digit-free word character |
| Analysis.StageFacts | app.py:87-127 | any report whose fields are the pipeline's stages has lowercase digit-free word tokens; its filtered tokens are a subsequence of the tokens with no stopword of either language and none of two characters or fewer; both tables add up to what they count; it has one bigram fewer than filtered tokens; and both top views have at most 15 rows |
| Analysis.Analyze | app.py:87-127 | the report is exactly the pipeline: the cleaned text, its tokens, the tokens kept by the stopword and length filter, their frequency table, their bigrams and the bigram table, the two `most_common(15)` views and the metrics. It also states the consequences: the tokens are lowercase, digit-free words; the filtered tokens are a subsequence with no stopword of either language and none of two characters or fewer; both tables add up to what they count; there is one bigram fewer than filtered tokens; both top views have at most 15 rows |
| Scenarios.EdgeHyphens | app.py:79-85 | `clean_text("-Abc-")` is `"-abc-"` |
| Scenarios.TallyPair | app.py:110 | `FreqDist([a, b])` for two different items lists `(a, 1)` then `(b, 1)` |
| Scenarios.TallyRepeat | app.py:110 | `FreqDist([a, b, a])` counts `a` twice and keeps it in first place |
| Scenarios.TallyThreeWords | app.py:110 | `FreqDist([a, b, a, c])` for three different items is `a` twice, then `b` and `c` once, in order of first occurrence |
| Scenarios.TallyExample | app.py:110 | `FreqDist(["gato", "correu", "gato", "pulou"])` counts "gato" twice and lists gato, correu, pulou in that order |

## Left out

- The Streamlit user interface, the file uploader, and the two empty-text `st.stop()` calls at app.py:66-72: `Analyze` is defined for every text, and for the empty text it gives empty results.
- Loading PDF and DOCX files: file I/O and foreign libraries.
- `load_stopwords` (app.py:97-100): reading the files is I/O. The two stopword lists are parameters of `Analyze`.
- download_stopwords.py: it only fetches the stopword files over the network.
- The pandas re-sorting by frequency (app.py:149, 159, 170, 180) and the charts and tables: they display the `most_common(15)` rows and compute nothing new.
- The word cloud (app.py:184-190): `WordCloud.generate` re-tokenises and counts `' '.join(tokens)` (every filtered token) with its own pattern, stopword list and collocation detection, and draws graphics; that library is not modelled.
- Chars.IsWord, Chars.IsDigit and Chars.ToLower: exact only for code points below 256. Other Unicode decimal digits are treated as non-word characters, so `clean_text` still deletes them (in its second substitution rather than its first). Characters from 256 up are treated as non-word characters that `lower()` leaves unchanged. Python's full Unicode tables for `\w` and `str.lower()` are not modelled; `IsSpace` is exact for all of Unicode.
- FrequencyCounter.Tally: models the Python dictionary as a sequence of entries in insertion order, not as a hash table; lookups and the dictionary's other methods are not modelled.
