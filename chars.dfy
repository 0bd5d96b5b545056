/** Python's character classes for `str` regular expressions (`\w`, `\d`, `\s`)
    and `str.lower()`, exact for code points below 256 (ASCII and Latin-1, which
    cover Portuguese and English text); `IsSpace` is exact for all of Unicode. */
module Chars {

  /** `\d`: a decimal digit. */
  predicate IsDigit(c: char)
  {
    '0' <= c <= '9'
  }

  predicate NotDigit(c: char)
  {
    !IsDigit(c)
  }

  /** `\s` and `str.isspace()`: Python's whitespace characters. */
  predicate IsSpace(c: char)
  {
    || '\t' <= c <= '\r'
    || '\U{1C}' <= c <= ' '
    || c == '\U{85}' || c == '\U{A0}' || c == '\U{1680}'
    || '\U{2000}' <= c <= '\U{200A}'
    || c == '\U{2028}' || c == '\U{2029}' || c == '\U{202F}' || c == '\U{205F}'
    || c == '\U{3000}'
  }

  predicate NotSpace(c: char)
  {
    !IsSpace(c)
  }

  /** Letters that `str.lower()` changes: A-Z and the Latin-1 capitals. */
  predicate IsUpper(c: char)
  {
    'A' <= c <= 'Z' || ('\U{C0}' <= c <= '\U{DE}' && c != '\U{D7}')
  }

  /** `\w`: letters, digits, other numeric characters and the underscore. */
  predicate IsWord(c: char)
  {
    || 'a' <= c <= 'z' || 'A' <= c <= 'Z' || IsDigit(c) || c == '_'
    || c == '\U{AA}' || c == '\U{B2}' || c == '\U{B3}' || c == '\U{B5}'
    || c == '\U{B9}' || c == '\U{BA}' || '\U{BC}' <= c <= '\U{BE}'
    || ('\U{C0}' <= c <= '\U{FF}' && c != '\U{D7}' && c != '\U{F7}')
  }

  /** `str.lower()` on one character. */
  function ToLower(c: char): (d: char)
    ensures !IsUpper(d)
    ensures !IsUpper(c) ==> d == c
  {
    if IsUpper(c) then (c as int + 32) as char else c
  }

  /** Lowercasing changes only capitals, each into a word character, so it
      keeps every character class. */
  lemma ToLowerKeepsClasses(c: char)
    ensures ToLower(c) == c || (IsUpper(c) && IsWord(c) && IsWord(ToLower(c)))
    ensures IsWord(ToLower(c)) == IsWord(c)
    ensures IsSpace(ToLower(c)) == IsSpace(c)
    ensures IsDigit(ToLower(c)) == IsDigit(c)
  {
  }

  /** How the classes relate: digits and capitals are word characters,
      whitespace is not, and the hyphen is neither. */
  lemma CharClasses(c: char)
    ensures IsDigit(c) ==> IsWord(c)
    ensures IsUpper(c) ==> IsWord(c)
    ensures IsSpace(c) ==> !IsWord(c) && !IsDigit(c)
    ensures c == '-' ==> !IsWord(c) && !IsSpace(c)
  {
  }
}
