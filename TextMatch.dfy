/** Whole-word literal search: what `re.search(r"\b" + re.escape(kw) + r"\b", text)`
    decides. The regular-expression engine is modelled only for this one
    pattern shape. Which characters count as `\w` and how a character is
    lower-cased are Unicode tables; they are parameters here (`isWord`,
    `lower`). */
module TextMatch {

  /** `s[j]` is a word character; positions outside `s` are not. */
  predicate IsWordAt(s: string, j: int, isWord: char -> bool)
  {
    0 <= j < |s| && isWord(s[j])
  }

  /** `\b` holds at position `j` (between `s[j - 1]` and `s[j]`). */
  predicate WordBoundary(s: string, j: int, isWord: char -> bool)
  {
    IsWordAt(s, j - 1, isWord) != IsWordAt(s, j, isWord)
  }

  /** `kw` occurs literally at position `i` of `s`, with `\b` on both sides. */
  predicate MatchAt(s: string, kw: string, i: int, isWord: char -> bool)
  {
    0 <= i && i + |kw| <= |s| && s[i..i + |kw|] == kw &&
    WordBoundary(s, i, isWord) && WordBoundary(s, i + |kw|, isWord)
  }

  /** `kw` occurs somewhere in `s` as a whole word. */
  predicate Occurs(s: string, kw: string, isWord: char -> bool)
  {
    exists i | 0 <= i <= |s| - |kw| :: MatchAt(s, kw, i, isWord)
  }

  /** The left-to-right scan of the regular-expression engine, from position `from`. */
  function SearchFrom(s: string, kw: string, isWord: char -> bool, from: nat): (found: bool)
    ensures found <==> exists i | from <= i :: MatchAt(s, kw, i, isWord)
    decreases |s| + 1 - from
  {
    if from + |kw| > |s| then false
    else MatchAt(s, kw, from, isWord) || SearchFrom(s, kw, isWord, from + 1)
  }

  /** `re.search` of the whole-word pattern: true exactly when `kw` occurs as a whole word. */
  function Search(s: string, kw: string, isWord: char -> bool): (found: bool)
    ensures found <==> Occurs(s, kw, isWord)
  {
    SearchFrom(s, kw, isWord, 0)
  }

  /** `str.lower()` applied character by character. */
  function LowerStr(s: string, lower: char -> char): (r: string)
    ensures |r| == |s|
  {
    seq(|s|, i requires 0 <= i < |s| => lower(s[i]))
  }

  /** A literal occurrence that runs on into a word character on either
      side is not a match: a keyword that starts and ends with word
      characters never matches inside a longer word, whether the word goes
      on after it ("cat" in "category") or starts before it ("cat" in
      "bobcat"). */
  lemma NoMatchInsideWord(s: string, kw: string, i: int, isWord: char -> bool)
    requires 0 <= i && i + |kw| <= |s| && s[i..i + |kw|] == kw && kw != []
    requires (i + |kw| < |s| && isWord(kw[|kw| - 1]) && isWord(s[i + |kw|])) ||
             (0 < i && isWord(kw[0]) && isWord(s[i - 1]))
    ensures !MatchAt(s, kw, i, isWord)
  {
    assert s[i] == kw[0] && s[i + |kw| - 1] == kw[|kw| - 1];
  }

  /** ASCII letters, digits and underscore: the ASCII part of `\w`. */
  predicate AsciiWord(c: char)
  {
    'a' <= c <= 'z' || 'A' <= c <= 'Z' || '0' <= c <= '9' || c == '_'
  }

  /** "cat" does not match inside "category". */
  lemma CatNotInCategory()
    ensures !Occurs("category", "cat", AsciiWord)
  {
  }

  /** "cat" does not match inside "bobcat". */
  lemma CatNotInBobcat()
    ensures !Occurs("bobcat", "cat", AsciiWord)
  {
  }

  /** "cat" does match as a whole word in "the cat sat". */
  lemma CatInSentence()
    ensures Occurs("the cat sat", "cat", AsciiWord)
  {
    var s := "the cat sat";
    assert s[4..7] == "cat";
    assert MatchAt(s, "cat", 4, AsciiWord);
  }
}
