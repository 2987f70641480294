/** The English text analyzer (scripts/analyze_text_english.py): whole-word
    keyword detection on lower-cased text, the first sentiment result, and
    the top-scoring toxicity label. The keyword list, the two pipelines and
    the character tables are parameters. */
module EnglishText {
  import opened Seqs
  import opened TextMatch
  import opened Scores

  /** The record `analyze_english_text` returns: always all six keys. */
  datatype EnglishAnalysis = EnglishAnalysis(
    textEnglish: string,
    foundKeywords: seq<string>,
    sentimentLabel: string,
    sentimentScore: real,
    toxicityLabel: string,
    toxicityScore: real)

  /** The listed keywords whose lower-cased form occurs as a whole word in
      the lower-cased text; each is kept as listed, not lower-cased. */
  function EnglishHits(keywords: seq<string>, text: string, isWord: char -> bool, lower: char -> char): seq<string>
  {
    Filter(keywords, kw => Occurs(LowerStr(text, lower), LowerStr(kw, lower), isWord))
  }

  /** `analyze_english_text(text)`. */
  method AnalyzeEnglishText(
    text: string,
    keywords: seq<string>,
    isWord: char -> bool,
    lower: char -> char,
    sentimentPipeline: string -> seq<LabelScore>,
    toxicPipeline: string -> seq<seq<LabelScore>>)
    returns (r: EnglishAnalysis)
    ensures r.textEnglish == text
    ensures r.foundKeywords == EnglishHits(keywords, text, isWord, lower)
    ensures sentimentPipeline(text) != [] ==>
      LabelScore(r.sentimentLabel, r.sentimentScore) == sentimentPipeline(text)[0]
    ensures sentimentPipeline(text) == [] ==>
      r.sentimentLabel == "unknown" && r.sentimentScore == 0.0
    ensures toxicPipeline(text) != [] && toxicPipeline(text)[0] != [] ==>
      var scores := toxicPipeline(text)[0];
      LabelScore(r.toxicityLabel, r.toxicityScore) == scores[FirstMaxIndex(scores)]
    ensures toxicPipeline(text) == [] || toxicPipeline(text)[0] == [] ==>
      r.toxicityLabel == "unknown" && r.toxicityScore == 0.0
  {
    var found: seq<string> := [];
    for i := 0 to |keywords|
      invariant found == EnglishHits(keywords[..i], text, isWord, lower)
    {
      var kw := keywords[i];
      assert keywords[..i + 1][..i] == keywords[..i];
      if Search(LowerStr(text, lower), LowerStr(kw, lower), isWord) {
        found := found + [kw];
      }
    }
    assert keywords[..|keywords|] == keywords;

    var sentiment := Unknown;
    var sentimentResults := sentimentPipeline(text);
    if sentimentResults != [] {
      sentiment := sentimentResults[0];
    }

    var toxicity := Unknown;
    var toxicityRaw := toxicPipeline(text);
    if toxicityRaw != [] && |toxicityRaw[0]| > 0 {
      toxicity := TopScore(toxicityRaw[0]);
    }

    r := EnglishAnalysis(text, found, sentiment.labelName, sentiment.score,
                         toxicity.labelName, toxicity.score);
  }

  /** The found keywords keep the keyword list's order. */
  lemma EnglishHitsInOrder(keywords: seq<string>, text: string, isWord: char -> bool, lower: char -> char)
    ensures IsSubsequence(EnglishHits(keywords, text, isWord, lower), keywords)
  {
    FilterIsSubsequence(keywords, kw => Occurs(LowerStr(text, lower), LowerStr(kw, lower), isWord));
  }

  /** A listed keyword is found, as often as it is listed and in its listed
      spelling, exactly when its lower-cased form occurs as a whole word in
      the lower-cased text. */
  lemma EnglishHitsExactly(keywords: seq<string>, text: string, isWord: char -> bool, lower: char -> char, word: string)
    ensures multiset(EnglishHits(keywords, text, isWord, lower))[word] ==
      if Occurs(LowerStr(text, lower), LowerStr(word, lower), isWord) then multiset(keywords)[word] else 0
    ensures word in EnglishHits(keywords, text, isWord, lower) <==>
      word in keywords && Occurs(LowerStr(text, lower), LowerStr(word, lower), isWord)
  {
    FilterMultiplicity(keywords, kw => Occurs(LowerStr(text, lower), LowerStr(kw, lower), isWord), word);
    FilterMembers(keywords, kw => Occurs(LowerStr(text, lower), LowerStr(kw, lower), isWord));
  }

  /** The keyword list is empty, never absent, when nothing matches. */
  lemma EnglishHitsEmpty(keywords: seq<string>, text: string, isWord: char -> bool, lower: char -> char)
    ensures EnglishHits(keywords, text, isWord, lower) == [] <==>
      forall k :: 0 <= k < |keywords| ==> !Occurs(LowerStr(text, lower), LowerStr(keywords[k], lower), isWord)
  {
    FilterEmpty(keywords, kw => Occurs(LowerStr(text, lower), LowerStr(kw, lower), isWord));
  }

  /** Texts that lower-case alike give the same keywords. */
  lemma {:induction false} EnglishHitsIgnoreCase(keywords: seq<string>, text1: string, text2: string, isWord: char -> bool, lower: char -> char)
    requires LowerStr(text1, lower) == LowerStr(text2, lower)
    ensures EnglishHits(keywords, text1, isWord, lower) == EnglishHits(keywords, text2, isWord, lower)
  {
    FilterCongruence(keywords,
      kw => Occurs(LowerStr(text1, lower), LowerStr(kw, lower), isWord),
      kw => Occurs(LowerStr(text2, lower), LowerStr(kw, lower), isWord));
  }
}
