/** The Hebrew text analyzer (scripts/analyze_text_hebrew.py): case-sensitive
    whole-word keyword detection and the top-scoring sentiment label. The
    keyword list and the sentiment pipeline are parameters; the pipeline
    maps a text to a list of score lists, as a `return_all_scores` pipeline
    does. */
module HebrewText {
  import opened Seqs
  import opened TextMatch
  import opened Scores

  /** The record `analyze_hebrew_text` returns; it has no toxicity fields. */
  datatype HebrewAnalysis = HebrewAnalysis(
    textHebrew: string,
    foundKeywords: seq<string>,
    sentimentLabel: string,
    sentimentScore: real)

  /** The keywords found in `text`: those that occur in it literally, as whole words. */
  function HebrewHits(keywords: seq<string>, text: string, isWord: char -> bool): seq<string>
  {
    Filter(keywords, kw => Occurs(text, kw, isWord))
  }

  /** `analyze_hebrew_text(text)`. The source indexes the sorted first score
      list without a guard, so a non-empty result whose first list is empty
      is excluded by the precondition. */
  method AnalyzeHebrewText(
    text: string,
    keywords: seq<string>,
    isWord: char -> bool,
    sentimentPipeline: string -> seq<seq<LabelScore>>)
    returns (r: HebrewAnalysis)
    requires sentimentPipeline(text) != [] ==> sentimentPipeline(text)[0] != []
    ensures r.textHebrew == text
    ensures r.foundKeywords == HebrewHits(keywords, text, isWord)
    ensures sentimentPipeline(text) == [] ==>
      r.sentimentLabel == "unknown" && r.sentimentScore == 0.0
    ensures sentimentPipeline(text) != [] ==>
      var scores := sentimentPipeline(text)[0];
      LabelScore(r.sentimentLabel, r.sentimentScore) == scores[FirstMaxIndex(scores)]
  {
    var found: seq<string> := [];
    for i := 0 to |keywords|
      invariant found == HebrewHits(keywords[..i], text, isWord)
    {
      var kw := keywords[i];
      assert keywords[..i + 1][..i] == keywords[..i];
      if Search(text, kw, isWord) {
        found := found + [kw];
      }
    }
    assert keywords[..|keywords|] == keywords;

    var sentiment := Unknown;
    var sentimentResults := sentimentPipeline(text);
    if sentimentResults != [] {
      sentiment := TopScore(sentimentResults[0]);
    }
    r := HebrewAnalysis(text, found, sentiment.labelName, sentiment.score);
  }

  /** The found keywords keep the keyword list's order. */
  lemma HebrewHitsInOrder(keywords: seq<string>, text: string, isWord: char -> bool)
    ensures IsSubsequence(HebrewHits(keywords, text, isWord), keywords)
  {
    FilterIsSubsequence(keywords, kw => Occurs(text, kw, isWord));
  }

  /** A keyword is found, as often as it is listed, exactly when it occurs
      literally (case-sensitively) as a whole word. */
  lemma HebrewHitsExactly(keywords: seq<string>, text: string, isWord: char -> bool, word: string)
    ensures multiset(HebrewHits(keywords, text, isWord))[word] ==
      if Occurs(text, word, isWord) then multiset(keywords)[word] else 0
    ensures word in HebrewHits(keywords, text, isWord) <==> word in keywords && Occurs(text, word, isWord)
  {
    FilterMultiplicity(keywords, kw => Occurs(text, kw, isWord), word);
    FilterMembers(keywords, kw => Occurs(text, kw, isWord));
  }

  /** The keyword list is empty, never absent, when nothing matches. */
  lemma HebrewHitsEmpty(keywords: seq<string>, text: string, isWord: char -> bool)
    ensures HebrewHits(keywords, text, isWord) == [] <==>
      forall k :: 0 <= k < |keywords| ==> !Occurs(text, keywords[k], isWord)
  {
    FilterEmpty(keywords, kw => Occurs(text, kw, isWord));
  }
}
