/** The flagging rule `is_segment_problematic` (main.py). */
module Fusion {
  import opened Seqs
  import opened HebrewText
  import opened EnglishText

  /** `tone_flags` of the tone analysis: loud and high-pitched. */
  datatype ToneFlags = ToneFlags(loud: bool, highPitch: bool)

  /** The record `analyze_audio_tone` returns, computed once per recording. */
  datatype ToneAnalysis = ToneAnalysis(averageAmplitude: real, averagePitchHz: real, toneFlags: ToneFlags)

  /** The record `analyze_segment_text` returns. The English analysis is the
      empty dict (`None`) when no translator is available. */
  datatype SegmentAnalysis = SegmentAnalysis(hebrewAnalysis: HebrewAnalysis, englishAnalysis: Option<EnglishAnalysis>)

  /** Hebrew keywords were found. */
  predicate HebrewKeywordHit(sa: SegmentAnalysis)
  {
    sa.hebrewAnalysis.foundKeywords != []
  }

  /** English keywords were found (an empty English dict has none). */
  predicate EnglishKeywordHit(sa: SegmentAnalysis)
  {
    sa.englishAnalysis.Some? && sa.englishAnalysis.value.foundKeywords != []
  }

  /** The English text was classified "toxic" with a score above 0.5. */
  predicate EnglishToxic(sa: SegmentAnalysis)
  {
    sa.englishAnalysis.Some? &&
    sa.englishAnalysis.value.toxicityLabel == "toxic" && sa.englishAnalysis.value.toxicityScore > 0.5
  }

  /** The recording is loud or high-pitched. */
  predicate ToneAlarm(tone: ToneAnalysis)
  {
    tone.toneFlags.loud || tone.toneFlags.highPitch
  }

  /** `is_segment_problematic(seg_analysis, tone_analysis)`: the checks in
      their order, each returning true as soon as it fires. */
  function IsSegmentProblematic(sa: SegmentAnalysis, tone: ToneAnalysis): (problematic: bool)
    ensures problematic <==>
      HebrewKeywordHit(sa) || EnglishKeywordHit(sa) || EnglishToxic(sa) || ToneAlarm(tone)
  {
    if sa.hebrewAnalysis.foundKeywords != [] then true
    else if
      match sa.englishAnalysis
      case None => false
      case Some(english) =>
        english.foundKeywords != [] ||
        (english.toxicityLabel == "toxic" && english.toxicityScore > 0.5)
    then true
    else if tone.toneFlags.loud || tone.toneFlags.highPitch then true
    else false
  }

  /** Hebrew keywords alone make a segment problematic, whatever the English
      analysis and the tone say. */
  lemma HebrewKeywordsDominate(sa: SegmentAnalysis, tone: ToneAnalysis)
    requires sa.hebrewAnalysis.foundKeywords != []
    ensures IsSegmentProblematic(sa, tone)
  {
  }

  /** A loud or high-pitched recording makes every segment problematic. */
  lemma ToneDominates(sa: SegmentAnalysis, tone: ToneAnalysis)
    requires tone.toneFlags.loud || tone.toneFlags.highPitch
    ensures IsSegmentProblematic(sa, tone)
  {
  }

  /** Without a translator the English analysis contributes nothing: only
      Hebrew keywords and the tone decide. */
  lemma NoTranslationOnlyHebrewAndTone(hebrew: HebrewAnalysis, tone: ToneAnalysis)
    ensures IsSegmentProblematic(SegmentAnalysis(hebrew, None), tone) <==>
      hebrew.foundKeywords != [] || tone.toneFlags.loud || tone.toneFlags.highPitch
  {
  }

  /** A segment is not problematic when no check fires: no keywords in
      either language, no English toxicity above 0.5, a quiet recording. */
  lemma QuietSegmentNotProblematic(sa: SegmentAnalysis, tone: ToneAnalysis)
    requires sa.hebrewAnalysis.foundKeywords == []
    requires sa.englishAnalysis.Some? ==>
      sa.englishAnalysis.value.foundKeywords == [] &&
      (sa.englishAnalysis.value.toxicityLabel != "toxic" || sa.englishAnalysis.value.toxicityScore <= 0.5)
    requires !tone.toneFlags.loud && !tone.toneFlags.highPitch
    ensures !IsSegmentProblematic(sa, tone)
  {
  }

  /** Sentiment (in either language), the Hebrew text, the English text and
      the tone's raw measurements are never consulted: two analyses that
      agree on keywords, English toxicity and the tone flags get the same
      verdict. */
  lemma VerdictIgnoresSentiment(sa1: SegmentAnalysis, sa2: SegmentAnalysis, tone1: ToneAnalysis, tone2: ToneAnalysis)
    requires sa1.hebrewAnalysis.foundKeywords == sa2.hebrewAnalysis.foundKeywords
    requires sa1.englishAnalysis.Some? <==> sa2.englishAnalysis.Some?
    requires sa1.englishAnalysis.Some? ==>
      sa1.englishAnalysis.value.foundKeywords == sa2.englishAnalysis.value.foundKeywords &&
      sa1.englishAnalysis.value.toxicityLabel == sa2.englishAnalysis.value.toxicityLabel &&
      sa1.englishAnalysis.value.toxicityScore == sa2.englishAnalysis.value.toxicityScore
    requires tone1.toneFlags == tone2.toneFlags
    ensures IsSegmentProblematic(sa1, tone1) == IsSegmentProblematic(sa2, tone2)
  {
  }
}
