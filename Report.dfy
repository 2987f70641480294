/** The report assembly of `main` (main.py): every segment's text is
    analyzed, the one global tone result is attached to every segment, each
    segment is flagged, and the problematic ones are gathered in order.

    The per-language analyzers and the translator are injected as functions:
    what they return is classifier and translation output. */
module Report {
  import opened Seqs
  import opened Segmenter
  import opened HebrewText
  import opened EnglishText
  import opened Fusion

  /** The text-analysis services of a run; `translator` is `None` when
      translation is off or unavailable. */
  datatype TextServices = TextServices(
    analyzeHebrew: string -> HebrewAnalysis,
    analyzeEnglish: string -> EnglishAnalysis,
    translator: Option<string -> string>)

  /** One entry of `analyzed_segments`. */
  datatype AnalyzedSegment = AnalyzedSegment(
    start: real,
    end: real,
    text: string,
    textAnalysis: SegmentAnalysis,
    toneAnalysis: ToneAnalysis,
    problematic: bool)

  /** `analyze_segment_text(text, translator)`: the Hebrew analysis of the
      text always, and the English analysis of its translation only when a
      translator is present. */
  function AnalyzeSegmentText(text: string, services: TextServices): (sa: SegmentAnalysis)
    ensures sa.hebrewAnalysis == services.analyzeHebrew(text)
    ensures sa.englishAnalysis.Some? <==> services.translator.Some?
    ensures services.translator.Some? ==>
      sa.englishAnalysis.value == services.analyzeEnglish(services.translator.value(text))
  {
    var english :=
      match services.translator
      case None => None
      case Some(translate) => Some(services.analyzeEnglish(translate(text)));
    SegmentAnalysis(services.analyzeHebrew(text), english)
  }

  /** `a` is the analyzed form of segment `seg` under the global tone result. */
  predicate AnalyzedFrom(a: AnalyzedSegment, seg: Segment, tone: ToneAnalysis, services: TextServices)
  {
    a.start == seg.start && a.end == seg.end && a.text == seg.text &&
    a.textAnalysis == AnalyzeSegmentText(seg.text, services) &&
    a.toneAnalysis == tone &&
    a.problematic == IsSegmentProblematic(a.textAnalysis, tone)
  }

  /** Step 6 of `main`: one analyzed record per segment, in segment order,
      all carrying the same tone result. */
  method AnalyzeSegments(segments: seq<Segment>, tone: ToneAnalysis, services: TextServices)
    returns (analyzed: seq<AnalyzedSegment>)
    ensures |analyzed| == |segments|
    ensures forall i :: 0 <= i < |segments| ==> AnalyzedFrom(analyzed[i], segments[i], tone, services)
  {
    analyzed := [];
    for i := 0 to |segments|
      invariant |analyzed| == i
      invariant forall k :: 0 <= k < i ==> AnalyzedFrom(analyzed[k], segments[k], tone, services)
    {
      var seg := segments[i];
      var segAnalysis := AnalyzeSegmentText(seg.text, services);
      var problemFlag := IsSegmentProblematic(segAnalysis, tone);
      analyzed := analyzed + [AnalyzedSegment(seg.start, seg.end, seg.text, segAnalysis, tone, problemFlag)];
    }
  }

  /** Step 7 of `main`: the problematic entries, in their original order. */
  function ProblematicSegments(analyzed: seq<AnalyzedSegment>): (problems: seq<AnalyzedSegment>)
    ensures |problems| <= |analyzed|
    ensures IsSubsequence(problems, analyzed)
    ensures forall a :: a in problems <==> a in analyzed && a.problematic
    ensures forall a :: multiset(problems)[a] == if a.problematic then multiset(analyzed)[a] else 0
  {
    FilterIsSubsequence(analyzed, (a: AnalyzedSegment) => a.problematic);
    FilterMembers(analyzed, (a: AnalyzedSegment) => a.problematic);
    FilterCounts(analyzed, (a: AnalyzedSegment) => a.problematic);
    Filter(analyzed, (a: AnalyzedSegment) => a.problematic)
  }

  /** `num_problems`: the problematic list has one entry per flagged position. */
  lemma {:induction false} ProblematicCount(analyzed: seq<AnalyzedSegment>)
    ensures |Filter(analyzed, (a: AnalyzedSegment) => a.problematic)| ==
      |set i | 0 <= i < |analyzed| && analyzed[i].problematic|
  {
    if analyzed != [] {
      var n := |analyzed| - 1;
      var init := analyzed[..n];
      ProblematicCount(init);
      var before := set i | 0 <= i < n && init[i].problematic;
      var now := set i | 0 <= i < |analyzed| && analyzed[i].problematic;
      assert before == set i | 0 <= i < n && analyzed[i].problematic;
      if analyzed[n].problematic {
        assert now == before + {n};
      } else {
        assert now == before;
      }
    }
  }

  /** Steps 3 to 7 of `main` for one recording: segment the transcript,
      analyze and flag every segment, and gather the problematic ones. */
  method ProcessRecording(transcript: Transcript, tone: ToneAnalysis, services: TextServices)
    returns (segments: seq<Segment>, analyzed: seq<AnalyzedSegment>, problematic: seq<AnalyzedSegment>, numProblems: nat)
    ensures transcript.Unsegmented? ==> segments == [Segment(0.0, 0.0, transcript.value)]
    ensures transcript.WithSegments? ==> |segments| == |transcript.segments|
    ensures transcript.WithSegments? ==> forall i :: 0 <= i < |segments| ==>
      var seg := transcript.segments[i];
      segments[i] == Segment(seg.start, seg.end, Strip(seg.text))
    ensures |analyzed| == |segments|
    ensures forall i :: 0 <= i < |segments| ==> AnalyzedFrom(analyzed[i], segments[i], tone, services)
    ensures problematic == ProblematicSegments(analyzed)
    ensures numProblems == |problematic| <= |analyzed|
    ensures numProblems == |set i | 0 <= i < |analyzed| && analyzed[i].problematic|
  {
    segments := SegmentTranscript(transcript);
    analyzed := AnalyzeSegments(segments, tone, services);
    problematic := ProblematicSegments(analyzed);
    numProblems := |problematic|;
    ProblematicCount(analyzed);
  }

  /** An example: the segment " שלום " is stored as "שלום"; with
      no keyword hit, no translator and a quiet recording it is not
      problematic, and the same segment in a loud recording is. */
  lemma QuietAndLoudExample(services: TextServices)
    requires services.analyzeHebrew("שלום").foundKeywords == []
    requires services.translator.None?
    ensures Strip(" שלום ") == "שלום"
    ensures !IsSegmentProblematic(AnalyzeSegmentText("שלום", services),
                                  ToneAnalysis(0.05, 150.0, ToneFlags(false, false)))
    ensures IsSegmentProblematic(AnalyzeSegmentText("שלום", services),
                                 ToneAnalysis(0.05, 150.0, ToneFlags(true, false)))
  {
  }

  /** The same example run through the whole per-recording pipeline: a
      transcript with the one segment " שלום " gives one analyzed record
      with text "שלום", which is not problematic in a quiet recording and is
      the one problem of a loud one. */
  method QuietAndLoudRecording(services: TextServices)
    returns (quiet: seq<AnalyzedSegment>, quietProblems: nat,
             loud: seq<AnalyzedSegment>, loudProblems: nat)
    requires services.analyzeHebrew("שלום").foundKeywords == []
    requires services.translator.None?
    ensures |quiet| == 1 && quiet[0].text == "שלום" && !quiet[0].problematic && quietProblems == 0
    ensures |loud| == 1 && loud[0].text == "שלום" && loud[0].problematic && loudProblems == 1
  {
    var transcript := WithSegments([Segment(0.0, 2.0, " שלום ")]);
    QuietAndLoudExample(services);
    var quietTone := ToneAnalysis(0.05, 150.0, ToneFlags(false, false));
    var loudTone := ToneAnalysis(0.05, 150.0, ToneFlags(true, false));
    var segments, quietList;
    segments, quiet, quietList, quietProblems := ProcessRecording(transcript, quietTone, services);
    assert segments[0].text == "שלום";
    ProblematicCount(quiet);
    assert (set i | 0 <= i < |quiet| && quiet[i].problematic) == {};
    var loudList;
    segments, loud, loudList, loudProblems := ProcessRecording(transcript, loudTone, services);
    ProblematicCount(loud);
    assert (set i | 0 <= i < |loud| && loud[i].problematic) == {0};
  }
}
