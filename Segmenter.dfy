/** The segmenter in main.py: `chunk_transcript_with_timestamps` and the
    single-segment fallback of `main`, together with `str.strip()`. */
module Segmenter {
  import opened Seqs

  /** A `{"start", "end", "text"}` record; times are seconds. */
  datatype Segment = Segment(start: real, end: real, text: string)

  /** What the transcriber hands to the segmenter: a dict carrying a
      "segments" list, or any other value (in practice the transcript
      file's path, a string). */
  datatype Transcript =
    | WithSegments(segments: seq<Segment>)
    | Unsegmented(value: string)

  /** `str.isspace()` for one character: the characters Python's `strip()` removes. */
  predicate IsSpace(c: char)
  {
    ('\t' <= c <= '\r') || ('\U{1C}' <= c <= ' ') ||
    c == '\U{85}' || c == '\U{A0}' || c == '\U{1680}' ||
    ('\U{2000}' <= c <= '\U{200A}') ||
    c == '\U{2028}' || c == '\U{2029}' || c == '\U{202F}' || c == '\U{205F}' || c == '\U{3000}'
  }

  /** Every character of `s` is whitespace. */
  predicate AllSpace(s: string)
  {
    forall k :: 0 <= k < |s| ==> IsSpace(s[k])
  }

  /** `s` neither starts nor ends with whitespace. */
  predicate Trimmed(s: string)
  {
    s == [] || (!IsSpace(s[0]) && !IsSpace(s[|s| - 1]))
  }

  /** `s` without its leading whitespace. */
  function StripLeft(s: string): (r: string)
    ensures |r| <= |s|
  {
    if s != [] && IsSpace(s[0]) then StripLeft(s[1..]) else s
  }

  /** `s` without its trailing whitespace. */
  function StripRight(s: string): (r: string)
    ensures |r| <= |s|
  {
    if s != [] && IsSpace(s[|s| - 1]) then StripRight(s[..|s| - 1]) else s
  }

  /** `s.strip()`: never longer than `s` (what else it removes is
      `StripIsTrimmedSlice`). */
  function Strip(s: string): (t: string)
    ensures |t| <= |s|
  {
    StripRight(StripLeft(s))
  }

  /** `StripLeft` removes a run of whitespace from the front, and all of it. */
  lemma {:induction false} StripLeftRemovesLeadingSpace(s: string)
    ensures var r := StripLeft(s);
      |r| <= |s| && r == s[|s| - |r|..] && AllSpace(s[..|s| - |r|]) && (r == [] || !IsSpace(r[0]))
  {
    if s != [] && IsSpace(s[0]) {
      StripLeftRemovesLeadingSpace(s[1..]);
      var r := StripLeft(s[1..]);
      assert s[..|s| - |r|] == [s[0]] + s[1..][..|s| - 1 - |r|];
    }
  }

  /** `StripRight` removes a run of whitespace from the back, and all of it. */
  lemma {:induction false} StripRightRemovesTrailingSpace(s: string)
    ensures var r := StripRight(s);
      |r| <= |s| && r == s[..|r|] && AllSpace(s[|r|..]) && (r == [] || !IsSpace(r[|r| - 1]))
  {
    if s != [] && IsSpace(s[|s| - 1]) {
      StripRightRemovesTrailingSpace(s[..|s| - 1]);
      var r := StripRight(s[..|s| - 1]);
      assert s[|r|..] == s[..|s| - 1][|r|..] + [s[|s| - 1]];
    }
  }

  /** The stripped text has no leading or trailing whitespace, and it is the
      slice of `s` that lies between a run of leading and a run of trailing
      whitespace. */
  lemma StripIsTrimmedSlice(s: string)
    ensures Trimmed(Strip(s))
    ensures |StripLeft(s)| <= |s|
    ensures var r := Strip(s); var i := |s| - |StripLeft(s)|;
      i + |r| <= |s| && r == s[i..i + |r|] && AllSpace(s[..i]) && AllSpace(s[i + |r|..])
  {
    var left := StripLeft(s);
    StripLeftRemovesLeadingSpace(s);
    StripRightRemovesTrailingSpace(left);
    var r := StripRight(left);
    var i := |s| - |left|;
    assert r != [] ==> r[0] == left[0];
    assert left == s[i..];
    assert r == s[i..i + |r|];
    assert s[i + |r|..] == left[|r|..];
  }

  /** Stripping a second time changes nothing. */
  lemma StripIdempotent(s: string)
    ensures Strip(Strip(s)) == Strip(s)
  {
    var r := Strip(s);
    StripIsTrimmedSlice(s);
    if r != [] {
      assert StripLeft(r) == r;
      assert StripRight(r) == r;
    }
  }

  /** `chunk_transcript_with_timestamps(transcript_data)`, given the value of
      `transcript_data.get("segments")`: one segment per record, in order,
      with its times copied and its text stripped; no records without the key. */
  method ChunkTranscriptWithTimestamps(segments: Option<seq<Segment>>) returns (results: seq<Segment>)
    ensures segments.None? ==> results == []
    ensures segments.Some? ==> |results| == |segments.value|
    ensures segments.Some? ==> forall i :: 0 <= i < |results| ==>
      results[i] == Segment(segments.value[i].start, segments.value[i].end, Strip(segments.value[i].text))
  {
    var records := if segments.Some? then segments.value else [];
    results := [];
    for i := 0 to |records|
      invariant |results| == i
      invariant forall k :: 0 <= k < i ==>
        results[k] == Segment(records[k].start, records[k].end, Strip(records[k].text))
    {
      var seg := records[i];
      results := results + [Segment(seg.start, seg.end, Strip(seg.text))];
    }
  }

  /** Step 3 of `main`: the segments of a transcript. A transcript without a
      "segments" list becomes one segment spanning 0.0 to 0.0 that holds the
      whole value, not stripped. */
  method SegmentTranscript(transcript: Transcript) returns (segments: seq<Segment>)
    ensures transcript.Unsegmented? ==> segments == [Segment(0.0, 0.0, transcript.value)]
    ensures transcript.WithSegments? ==> |segments| == |transcript.segments|
    ensures transcript.WithSegments? ==> forall i :: 0 <= i < |segments| ==>
      var seg := transcript.segments[i];
      segments[i] == Segment(seg.start, seg.end, Strip(seg.text))
  {
    match transcript
    case WithSegments(records) =>
      segments := ChunkTranscriptWithTimestamps(Some(records));
    case Unsegmented(value) =>
      segments := [Segment(0.0, 0.0, value)];
  }
}
