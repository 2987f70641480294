# Daycare recordings scanner: the flagging pipeline, in Dafny

The daycare recordings scanner takes a transcript of an audio recording and produces a report. The report holds one record per utterance segment and flags the segments that look problematic. The model covers the deterministic part of that pipeline:

- **Segmenter**: `chunk_transcript_with_timestamps` and the single-segment fallback in `main`. One segment is made per transcript record, in order. Its times are copied and its text is whitespace-stripped. A transcript without a segment list becomes one segment spanning 0.0 to 0.0 that holds the whole value, unstripped.
- **Text analyzers**: `analyze_hebrew_text` and `analyze_english_text`.
  - Keyword detection is whole-word literal search for each listed keyword. English lower-cases both sides; Hebrew is case-sensitive.
  - The English sentiment is the first pipeline result.
  - The Hebrew sentiment and the English toxicity are the top-scoring entry of the first score list, found by a stable descending sort.
  - Each signal falls back to `"unknown"`/`0.0` when its pipeline returns nothing.
- **Fusion rule**: `is_segment_problematic`. It fires on Hebrew keywords, English keywords, English toxicity (`"toxic"` with a score above 0.5), or a loud or high-pitched recording.
- **Report loop**: one analyzed record per segment, in order. Every record carries the one global tone result. The problematic records are collected as an order-preserving filter, and their number is counted.
- **Output folder name**: the last `/` component of the input path, cut before its first `.`.

Classifier pipelines, the translator, the per-language analyzers used by the report loop, the `\w` character class and `str.lower` are parameters (functions). Their results come from model inference or Unicode tables.

Modules: `Seqs` (Option, filter, subsequence), `TextMatch` (`\b`-delimited search), `Scores` (label/score entries, stable sort, first maximum), `HebrewText`, `EnglishText`, `Segmenter`, `Fusion`, `Report`, `OutputName`.

The model follows the code as written:
- The English sentiment is the sentiment pipeline's first result, taken without sorting.
- The flat-text fallback holds the whole transcript value. At run time this is the transcript file's path, because `transcribe_audio_file` returns a path (scripts/transcribe.py:40).
- A failing translator call is not caught.
- The toxicity threshold 0.5 and the keyword lists are fixed constants in the code.

## Model

| member | source | states |
|---|---|---|
| Segmenter.ChunkTranscriptWithTimestamps | main.py:27-47 | one output segment per input record, same order, `start`/`end` copied, text = the record's text stripped; a transcript with no "segments" key gives the empty list |
| Segmenter.SegmentTranscript | main.py:173-179 | a transcript with a segment list is chunked as above; any other transcript gives exactly one segment `(0.0, 0.0, value)` with the value not stripped |
| Segmenter.StripLeftRemovesLeadingSpace | main.py:45 | the left strip removes a prefix made only of whitespace, and the remaining text does not start with whitespace |
| Segmenter.StripRightRemovesTrailingSpace | main.py:45 | the right strip removes a suffix made only of whitespace, and the remaining text does not end with whitespace |
| Segmenter.Strip | main.py:45 | `str.strip()`: the result is never longer than the text; what it removes is stated by StripIsTrimmedSlice and StripIdempotent |
| Segmenter.StripIsTrimmedSlice | main.py:45 | the stripped text has no leading or trailing whitespace and is the contiguous slice of the input between an all-whitespace prefix and an all-whitespace suffix |
| Segmenter.StripIdempotent | main.py:45 | stripping twice equals stripping once |
| TextMatch.Search | scripts/analyze_text_hebrew.py:38-39 | the search for `\b` keyword `\b` succeeds exactly when the keyword occurs literally at some position with a word boundary before and after it |
| TextMatch.LowerStr | scripts/analyze_text_english.py:34-35 | `str.lower()` applied per character through `lower`, so the length is kept; what this leaves out is on the EnglishText.EnglishHits line under Left out |
| TextMatch.NoMatchInsideWord | scripts/analyze_text_english.py:34-35 | a literal occurrence is not a match when a word character follows it and the keyword ends in one, or a word character precedes it and the keyword starts with one |
| TextMatch.CatNotInBobcat | scripts/analyze_text_english.py:34-35 | "cat" is not found inside "bobcat" |
| TextMatch.CatNotInCategory | scripts/analyze_text_english.py:34-35 | "cat" does not match inside "category" (ASCII word characters) |
| TextMatch.CatInSentence | scripts/analyze_text_english.py:34-35 | "cat" matches as a whole word in "the cat sat" |
| Scores.FirstMaxIndex | scripts/analyze_text_hebrew.py:47-49 | reference choice: an index whose score is maximal, with every earlier score strictly smaller (the first maximum) |
| Scores.InsertByScorePermutes | scripts/analyze_text_hebrew.py:47 | one insertion step adds exactly the inserted entry to the list's contents |
| Scores.InsertByScoreBounded | scripts/analyze_text_hebrew.py:47 | insertion brings in no score above a bound that the entry and the list respect |
| Scores.InsertByScoreSorted | scripts/analyze_text_hebrew.py:47 | inserting into a descending list keeps it descending; the new entry goes first unless the current head strictly outscores it (the stable tie-break) |
| Scores.SortByScoreDesc | scripts/analyze_text_hebrew.py:47 | `sorted(..., key=score, reverse=True)` (also scripts/analyze_text_english.py:60): the result holds exactly the input's entries; its order is stated by SortByScoreDescProps and SortHeadIsFirstMax |
| Scores.SortByScoreDescProps | scripts/analyze_text_hebrew.py:47 | the descending sort returns a permutation of its input whose scores never increase |
| Scores.SortHeadIsFirstMax | scripts/analyze_text_hebrew.py:47-49 | the head of the stable descending sort is the first entry with the highest score |
| Scores.TopScore | scripts/analyze_text_english.py:60-62 | `sorted(..., reverse=True)[0]` is the first highest-scoring entry |
| Seqs.Filter | main.py:216 | a filter never grows the list and keeps only elements that satisfy the predicate |
| Seqs.FilterIsSubsequence | scripts/analyze_text_english.py:32-36 | the filter result is a subsequence of its input (input order kept) |
| Seqs.FilterCounts | main.py:216 | for every value, the filter holds it exactly as often as the input does when it satisfies the predicate, and never otherwise |
| Seqs.FilterMembers | main.py:216 | a value is in the result iff it is in the input and satisfies the predicate |
| Seqs.FilterEmpty | scripts/analyze_text_english.py:32-36 | the result is empty iff no input element satisfies the predicate |
| HebrewText.AnalyzeHebrewText | scripts/analyze_text_hebrew.py:25-68 | the record echoes the text as `text_hebrew`; its keywords are the listed keywords that occur case-sensitively as whole words, in list order; its sentiment is the first highest-scoring entry of the first score list, or `"unknown"`/0.0 when the pipeline returns nothing; there are no toxicity fields; a non-empty result whose first list is empty is excluded by the precondition |
| HebrewText.HebrewHitsInOrder | scripts/analyze_text_hebrew.py:36-40 | the found keywords are a subsequence of the keyword list |
| HebrewText.HebrewHitsExactly | scripts/analyze_text_hebrew.py:37-40 | a keyword is found iff it is listed and occurs literally (case-sensitively) as a whole word; it is found as many times as it is listed |
| HebrewText.HebrewHitsEmpty | scripts/analyze_text_hebrew.py:36-40 | the found list is empty (not absent) iff no listed keyword occurs |
| EnglishText.AnalyzeEnglishText | scripts/analyze_text_english.py:21-74 | the record echoes the text as `text_english`; its keywords are the listed entries, unchanged, whose lower-cased form occurs as a whole word in the lower-cased text, in list order; sentiment is the first result or `"unknown"`/0.0; toxicity is the first highest-scoring entry of the first score list, or `"unknown"`/0.0 when the outer or the first inner list is empty |
| EnglishText.EnglishHitsInOrder | scripts/analyze_text_english.py:32-36 | the found keywords are a subsequence of the keyword list |
| EnglishText.EnglishHitsExactly | scripts/analyze_text_english.py:33-36 | a listed entry is found, in its listed spelling and as often as listed, iff its lower-cased form occurs as a whole word in the lower-cased text |
| EnglishText.EnglishHitsEmpty | scripts/analyze_text_english.py:32-36 | the found list is empty (not absent) iff no listed keyword occurs |
| EnglishText.EnglishHitsIgnoreCase | scripts/analyze_text_english.py:34-35 | two texts with the same lower-cased form give the same keywords |
| Fusion.IsSegmentProblematic | main.py:79-110 | the verdict is true iff Hebrew keywords were found, or English keywords were found, or English toxicity is labelled "toxic" with score > 0.5, or the tone is loud or high-pitched |
| Fusion.HebrewKeywordsDominate | main.py:89-90 | non-empty Hebrew keywords make the segment problematic whatever the English analysis and the tone are |
| Fusion.ToneDominates | main.py:104-107 | a loud or high-pitched tone makes every segment problematic |
| Fusion.NoTranslationOnlyHebrewAndTone | main.py:92-100 | with the empty English analysis (no translator) the verdict depends only on the Hebrew keywords and the tone flags |
| Fusion.QuietSegmentNotProblematic | main.py:88-110 | no keywords in either language, no English toxicity above 0.5 and both tone flags false give "not problematic" |
| Fusion.VerdictIgnoresSentiment | main.py:88-110 | sentiment, the texts and the tone measurements never affect the verdict: analyses that agree on keywords, English toxicity and tone flags get the same verdict |
| Report.AnalyzeSegmentText | main.py:50-76 | the Hebrew analysis of the text is always present; the English analysis is present iff there is a translator, and is then the English analysis of the translated text |
| Report.AnalyzeSegments | main.py:195-213 | one analyzed record per segment in segment order, each with the segment's start, end and text, its text analysis, the same global tone result, and `problematic` equal to the fusion verdict on that analysis |
| Report.ProblematicSegments | main.py:216 | the problematic list is an order-preserving subsequence of the analyzed list; every record occurs in it exactly as often as in the analyzed list when it is flagged and not at all otherwise; holds nothing else |
| Report.ProblematicCount | main.py:216-217 | the length of the comprehension behind the problematic list, i.e. `num_problems`, is the number of positions of the analyzed list whose record is flagged |
| Report.ProcessRecording | main.py:173-217 | segmenting, analyzing and filtering together: segment list as above, one analyzed record per segment, the problematic filter, and `num_problems` = its length = the number of flagged analyzed segments ≤ number of analyzed segments |
| Report.QuietAndLoudRecording | main.py:173-217 | the one-segment transcript " שלום " run through the whole pipeline gives one record with text "שלום", not problematic and no problems for a quiet tone, problematic and one problem for a loud tone |
| Report.QuietAndLoudExample | main.py:196-213 | " שלום " is stored as "שלום"; with no keyword hit, no translator and a quiet tone it is not problematic, and with a loud tone it is |
| OutputName.Find | main.py:151 | `find` returns -1 iff the character is absent, otherwise the index of its first occurrence |
| OutputName.Split | main.py:150 | `split` always returns at least one piece, so `[-1]` is defined |
| OutputName.SplitPiecesLackSeparator | main.py:150 | no piece returned by `split` holds the separator |
| OutputName.JoinSplit | main.py:150 | joining the split pieces with the separator gives back the original string |
| OutputName.SplitAtFirstSeparator | main.py:150 | `split` cuts at the first separator that `find` reports and then splits the rest |
| OutputName.SplitWithoutSeparator | main.py:151 | a string without the separator splits into itself alone, so the second `split('/')[-1]` changes nothing |
| OutputName.LastComponent | main.py:150 | `split('/')[-1]`: the component holds no `/`; where it sits in the path is stated by LastComponentIsSuffix |
| OutputName.LastComponentIsSuffix | main.py:150 | the last component is a suffix of the path that is either the whole path or preceded by `/`, and it is the whole path exactly when `split` returns a single piece |
| OutputName.OutputFolderName | main.py:150-151 | the folder name has no `/` and no `.`; it is a prefix of the last path component; it is the whole component when that has no `.`, and otherwise stops exactly at the component's first `.` |

## Left out

- Audio preprocessing (scripts/preprocess.py): audio I/O and floating-point signal processing.
- Transcription (scripts/transcribe.py): Whisper model calls and transcript file caching. Its only relevant fact, that it returns a path string, is reflected in the `Transcript` type.
- Tone measurement (scripts/analyze_tone.py): audio loading, float means, pitch tracking. Its result is an input record whose `loud` and `high_pitch` flags are plain booleans, computed once per recording.
- scripts/analyze_text.py: a wrapper that calls both analyzers and adds nothing to them.
- Model and pipeline loading, and the googletrans translator: the pipelines and the translator are function parameters. The report loop takes the two analyzers as injected functions, not the analyzer methods.
- The keyword lists come from consts.py and common/consts.py, which are not part of this model. They are parameters.
- Argument parsing, `mkdir`, `os.path.join` of the folder name, `print` (including the first problematic segment), and writing results.json: I/O plumbing.
- The `__main__` demo blocks of every script.
- SegmentTranscript: a value that is a dict without a "segments" key is not modelled as a dict. The source would put the dict object itself into `text`. The model's non-segmented transcript is a string, which is what the transcriber actually returns.
- AnalyzeEnglishText: it does not model a toxicity result that is truthy but not a list (`isinstance` check); pipeline outputs are always lists here.
- TextMatch.Search: models only the `\b` literal `\b` pattern that `re.escape` produces. `\w` is the `isWord` parameter.
- EnglishText.EnglishHits: `str.lower` is modelled character by character through the `lower` parameter. Lower-casing that changes a string's length (such as U+0130) is not modelled, nor is context-dependent lower-casing: Python lowers a capital sigma to ς at the end of a word and to σ elsewhere, which a per-character function cannot express.
- HebrewText.AnalyzeHebrewText: it requires that a non-empty sentiment result has a non-empty first list. The source raises IndexError there, and the model does not represent that crash.
- Report.AnalyzeSegmentText: the translator is a total function. A failing translation call, which the source does not catch, is not modelled.
- Scores.SortByScoreDescProps: the proofs cover the head of the sort, sortedness and permutation. Stability is not stated for entries past the head, because only the head is used.
- Times and scores are `real`, so floating-point rounding and NaN scores are not modelled. Scores are only compared.
