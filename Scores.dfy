/** Classifier outputs and the choice of the top-scoring label.

    The analyzers pick a label with `sorted(xs, key=score, reverse=True)[0]`.
    Python's sort is stable also when reversed, so among equal scores the
    earlier entry stays first. The sort is modelled as a stable insertion
    sort; the choice is specified independently by `FirstMaxIndex`. Scores
    are only compared, never computed with, so they are `real`. */
module Scores {

  /** One `{"label": ..., "score": ...}` entry of a pipeline result. */
  datatype LabelScore = LabelScore(labelName: string, score: real)

  /** The neutral value used when a classifier returns nothing. */
  const Unknown := LabelScore("unknown", 0.0)

  /** The index of the first entry with the highest score. */
  function FirstMaxIndex(xs: seq<LabelScore>): (i: nat)
    requires |xs| > 0
    ensures i < |xs|
    ensures forall j :: 0 <= j < |xs| ==> xs[j].score <= xs[i].score
    ensures forall j :: 0 <= j < i ==> xs[j].score < xs[i].score
  {
    if |xs| == 1 then 0
    else
      var k := 1 + FirstMaxIndex(xs[1..]);
      if xs[k].score <= xs[0].score then 0 else k
  }

  /** Scores never increase along `s`. */
  predicate SortedDesc(s: seq<LabelScore>)
  {
    forall i, j :: 0 <= i < j < |s| ==> s[i].score >= s[j].score
  }

  /** Inserts `x`, which came before every element of `ys` in the input,
      in front of the first element that does not outscore it. */
  function InsertByScore(x: LabelScore, ys: seq<LabelScore>): (r: seq<LabelScore>)
    ensures |r| == |ys| + 1
  {
    if ys == [] || ys[0].score <= x.score then [x] + ys
    else [ys[0]] + InsertByScore(x, ys[1..])
  }

  /** `sorted(xs, key=lambda x: x["score"], reverse=True)`: the same entries,
      rearranged (sortedness is `SortByScoreDescProps`). */
  function SortByScoreDesc(xs: seq<LabelScore>): (r: seq<LabelScore>)
    ensures multiset(r) == multiset(xs)
  {
    if xs == [] then []
    else
      var rest := SortByScoreDesc(xs[1..]);
      InsertByScorePermutes(xs[0], rest);
      assert xs == [xs[0]] + xs[1..];
      InsertByScore(xs[0], rest)
  }

  /** Insertion adds exactly the inserted entry. */
  lemma {:induction false} InsertByScorePermutes(x: LabelScore, ys: seq<LabelScore>)
    ensures multiset(InsertByScore(x, ys)) == multiset(ys) + multiset{x}
    decreases |ys|
  {
    if ys != [] && ys[0].score > x.score {
      InsertByScorePermutes(x, ys[1..]);
      assert ys == [ys[0]] + ys[1..];
    }
  }

  /** Insertion never brings in a score above a bound that every entry respects. */
  lemma {:induction false} InsertByScoreBounded(x: LabelScore, ys: seq<LabelScore>, bound: real)
    requires x.score <= bound
    requires forall k :: 0 <= k < |ys| ==> ys[k].score <= bound
    ensures forall k :: 0 <= k < |InsertByScore(x, ys)| ==> InsertByScore(x, ys)[k].score <= bound
    decreases |ys|
  {
    if ys != [] && ys[0].score > x.score {
      InsertByScoreBounded(x, ys[1..], bound);
    }
  }

  /** Insertion into a descending list keeps it descending, and puts the
      inserted entry first unless the current head outscores it. */
  lemma {:induction false} InsertByScoreSorted(x: LabelScore, ys: seq<LabelScore>)
    requires SortedDesc(ys)
    ensures SortedDesc(InsertByScore(x, ys))
    ensures InsertByScore(x, ys) != [] &&
      InsertByScore(x, ys)[0] == if ys == [] || ys[0].score <= x.score then x else ys[0]
    decreases |ys|
  {
    if ys != [] && ys[0].score > x.score {
      var tail := ys[1..];
      InsertByScoreSorted(x, tail);
      InsertByScoreBounded(x, tail, ys[0].score);
      var r := InsertByScore(x, tail);
      var out := [ys[0]] + r;
      assert InsertByScore(x, ys) == out;
      forall i, j | 0 <= i < j < |out|
        ensures out[i].score >= out[j].score
      {
        if i > 0 {
          assert out[i] == r[i - 1];
        }
        assert out[j] == r[j - 1];
      }
    }
  }

  /** The sort yields a descending permutation of its input. */
  lemma {:induction false} SortByScoreDescProps(xs: seq<LabelScore>)
    ensures SortedDesc(SortByScoreDesc(xs))
    ensures multiset(SortByScoreDesc(xs)) == multiset(xs)
    ensures |SortByScoreDesc(xs)| == |xs|
    decreases |xs|
  {
    if xs != [] {
      SortByScoreDescProps(xs[1..]);
      InsertByScoreSorted(xs[0], SortByScoreDesc(xs[1..]));
      InsertByScorePermutes(xs[0], SortByScoreDesc(xs[1..]));
      assert xs == [xs[0]] + xs[1..];
      assert |SortByScoreDesc(xs)| == |multiset(SortByScoreDesc(xs))|;
    }
  }

  /** The head of the stable descending sort is the first highest-scoring entry. */
  lemma {:induction false} SortHeadIsFirstMax(xs: seq<LabelScore>)
    requires |xs| > 0
    ensures SortByScoreDesc(xs) != [] && SortByScoreDesc(xs)[0] == xs[FirstMaxIndex(xs)]
    decreases |xs|
  {
    var rest := SortByScoreDesc(xs[1..]);
    SortByScoreDescProps(xs[1..]);
    InsertByScoreSorted(xs[0], rest);
    if |xs| > 1 {
      SortHeadIsFirstMax(xs[1..]);
    }
  }

  /** `sorted(xs, key=score, reverse=True)[0]`: the earliest entry with the highest score. */
  function TopScore(xs: seq<LabelScore>): (top: LabelScore)
    requires |xs| > 0
    ensures top == xs[FirstMaxIndex(xs)]
  {
    SortHeadIsFirstMax(xs);
    SortByScoreDesc(xs)[0]
  }
}
