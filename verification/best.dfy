/** The running maximum of the five-role search: `best_score` starts at -1
    and a candidate replaces the current best only when its score is
    strictly greater, so the first candidate reaching the maximum is kept.
    The same rule merges the bests of several chunks. */
module BestSoFar {
  import opened Wrappers
  import opened Combinatorics
  import opened TopN

  /** `(best_combination, best_score)`; the empty dictionary `{}` is `None`. */
  datatype Best<T> = Best(combination: Option<T>, score: int)

  /** `best_score = -1; best_combination = {}`. */
  function Start<T>(): Best<T>
  {
    Best(None, -1)
  }

  /** One step of the loop: a strictly greater score replaces the best. */
  function Step<T>(b: Best<T>, x: Ranked<T>): Best<T>
  {
    if x.score > b.score then Best(Some(x.item), x.score) else b
  }

  /** The best after a whole list of steps, starting from `acc`. */
  function FoldBest<T>(acc: Best<T>, xs: seq<Ranked<T>>): (r: Best<T>)
    ensures r.score >= acc.score
  {
    if xs == [] then acc else Step(FoldBest(acc, xs[..|xs| - 1]), xs[|xs| - 1])
  }

  /** The best of a list, starting from `({}, -1)`. */
  function RunningBest<T>(xs: seq<Ranked<T>>): Best<T>
  {
    FoldBest(Start(), xs)
  }

  /** One more item of the loop. */
  lemma RunningBestStep<T>(xs: seq<Ranked<T>>, i: nat)
    requires i < |xs|
    ensures RunningBest(xs[..i + 1]) == Step(RunningBest(xs[..i]), xs[i])
  {
    assert xs[..i + 1][..i] == xs[..i];
  }

  /** The running best is the maximum of the scores (or -1), held by the
      first item that reaches it; there is no combination exactly when no
      score exceeds -1. */
  lemma {:induction false} RunningBestIsFirstMax<T>(xs: seq<Ranked<T>>)
    ensures var b := RunningBest(xs);
            && b.score >= -1
            && (forall j :: 0 <= j < |xs| ==> xs[j].score <= b.score)
            && (b.combination.None? <==> forall j :: 0 <= j < |xs| ==> xs[j].score <= -1)
            && (b.combination.None? ==> b.score == -1)
            && (b.combination.Some? ==>
                  exists i :: 0 <= i < |xs| && xs[i] == Ranked(b.combination.value, b.score)
                              && forall j :: 0 <= j < i ==> xs[j].score < b.score)
  {
    if xs != [] {
      var n := |xs| - 1;
      var init := xs[..n];
      RunningBestIsFirstMax(init);
      var b0 := RunningBest(init);
      var b := RunningBest(xs);
      assert forall j :: 0 <= j < n ==> xs[j] == init[j];
      if xs[n].score > b0.score {
        assert b == Best(Some(xs[n].item), xs[n].score);
        assert xs[n] == Ranked(b.combination.value, b.score);
      } else {
        assert b == b0;
        if b0.combination.Some? {
          var i :| 0 <= i < n && init[i] == Ranked(b0.combination.value, b0.score)
                   && forall j :: 0 <= j < i ==> init[j].score < b0.score;
          assert xs[i] == init[i];
        }
      }
    }
  }

  /** `if chunk_best_score > best_score`: the merge of two bests. */
  function Combine<T>(a: Best<T>, b: Best<T>): Best<T>
  {
    if b.score > a.score then b else a
  }

  /** The merge loop over a list of bests, starting from `({}, -1)`. */
  function MergeBest<T>(bs: seq<Best<T>>): Best<T>
  {
    if bs == [] then Start() else Combine(MergeBest(bs[..|bs| - 1]), bs[|bs| - 1])
  }

  /** Continuing from an accumulated best that is at least -1 is the same
      as merging that best with the best of the rest. */
  lemma {:induction false} FoldFrom<T>(acc: Best<T>, xs: seq<Ranked<T>>)
    requires acc.score >= -1
    ensures FoldBest(acc, xs) == Combine(acc, RunningBest(xs))
  {
    if xs != [] {
      FoldFrom(acc, xs[..|xs| - 1]);
    }
  }

  /** Folding over a concatenation folds over each part in turn. */
  lemma {:induction false} FoldAppend<T>(acc: Best<T>, xs: seq<Ranked<T>>, ys: seq<Ranked<T>>)
    ensures FoldBest(acc, xs + ys) == FoldBest(FoldBest(acc, xs), ys)
    decreases |ys|
  {
    if ys == [] {
      assert xs + ys == xs;
    } else {
      var k := |ys| - 1;
      assert (xs + ys)[..|xs + ys| - 1] == xs + ys[..k];
      FoldAppend(acc, xs, ys[..k]);
    }
  }

  /** The best of each chunk. */
  function BestsOf<T>(chunks: seq<seq<Ranked<T>>>): (r: seq<Best<T>>)
    ensures |r| == |chunks| && forall q :: 0 <= q < |chunks| ==> r[q] == RunningBest(chunks[q])
  {
    seq(|chunks|, q requires 0 <= q < |chunks| => RunningBest(chunks[q]))
  }

  /** Merging the chunk bests in chunk order gives the best of the whole
      list: the first maximum survives contiguous chunking. */
  lemma {:induction false} MergeOfChunks<T>(chunks: seq<seq<Ranked<T>>>)
    ensures MergeBest(BestsOf(chunks)) == RunningBest(Flatten(chunks))
  {
    if chunks != [] {
      var n := |chunks| - 1;
      var init := chunks[..n];
      MergeOfChunks(init);
      assert BestsOf(chunks)[..n] == BestsOf(init);
      assert chunks == init + [chunks[n]];
      FlattenAppend(init, [chunks[n]]);
      assert Flatten([chunks[n]]) == chunks[n] by {
        assert [chunks[n]][1..] == [];
      }
      FoldAppend(Start(), Flatten(init), chunks[n]);
      FoldFrom(RunningBest(Flatten(init)), chunks[n]);
    }
  }
}
