/** The `val` entry point: for each candidate epoch in order, load its
    milestone (stopping the scan at the first one that is missing), count the
    held-out samples whose arg-max prediction equals the label, and keep the
    best (count, epoch) pair, replacing it only on a strict improvement. */
module Validation {
  import opened Wrappers
  import opened Paths
  import opened Checkpoint

  /** An arg-max over the two logits: 0 is "sleeve", 1 is "sleeveless". */
  type ClassIndex = c: int | 0 <= c < 2

  /** One held-out sample: an image and its integer label. */
  datatype Sample<I> = Sample(image: I, classLabel: int)

  /** The correct count of one evaluated epoch. */
  datatype EpochScore = EpochScore(epoch: nat, correct: nat)

  /** What `val` prints: each evaluated epoch's correct count out of `total`,
      then the best epoch and its count. */
  datatype Report = Report(scores: seq<EpochScore>, bestScore: nat, bestEpoch: nat, total: nat)

  /** The exceptions `val` raises: the `ValueError` of the shuffling loader
      built for the first loaded milestone when the held-out set is empty, and
      an `UnboundLocalError` when the final report reads `dataloader_test`
      although no milestone was loaded. */
  datatype ValError = EmptyValidationSet | NoMilestoneEvaluated

  /** The candidate epochs of the source, `range(25, 30, 5)`. */
  const ValidationEpochs: seq<nat> := [25]

  /** 1 when the weights `w` classify `sample` correctly, 0 otherwise. */
  function Hit<W, I>(w: W, sample: Sample<I>, predict: (W, I) -> ClassIndex): nat
  {
    if predict(w, sample.image) == sample.classLabel then 1 else 0
  }

  /** The number of samples the weights `w` classify correctly. */
  function CorrectCount<W, I>(w: W, samples: seq<Sample<I>>, predict: (W, I) -> ClassIndex): (c: nat)
    ensures c <= |samples|
  {
    if samples == [] then 0
    else CorrectCount(w, samples[..|samples| - 1], predict) + Hit(w, samples[|samples| - 1], predict)
  }

  /** The number of samples labelled `k`. */
  function LabelCount<I>(samples: seq<Sample<I>>, k: int): nat
  {
    if samples == [] then 0
    else LabelCount(samples[..|samples| - 1], k) + (if samples[|samples| - 1].classLabel == k then 1 else 0)
  }

  /** Counting a concatenation is adding the counts. */
  lemma {:induction false} CorrectCountAppend<W, I>(w: W, s1: seq<Sample<I>>, s2: seq<Sample<I>>, predict: (W, I) -> ClassIndex)
    ensures CorrectCount(w, s1 + s2, predict) == CorrectCount(w, s1, predict) + CorrectCount(w, s2, predict)
    decreases |s2|
  {
    if s2 != [] {
      assert (s1 + s2)[..|s1 + s2| - 1] == s1 + s2[..|s2| - 1];
      CorrectCountAppend(w, s1, s2[..|s2| - 1], predict);
    } else {
      assert s1 + s2 == s1;
    }
  }

  /** Taking the element at `j` out of `s` takes one occurrence of it out of
      the multiset. */
  lemma MultisetRemove<T>(s: seq<T>, j: nat)
    requires j < |s|
    ensures multiset(s[..j] + s[j + 1..]) == multiset(s) - multiset{s[j]}
  {
    assert s == s[..j] + [s[j]] + s[j + 1..];
  }

  /** Taking the sample at `j` out of `s` takes its hit out of the count. */
  lemma CorrectCountRemove<W, I>(w: W, s: seq<Sample<I>>, j: nat, predict: (W, I) -> ClassIndex)
    requires j < |s|
    ensures CorrectCount(w, s, predict) == CorrectCount(w, s[..j] + s[j + 1..], predict) + Hit(w, s[j], predict)
  {
    var front, back := s[..j], s[j + 1..];
    var withX := front + [s[j]];
    assert withX == s[..j + 1];
    assert s == s[..j + 1] + s[j + 1..];
    assert withX[..|withX| - 1] == front;
    CorrectCountAppend(w, withX, back, predict);
    CorrectCountAppend(w, front, back, predict);
  }

  /** The count does not depend on the order the shuffled loader yields the
      samples in. */
  lemma {:induction false} CorrectCountShuffled<W, I>(w: W, s1: seq<Sample<I>>, s2: seq<Sample<I>>, predict: (W, I) -> ClassIndex)
    requires multiset(s1) == multiset(s2)
    ensures CorrectCount(w, s1, predict) == CorrectCount(w, s2, predict)
    decreases |s1|
  {
    if s1 == [] {
      assert |s2| == |multiset(s2)| == 0;
    } else {
      var n := |s1| - 1;
      var x := s1[n];
      assert x in multiset(s1);
      var j :| 0 <= j < |s2| && s2[j] == x;
      MultisetRemove(s2, j);
      CorrectCountRemove(w, s2, j, predict);
      assert s1[..n] + s1[n + 1..] == s1[..n];
      MultisetRemove(s1, n);
      CorrectCountRemove(w, s1, n, predict);
      CorrectCountShuffled(w, s1[..n], s2[..j] + s2[j + 1..], predict);
    }
  }

  /** A classifier that answers `k` for every image is right exactly on the
      samples labelled `k`. */
  lemma {:induction false} ConstantClassifierCount<W, I>(w: W, samples: seq<Sample<I>>, predict: (W, I) -> ClassIndex, k: ClassIndex)
    requires forall i :: 0 <= i < |samples| ==> predict(w, samples[i].image) == k
    ensures CorrectCount(w, samples, predict) == LabelCount(samples, k)
    decreases |samples|
  {
    if samples != [] {
      var init := samples[..|samples| - 1];
      assert forall i :: 0 <= i < |init| ==> init[i] == samples[i];
      ConstantClassifierCount(w, init, predict, k);
    }
  }

  /** How many candidates, from the first, have a milestone file: the scan
      loads these and stops at the next one. */
  function Evaluated<W, O, S>(files: map<string, Bundle<W, O, S>>, weightsPath: string, candidates: seq<nat>): (k: nat)
    ensures k <= |candidates|
    ensures forall i :: 0 <= i < k ==> MilestoneName(weightsPath, candidates[i]) in files
    ensures k < |candidates| ==> MilestoneName(weightsPath, candidates[k]) !in files
  {
    if candidates == [] || MilestoneName(weightsPath, candidates[0]) !in files then 0
    else 1 + Evaluated(files, weightsPath, candidates[1..])
  }

  /** The scores of the epochs `epochs`, all of which have a milestone file. */
  function Scores<W, O, S, I>(files: map<string, Bundle<W, O, S>>, weightsPath: string, epochs: seq<nat>, samples: seq<Sample<I>>, predict: (W, I) -> ClassIndex): (r: seq<EpochScore>)
    requires forall i :: 0 <= i < |epochs| ==> MilestoneName(weightsPath, epochs[i]) in files
    ensures |r| == |epochs|
    ensures forall i :: 0 <= i < |r| ==> r[i].epoch == epochs[i] && r[i].correct <= |samples|
  {
    if epochs == [] then []
    else
      var e := epochs[|epochs| - 1];
      Scores(files, weightsPath, epochs[..|epochs| - 1], samples, predict)
        + [EpochScore(e, CorrectCount(files[MilestoneName(weightsPath, e)].stateDict, samples, predict))]
  }

  /** Scoring one more candidate appends its score. */
  lemma ScoresStep<W, O, S, I>(files: map<string, Bundle<W, O, S>>, weightsPath: string, candidates: seq<nat>, i: nat, samples: seq<Sample<I>>, predict: (W, I) -> ClassIndex)
    requires i < |candidates|
    requires forall j :: 0 <= j <= i ==> MilestoneName(weightsPath, candidates[j]) in files
    ensures Scores(files, weightsPath, candidates[..i + 1], samples, predict)
            == Scores(files, weightsPath, candidates[..i], samples, predict)
               + [EpochScore(candidates[i], CorrectCount(files[MilestoneName(weightsPath, candidates[i])].stateDict, samples, predict))]
  {
    assert candidates[..i + 1][..i] == candidates[..i];
  }

  /** The (best_score, best_epoch) pair after the given scores, starting from
      (0, 0) and replacing it only when a count is strictly greater. */
  function Best(scores: seq<EpochScore>): (r: (nat, nat))
    ensures r == (0, 0) || exists i :: 0 <= i < |scores| && scores[i].correct == r.0 && scores[i].epoch == r.1
  {
    if scores == [] then (0, 0)
    else
      var prev := Best(scores[..|scores| - 1]);
      var s := scores[|scores| - 1];
      if s.correct > prev.0 then (s.correct, s.epoch) else prev
  }

  /** What `val` ends in, as the source is written. */
  function ValOutcome<W, O, S, I>(files: map<string, Bundle<W, O, S>>, weightsPath: string, candidates: seq<nat>, samples: seq<Sample<I>>, predict: (W, I) -> ClassIndex): Result<Report, ValError>
  {
    var k := Evaluated(files, weightsPath, candidates);
    if k == 0 then Failure(NoMilestoneEvaluated)
    else if samples == [] then Failure(EmptyValidationSet)
    else
      var scores := Scores(files, weightsPath, candidates[..k], samples, predict);
      Success(Report(scores, Best(scores).0, Best(scores).1, |samples|))
  }

  /** The best pair is the first maximum: its count is at least every
      evaluated count; it is (0, 0) when no count is positive; otherwise it is
      the count and epoch of the first score that reaches it, so a tie keeps
      the earlier epoch. */
  lemma {:induction false} BestIsFirstMaximum(scores: seq<EpochScore>)
    ensures forall i :: 0 <= i < |scores| ==> scores[i].correct <= Best(scores).0
    ensures Best(scores).0 == 0 ==> Best(scores).1 == 0
    ensures Best(scores).0 > 0 ==>
              exists i :: 0 <= i < |scores| && scores[i].correct == Best(scores).0 && scores[i].epoch == Best(scores).1
                          && forall j :: 0 <= j < i ==> scores[j].correct < Best(scores).0
  {
    if scores != [] {
      var init := scores[..|scores| - 1];
      BestIsFirstMaximum(init);
      assert forall i :: 0 <= i < |init| ==> init[i] == scores[i];
      var last := scores[|scores| - 1];
      if last.correct > Best(init).0 {
        assert forall j :: 0 <= j < |scores| - 1 ==> scores[j].correct < Best(scores).0;
      } else if Best(init).0 > 0 {
        var i :| 0 <= i < |init| && init[i].correct == Best(init).0 && init[i].epoch == Best(init).1
                 && forall j :: 0 <= j < i ==> init[j].correct < Best(init).0;
        assert scores[i] == init[i];
      }
    }
  }

  /** `val`, as the source is written. The inner loop counts correct
      predictions; `loaded` records whether `dataloader_test` was ever bound. */
  method Validate<W, O, S, I>(store: CheckpointStore<W, O, S>, weightsPath: string, candidates: seq<nat>, samples: seq<Sample<I>>, predict: (W, I) -> ClassIndex)
    returns (outcome: Result<Report, ValError>)
    ensures outcome == ValOutcome(store.files, weightsPath, candidates, samples, predict)
  {
    var bestScore: nat, bestEpoch: nat := 0, 0;
    var scores: seq<EpochScore> := [];
    var loaded := false;
    ghost var k := Evaluated(store.files, weightsPath, candidates);
    var i := 0;
    while i < |candidates|
      invariant i <= k
      invariant loaded <==> i > 0
      invariant samples != [] || i == 0
      invariant scores == Scores(store.files, weightsPath, candidates[..i], samples, predict)
      invariant (bestScore, bestEpoch) == Best(scores)
    {
      var name := MilestoneName(weightsPath, candidates[i]);
      var present := store.IsFile(name);
      if !present {
        break;
      }
      var checkpoint := store.Load(name);
      if samples == [] {
        return Failure(EmptyValidationSet);
      }
      loaded := true;
      var correct := CountCorrect(checkpoint.value.stateDict, samples, predict);
      ScoresStep(store.files, weightsPath, candidates, i, samples, predict);
      scores := scores + [EpochScore(candidates[i], correct)];
      if correct > bestScore {
        bestScore, bestEpoch := correct, candidates[i];
      }
      i := i + 1;
    }
    assert i == k;
    if !loaded {
      return Failure(NoMilestoneEvaluated);
    }
    outcome := Success(Report(scores, bestScore, bestEpoch, |samples|));
  }

  /** The inner loop of `val`: one prediction per sample, adding one to
      `correct` when it equals the label. */
  method CountCorrect<W, I>(w: W, samples: seq<Sample<I>>, predict: (W, I) -> ClassIndex) returns (correct: nat)
    ensures correct == CorrectCount(w, samples, predict)
    ensures correct <= |samples|
  {
    correct := 0;
    for batchIdx := 0 to |samples|
      invariant correct == CorrectCount(w, samples[..batchIdx], predict)
    {
      assert samples[..batchIdx + 1][..batchIdx] == samples[..batchIdx];
      if predict(w, samples[batchIdx].image) == samples[batchIdx].classLabel {
        correct := correct + 1;
      }
    }
    assert samples[..|samples|] == samples;
  }

  // ---------------------------------------------------------------------
  // The report when no milestone is found.
  // ---------------------------------------------------------------------

  /** What `val` evidently means to do when the scan finds no milestone:
      report that there is no best epoch instead of raising. */
  function IntendedValOutcome<W, O, S, I>(files: map<string, Bundle<W, O, S>>, weightsPath: string, candidates: seq<nat>, samples: seq<Sample<I>>, predict: (W, I) -> ClassIndex): Result<Report, ValError>
  {
    if Evaluated(files, weightsPath, candidates) == 0 then Success(Report([], 0, 0, |samples|))
    else ValOutcome(files, weightsPath, candidates, samples, predict)
  }

  /** When the first candidate's milestone is missing, the source raises
      (here: `NoMilestoneEvaluated`) where it should report no best epoch; the
      intended version does so, and agrees with the source whenever at least
      one milestone was evaluated. */
  lemma MissingFirstMilestoneRaises<W, O, S, I>(files: map<string, Bundle<W, O, S>>, weightsPath: string, candidates: seq<nat>, samples: seq<Sample<I>>, predict: (W, I) -> ClassIndex)
    requires candidates != [] && MilestoneName(weightsPath, candidates[0]) !in files
    ensures ValOutcome(files, weightsPath, candidates, samples, predict) == Failure(NoMilestoneEvaluated)
    ensures IntendedValOutcome(files, weightsPath, candidates, samples, predict).Success?
    ensures IntendedValOutcome(files, weightsPath, candidates, samples, predict).value.scores == []
    ensures IntendedValOutcome(files, weightsPath, candidates, samples, predict).value.bestEpoch == 0
  {
  }

  /** The intended version never reports the missing milestones as an error,
      and changes nothing once a milestone has been evaluated. */
  lemma IntendedValOutcomeAgrees<W, O, S, I>(files: map<string, Bundle<W, O, S>>, weightsPath: string, candidates: seq<nat>, samples: seq<Sample<I>>, predict: (W, I) -> ClassIndex)
    ensures IntendedValOutcome(files, weightsPath, candidates, samples, predict) != Failure(NoMilestoneEvaluated)
    ensures Evaluated(files, weightsPath, candidates) > 0 ==>
              IntendedValOutcome(files, weightsPath, candidates, samples, predict) == ValOutcome(files, weightsPath, candidates, samples, predict)
  {
  }
}
