/** How the three entry points fit together: `train` writes the milestone
    checkpoints, `val` scans the candidate epochs `range(25, 30, 5)` and
    `test` loads the milestone of epoch 25. */
module Pipeline {
  import opened Wrappers
  import opened Paths
  import opened Checkpoint
  import opened Training
  import opened Validation
  import opened Inference

  /** A fresh run of at least 25 epochs leaves the epoch-25 milestone, holding
      the trainer as it was after exactly 25 epochs; `val` then evaluates it
      (so the missing-milestone error cannot arise, and it succeeds whenever
      there is a held-out sample), and `test` classifies with its weights
      (and raises only on an empty image folder). */
  lemma FreshRunFeedsValAndTest<W, O, S, B, I>(weightsPath: string, nEpochs: int, init: Trainer<W, O, S>, setup: Setup<W, O, S, B>,
                                               samples: seq<Sample<I>>, dir: map<string, Record>, outputDir: string, items: seq<Item<I>>,
                                               predict: (W, I) -> ClassIndex)
    requires nEpochs >= 25
    ensures var files := TrainedFiles(map[], weightsPath, nEpochs, init, setup);
            var trained := AfterEpochs(init, 0, 25, setup);
            && MilestoneName(weightsPath, InferenceEpoch) in files
            && files[MilestoneName(weightsPath, InferenceEpoch)] == BundleOf(25, trained)
            && Evaluated(files, weightsPath, ValidationEpochs) == |ValidationEpochs|
            && IntendedValOutcome(files, weightsPath, ValidationEpochs, samples, predict) == ValOutcome(files, weightsPath, ValidationEpochs, samples, predict)
            && (samples != [] ==> ValOutcome(files, weightsPath, ValidationEpochs, samples, predict).Success?)
            && TestOutcome(dir, files, weightsPath, outputDir, items, predict)
               == if items == [] then Failure(EmptyImageFolder) else Success(ResultsAfter(dir, outputDir, items, trained.model, predict))
  {
    var empty: map<string, Bundle<W, O, S>> := map[];
    assert Resume(empty, weightsPath, init) == (0, init);
    MilestonesKept(empty, weightsPath, init, 0, nEpochs, 25, setup);
  }
}
