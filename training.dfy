/** The `train` entry point: resume from the latest checkpoint if there is
    one, then for each remaining epoch run one optimizer step per batch, one
    scheduler step, save the latest checkpoint, and every fifth epoch a
    milestone checkpoint as well. */
module Training {
  import opened Paths
  import opened Checkpoint

  /** What the loop is given besides the checkpoint store: the number of
      batches per epoch (`len(pbar)`, fixed because incomplete batches are
      dropped), the batch at each (epoch, batch index) once the epoch's
      shuffle is done, and the effect of one optimizer step (forward pass,
      cross-entropy loss, `zero_grad`, `backward`, `step`) and of one
      scheduler step on the opaque parts of the state. */
  datatype Setup<!W, !O, !S, !B> = Setup(
    nBatches: nat,
    batchAt: (nat, nat) -> B,
    optimizerUpdate: (W, O, B) -> (W, O),
    schedulerUpdate: (O, S) -> (O, S))

  /** `optimizer.step()` after the loss of `batch` is back-propagated: the
      weights and the moments change, Adam's step count goes up by one, the
      scheduler is untouched. */
  function OptimizerStep<W, O, S, B>(t: Trainer<W, O, S>, batch: B, setup: Setup<W, O, S, B>): Trainer<W, O, S>
  {
    var (w, o) := setup.optimizerUpdate(t.model, t.optimizer.moments, batch);
    Trainer(w, OptimizerState(t.optimizer.steps + 1, o), t.scheduler)
  }

  /** `scheduler.step()`: the learning rate in the optimizer and the schedule
      change, `last_epoch` goes up by one, the weights are untouched. */
  function SchedulerStep<W, O, S, B>(t: Trainer<W, O, S>, setup: Setup<W, O, S, B>): Trainer<W, O, S>
  {
    var (o, s) := setup.schedulerUpdate(t.optimizer.moments, t.scheduler.schedule);
    Trainer(t.model, OptimizerState(t.optimizer.steps, o), SchedulerState(t.scheduler.lastEpoch + 1, s))
  }

  /** The trainer after the first `count` batches of epoch `epochIndex`. */
  function AfterBatches<W, O, S, B>(t: Trainer<W, O, S>, epochIndex: nat, count: nat, setup: Setup<W, O, S, B>): Trainer<W, O, S>
  {
    if count == 0 then t
    else OptimizerStep(AfterBatches(t, epochIndex, count - 1, setup), setup.batchAt(epochIndex, count - 1), setup)
  }

  /** One whole epoch: every batch once, in order, then one scheduler step. */
  function AfterEpoch<W, O, S, B>(t: Trainer<W, O, S>, epochIndex: nat, setup: Setup<W, O, S, B>): Trainer<W, O, S>
  {
    SchedulerStep(AfterBatches(t, epochIndex, setup.nBatches, setup), setup)
  }

  /** The trainer after epoch indices `first .. stop-1`, in increasing order. */
  function AfterEpochs<W, O, S, B>(t: Trainer<W, O, S>, first: nat, stop: int, setup: Setup<W, O, S, B>): Trainer<W, O, S>
    decreases stop - first
  {
    if stop <= first then t
    else AfterEpoch(AfterEpochs(t, first, stop - 1, setup), stop - 1, setup)
  }

  /** Where training starts: the `epoch` and the states of the bundle at
      `weightsPath` when that file exists, epoch 0 and the freshly built
      trainer `init` otherwise. */
  function Resume<W, O, S>(files: map<string, Bundle<W, O, S>>, weightsPath: string, init: Trainer<W, O, S>): (r: (nat, Trainer<W, O, S>))
    ensures weightsPath in files ==> r.0 == files[weightsPath].epoch && BundleOf(r.0, r.1) == files[weightsPath]
    ensures weightsPath !in files ==> r == (0, init)
  {
    if weightsPath in files then (files[weightsPath].epoch, TrainerOf(files[weightsPath])) else (0, init)
  }

  /** The files after the saves that end epoch `epochIndex`, the trainer then
      being `t`: a milestone when `epochIndex % 5 == 4`, then the latest. */
  function SaveEpoch<W, O, S>(files: map<string, Bundle<W, O, S>>, weightsPath: string, epochIndex: nat, t: Trainer<W, O, S>): map<string, Bundle<W, O, S>>
  {
    var bundle := BundleOf(epochIndex + 1, t);
    var withMilestone := if epochIndex % 5 == 4 then files[MilestoneName(weightsPath, epochIndex + 1) := bundle] else files;
    withMilestone[weightsPath := bundle]
  }

  /** The files after epoch indices `first .. stop-1`, starting from trainer `t`. */
  function FilesAfter<W, O, S, B>(files: map<string, Bundle<W, O, S>>, weightsPath: string, t: Trainer<W, O, S>, first: nat, stop: int, setup: Setup<W, O, S, B>): map<string, Bundle<W, O, S>>
    decreases stop - first
  {
    if stop <= first then files
    else SaveEpoch(FilesAfter(files, weightsPath, t, first, stop - 1, setup), weightsPath, stop - 1, AfterEpochs(t, first, stop, setup))
  }

  /** The checkpoint files once `train` has run with `n_epochs = nEpochs`. */
  function TrainedFiles<W, O, S, B>(files: map<string, Bundle<W, O, S>>, weightsPath: string, nEpochs: int, init: Trainer<W, O, S>, setup: Setup<W, O, S, B>): map<string, Bundle<W, O, S>>
  {
    var (start, t) := Resume(files, weightsPath, init);
    FilesAfter(files, weightsPath, t, start, nEpochs, setup)
  }

  /** The milestone files a run over epoch indices `first .. stop-1` writes: one
      per completed-epoch count in `first+1 .. stop` that is a multiple of 5. */
  function MilestoneFiles(weightsPath: string, first: nat, stop: int): set<string>
  {
    set e: nat | first < e <= stop && e % 5 == 0 :: MilestoneName(weightsPath, e)
  }

  /** A bundle is consistent when its optimizer and scheduler have made
      exactly as many steps as `epoch` completed epochs of `nBatches` batches
      make: resuming from it does not repeat or skip any of that progress. */
  predicate Consistent<W, O, S>(b: Bundle<W, O, S>, nBatches: nat)
  {
    b.optimizer.steps == nBatches * b.epoch && b.scheduler.lastEpoch == b.epoch
  }

  // ---------------------------------------------------------------------
  // The loop as the source runs it.
  // ---------------------------------------------------------------------

  /** One epoch of the inner loop: one optimizer step per batch, in batch
      order, then one scheduler step. `logged` holds the step index the loss
      is recorded under, `len(pbar) * epoch_index + batchIdx`, per batch. */
  method RunEpoch<W, O, S, B>(t0: Trainer<W, O, S>, epochIndex: nat, setup: Setup<W, O, S, B>)
    returns (t: Trainer<W, O, S>, logged: seq<nat>)
    ensures t == AfterEpoch(t0, epochIndex, setup)
    ensures |logged| == setup.nBatches
    ensures forall b :: 0 <= b < |logged| ==> logged[b] == setup.nBatches * epochIndex + b
  {
    t, logged := t0, [];
    var batchIdx := 0;
    while batchIdx < setup.nBatches
      invariant batchIdx <= setup.nBatches
      invariant t == AfterBatches(t0, epochIndex, batchIdx, setup)
      invariant |logged| == batchIdx
      invariant forall b :: 0 <= b < batchIdx ==> logged[b] == setup.nBatches * epochIndex + b
    {
      var batch := setup.batchAt(epochIndex, batchIdx);
      logged := logged + [setup.nBatches * epochIndex + batchIdx];
      t := OptimizerStep(t, batch, setup);
      batchIdx := batchIdx + 1;
    }
    t := SchedulerStep(t, setup);
  }

  /** The step indices of one more epoch come after all earlier ones. */
  lemma LogStaysIncreasing(logged: seq<nat>, epochLog: seq<nat>, nBatches: nat, epochIndex: nat)
    requires forall i, j :: 0 <= i < j < |logged| ==> logged[i] < logged[j]
    requires forall i :: 0 <= i < |logged| ==> logged[i] < nBatches * epochIndex
    requires |epochLog| == nBatches
    requires forall b :: 0 <= b < |epochLog| ==> epochLog[b] == nBatches * epochIndex + b
    ensures forall i, j :: 0 <= i < j < |logged + epochLog| ==> (logged + epochLog)[i] < (logged + epochLog)[j]
    ensures forall i :: 0 <= i < |logged + epochLog| ==> (logged + epochLog)[i] < nBatches * (epochIndex + 1)
  {
    assert nBatches * (epochIndex + 1) == nBatches * epochIndex + nBatches;
  }

  /** `train`: resumes, visits each epoch index from the resumed epoch to
      `nEpochs - 1` once in increasing order, logs the loss under strictly
      increasing step indices, and leaves the checkpoint files as
      `TrainedFiles` describes. */
  method Train<W, O, S, B>(store: CheckpointStore<W, O, S>, weightsPath: string, nEpochs: int, init: Trainer<W, O, S>, setup: Setup<W, O, S, B>)
    returns (startEpoch: nat, visited: seq<nat>, logged: seq<nat>)
    modifies store
    ensures startEpoch == Resume(old(store.files), weightsPath, init).0
    ensures |visited| == if startEpoch < nEpochs then nEpochs - startEpoch else 0
    ensures forall i :: 0 <= i < |visited| ==> visited[i] == startEpoch + i
    ensures |logged| == setup.nBatches * |visited|
    ensures forall i, j :: 0 <= i < j < |logged| ==> logged[i] < logged[j]
    ensures store.files == TrainedFiles(old(store.files), weightsPath, nEpochs, init, setup)
  {
    var present := store.IsFile(weightsPath);
    var t: Trainer<W, O, S>;
    if present {
      var loaded := store.Load(weightsPath);
      startEpoch, t := loaded.value.epoch, TrainerOf(loaded.value);
    } else {
      startEpoch, t := 0, init;
    }
    ghost var t0 := t;
    visited, logged := [], [];
    var epochIndex := startEpoch;
    while epochIndex < nEpochs
      invariant startEpoch <= epochIndex
      invariant epochIndex <= nEpochs || epochIndex == startEpoch
      invariant |visited| == epochIndex - startEpoch
      invariant forall i :: 0 <= i < |visited| ==> visited[i] == startEpoch + i
      invariant |logged| == setup.nBatches * |visited|
      invariant forall i, j :: 0 <= i < j < |logged| ==> logged[i] < logged[j]
      invariant forall i :: 0 <= i < |logged| ==> logged[i] < setup.nBatches * epochIndex
      invariant t == AfterEpochs(t0, startEpoch, epochIndex, setup)
      invariant store.files == FilesAfter(old(store.files), weightsPath, t0, startEpoch, epochIndex, setup)
    {
      var epochLog;
      t, epochLog := RunEpoch(t, epochIndex, setup);
      assert setup.nBatches * (|visited| + 1) == setup.nBatches * |visited| + setup.nBatches;
      LogStaysIncreasing(logged, epochLog, setup.nBatches, epochIndex);
      logged := logged + epochLog;
      visited := visited + [epochIndex];
      var bundle := BundleOf(epochIndex + 1, t);
      if epochIndex % 5 == 4 {
        store.Save(MilestoneName(weightsPath, epochIndex + 1), bundle);
      }
      store.Save(weightsPath, bundle);
      epochIndex := epochIndex + 1;
    }
  }

  // ---------------------------------------------------------------------
  // What the loop promises.
  // ---------------------------------------------------------------------

  /** Running `first .. k-1` and then `k .. stop-1` is running `first .. stop-1`. */
  lemma {:induction false} AfterEpochsCompose<W, O, S, B>(t: Trainer<W, O, S>, first: nat, k: nat, stop: int, setup: Setup<W, O, S, B>)
    requires first <= k <= stop
    ensures AfterEpochs(AfterEpochs(t, first, k, setup), k, stop, setup) == AfterEpochs(t, first, stop, setup)
    decreases stop - k
  {
    if k < stop {
      AfterEpochsCompose(t, first, k, stop - 1, setup);
    }
  }

  /** Each optimizer step adds one to Adam's step count and each scheduler
      step one to `last_epoch`: over epochs `first .. stop-1` the optimizer steps
      once per batch and the scheduler once per epoch. */
  lemma {:induction false} StepCounts<W, O, S, B>(t: Trainer<W, O, S>, first: nat, stop: int, setup: Setup<W, O, S, B>)
    requires first <= stop
    ensures AfterEpochs(t, first, stop, setup).optimizer.steps == t.optimizer.steps + setup.nBatches * (stop - first)
    ensures AfterEpochs(t, first, stop, setup).scheduler.lastEpoch == t.scheduler.lastEpoch + (stop - first)
    decreases stop - first
  {
    if first < stop {
      StepCounts(t, first, stop - 1, setup);
      var before := AfterEpochs(t, first, stop - 1, setup);
      BatchStepCount(before, stop - 1, setup.nBatches, setup);
      assert setup.nBatches * (stop - first) == setup.nBatches * (stop - 1 - first) + setup.nBatches;
    }
  }

  /** The first `count` batches of an epoch make `count` optimizer steps and
      leave the scheduler alone. */
  lemma {:induction false} BatchStepCount<W, O, S, B>(t: Trainer<W, O, S>, epochIndex: nat, count: nat, setup: Setup<W, O, S, B>)
    ensures AfterBatches(t, epochIndex, count, setup).optimizer.steps == t.optimizer.steps + count
    ensures AfterBatches(t, epochIndex, count, setup).scheduler == t.scheduler
  {
    if count > 0 {
      BatchStepCount(t, epochIndex, count - 1, setup);
    }
  }

  /** The files of a run from `first` to `k`, followed by a run from `k` to
      `stop` on the trainer reached at `k`, are the files of one run from
      `first` to `stop`. */
  lemma {:induction false} FilesAfterCompose<W, O, S, B>(files: map<string, Bundle<W, O, S>>, weightsPath: string, t: Trainer<W, O, S>, first: nat, k: nat, stop: int, setup: Setup<W, O, S, B>)
    requires first <= k <= stop
    ensures FilesAfter(FilesAfter(files, weightsPath, t, first, k, setup), weightsPath, AfterEpochs(t, first, k, setup), k, stop, setup)
            == FilesAfter(files, weightsPath, t, first, stop, setup)
    decreases stop - k
  {
    if k < stop {
      FilesAfterCompose(files, weightsPath, t, first, k, stop - 1, setup);
      AfterEpochsCompose(t, first, k, stop, setup);
    }
  }

  /** After a run that did at least one epoch, the latest file holds the
      bundle of the final epoch: `epoch` is the number of epochs reached. */
  lemma LatestAfterRun<W, O, S, B>(files: map<string, Bundle<W, O, S>>, weightsPath: string, t: Trainer<W, O, S>, first: nat, stop: int, setup: Setup<W, O, S, B>)
    requires first < stop
    ensures weightsPath in FilesAfter(files, weightsPath, t, first, stop, setup)
    ensures FilesAfter(files, weightsPath, t, first, stop, setup)[weightsPath] == BundleOf(stop, AfterEpochs(t, first, stop, setup))
  {
  }

  /** Resuming from the files a run from `first` to `k` left behind continues
      at epoch index `k` with the trainer that run reached: no epoch is
      repeated and none is skipped. */
  lemma ResumeContinues<W, O, S, B>(files: map<string, Bundle<W, O, S>>, weightsPath: string, init: Trainer<W, O, S>, t: Trainer<W, O, S>, first: nat, k: nat, setup: Setup<W, O, S, B>)
    requires first < k
    ensures Resume(FilesAfter(files, weightsPath, t, first, k, setup), weightsPath, init) == (k, AfterEpochs(t, first, k, setup))
  {
    LatestAfterRun(files, weightsPath, t, first, k, setup);
  }

  /** Stopping `train` after `k` epochs and starting it again with
      `n_epochs = nEpochs` leaves the same checkpoint files as one
      uninterrupted run to `nEpochs`, provided both see the same batch order
      and the same step results in every epoch (the same `setup`). */
  lemma InterruptedRunIsLossless<W, O, S, B>(files: map<string, Bundle<W, O, S>>, weightsPath: string, k: int, nEpochs: int, init: Trainer<W, O, S>, setup: Setup<W, O, S, B>)
    requires k <= nEpochs
    ensures TrainedFiles(TrainedFiles(files, weightsPath, k, init, setup), weightsPath, nEpochs, init, setup)
            == TrainedFiles(files, weightsPath, nEpochs, init, setup)
  {
    var (start, t) := Resume(files, weightsPath, init);
    if start < k {
      var mid := FilesAfter(files, weightsPath, t, start, k, setup);
      ResumeContinues(files, weightsPath, init, t, start, k, setup);
      FilesAfterCompose(files, weightsPath, t, start, k, nEpochs, setup);
    }
  }

  /** What a bundle records about progress: its epoch count, Adam's step
      count and the scheduler's `last_epoch`. */
  function Progress<W, O, S>(b: Bundle<W, O, S>): (nat, nat, nat)
  {
    (b.epoch, b.optimizer.steps, b.scheduler.lastEpoch)
  }

  /** Two sets of checkpoint files with the same paths and the same progress
      in the bundle at each path. */
  predicate SameProgress<W, O, S>(f1: map<string, Bundle<W, O, S>>, f2: map<string, Bundle<W, O, S>>)
  {
    f1.Keys == f2.Keys && forall path :: path in f1 ==> Progress(f1[path]) == Progress(f2[path])
  }

  /** Runs over the same epochs with the same number of batches per epoch,
      from trainers with the same step counts, write the same paths with the
      same progress, whatever the batch order and the step results. */
  lemma {:induction false} FilesAfterProgress<W, O, S, B>(f1: map<string, Bundle<W, O, S>>, f2: map<string, Bundle<W, O, S>>, weightsPath: string,
                                                          t1: Trainer<W, O, S>, t2: Trainer<W, O, S>, first: nat, stop: int,
                                                          s1: Setup<W, O, S, B>, s2: Setup<W, O, S, B>)
    requires SameProgress(f1, f2)
    requires s1.nBatches == s2.nBatches
    requires t1.optimizer.steps == t2.optimizer.steps && t1.scheduler.lastEpoch == t2.scheduler.lastEpoch
    ensures SameProgress(FilesAfter(f1, weightsPath, t1, first, stop, s1), FilesAfter(f2, weightsPath, t2, first, stop, s2))
    decreases stop - first
  {
    if first < stop {
      FilesAfterProgress(f1, f2, weightsPath, t1, t2, first, stop - 1, s1, s2);
      StepCounts(t1, first, stop, s1);
      StepCounts(t2, first, stop, s2);
    }
  }

  /** Resumption loses no progress whatever the random draws: a run stopped
      after `k` epochs and restarted, with any batch orders and step results
      before and after the restart, writes the same paths as one
      uninterrupted run, each holding a bundle with the same epoch count,
      Adam step count and `last_epoch`. */
  lemma InterruptedRunKeepsProgress<W, O, S, B>(files: map<string, Bundle<W, O, S>>, weightsPath: string, k: int, nEpochs: int, init: Trainer<W, O, S>,
                                                before: Setup<W, O, S, B>, after: Setup<W, O, S, B>, uninterrupted: Setup<W, O, S, B>)
    requires k <= nEpochs
    requires before.nBatches == after.nBatches == uninterrupted.nBatches
    ensures SameProgress(TrainedFiles(TrainedFiles(files, weightsPath, k, init, before), weightsPath, nEpochs, init, after),
                         TrainedFiles(files, weightsPath, nEpochs, init, uninterrupted))
  {
    var (start, t) := Resume(files, weightsPath, init);
    if start < k {
      var mid1 := FilesAfter(files, weightsPath, t, start, k, before);
      var mid3 := FilesAfter(files, weightsPath, t, start, k, uninterrupted);
      ResumeContinues(files, weightsPath, init, t, start, k, before);
      FilesAfterProgress(files, files, weightsPath, t, t, start, k, before, uninterrupted);
      StepCounts(t, start, k, before);
      StepCounts(t, start, k, uninterrupted);
      FilesAfterProgress(mid1, mid3, weightsPath, AfterEpochs(t, start, k, before), AfterEpochs(t, start, k, uninterrupted), k, nEpochs, after, uninterrupted);
      FilesAfterCompose(files, weightsPath, t, start, k, nEpochs, uninterrupted);
    } else {
      FilesAfterProgress(files, files, weightsPath, t, t, start, nEpochs, after, uninterrupted);
    }
  }

  /** A milestone written at completed-epoch count `e` holds that epoch's
      bundle at the end of the run: no later save touches it. */
  lemma {:induction false} MilestonesKept<W, O, S, B>(files: map<string, Bundle<W, O, S>>, weightsPath: string, t: Trainer<W, O, S>, first: nat, stop: int, e: nat, setup: Setup<W, O, S, B>)
    requires first < e <= stop && e % 5 == 0
    ensures MilestoneName(weightsPath, e) in FilesAfter(files, weightsPath, t, first, stop, setup)
    ensures FilesAfter(files, weightsPath, t, first, stop, setup)[MilestoneName(weightsPath, e)] == BundleOf(e, AfterEpochs(t, first, e, setup))
    decreases stop - first
  {
    var name := MilestoneName(weightsPath, e);
    MilestoneNameIsNotWeightsPath(weightsPath, e);
    if e < stop {
      MilestonesKept(files, weightsPath, t, first, stop - 1, e, setup);
      if (stop - 1) % 5 == 4 {
        if name == MilestoneName(weightsPath, stop) {
          MilestoneNameInjective(weightsPath, e, stop);
        }
      }
    }
  }

  /** One more epoch adds the milestone of its completed-epoch count when
      that count is a multiple of 5, and nothing else. */
  lemma MilestoneFilesStep(weightsPath: string, first: nat, stop: int)
    requires first < stop
    ensures MilestoneFiles(weightsPath, first, stop)
            == MilestoneFiles(weightsPath, first, stop - 1) + (if (stop - 1) % 5 == 4 then {MilestoneName(weightsPath, stop)} else {})
  {
    assert (stop - 1) % 5 == 4 <==> stop % 5 == 0;
  }

  /** The files a run writes are exactly the latest file (if any epoch ran)
      and the milestones of the multiples of 5 it completed. */
  lemma {:induction false} WrittenFiles<W, O, S, B>(files: map<string, Bundle<W, O, S>>, weightsPath: string, t: Trainer<W, O, S>, first: nat, stop: int, setup: Setup<W, O, S, B>)
    ensures FilesAfter(files, weightsPath, t, first, stop, setup).Keys
            == files.Keys + (if first < stop then {weightsPath} else {}) + MilestoneFiles(weightsPath, first, stop)
    decreases stop - first
  {
    if stop <= first {
      assert MilestoneFiles(weightsPath, first, stop) == {};
    } else {
      WrittenFiles(files, weightsPath, t, first, stop - 1, setup);
      MilestoneFilesStep(weightsPath, first, stop);
    }
  }

  /** Every file other than the latest file and the milestones the run
      completed keeps its content. */
  lemma {:induction false} OtherFilesKept<W, O, S, B>(files: map<string, Bundle<W, O, S>>, weightsPath: string, t: Trainer<W, O, S>, first: nat, stop: int, setup: Setup<W, O, S, B>, path: string)
    requires path in files && path != weightsPath && path !in MilestoneFiles(weightsPath, first, stop)
    ensures path in FilesAfter(files, weightsPath, t, first, stop, setup)
    ensures FilesAfter(files, weightsPath, t, first, stop, setup)[path] == files[path]
    decreases stop - first
  {
    if first < stop {
      MilestoneFilesStep(weightsPath, first, stop);
      OtherFilesKept(files, weightsPath, t, first, stop - 1, setup, path);
    }
  }

  /** Every bundle a run writes from a consistent starting point is
      consistent. */
  lemma {:induction false} WrittenBundlesConsistent<W, O, S, B>(files: map<string, Bundle<W, O, S>>, weightsPath: string, t: Trainer<W, O, S>, first: nat, stop: int, setup: Setup<W, O, S, B>)
    requires Consistent(BundleOf(first, t), setup.nBatches)
    ensures var after := FilesAfter(files, weightsPath, t, first, stop, setup);
            forall path ::
              (path in after && (path !in files || after[path] != files[path])
               ==> Consistent(after[path], setup.nBatches))
    ensures var after := FilesAfter(files, weightsPath, t, first, stop, setup);
            forall path ::
              (((first < stop && path == weightsPath) || path in MilestoneFiles(weightsPath, first, stop))
               ==> path in after && Consistent(after[path], setup.nBatches))
    decreases stop - first
  {
    if first < stop {
      WrittenBundlesConsistent(files, weightsPath, t, first, stop - 1, setup);
      StepCounts(t, first, stop, setup);
      assert setup.nBatches * stop == setup.nBatches * first + setup.nBatches * (stop - first);
    }
    forall path | (first < stop && path == weightsPath) || path in MilestoneFiles(weightsPath, first, stop)
      ensures var after := FilesAfter(files, weightsPath, t, first, stop, setup);
              path in after && Consistent(after[path], setup.nBatches)
    {
      WrittenPathConsistent(files, weightsPath, t, first, stop, setup, path);
    }
  }

  /** The latest file and each milestone a run writes hold a consistent
      bundle at its end, whatever the file held before. */
  lemma {:induction false} WrittenPathConsistent<W, O, S, B>(files: map<string, Bundle<W, O, S>>, weightsPath: string, t: Trainer<W, O, S>, first: nat, stop: int, setup: Setup<W, O, S, B>, path: string)
    requires Consistent(BundleOf(first, t), setup.nBatches)
    requires (first < stop && path == weightsPath) || path in MilestoneFiles(weightsPath, first, stop)
    ensures var after := FilesAfter(files, weightsPath, t, first, stop, setup);
            path in after && Consistent(after[path], setup.nBatches)
    decreases stop - first
  {
    assert first < stop;
    StepCounts(t, first, stop, setup);
    assert setup.nBatches * stop == setup.nBatches * first + setup.nBatches * (stop - first);
    var newMilestone := (stop - 1) % 5 == 4 && path == MilestoneName(weightsPath, stop);
    if path != weightsPath && !newMilestone {
      MilestoneFilesStep(weightsPath, first, stop);
      var e: nat :| first < e <= stop - 1 && e % 5 == 0 && path == MilestoneName(weightsPath, e);
      MilestoneNameIsNotWeightsPath(weightsPath, e);
      WrittenPathConsistent(files, weightsPath, t, first, stop - 1, setup, path);
    }
  }

  /** The completed-epoch counts 1 .. 12 that are multiples of 5 are 5 and 10. */
  lemma MilestoneFilesOfTwelve(weightsPath: string)
    ensures MilestoneFiles(weightsPath, 0, 12) == {MilestoneName(weightsPath, 5), MilestoneName(weightsPath, 10)}
  {
    forall e: nat | 0 < e <= 12 && e % 5 == 0
      ensures e == 5 || e == 10
    {
      assert e == 5 * (e / 5);
    }
  }

  /** A fresh 12-epoch run writes the latest file and the milestones of
      epochs 5 and 10, and nothing else. */
  lemma FreshTwelveEpochRun<W, O, S, B>(weightsPath: string, init: Trainer<W, O, S>, setup: Setup<W, O, S, B>)
    ensures TrainedFiles(map[], weightsPath, 12, init, setup).Keys
            == {weightsPath, MilestoneName(weightsPath, 5), MilestoneName(weightsPath, 10)}
  {
    var empty: map<string, Bundle<W, O, S>> := map[];
    assert Resume(empty, weightsPath, init) == (0, init);
    WrittenFiles(empty, weightsPath, init, 0, 12, setup);
    MilestoneFilesOfTwelve(weightsPath);
  }
}
