/** The checkpoint bundle written by `torch.save` and the store of checkpoint
    files it is written to.

    The network weights, the optimizer's moment estimates and the schedule's
    own numbers are floating-point tensors inside torch; they stay opaque here
    as the type parameters `W`, `O` and `S`. What the bookkeeping relies on is
    made explicit: Adam's step counter, advanced by every optimizer step, and
    the scheduler's `last_epoch`, advanced by every scheduler step. */
module Checkpoint {
  import opened Storage

  /** The optimizer's state dict: its step count and everything else
      (moments, learning rate of each parameter group). */
  datatype OptimizerState<O> = OptimizerState(steps: nat, moments: O)

  /** The scheduler's state dict: `last_epoch` and everything else (the
      cosine schedule's horizon, floor and current rate). */
  datatype SchedulerState<S> = SchedulerState(lastEpoch: nat, schedule: S)

  /** What the training process holds in memory: model, optimizer, scheduler. */
  datatype Trainer<W, O, S> = Trainer(model: W, optimizer: OptimizerState<O>, scheduler: SchedulerState<S>)

  /** The dict saved after each epoch, under the keys `epoch`, `state_dict`,
      `optimizer` and `scheduler`. `epoch` counts completed epochs. */
  datatype Bundle<W, O, S> = Bundle(epoch: nat, stateDict: W, optimizer: OptimizerState<O>, scheduler: SchedulerState<S>)

  /** The bundle saved when `epoch` epochs are complete and the trainer is `t`. */
  function BundleOf<W, O, S>(epoch: nat, t: Trainer<W, O, S>): (b: Bundle<W, O, S>)
    ensures b.epoch == epoch
    ensures TrainerOf(b) == t
  {
    Bundle(epoch, t.model, t.optimizer, t.scheduler)
  }

  /** The trainer restored by `load_state_dict` on the model, the optimizer
      and the scheduler from one bundle. */
  function TrainerOf<W, O, S>(b: Bundle<W, O, S>): Trainer<W, O, S>
  {
    Trainer(b.stateDict, b.optimizer, b.scheduler)
  }

  /** Saving then loading gives back the same trainer, and the trainer and
      the epoch determine the bundle. */
  lemma BundleRoundTrip<W, O, S>(b: Bundle<W, O, S>)
    ensures BundleOf(b.epoch, TrainerOf(b)) == b
  {
  }

  /** The checkpoint files on disk, by path. */
  type CheckpointStore<W, O, S> = FileStore<Bundle<W, O, S>>
}
