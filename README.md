# Sleeve classifier bookkeeping, in Dafny

This project models the bookkeeping around the sleeve/sleeveless classifier
of the product-preprocessing pipeline (`code/preprocessing/Sleeve_Classifier/main.py`).
It does not model the network. The four parts are:

- **Milestone naming.** A milestone checkpoint is named `<weights path up to its first '.'>_<epoch>.pkl`.
- **`train`.** It resumes from the "latest" checkpoint, or starts at epoch 0 when that file is absent. Each remaining epoch runs one optimizer step per batch, then one scheduler step. It then saves the latest bundle, and every fifth epoch also a milestone bundle.
- **`val`.** It scans the candidate milestone epochs in order and stops at the first missing file. For each epoch it counts the correct arg-max predictions, and it keeps the best `(correct, epoch)` pair, replacing it only on a strict improvement.
- **`test` and `preprocess`.**
  - `test` loads the epoch-25 milestone, classifies every image and writes `{"sleeve_type": [class], "product_type": "top"}` to `<output_dir>/<name>.json`. When that file already exists, the new record is merged into it with `dict.update`.
  - `preprocess` runs `test` once per category folder of a brand.

The network weights, the optimizer's moments and the schedule are opaque type
parameters (`W`, `O`, `S`). Two of their parts are made explicit, because the
checkpoint invariant depends on them:

- Adam's step counter, which each optimizer step advances;
- the scheduler's `last_epoch`, which each scheduler step advances.

The model takes the following as parameters:

- the classifier, as a function from weights and image to a class in {0, 1};
- the number of batches per epoch;
- the batch order;
- the effect of one optimizer or scheduler step on the opaque state;
- the directory listing.

The checkpoint files and the JSON result files are maps from path to content.
Both are held in one generic class, `Storage.FileStore`, whose methods change
the map in place. It is used with bundles as the checkpoint store and with
JSON records as the result store.

Files:

- `wrappers.dfy`: `Option`, `Result`, `Outcome`.
- `storage.dfy`: the file store: `isfile`, load and save.
- `paths.dfy`: the milestone name, `str` on a non-negative integer, and `os.path.join`.
- `checkpoint.dfy`: the saved bundle and the checkpoint store.
- `training.dfy`: `train`.
- `validation.dfy`: `val`.
- `inference.dfy`: `test` and `preprocess`.
- `pipeline.dfy`: how `train`, `val` and `test` fit together.

Each loop of the source is a method. Its postcondition ties the result or the
new store to a specification function, such as `AfterEpochs`, `FilesAfter`,
`Scores`, `Best` or `ResultsAfter`. The lemmas state the source's promises
about those functions.

Three points of the code are easy to misread, and the model follows the code on each:

- A milestone path is not the weights path with its extension stripped and restored. The code cuts the weights path at its first '.', wherever that is, and always appends `.pkl` (`main.py:142`, `:153`, `:191`). `Paths.MilestoneNameCutsAtFirstDot` pins this down.
- The head's weight initializer `weights_init` (`main.py:37-43`) is defined but never called. The network is not modelled here in any case.
- `val` scans the candidate epochs `range(25, 30, 5)`, i.e. `[25]` (`Validation.ValidationEpochs`). The scan is modelled over any ordered list of candidate epochs.

## Model

| member | source | states |
|---|---|---|
| Paths.BeforeFirstDot | code/preprocessing/Sleeve_Classifier/main.py:142 | `split('.')[0]` is a prefix of the path that has no '.', and it is either the whole path or stops just before the path's first '.' |
| Paths.Decimal | code/preprocessing/Sleeve_Classifier/main.py:142 | `str(epoch)` is a non-empty string of digits that starts with '0' only for 0 |
| Paths.MilestoneName | code/preprocessing/Sleeve_Classifier/main.py:142 | the milestone path of lines 142, 153 and 191: the weights path cut at its first '.' (`BeforeFirstDot`), '_', the epoch in decimal (`Decimal`) and ".pkl"; the `MilestoneName…` lemmas below state its properties |
| Paths.ParseDecimalOfDecimal | code/preprocessing/Sleeve_Classifier/main.py:142 | reading the decimal text of an epoch back gives the epoch |
| Paths.DecimalInjective | code/preprocessing/Sleeve_Classifier/main.py:142 | distinct epochs have distinct decimal texts |
| Paths.MilestoneNameParts | code/preprocessing/Sleeve_Classifier/main.py:142 | the milestone name is the weights path up to its first '.', then '_', then the epoch in decimal, then ".pkl" |
| Paths.MilestoneNameInjective | code/preprocessing/Sleeve_Classifier/main.py:142 | milestones of different epochs never share a file |
| Paths.MilestoneNameIsNotWeightsPath | code/preprocessing/Sleeve_Classifier/main.py:142-144 | a milestone never lands on the latest-checkpoint path |
| Paths.MilestoneNameOfDottedPath | code/preprocessing/Sleeve_Classifier/main.py:153 | a path whose first '.' follows `stem` gives `stem_<epoch>.pkl`, whatever follows that '.' |
| Paths.MilestoneNameOfDefaultPath | code/preprocessing/Sleeve_Classifier/main.py:191 | `weights/sleeve_clf_Adam.pkl` at epoch 25 gives `weights/sleeve_clf_Adam_25.pkl` |
| Paths.MilestoneNameCutsAtFirstDot | code/preprocessing/Sleeve_Classifier/main.py:153 | `runs.v2/clf.pth` at epoch 10 gives `runs_10.pkl`: the cut is at the first '.', and the suffix is always ".pkl" |
| Paths.BeforeFirstDotStops | code/preprocessing/Sleeve_Classifier/main.py:142 | the cut stops at the first '.' when none comes before it |
| Paths.JoinEndsInName | code/preprocessing/Sleeve_Classifier/main.py:212 | `os.path.join(a, b)` ends in `b` and, unless `b` is absolute, starts with `a` |
| Paths.JoinRelativeIsInside | code/preprocessing/Sleeve_Classifier/main.py:274-276 | a relative name joined onto a non-empty directory starts with that directory and ends with the name, with a '/' just before the name |
| Checkpoint.BundleOf | code/preprocessing/Sleeve_Classifier/main.py:135-140 | the saved bundle records the epoch count, and restoring from it gives back the trainer that was saved |
| Checkpoint.TrainerOf | code/preprocessing/Sleeve_Classifier/main.py:79-81 | the three `load_state_dict` calls: model, optimizer and scheduler are restored from the bundle's three state dicts; `BundleOf` and `BundleRoundTrip` make it the inverse of saving |
| Checkpoint.BundleRoundTrip | code/preprocessing/Sleeve_Classifier/main.py:77-81 | the trainer restored from a bundle, saved with the bundle's epoch, gives back that bundle |
| Storage.FileStore.IsFile | code/preprocessing/Sleeve_Classifier/main.py:75 | `os.path.isfile` (here and at line 213) is true exactly when the store holds the path |
| Storage.FileStore.Load | code/preprocessing/Sleeve_Classifier/main.py:77 | `torch.load` (and `json.load` at line 215) gives the stored content, or fails on a missing path |
| Storage.FileStore.Save | code/preprocessing/Sleeve_Classifier/main.py:143-144 | `torch.save` (and `json.dump` at lines 218 and 222) replaces the path's content and leaves every other file as it was |
| Training.Resume | code/preprocessing/Sleeve_Classifier/main.py:75-87 | the start epoch is the stored bundle's `epoch` and the trainer is the stored one when the latest file exists; otherwise epoch 0 and a fresh trainer |
| Training.SaveEpoch | code/preprocessing/Sleeve_Classifier/main.py:135-144 | the files after one epoch: the bundle of the completed count, under the latest path always and under the milestone name when `epoch_index % 5 == 4`; its consequences are `WrittenFiles`, `OtherFilesKept`, `MilestonesKept` and `WrittenBundlesConsistent` |
| Training.RunEpoch | code/preprocessing/Sleeve_Classifier/main.py:107-129 | one epoch is one optimizer step per batch, in order, then one scheduler step; the loss of batch `b` is logged at `len(pbar) * epoch_index + b` |
| Training.Train | code/preprocessing/Sleeve_Classifier/main.py:75-144 | `train` resumes as `Resume` says. It visits `start .. n_epochs-1` once each, in increasing order, and none when the start is not below `n_epochs`. It logs under strictly increasing step indices and leaves the checkpoint files as `TrainedFiles` says |
| Training.AfterEpochsCompose | code/preprocessing/Sleeve_Classifier/main.py:94 | running epochs `first .. k-1` then `k .. stop-1` is running `first .. stop-1` |
| Training.StepCounts | code/preprocessing/Sleeve_Classifier/main.py:107-129 | over a run, Adam's step count grows by batches times epochs, and `last_epoch` grows by the number of epochs |
| Training.BatchStepCount | code/preprocessing/Sleeve_Classifier/main.py:125-127 | each batch makes one optimizer step and leaves the scheduler alone |
| Training.FilesAfterCompose | code/preprocessing/Sleeve_Classifier/main.py:94-144 | the files of two consecutive partial runs are the files of one run |
| Training.LatestAfterRun | code/preprocessing/Sleeve_Classifier/main.py:135-144 | after a run that did any epoch, the latest file holds the bundle of the final trainer with `epoch` equal to the epochs reached |
| Training.ResumeContinues | code/preprocessing/Sleeve_Classifier/main.py:78 | resuming from what a run left continues at the next epoch index with the trainer that run reached: no epoch is repeated or skipped |
| Training.InterruptedRunIsLossless | code/preprocessing/Sleeve_Classifier/main.py:75-144 | for the same per-epoch batch orders and step results, stopping after `k` epochs and restarting with `n_epochs` leaves the same files as one uninterrupted run |
| Training.FilesAfterProgress | code/preprocessing/Sleeve_Classifier/main.py:94-144 | runs with the same number of batches per epoch, from trainers with equal step counts, write the same paths, and each path's bundle has the same epoch, Adam step count and `last_epoch`, whatever the batch order and step results |
| Training.InterruptedRunKeepsProgress | code/preprocessing/Sleeve_Classifier/main.py:75-144 | with any batch orders and step results before and after a restart, an interrupted run writes the same paths as an uninterrupted one, with the same epoch and step counters in every bundle |
| Training.MilestonesKept | code/preprocessing/Sleeve_Classifier/main.py:141-144 | the milestone of a multiple of 5 holds that epoch's bundle at the end of the run: later epochs never overwrite it |
| Training.MilestoneFilesStep | code/preprocessing/Sleeve_Classifier/main.py:141 | an epoch adds a milestone exactly when `epoch_index % 5 == 4`, i.e. when the completed count is a multiple of 5 |
| Training.WrittenFiles | code/preprocessing/Sleeve_Classifier/main.py:141-144 | a run writes exactly the latest file (if any epoch ran) and the milestones of the multiples of 5 it completed |
| Training.OtherFilesKept | code/preprocessing/Sleeve_Classifier/main.py:141-144 | every other file keeps its content |
| Training.WrittenBundlesConsistent | code/preprocessing/Sleeve_Classifier/main.py:129-140 | from a consistent start, the latest file and every milestone a run writes, and every file whose content it changes, hold a bundle that has made `nBatches * epoch` optimizer steps and `epoch` scheduler steps |
| Training.WrittenPathConsistent | code/preprocessing/Sleeve_Classifier/main.py:135-144 | the latest file and each milestone a run writes end up holding a consistent bundle, whatever the file held before |
| Training.MilestoneFilesOfTwelve | code/preprocessing/Sleeve_Classifier/main.py:141 | the completed counts 1 .. 12 that are multiples of 5 are 5 and 10 |
| Training.FreshTwelveEpochRun | code/preprocessing/Sleeve_Classifier/main.py:141-144 | a fresh 12-epoch run writes the latest file and the milestones `_5` and `_10`, and nothing else |
| Validation.CorrectCount | code/preprocessing/Sleeve_Classifier/main.py:163-170 | `correct` never exceeds the number of samples processed |
| Validation.CorrectCountAppend | code/preprocessing/Sleeve_Classifier/main.py:165-170 | the count over a concatenation is the sum of the counts |
| Validation.CorrectCountRemove | code/preprocessing/Sleeve_Classifier/main.py:165-170 | removing one sample removes exactly its hit from the count |
| Validation.CorrectCountShuffled | code/preprocessing/Sleeve_Classifier/main.py:159 | the count does not depend on the order the shuffled loader yields the samples in |
| Validation.ConstantClassifierCount | code/preprocessing/Sleeve_Classifier/main.py:169-170 | a classifier that always answers `k` is right exactly on the samples labelled `k` |
| Validation.Evaluated | code/preprocessing/Sleeve_Classifier/main.py:152-155 | the scan evaluates exactly the leading candidates whose milestone exists, and stops at the first missing one |
| Validation.Scores | code/preprocessing/Sleeve_Classifier/main.py:152-180 | one score per evaluated epoch, in scan order, each at most the number of samples |
| Validation.Best | code/preprocessing/Sleeve_Classifier/main.py:150-151 | the `(best_score, best_epoch)` pair is `(0, 0)` or the count and epoch of one evaluated score; `BestIsFirstMaximum` says which one |
| Validation.BestIsFirstMaximum | code/preprocessing/Sleeve_Classifier/main.py:150-151 | the best count is at least every evaluated count. `best_epoch` stays 0 when no count is positive. Otherwise the pair is the first epoch reaching the maximum, so ties keep the earlier epoch |
| Validation.Validate | code/preprocessing/Sleeve_Classifier/main.py:147-185 | `val` ends as `ValOutcome` says: the report of the evaluated epochs, or the error it raises |
| Validation.CountCorrect | code/preprocessing/Sleeve_Classifier/main.py:163-170 | the inner loop's `correct` is the number of samples whose prediction equals the label |
| Validation.MissingFirstMilestoneRaises | code/preprocessing/Sleeve_Classifier/main.py:185 | when the first candidate's milestone is missing, `val` raises at the final report, where the intended version reports no best epoch |
| Validation.IntendedValOutcomeAgrees | code/preprocessing/Sleeve_Classifier/main.py:182-185 | the intended version never reports the no-milestone error, and it equals `val` whenever a milestone was evaluated |
| Inference.Merge | code/preprocessing/Sleeve_Classifier/main.py:213-222 | with no existing file, the record is the new fields alone. Otherwise the keys are the union, the new fields win, and every other existing key keeps its value |
| Inference.ResultPath | code/preprocessing/Sleeve_Classifier/main.py:212 | the result file is `os.path.join(output_dir, name + '.json')`; `ResultPathInOutputDir` places it inside the output directory |
| Inference.ResultRecord | code/preprocessing/Sleeve_Classifier/main.py:207-210 | `info_format` holds exactly the keys `sleeve_type`, a one-element list of the prediction, and `product_type`, the string "top" |
| Inference.ResultPathInOutputDir | code/preprocessing/Sleeve_Classifier/main.py:212 | for a relative name, the result path starts with the output directory and ends with `<name>.json`, with a '/' just before it, so it lies inside the output directory |
| Inference.WriteResultFiles | code/preprocessing/Sleeve_Classifier/main.py:212-222 | one write adds or replaces only its own file |
| Inference.ResultPathsMembers | code/preprocessing/Sleeve_Classifier/main.py:202-212 | the written paths are those of the items, one per item |
| Inference.ResultsAfterFiles | code/preprocessing/Sleeve_Classifier/main.py:202-222 | a run adds exactly the items' result files and leaves every other file as it was |
| Inference.MergeWellFormed | code/preprocessing/Sleeve_Classifier/main.py:207-222 | one write leaves its file well formed, and writing over a well-formed file keeps it so |
| Inference.ResultRecordsWellFormed | code/preprocessing/Sleeve_Classifier/main.py:207-222 | every result file holds `product_type: "top"` and a one-element `sleeve_type` in {0, 1}. It keeps every other key the file had before. A new file holds only those two keys |
| Inference.LastWriteWins | code/preprocessing/Sleeve_Classifier/main.py:216-218 | the last item written to a file decides its `sleeve_type` |
| Inference.MergeIntoExistingFile | code/preprocessing/Sleeve_Classifier/main.py:216 | merging into `{"foo": 1}` keeps `foo` beside the two new keys |
| Inference.Test | code/preprocessing/Sleeve_Classifier/main.py:187-222 | `test` fails, writing nothing, when the epoch-25 milestone is missing, and also when the image folder is empty, where the shuffling loader at line 196 raises. Otherwise it leaves the files as `ResultsAfter` with that milestone's weights |
| Inference.Categories | code/preprocessing/Sleeve_Classifier/main.py:271 | `[args.cat]` when `--cat` is given, `os.listdir(data_folder)` otherwise; `CategoriesSelect` spells out the cases |
| Inference.CategoriesSelect | code/preprocessing/Sleeve_Classifier/main.py:271 | an empty `--cat` is false in Python and selects the whole listing, as an absent one does; a non-empty one selects that category alone |
| Inference.CategoryDirs | code/preprocessing/Sleeve_Classifier/main.py:274-276 | a category's input is `<data_folder>/<cat>/product` and its output `<data_folder>/<cat>/product_info`, by `os.path.join`; `CategoryDirsSiblings` keeps them apart |
| Inference.CategoryDirsSiblings | code/preprocessing/Sleeve_Classifier/main.py:274-276 | a category's `product` and `product_info` directories are distinct and both inside its folder |
| Inference.PreprocessWithoutMilestone | code/preprocessing/Sleeve_Classifier/main.py:271-277 | without the milestone, `preprocess` fails on its first category and writes nothing; with no category it succeeds and writes nothing |
| Inference.PreprocessWithMilestone | code/preprocessing/Sleeve_Classifier/main.py:271-277 | with the milestone present and at least one image in every category's `product` folder, `preprocess` processes every category without failing |
| Inference.PreprocessStopsAtEmptyCategory | code/preprocessing/Sleeve_Classifier/main.py:272-277 | with the milestone present, the first category with an empty `product` folder stops `preprocess` with `EmptyImageFolder`, and the files the earlier categories wrote stay on disk |
| Inference.Preprocess | code/preprocessing/Sleeve_Classifier/main.py:271-277 | `preprocess` takes `--cat` when given and non-empty, the listed folders otherwise. It runs `test` on each category's directories in order and stops at the first `test` that raises. The files the earlier categories wrote stay as written |
| Pipeline.FreshRunFeedsValAndTest | code/preprocessing/Sleeve_Classifier/main.py:141-153 | a fresh run of at least 25 epochs leaves the epoch-25 milestone with the trainer after 25 epochs. `val` evaluates it, so the intended and as-written reports agree, and it succeeds on a non-empty held-out set. `test` classifies with its weights, and raises only on an empty image folder |

## Left out

- The network (`classifier`, the ResNet-18 backbone, the head and `weights_init`, `main.py:21-53`): this is float tensor arithmetic inside torch. It is the `predict` parameter here.
- Adam, cosine annealing and the cross-entropy loss (`main.py:66-72`, `89`, `120`): this is float arithmetic inside torch. Their effect on the opaque state is a parameter, and only the step counters are modelled.
- `DataLoader` batching, shuffling, worker processes and `drop_last` (`main.py:61`, `159`, `196`): library behaviour and concurrency. The batch count, the batch order and the sample and item sequences are parameters. The loader's `ValueError` on an empty dataset is modelled for `val` (`EmptyValidationSet`) and `test` (`EmptyImageFolder`).
- Training.Train: does not model the `ValueError` the shuffling loader at `main.py:61` raises when the training set is empty. The model takes the number of full batches per epoch as given. With 0 batches each epoch still steps the scheduler and saves, as the source does for a non-empty training set smaller than one batch.
- The random number generator behind shuffling (`main.py:61`) and dropout (`main.py:30`, `33`, in training mode from line 90): it is never seeded, and the bundle (`main.py:135-140`) does not save its state. A resumed run therefore draws different batch orders and dropout masks than an uninterrupted one, and its weights differ. The model makes the draws part of `Setup`. `Training.InterruptedRunIsLossless` holds for equal draws, and `Training.InterruptedRunKeepsProgress` covers any draws but only for paths and progress counters.
- The serialization of `torch.save`/`torch.load` and of JSON, and a malformed existing JSON file, which the code does not handle (`main.py:214-215`): file I/O. The stores are maps.
- JSON numbers other than integers: the records written here hold only integers and strings.
- `os.makedirs` (`main.py:60`, `188`): the stores are maps keyed by full path, so a directory need not exist.
- tqdm, TensorBoard, cv2 visualisation under `--vis`, timing and the printed reports (`main.py:57-58`, `96-134`, `171-180`, `185`): user interface and logging. The printed report of `val` is the `Report` value.
- argparse, its duplicate in `sleeve_classifier_py`, and the path of the brand folder built from `__file__` (`main.py:224-339`, `266-269`): CLI plumbing. The brand folder is the `dataFolder` parameter.
- The `glob` listing of category folders (`main.py:271`): filesystem. The listing is a parameter.
- Checkpoint bundles with a negative `epoch`: `train` never writes one, so `Bundle.epoch` is a `nat`.
- The accuracy divisions at `main.py:180` and `185` only print. The loader raises on an empty held-out set first, so these divisions never divide by zero.

## Findings

| source | as written | input that shows it | evidently intended | confidence | as-written member | corrected member |
|---|---|---|---|---|---|---|
| code/preprocessing/Sleeve_Classifier/main.py:185 | the final report divides by `len(dataloader_test.dataset)`, but `dataloader_test` is bound only inside the loop, so `val` raises `UnboundLocalError` when no milestone was evaluated | a weights path whose `_25.pkl` milestone does not exist (first candidate missing) | report that no epoch was evaluated (best epoch 0, no scores) instead of raising | not executed; read from the code | Validation.MissingFirstMilestoneRaises | Validation.IntendedValOutcomeAgrees |
