# Few-shot segmentation episodes and evaluation bookkeeping

This project models the data side of a few-shot semantic segmentation
trainer, together with the counting logic of its training and validation
loops, and proves properties of that model.

- **Manifest index** (`make_dataset`): one scan of a list file of
  `image label` lines. It builds the list of usable query images and, for
  every active class, the bucket of images in which that class covers at
  least 2·32·32 pixels.
- **Class table** (`SemData.__init__`): for a fold 0–3 and the COCO flags,
  the base classes (`sub_list`) and the novel classes (`sub_val_list`).
- **Episode sampling** (`SemData.__getitem__`): it picks a class
  present in the query label and binarizes the query label for it. It then
  takes supports at `shot` distinct positions of the class's bucket, by the
  code's redraw rule, and records the class's rank. The same image can come
  twice if the manifest lists it twice.
- **Training and validation counting** (`train`, `validate`, `main`):
  - the iteration counters and the remaining-time split into h:m:s;
  - the accumulated intersection, union and target counts, and the scores
    derived from them;
  - the per-class buckets of the validation mIoU;
  - the stopping rule of the ten validation passes;
  - the evaluation schedule and the best-score checkpointing.

Modules, one file each:

| file | module | what |
|---|---|---|
| common.dfy | Common | `Result`/`Option`, `range`, list helpers, sums |
| labels.dfy | Labels | label maps, `np.unique`, pixel counts, binarization (value and in-place array) |
| paths.dfy | Paths | `is_image_file`, `str.strip`, `str.split(' ')`, `os.path.join`, manifest lines |
| class_split.dfy | ClassSplit | the fold table |
| episode_index.dfy | EpisodeIndex | `make_dataset` |
| sampler.dfy | Sampler | `SemData` construction and `__getitem__` |
| metrics.dfy | Metrics | IoU / accuracy formulas with the `1e-10` guard |
| validate.dfy | Validation | `validate` |
| train_loop.dfy | Training | `train` counters and the epoch loop of `main` |

External inputs become parameters:

- The file system becomes `listFile: Option<seq<string>>`, which is `None`
  when the list file does not exist.
- Reading a label becomes `read: string -> LabelMap`.
- An image's height and width become `imageShape: string -> Shape`.
- `random.randint` becomes an oracle `draws: seq<nat>`, read front to back.
  `randint(1, n) - 1` is `draws[p] % n`.

Scores are computed in exact `real` arithmetic.

On the evaluation loop: the stopping test `(iter_num - 1) * batch_size_val
>= test_num` lets `test_num / batch_size_val + 1` batches through, one batch
more than `test_num` needs. The validation loader keeps a short last batch
(no `drop_last`), so those batches hold `test_num + batch_size_val`
episodes only when every one of them is full.
`Validation.EvaluatedSamples` states this over a model of the loader's
batch sizes (`Validation.LoaderBatches`). The model keeps the code's count.

Two behaviours of the code are worth stating, since the model follows them:

- There is no check on the size of a class's pool. An empty pool makes
  `random.randint(1, 0)` raise, which the model returns as `EmptyPool`. A
  non-empty pool with fewer than `shot` entries other than the query makes
  the retry loop run forever. The model proves that such a pool can never
  yield an episode (`Sampler.SupportsBounded`).
- The fold is checked, but more loosely than the class table needs. The
  asserts at util/dataset.py:27 and train.py:140 let 10, 11 and 999
  through, and the class table has no branch for them. Such a fold leaves
  `sub_list` unset, and `__init__` fails when it first reads it. The model
  returns `SubListUnset` (`Sampler.NewSemData`).

## Model

| member | source | states |
|---|---|---|
| Paths.IsImageFile | util/dataset.py:15-21 | definition: the lower-cased name ends with one of the image extensions; its properties are in `Paths.IsImageFileIgnoresCase` |
| Paths.IsImageFileIgnoresCase | util/dataset.py:15-21 | the test ignores letter case, and an image name is at least 4 characters long |
| Paths.ImageFileExamples | util/dataset.py:15-21 | an extension is recognised in any letter case (`.PNG`, `.JpEg`); a `.txt` name is never an image |
| Paths.Strip | util/dataset.py:45 | the stripped line neither starts nor ends with whitespace |
| Paths.StripShape | util/dataset.py:45 | the stripped line is a slice of the original with only whitespace cut on either side |
| Paths.SplitOnJoin | util/dataset.py:46 | no piece of `split(' ')` contains a space, and joining the pieces with spaces gives back the line |
| Paths.SplitOnUnique | util/dataset.py:46 | any space-free pieces that join to a line are exactly its split, so splitting inverts joining |
| Paths.SplitOn | util/dataset.py:46 | `split(' ')` always yields at least one piece (an empty line gives one empty piece) |
| Paths.SplitOnSeveral | util/dataset.py:46 | a string splits into more than one piece exactly when it contains the separator |
| Paths.JoinPath | util/dataset.py:47-48 | `os.path.join` ends with the joined part; an absolute part replaces the root; a relative part follows the root, with one `/` inserted exactly when the root is non-empty and does not already end with one |
| Paths.ParseLine | util/dataset.py:44-49 | a manifest line fails (no `line_split[1]`) exactly when its stripped form has no space, and the error carries the line |
| Paths.ParseWellFormedLine | util/dataset.py:44-49 | a line whose stripped form starts with two space-free fields separated by one space, with any surrounding whitespace and any further fields, parses to the two fields joined to the data root, relative or absolute |
| Paths.SplitFirstTwo | util/dataset.py:46 | the first two pieces of `img lbl rest` are `img` and `lbl` |
| Paths.SplitFirstPiece | util/dataset.py:46 | the first piece of `lbl rest` is `lbl` |
| Common.Range | util/dataset.py:100-145 | `range(lo, hi)`: hi - lo elements counting up from lo, exactly the integers in [lo, hi) |
| Common.RangeBy4 | util/dataset.py:116-130 | `range(lo, hi, 4)`: exactly the integers in [lo, hi) that are lo modulo 4, ascending, ⌈(hi - lo) / 4⌉ of them |
| Common.IndexOf | util/dataset.py:221-224 | `list.index`: the rank is a valid position holding the class, and no earlier position holds it |
| Common.Without | util/dataset.py:116-130 | `list(set(a) - set(b))`: an element is kept iff it is in `a` and not in `b`, and the result is no longer than `a` |
| Common.WithoutAscending | util/dataset.py:116-130 | removing elements from an ascending list leaves it ascending, so the set difference comes out in ascending order |
| Labels.Unique | util/dataset.py:51 | `np.unique`: a value is listed iff it occurs in the label, in strictly ascending order |
| Labels.Count | util/dataset.py:62-65 | definition of a class's pixel count, row by row; its properties are in `Labels.CountAtMost` and `Labels.CountPositive` |
| Labels.CountAtMost | util/dataset.py:62-65 | a class's pixel count is at most the number of pixels of the label |
| Labels.CountPositive | util/dataset.py:62-65 | a class has a positive pixel count exactly when it occurs in the label |
| Labels.LabelClasses | util/dataset.py:51-56 | the class list is every value present except 0 and 255, in ascending order |
| Labels.BinarizePixel | util/dataset.py:192-197 | one pixel: 255 stays 255, the chosen class becomes 1, everything else becomes 0 |
| Labels.Binarized | util/dataset.py:192-197 | definition: the label's rows, each binarized pixel by pixel; its properties are in `Labels.BinarizedPixels`, `Labels.BinarizeIdempotent` and `Labels.BinarizedForeground` |
| Labels.BinarizedPixels | util/dataset.py:192-197 | the binarized label keeps the shape; a pixel is 1 iff it was the chosen class, 255 iff it was 255, and 0 otherwise |
| Labels.BinarizeIdempotent | util/dataset.py:192-197 | binarizing a binarized label against 1 changes nothing |
| Labels.BinarizedForeground | util/dataset.py:192-197 | the foreground (value 1) count of the binarized label equals the chosen class's pixel count |
| Labels.BinarizeInPlace | util/dataset.py:231-235 | after the in-place overwrite, the array holds the binarized label of its old contents, pixel by pixel |
| ClassSplit.PascalSplit | util/dataset.py:100-113 | PASCAL fold f: the class list is 1..20 and the novel classes are 5f+1..5f+5 |
| ClassSplit.CocoSplit | util/dataset.py:131-145 | COCO fold f with dense folds: the class list is 1..80 and the novel classes are 20f+1..20f+20 |
| ClassSplit.SplitCocoSplit | util/dataset.py:116-130 | COCO fold f with interleaved folds: the class list is 1..80 with 20 novel classes |
| ClassSplit.SplitClasses | util/dataset.py:100-145 | the class list is 1..20 for PASCAL and 1..80 for COCO |
| ClassSplit.PascalPartition | util/dataset.py:100-113 | the novel classes of fold f are exactly 5f+1..5f+5, the other 15 are base, and the lists are disjoint, duplicate-free and cover 1..20 |
| ClassSplit.CocoPartition | util/dataset.py:131-145 | the novel classes of fold f are exactly 20f+1..20f+20, the other 60 are base, and the lists partition 1..80 |
| ClassSplit.SplitCocoPartition | util/dataset.py:116-130 | the novel classes are the ids ≡ f+1 (mod 4); the base list is every other id, in ascending order; there are 20 novel classes; the lists partition 1..80 |
| ClassSplit.SplitIsPartition | util/dataset.py:100-145 | every branch of the table is a partition of its class list into non-empty, duplicate-free base and novel lists |
| EpisodeIndex.Qualified | util/dataset.py:59-66 | a class is kept iff it is in the input, active and has at least 2·32·32 pixels; the input order is kept |
| EpisodeIndex.Retained | util/dataset.py:51-68 | the classes an image is indexed under are the active classes other than 0 and 255 with at least 2·32·32 pixels, ascending |
| EpisodeIndex.KeepQualified | util/dataset.py:59-66 | the loop over the label's classes returns the qualified classes |
| EpisodeIndex.RetainedClasses | util/dataset.py:50-68 | the per-image class filter returns the retained classes |
| EpisodeIndex.EmptyBuckets | util/dataset.py:39-41 | one empty bucket for each active class and no other key |
| EpisodeIndex.AppendToBuckets | util/dataset.py:72-74 | the keys are unchanged; the item is appended once to the bucket of every kept class, and other buckets are untouched |
| EpisodeIndex.ScanItem | util/dataset.py:50-74 | scanning one item extends the index exactly as the specification of the whole scan prescribes |
| EpisodeIndex.ParseAll | util/dataset.py:43-49 | definition: the records of the lines in order, or the first line without a second field; its properties are in `EpisodeIndex.ParseAllFails`, `EpisodeIndex.ParseAllErrSticks` and `EpisodeIndex.ParseStep` |
| EpisodeIndex.IndexFor | util/dataset.py:36-77 | the index of the parsed items has one bucket for each active class and no other |
| EpisodeIndex.Build | util/dataset.py:36-77 | building fails iff parsing the manifest fails (which `EpisodeIndex.ParseAllFails` ties to the lines); a built index has one bucket for each active class and no other |
| EpisodeIndex.MakeDataset | util/dataset.py:24-77 | a fold outside the allowed list and a missing list file are errors; otherwise the result is the index built from the parsed lines, or the first bad line |
| EpisodeIndex.SelectMembership | util/dataset.py:70-74 | filtering keeps exactly the items that pass, and never more items than the input |
| EpisodeIndex.BucketMembership | util/dataset.py:72-74 | an item is in bucket c iff it is a manifest item for which c is retained |
| EpisodeIndex.ImagesMembership | util/dataset.py:70-71 | an item is a query candidate iff some class is retained for it |
| EpisodeIndex.BucketQualifies | util/dataset.py:59-74 | every entry of bucket c has at least 2·32·32 pixels of c, and c is neither 0 nor 255 |
| EpisodeIndex.ImagesAreBucketed | util/dataset.py:70-74 | the query candidates are exactly the items found in some bucket |
| EpisodeIndex.IndexForWellIndexed | util/dataset.py:36-77 | the built index is well indexed; with a duplicate-free active list it has one key per active class |
| EpisodeIndex.BuildWellIndexed | util/dataset.py:150-155 | a successful scan is well indexed, and the key-count asserts hold for a duplicate-free active list |
| EpisodeIndex.ParseAllFails | util/dataset.py:43-49 | parsing fails iff some line has no second field, and the error names the first such line with that line's own error |
| EpisodeIndex.ParseAllErrSticks | util/dataset.py:43-48 | once a line fails to parse, later lines do not change the outcome |
| EpisodeIndex.ParseStep | util/dataset.py:44-49 | one more line either fails with its own line number or appends its record |
| EpisodeIndex.ScanStep | util/dataset.py:70-74 | one more item extends the image list and each bucket by at most that item, exactly when it qualifies |
| Sampler.NewSemData | util/dataset.py:84-155 | a fold outside 0..3 fails; test mode builds no index; a missing list file fails; otherwise the result is exactly what `make_dataset` builds for the phase's classes (its error, or the dataset holding its index), and a success is well indexed with one key per class |
| Sampler.ActiveList | util/dataset.py:177-185 | definition: the base classes in training, the novel classes otherwise |
| Sampler.Candidates | util/dataset.py:177-185 | definition of the kept classes, in input order; its properties are in `Sampler.CandidatesMembership` |
| Sampler.ChoosableClasses | util/dataset.py:172-185 | definition of the classes a query may be asked about; its properties are in `Sampler.ChoosableClassesMembership` |
| Sampler.CandidatesMembership | util/dataset.py:177-185 | a class is kept iff it is in the input and in the phase's class list; ascending input stays ascending |
| Sampler.CandidatesLast | util/dataset.py:177-185 | one more input class is kept at the end exactly when it is in the phase's class list |
| Sampler.ChoosableClassesMembership | util/dataset.py:172-185 | the choosable classes are exactly the active classes other than 0 and 255 present in the query label, ascending |
| Sampler.QueryClasses | util/dataset.py:172-185 | the method computes the choosable classes of the query label |
| Sampler.KeepActive | util/dataset.py:177-185 | the loop keeps the classes of the phase's list, in order |
| Sampler.NextPick | util/dataset.py:209-211 | the redraw loop from a given draw: the accepted position is in the pool, is not the query and is not taken, and is the position of the draw just before the returned next draw |
| Sampler.OnePick | util/dataset.py:206-211 | definition of one support from a given draw: that draw is always redrawn and `NextPick` follows; no draw left is `None` |
| Sampler.Picks | util/dataset.py:206-215 | definition of the redraw rule for the first `k` supports; its properties are in `Sampler.PicksValid` |
| Sampler.PicksStep | util/dataset.py:206-215 | after `k` successful supports, support `k + 1` fails for lack of draws iff `OnePick` finds none, and otherwise appends the position `OnePick` accepts |
| Sampler.PicksErrStays | util/dataset.py:206-215 | once a support fails, the result for every larger count is that same failure |
| Sampler.PicksValid | util/dataset.py:206-215 | the rule fails with `EmptyPool` iff supports are wanted from an empty bucket, and otherwise only for lack of draws; a success gives `k` distinct positions in the pool, none of them the query, using at least two draws per support |
| Sampler.PickOne | util/dataset.py:206-214 | the redraw loop for one support (first draw always redrawn) accepts exactly the `NextPick` after the skipped draw |
| Sampler.SelectedFacts | util/dataset.py:206-215 | any outcome of the redraw rule (`Sampler.Selected`) fails with `EmptyPool` iff supports are wanted from an empty pool and otherwise only for lack of draws, and a success is `shot` distinct positions in the pool, none of them the query, using at least two draws per support |
| Sampler.SelectSupports | util/dataset.py:206-215 | the positions and the next draw are exactly those of the redraw rule `Picks` (`Sampler.Selected`); running out of draws leaves no draw unused; an empty pool fails iff supports are wanted; a success is `shot` distinct positions in the pool, none of them the query, with at least two draws per support |
| Sampler.SupportsBounded | util/dataset.py:206-215 | no more distinct supports exist than pool entries other than the query |
| Sampler.ReadSupports | util/dataset.py:220-240 | fails at the first support whose image and label shapes differ (every earlier one matches), and iff one does; otherwise every support has its pool entry, its binarized label and the chosen class's rank |
| Sampler.GetItem | util/dataset.py:162-240 | no data list, a bad index and a query shape mismatch are the errors they are in the source; for a matching query the outcome is `Sampler.QueryOutcome`: no choosable class is `NoActiveClass`, draw 0 picks the class, a missing bucket is `MissingBucket`, a failure of the redraw rule is that failure, and the result is an episode iff every picked support's image and label shapes match, `SupportShapeMismatch` otherwise; a well-keyed index never lacks the bucket; a success is an episode |
| Sampler.QueryEpisode | util/dataset.py:172-240 | for a query whose shapes match, the outcome is exactly `Sampler.QueryOutcome`; a well-keyed index never lacks the bucket; a success is the episode of that query |
| Sampler.SupportEpisode | util/dataset.py:199-240 | once the class is chosen, the outcome is exactly `Sampler.SupportOutcome`: the redraw rule's error, an episode iff every picked support's shapes match, otherwise `SupportShapeMismatch`; a success carries the query, its label, the class, one rank per support and the supports the redraw rule picks |
| Sampler.IsEpisode | util/dataset.py:162-240 | definition of a successful episode: the class is picked by draw 0 among the choosable classes, the supports are the positions the redraw rule picks from draw 1 on, and the labels are binarized for the class |
| Sampler.EpisodeProperties | util/dataset.py:186-240 | the chosen class is an active class in the query and not 0 or 255; the labels are binary; the query's foreground is the class's area; each rank maps back to the class; in a well-indexed index every support has at least 2·32·32 foreground pixels |
| Metrics.EpochScores | train.py:307-311 | one IoU and one accuracy per class |
| Metrics.Zeros | train.py:334-335 | a zero vector of the requested length |
| Metrics.SumVecsEntry | train.py:270 | entry k of a meter's sum is the sum of the batches' entries k |
| Metrics.SumVecsAppend | train.py:270 | accumulating two runs of batches one after the other is the elementwise sum of their totals |
| Metrics.RatioBounds | train.py:307-308 | a count ratio with the 1e-10 guard lies in [0, 1) when the part is at most the whole, and is 0 iff the part is 0 |
| Metrics.MeanBounds | train.py:309-310 | the mean of scores in [0, 1) lies in [0, 1) |
| Metrics.ScoresBounded | train.py:307-311 | with intersection at most union and target, every IoU, accuracy, mIoU, mAcc and allAcc lies in [0, 1) |
| Metrics.EmptyScores | train.py:307-311 | all-zero counts give zero scores, not NaN |
| Metrics.ClassMeanIoU | train.py:423-429 | the running total divided by the bucket count is the mean of the bucket IoUs, and lies in [0, 1) when each intersection is at most its union |
| Validation.SplitGap | train.py:330-333 | the number of class buckets is positive |
| Validation.SplitGapCountsNovel | train.py:330-333 | for every fold and COCO layout, the number of buckets is the number of novel classes |
| Validation.TestNum | train.py:348-354 | for a regular split, 1000 episodes per bucket (5000 or 20000); for split 999, the loader length |
| Validation.BucketOf | train.py:399-400 | `(subcls - 1) % split_gap` is a valid bucket index |
| Validation.BucketOfRanks | train.py:399-400 | rank r goes to bucket r-1, rank 0 goes to the last bucket, and distinct ranks below the gap use distinct buckets |
| Validation.ClassSums | train.py:396-400 | the per-bucket foreground sums have one entry per bucket |
| Validation.Accumulated | train.py:396-400 | definition of the meters after some batches; its properties are in `Validation.AccumulateStep` and `Validation.Update` |
| Validation.ClassSumsConserve | train.py:399-400 | the buckets together hold exactly the foreground total of the batches |
| Validation.ClassSumsUntouched | train.py:334-335 | a bucket that no batch maps to stays 0 |
| Validation.StopRule | train.py:361-362 | the loop stops at batch n iff n ≥ test_num / batch_size_val + 1 |
| Validation.LoaderBatches | train.py:174-175 | one pass of the loader: sizes sum to the number of episodes, each between 1 and batch_size_val, all full but the last, and the last full iff batch_size_val divides the episode count |
| Validation.LoaderLength | train.py:174-175 | the loader has the episode count divided by batch_size_val, rounded up, batches |
| Validation.EvaluatedSamples | train.py:355-363 | the batches evaluated hold at most batch_size_val episodes each; they are all full iff batch_size_val divides the episode count or they end within the first pass; with enough passes there are test_num / batch_size_val + 1 of them, test_num + batch_size_val episode slots |
| Validation.AccumulateStep | train.py:396-400 | one more batch adds its vectors to the meters and its foreground counts to its bucket |
| Validation.Update | train.py:396-400 | the meters after one more batch are the accumulation over one more batch |
| Validation.EvalPass | train.py:358-363 | one pass takes batches until the stop count is reached and accumulates exactly those |
| Validation.EvalPasses | train.py:356-363 | the ten passes evaluate min(test_num / batch_size_val + 1, 10 · loader length) batches, and the meters are the accumulation over that prefix |
| Validation.Validate | train.py:330-429 | fails iff test_num is not a multiple of the batch size; otherwise gives the batch count, the meters over exactly those batches, the epoch scores, and the class mIoU as the mean bucket IoU |
| Training.MaxIter | train.py:232 | definition: `max_iter` is the epoch count times the loader length |
| Training.CurrentIter | train.py:237 | definition: the 1-based number of a batch over the whole run |
| Training.RemainIter | train.py:279 | definition: `max_iter - current_iter`; its properties are in `Training.RemainIterBounds` and `Training.RemainIterStep` |
| Training.RemainIterBounds | train.py:279 | inside the run the remaining count is the number of batches still to come: non-negative, below max_iter, and 0 iff it is the last batch |
| Training.RemainIterStep | train.py:279 | each batch lowers the remaining count by one, also across an epoch boundary |
| Training.ToClock | train.py:281-282 | minutes and seconds are below 60, and h·3600 + m·60 + s is the total |
| Training.ToClockUnique | train.py:281-282 | that split is the only one with minutes and seconds below 60 |
| Training.AddBatch | train.py:268-270 | after one more batch the three meters are the sums over one more batch |
| Training.TrainEpoch | train.py:232-311 | the remaining counts of the batches, the meter sums over all batches, and the epoch scores of those sums |
| Training.Evaluates | train.py:198 | every even epoch is evaluated |
| Training.EvaluatesWhen | train.py:198 | a run of at most 50 epochs evaluates every epoch; a longer run evaluates exactly the even ones |
| Training.BestBefore | train.py:205-207 | `max_iou` before any epoch is never negative |
| Training.Saved | train.py:205-207 | no more checkpoints than epochs seen |
| Training.BestBeforeProperties | train.py:206-207 | `max_iou` is non-negative and never decreases; it bounds every looked-at score so far and is 0 or one of them |
| Training.SavedProperties | train.py:198-207 | a checkpoint is written exactly at looked-at epochs that beat the best score before them; those epochs are ascending and the last one holds the current `max_iou` |
| Training.RunEpochs | train.py:179-207 | the epoch loop returns the final `max_iou` and the checkpoint epochs defined by the schedule |
| Training.BestBeforeZero | train.py:179 | before the first epoch of the run, `max_iou` is 0 and nothing is saved |

## Left out

- Image decoding (`cv2.imread`, the colour conversion and `np.float32`) is not modelled. A label is what `read` returns, and `read` is total: an unreadable file, where `imread` returns None, is not modelled.
- The augmentation settings of `__init__` (`meta_aug`, `aug_th`, `aug_type`, `im_size`) and `get_aug_data0`/`get_aug_data1` are not modelled. They only feed the transform.
- Sampler.NewSemData: its `Ok` results assume the caller passes an `args` object. With the default `args={}`, util/dataset.py:96 reads `args.train_h` or `args.val_size` from a dict and raises AttributeError. train.py:150-152 and 171-173 pass no `args`, so every construction there fails at that line.
- The transform, augmentation, `raw_label` and the padding after line 240 of `__getitem__` are not modelled. util/transform.py is not part of this model.
- Sampler.SelectSupports: the source retries forever when the pool has too few admissible entries. The model instead stops with `DrawsExhausted` when the finite list of draws runs out.
- Sampler.GetItem: with an empty list of draws it returns `DrawsExhausted` before any class is chosen, where util/dataset.py:190 draws the class with `random.randint`; an oracle with no draws left cannot make that choice.
- Sampler.GetItem: the label is overwritten in place in the source. The model computes the binarized label as a value; `Labels.BinarizeInPlace` models the in-place overwrite separately.
- Test mode never sets `data_list`, so `__getitem__` and `__len__` fail there. The model returns `NoDataList`; `__len__` is not modelled.
- Training.ToClock: `remain_time` is a float (remaining iterations times the average batch time), and the `'{:02d}'` formatting is not modelled. The model splits a whole number of seconds.
- Training.TrainEpoch: the network, the loss, the optimizer and the learning-rate schedule are not modelled, and neither are the loss meters and the per-batch accuracy. Each batch is given as its intersection, union and target counts. `intersectionAndUnionGPU` (util/util.py) is not part of this model.
- Validation.Validate: each batch is given as its counts and the rank of its first episode. Only `subcls[0][0]` is read per batch, as in the source. The loss, the label resizing and the logging are not modelled.
- The multi-GPU `all_reduce`, logging, tensorboard writes, random seeding and checkpoint file contents are not modelled.
- Metrics: scores use exact real arithmetic, not floating point.
- EpisodeIndex.AppendToBuckets: it asks for a duplicate-free class list. Its only caller passes the ascending list of retained classes, which meets this.
