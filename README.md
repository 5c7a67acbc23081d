# convnet_MNIST: the training-loop bookkeeping, in Dafny

The repository trains small convolutional networks on MNIST. It has two
programs: a Theano trainer (`convnet.py`) and a TensorFlow comparison
script (`performance_comparison/tf_test.py`). Almost all of their work is
tensor maths done by the frameworks. This project models the logic the
repository itself implements around that maths.

- **Batching** (`batching.dfy`): the number of mini-batches is computed by
  Python 2 floor division. The batch with index `i` is the contiguous slice
  `[i*bs, (i+1)*bs)`. Every such slice lies inside the data, and the
  trailing `n % bs` examples are never visited. `Size` is `size(data)`.
- **Shuffling** (`shuffling.dfy`): the end-of-epoch shuffle applies one
  permutation of `0..n-1` to both the features and the labels. It keeps
  every row with its own label. Any number of epochs' shuffles add up to
  one permutation.
- **Network** (`network.dfy`): `Network.__init__` flattens the layers'
  `[w, b]` parameter lists in order.
- **FitSpec** (`fit_spec.dfy`): `Network.fit` as a pure state machine over
  its loop variables, with these proved properties:
  - iteration numbering and step counts;
  - validation on the last mini-batch of every epoch;
  - best tracking with `>=`, where a tie moves `best_iter` forward;
  - patience growth and early stopping;
  - the cases that leave `best_iter` unbound.
- **Trainer** (`trainer.dfy`): `Network.fit` as the source writes it. A
  class holds the loop variables and the shared training buffers, and its
  methods update them in place. Each method is proved against FitSpec.
- **TfTest** (`tf_test.dfy`):
  - `dense_to_one_hot`, which writes into a flat array in place, and its
    argmax decoding.
  - The script's epoch/batch loop, which keeps the lowest validation cost
    with `<=` and shuffles with one shared order.

Abstractions:
- The opaque framework call `train_mb` advances a ghost step counter after
  cutting its mini-batch.
- Validation accuracies and costs are inputs, one per epoch, as exact
  reals; the loops only compare them.
- The random permutations are inputs: one permutation of `0..n-1` per
  epoch.
- `best_iter` while still unbound is `None`, and `iter` before the first
  mini-batch is 0.

## Model

| member | source | states |
|---|---|---|
| Batching.NumBatches | convnet.py:89-90 | the batch count nb is the floor of n / bs: nb*bs <= n < nb*bs + bs |
| Batching.Size | convnet.py:340-342 | `size(data)`: the number of rows of the feature matrix, from which the constructor of Trainer.FitLoop takes the batch count |
| Batching.Batch | convnet.py:113-116 | batch i < nb has exactly bs rows, and its row k is row i*bs + k of the data, which lies inside it |
| Batching.BatchInBounds | convnet.py:114-116 | every slice [i*bs, (i+1)*bs) with i < nb ends at or before n |
| Batching.EndsBefore | convnet.py:152 | a batch with index below nb ends no later than batch nb would start |
| Batching.VisitedIff | convnet.py:152 | an example is read by some batch of an epoch if and only if its index is below n - n % bs |
| Batching.VisitedBelow | convnet.py:152 | a visited example lies below nb*bs |
| Batching.BelowVisited | convnet.py:152 | every example below nb*bs is visited by batch k / bs |
| Shuffling.Range | convnet.py:182 | `np.arange(n)` has length n and holds i at position i |
| Shuffling.Permute | convnet.py:136-137 | `s[order]` has one entry per index, and entry i is s[order[i]] |
| Shuffling.Zip | convnet.py:183-184 | pairs row i of the features with row i of the labels |
| Shuffling.PermutationBounds | convnet.py:182 | a permutation of 0..n-1 has length n and only indices below n |
| Shuffling.RemoveLargest | convnet.py:182 | removing n from a permutation of 0..n leaves a permutation of 0..n-1 on both sides of it |
| Shuffling.PermutePreservesMultiset | convnet.py:183 | fancy indexing by a permutation keeps the multiset of rows |
| Shuffling.ZipPermute | convnet.py:183-184 | permuting features and labels by one order permutes their pairs by that order |
| Shuffling.JointShufflePreservesPairs | convnet.py:182-184 | the joint shuffle keeps the multiset of (features, label) pairs |
| Shuffling.ComposePermutations | convnet.py:182-184 | two shuffles in a row are one shuffle by a composed order, which is again a permutation |
| Shuffling.ShuffleAll | convnet.py:181-184 | the buffers after the given epochs' shuffles, oldest first: same length and same multiset of rows as before |
| Shuffling.AllPermutationsPrefix | convnet.py:182 | the orders of the first e epochs are all permutations |
| Shuffling.ShuffleAllSnoc | convnet.py:181-184 | the buffers after e + 1 epochs are those after e epochs, permuted by epoch e's order |
| Shuffling.ShuffleAllIsOnePermutation | convnet.py:150-184 | after any number of epochs, features and labels have received the same single permutation, and every row still has its label |
| Network.CollectParams | convnet.py:66 | the flattened list has the summed length of the layers' lists, and holds exactly the parameters of some layer |
| Network.Layer.Params | convnet.py:260 | `self.params = [self.w, self.b]` (also lines 291 and 320): two entries, the weight and the bias |
| Network.CollectParamsAppend | convnet.py:66 | flattening two runs of layers concatenates their lists, so layer order is kept |
| Network.ParamAt | convnet.py:66 | parameter j of layer k is at position offset(k) + j of the flat list |
| Network.TwoParamsPerLayer | convnet.py:260 | every layer contributes `[w, b]`, so the network has 2 * number-of-layers parameters |
| Network.Network.constructor | convnet.py:59-66 | keeps the layers and stores their flattened parameter list |
| FitSpec.Validate | convnet.py:162-168 | keeps the best accuracy with `>=` and moves `best_iter` on ties; patience grows only with early stopping, to at least 2*iter on a 1.001 improvement (details below) |
| FitSpec.Max | convnet.py:165 | `max(patience, iter * patience_increase)`: at least both arguments and equal to one of them |
| FitSpec.MiniBatch | convnet.py:153-180 | one mini-batch adds one training step and keeps the epoch; patience and the best accuracy do not decrease |
| FitSpec.EpochFrom | convnet.py:152-180 | the rest of an epoch's `for` loop keeps the epoch, and never lowers the step count, the patience or the best accuracy |
| FitSpec.RunEpoch | convnet.py:150-180 | one `while` pass moves to the next epoch and never lowers the patience or the best accuracy |
| FitSpec.FitFrom | convnet.py:150-184 | the `while` loop runs no epoch beyond `epochs` and stops before `epochs` only by early stopping; patience and the best accuracy never decrease |
| FitSpec.Fit | convnet.py:142-184 | the whole loop from the initial values: no more than `epochs` epochs, fewer only by early stopping; patience stays at least 10000 and the best accuracy at least 0.0 |
| FitSpec.Start | convnet.py:142-149 | the values set before the loop (patience 10000, best 0.0, `best_iter` unbound, epoch 0); FitSpec.StartInv proves they satisfy the loop invariant |
| FitSpec.IterationNumbering | convnet.py:153-157 | iteration numbers of epoch e lie in (nb*(e-1), nb*e], and a number is a multiple of nb exactly for the epoch's last mini-batch |
| FitSpec.StartInv | convnet.py:142-149 | the state before the loop satisfies the loop invariant |
| FitSpec.MiniBatchStep | convnet.py:153-180 | one mini-batch keeps the invariant and adds exactly 1 to `iter`; then it either stops the loop or moves to the next mini-batch |
| FitSpec.InnerMiniBatchStep | convnet.py:153-180 | the same, for a mini-batch that is not the epoch's last |
| FitSpec.InnerMiniBatchValue | convnet.py:153-180 | a mini-batch that is not the epoch's last only counts and tests the patience; it does not validate |
| FitSpec.CountingKeepsInv | convnet.py:178-180 | counting a mini-batch and stopping once `patience <= iter` keeps the invariant |
| FitSpec.InnerPosition | convnet.py:152-153 | after an inner mini-batch, the loop either stops or is at the next index of the same epoch |
| FitSpec.LastMiniBatchStep | convnet.py:157-180 | the epoch's last mini-batch validates, keeps the invariant, and ends the epoch or stops |
| FitSpec.ValidateTracksBest | convnet.py:162-168 | a validation keeps `best` as the maximum so far and `best_iter` as the last validation that reached it |
| FitSpec.EpochFromStep | convnet.py:152-180 | the rest of an epoch keeps the invariant and ends at the `while` head |
| FitSpec.EpochEnd | convnet.py:150-152 | once the `for` loop has run all nb mini-batches, the state is back at the `while` head |
| FitSpec.FitFromStep | convnet.py:150-184 | the `while` loop keeps the invariant, and ends after `epochs` epochs or by early stopping |
| FitSpec.FitInv | convnet.py:142-184 | the final state of `fit` satisfies the invariant |
| FitSpec.FitWithoutEarlyStop | convnet.py:150-152 | without early stopping, all epochs run and exactly epochs * nb training steps happen; patience stays 10000, and there is one validation per epoch when nb > 0 |
| FitSpec.EarlyStopAtPatience | convnet.py:178-180 | with early stopping, the loop stops exactly at iter == patience; otherwise all epochs run with iter < patience |
| FitSpec.ValidationSchedule | convnet.py:157 | validation j happens at iteration nb*(j+1), and there are iter / nb validations |
| FitSpec.BestIsLastMaximum | convnet.py:162-168 | the best accuracy is the maximum of 0.0 and the validated accuracies, and `best_iter` is the last validation that reached it |
| FitSpec.BestIterAtEpochEnd | convnet.py:157-168 | `best_iter`, once bound, is a positive multiple of nb at which validation ran, and is at most the final `iter` |
| FitSpec.ValidatedBeforeIter | convnet.py:153-157 | at the loop head, nb times the number of validations is at most the current iteration |
| FitSpec.FirstValidationBecomesBest | convnet.py:147-168 | once any validated accuracy is non-negative, `best_iter` is bound, because the best starts at 0.0 and the test is `>=` |
| FitSpec.NoBatchesLeavesBestIterUnbound | convnet.py:186-188 | when nb == 0, nothing is trained or validated and `best_iter` stays unbound at the final report |
| FitSpec.EarlyStopBeforeFirstValidation | convnet.py:142-188 | with early stopping and nb > 10000, the loop stops at iteration 10000 before any validation, leaving `best_iter` unbound |
| Trainer.FitLoop.constructor | convnet.py:88-149 | sets nb to `size(train_data) / mini_batch_size` and the loop variables to their initial values |
| Trainer.FitLoop.TrainStep | convnet.py:110-117 | `train_mb(i)` cuts in-bounds slices of both buffers and counts one step |
| Trainer.FitLoop.Validate | convnet.py:162-168 | updates the fields exactly as FitSpec.Validate does |
| Trainer.FitLoop.Shuffle | convnet.py:136-137 | both buffers are replaced by their rows in the order `order` |
| Trainer.FitLoop.MiniBatchStep | convnet.py:153-180 | the `for` body changes the fields exactly as FitSpec.MiniBatch does |
| Trainer.FitLoop.MiniBatches | convnet.py:152-180 | the `for` loop with its `break` changes the fields exactly as FitSpec.EpochFrom does |
| Trainer.FitLoop.RunEpoch | convnet.py:151-184 | one `while` pass does FitSpec.RunEpoch and then shuffles with the epoch's order, also after a `break` |
| Trainer.FitLoop.Run | convnet.py:150-184 | the whole `while` loop ends in FitSpec.Fit's state, with the buffers shuffled once per epoch that ran |
| TfTest.OneHotFlat | performance_comparison/tf_test.py:12-14 | the encoding has num_samples * num_classes cells |
| TfTest.FlatOffset | performance_comparison/tf_test.py:13-15 | for a class in range, the flat offset i*num_classes + cls decodes back to row i and column cls by division and remainder |
| TfTest.OneHotRow | performance_comparison/tf_test.py:14-15 | one row has num_classes cells |
| TfTest.OneHotRowAt | performance_comparison/tf_test.py:13-15 | row i of the encoding is 1.0 at column labels[i] and 0.0 elsewhere |
| TfTest.OneHotCell | performance_comparison/tf_test.py:13-15 | the flat cell i*num_classes + c is 1.0 exactly when c == labels[i] |
| TfTest.RowCell | performance_comparison/tf_test.py:13 | column c of row i is the flat cell i*num_classes + c |
| TfTest.Written | performance_comparison/tf_test.py:14-15 | the zero array after the first i writes keeps the matrix size |
| TfTest.WrittenCell | performance_comparison/tf_test.py:15 | after the writes for samples below i, cell (j, c) is 1.0 exactly when j < i and c == labels[j] |
| TfTest.WrittenIsOneHot | performance_comparison/tf_test.py:15 | once every sample is written, the array is the one-hot encoding |
| TfTest.DenseToOneHot | performance_comparison/tf_test.py:10-17 | returns a newly allocated num_samples x num_classes array whose row i is one-hot at labels[i] |
| TfTest.CellsDistinct | performance_comparison/tf_test.py:13-15 | distinct cells of an n x m matrix have distinct flat offsets inside the array |
| TfTest.CellOf | performance_comparison/tf_test.py:13 | every flat offset below n*m is the offset of some cell |
| TfTest.OutOfRangeLabelSpills | performance_comparison/tf_test.py:13-15 | a label >= num_classes writes into a later row, or past the end of the array for the last sample |
| TfTest.RowSumBelow | performance_comparison/tf_test.py:14-15 | a one-hot row sums to 1.0 if its class is in range, and to 0.0 otherwise |
| TfTest.OneHotRowSum | performance_comparison/tf_test.py:14-15 | every row of the encoding sums to 1 |
| TfTest.ArgMax | performance_comparison/tf_test.py:98-99 | returns a position of the largest value; on ties the model picks the first one, as numpy does (`tf.argmax` does not fix which, and the one-hot round trip has no ties) |
| TfTest.ArgMaxDecodesOneHot | performance_comparison/tf_test.py:98-99 | argmax of row i of the encoding is labels[i] (round trip) |
| TfTest.BestCost | performance_comparison/tf_test.py:135-136 | `best_val_cost` is the least of 10 and the validation costs so far, and is one of them |
| TfTest.BestCostStep | performance_comparison/tf_test.py:135-136 | `best_val_cost` never increases, and a cost `<=` it takes its place |
| TfTest.TrainBatches | performance_comparison/tf_test.py:120-125 | one epoch trains on floor(N / batch_size) in-bounds slices |
| TfTest.TrainLoop | performance_comparison/tf_test.py:103-143 | ends with the least validation cost, both buffers shuffled by the same orders, and epochs * num_batches training runs (details below) |

`FitSpec.Validate` states:
- The iteration is logged.
- The best accuracy never decreases, is at least the new accuracy, and
  is either the old best or the new accuracy.
- When the new accuracy is `>=` the best, `best_iter` becomes this
  iteration; otherwise nothing changes.
- Patience never decreases. It changes only with early stopping on, and
  then to 2 * iter.
- On a significant improvement (1.001), patience becomes at least
  2 * iter.

`TfTest.TrainLoop` states:
- `best_val_cost` after the loop is BestCost of the epochs' costs.
- Features and labels have received the same per-epoch shuffles.
- Exactly epochs * num_batches training runs happen.

## Left out

- Theano and TensorFlow graph construction (`conv2d`, pooling, softmax,
  `T.grad`, `theano.function`, `tf.Session`) is left out. These are foreign
  calls whose behaviour is not visible in the repository.
- The layer classes' `set_inpt`, `cost` and `accuracy`, `feedforward` and
  `predict` are left out. They only build symbolic tensors.
- `Adam`, the gradient-descent updates, the L2 and cross-entropy costs,
  `dropout_layer` and the weight initialisers are left out. They are
  floating-point numerics and random draws done by the frameworks.
- The numeric effect of a training step is left out; only the slice it
  reads is modelled.
- `pickle.dump` checkpointing, CSV loading, `print`, `time()` and the
  `GPU` flag are left out. They are I/O and environment configuration.
- The validation and test accuracy means (`np.mean` over batches) and
  `num_valid_batches` / `num_test_batches` are left out. Each epoch's
  accuracy is an input real.
- `avg_cost` in the TensorFlow script and its minibatch/validation
  accuracy evaluations are left out. They are float sums or framework
  evaluations that do not affect control flow.
  - As a consequence, the script's use of the last `batch_x` at
    performance_comparison/tf_test.py:129 is not modelled. With
    `num_batches == 0` that variable would be undefined.
- The default `num_classes=10` of `dense_to_one_hot` is left out: Dafny has
  no default arguments, so `TfTest.DenseToOneHot` always takes the class count.
- The random draws (`np.random.permutation`, `np.random.shuffle`) are
  inputs, one permutation of `0..n-1` per epoch.
- Python integer semantics outside the natural numbers are left out.
  - A mini-batch size of 0 raises ZeroDivisionError in the source; here a
    positive batch size is a precondition.
  - Negative labels, which numpy would index from the end of the flat
    array, cannot occur because labels are natural numbers.
  - A label `>= num_classes` corrupts another row or raises IndexError in
    the source. `TfTest.DenseToOneHot` requires labels in range instead,
    and `TfTest.OutOfRangeLabelSpills` states where such a write lands.
- Accuracies and costs are exact reals, not float32/float64.
  - The `1.001` relative-improvement threshold is therefore computed
    without rounding.
- The unbound `best_iter` at the final report is not raised as an error.
  It is the value `None`, and the lemmas say when it happens.
- Trainer.FitLoop.TrainStep: the batch slices are ghost values, because
  the training computation they feed is not modelled.
