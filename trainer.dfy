/** `Network.fit` of convnet.py as an object whose fields are the loop
    variables the method updates in place, and the training buffers that
    the end-of-epoch shuffle overwrites.

    Each method is proved against the pure state machine of FitSpec; the
    properties of the loop (step count, early stopping, validation schedule,
    best tracking) are lemmas there. The framework calls are abstracted: the
    training step `train_mb` only advances a ghost step counter after
    cutting its mini-batch, validation accuracies come in as reals, and the
    random permutations as one order per epoch. */
module Trainer {
  import opened FitSpec
  import opened Batching
  import opened Shuffling

  class FitLoop<X, Y> {
    // configuration fixed before the loop
    const epochs: nat
    const miniBatchSize: nat
    const numTrainBatches: nat
    const earlyStop: bool

    // loop variables of `fit`
    var epoch: nat
    var patience: nat
    var bestValidAccuracy: real
    var bestIter: Option<nat>
    var doneLooping: bool
    var iter: nat
    ghost var steps: nat
    ghost var validations: seq<nat>

    // the shared training buffers `train_x`, `train_y`
    var trainX: seq<X>
    var trainY: seq<Y>

    function Cfg(): Config
    {
      Config(epochs, numTrainBatches, earlyStop)
    }

    ghost function State(): LoopState
      reads this
    {
      LoopState(epoch, patience, bestValidAccuracy, bestIter, doneLooping, iter, steps, validations)
    }

    /** The batch count was taken from the training set, whose features and
        labels have the same number of rows. */
    ghost predicate Valid()
      reads this
    {
      && miniBatchSize > 0
      && |trainX| == |trainY|
      && numTrainBatches == NumBatches(|trainX|, miniBatchSize)
    }

    /** The part of `fit` before the loop: the batch count from `size` by
        floor division and the initial early-stopping state. */
    constructor (trainData: DataSet<X, Y>, epochs: nat, miniBatchSize: nat, earlyStop: bool)
      requires miniBatchSize > 0 && |trainData.features| == |trainData.labels|
      ensures Valid() && State() == Start()
      ensures trainX == trainData.features && trainY == trainData.labels
      ensures this.epochs == epochs && this.miniBatchSize == miniBatchSize && this.earlyStop == earlyStop
    {
      this.epochs := epochs;
      this.miniBatchSize := miniBatchSize;
      this.earlyStop := earlyStop;
      trainX := trainData.features;
      trainY := trainData.labels;
      numTrainBatches := Size(trainData) / miniBatchSize;
      patience := InitialPatience;
      bestValidAccuracy := 0.0;
      bestIter := None;
      doneLooping := false;
      epoch := 0;
      iter := 0;
      steps := 0;
      validations := [];
    }

    /** `train_mb(index)`: trains on rows [index*bs, (index+1)*bs) of the
        buffers, which lie inside them. Its numeric effect is not modelled. */
    method TrainStep(index: nat)
      requires Valid() && index < numTrainBatches
      modifies this`steps
      ensures steps == old(steps) + 1
    {
      ghost var batchX := Batch(trainX, miniBatchSize, index);
      ghost var batchY := Batch(trainY, miniBatchSize, index);
      steps := steps + 1;
    }

    /** The validation block: keep the best accuracy with `>=` and, with
        early stopping, extend the patience on a significant improvement. */
    method Validate(it: nat, validAccuracy: real)
      modifies this`patience, this`bestValidAccuracy, this`bestIter, this`validations
      ensures State() == FitSpec.Validate(old(State()), earlyStop, it, validAccuracy)
    {
      validations := validations + [it];
      if validAccuracy >= bestValidAccuracy {
        if validAccuracy >= bestValidAccuracy * ImproveThreshold && earlyStop {
          patience := Max(patience, it * PatienceIncrease);
        }
        bestValidAccuracy := validAccuracy;
        bestIter := Some(it);
      }
    }

    /** `shuffleData(order)` and `shuffleLabel(order)`: one order for both. */
    method Shuffle(order: seq<nat>)
      requires Valid() && IsPermutation(order, |trainX|)
      modifies this`trainX, this`trainY
      ensures Valid()
      ensures IndicesBelow(order, |old(trainX)|)
      ensures trainX == Permute(old(trainX), order) && trainY == Permute(old(trainY), order)
    {
      PermutationBounds(order, |trainX|);
      trainX := Permute(trainX, order);
      trainY := Permute(trainY, order);
    }

    /** The body of the `for` loop for mini-batch `index`: number it, train
        on it, validate on the epoch's last one, test for early stopping. */
    method MiniBatchStep(index: nat, validAccuracy: real)
      requires Valid() && epoch >= 1 && index < numTrainBatches
      modifies this`iter, this`steps, this`patience, this`bestValidAccuracy, this`bestIter,
        this`validations, this`doneLooping
      ensures State() == MiniBatch(Cfg(), old(State()), index, validAccuracy)
    {
      iter := numTrainBatches * (epoch - 1) + index + 1;
      TrainStep(index);
      if iter % numTrainBatches == 0 {
        Validate(iter, validAccuracy);
      }
      if earlyStop && patience <= iter {
        doneLooping := true;
      }
    }

    /** The `for` loop over the epoch's mini-batches, left by `break` once
        early stopping fires. */
    method MiniBatches(validAccuracy: real)
      requires Valid() && epoch >= 1 && !doneLooping
      modifies this`iter, this`steps, this`patience, this`bestValidAccuracy, this`bestIter,
        this`validations, this`doneLooping
      ensures State() == EpochFrom(Cfg(), old(State()), 0, validAccuracy)
    {
      for index := 0 to numTrainBatches
        invariant !doneLooping
        invariant EpochFrom(Cfg(), State(), index, validAccuracy)
               == EpochFrom(Cfg(), old(State()), 0, validAccuracy)
      {
        MiniBatchStep(index, validAccuracy);
        if doneLooping {
          break;
        }
      }
    }

    /** One pass of the `while` body: the epoch's mini-batches, then the
        shuffle, which also runs after an early-stopping `break`. */
    method RunEpoch(validAccuracy: real, order: seq<nat>)
      requires Valid() && !doneLooping && IsPermutation(order, |trainX|)
      modifies this
      ensures Valid()
      ensures State() == FitSpec.RunEpoch(Cfg(), old(State()), validAccuracy)
      ensures IndicesBelow(order, |old(trainX)|)
      ensures trainX == Permute(old(trainX), order) && trainY == Permute(old(trainY), order)
    {
      epoch := epoch + 1;
      MiniBatches(validAccuracy);
      Shuffle(order);
    }

    /** The `while` loop of `fit`. */
    method Run(validAccuracies: seq<real>, orders: seq<seq<nat>>)
      requires Valid() && State() == Start()
      requires epochs <= |validAccuracies| && epochs <= |orders|
      requires AllPermutations(orders, |trainX|)
      modifies this
      ensures Valid()
      ensures State() == Fit(Cfg(), validAccuracies)
      ensures epoch <= |orders| && AllPermutations(orders[..epoch], |old(trainX)|)
      ensures trainX == ShuffleAll(old(trainX), orders[..epoch])
      ensures trainY == ShuffleAll(old(trainY), orders[..epoch])
    {
      ghost var target := Fit(Cfg(), validAccuracies);
      while epoch < epochs && !doneLooping
        invariant Valid() && |trainX| == |old(trainX)|
        invariant epoch <= epochs
        invariant FitFrom(Cfg(), validAccuracies, State()) == target
        invariant AllPermutations(orders[..epoch], |old(trainX)|)
        invariant trainX == ShuffleAll(old(trainX), orders[..epoch])
        invariant trainY == ShuffleAll(old(trainY), orders[..epoch])
        decreases epochs - epoch
      {
        ShuffleAllSnoc(old(trainX), orders, epoch);
        ShuffleAllSnoc(old(trainY), orders, epoch);
        RunEpoch(validAccuracies[epoch], orders[epoch]);
      }
    }
  }
}
