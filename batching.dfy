/** Mini-batch arithmetic shared by the Theano trainer (convnet.py) and the
    TensorFlow comparison script (performance_comparison/tf_test.py).

    Both compute the number of mini-batches with Python 2 integer division
    of the number of examples by the batch size, and both cut the batch with
    index i as the contiguous slice [i*bs, (i+1)*bs). Sizes are never
    negative, so Python's floor division coincides with Dafny's `/`. */
module Batching {

  /** A data set: a feature matrix and its labels, one row per example. */
  datatype DataSet<X, Y> = DataSet(features: seq<X>, labels: seq<Y>)

  /** Number of rows of a data set: `size(data)` reads shape[0] of the
      feature matrix. */
  function Size<X, Y>(data: DataSet<X, Y>): nat
  {
    |data.features|
  }

  /** `n / batchSize` in Python 2: the number of whole batches. */
  function NumBatches(n: nat, batchSize: nat): (nb: nat)
    requires batchSize > 0
    ensures nb * batchSize <= n < nb * batchSize + batchSize
  {
    n / batchSize
  }

  /** First index of batch i. */
  function BatchStart(i: nat, batchSize: nat): nat
  {
    i * batchSize
  }

  /** The slice `data[i*bs : (i+1)*bs]` fed to one training step. */
  function Batch<T>(data: seq<T>, batchSize: nat, i: nat): (b: seq<T>)
    requires batchSize > 0 && i < NumBatches(|data|, batchSize)
    ensures BatchStart(i, batchSize) + batchSize <= |data| && |b| == batchSize
    ensures forall k :: 0 <= k < batchSize ==> b[k] == data[BatchStart(i, batchSize) + k]
  {
    BatchInBounds(|data|, batchSize, i);
    var start := BatchStart(i, batchSize);
    data[start..start + batchSize]
  }

  // Facts of integer arithmetic shared by the index computations.

  lemma MulLeft(a: nat, b: nat, c: nat)
    requires a <= b
    ensures a * c <= b * c && c * a <= c * b
  {
  }

  lemma MulSucc(i: nat, m: nat)
    ensures (i + 1) * m == i * m + m
  {
  }

  lemma DivModUnique(x: nat, nb: nat, q: nat, rem: nat)
    requires nb > 0 && rem < nb && x == nb * q + rem
    ensures x / nb == q && x % nb == rem
  {
    var q', r' := x / nb, x % nb;
    assert nb * q' + r' == nb * q + rem;
    if q' > q {
      assert nb * q' == nb * q + nb * (q' - q);
      MulAtLeastOne(nb, q' - q);
    } else if q' < q {
      assert nb * q == nb * q' + nb * (q - q');
      MulAtLeastOne(nb, q - q');
    }
  }

  lemma MulAtLeastOne(nb: nat, k: nat)
    requires k >= 1
    ensures nb * k >= nb
  {
  }

  /** A batch below index nb ends no later than where batch nb starts. */
  lemma EndsBefore(i: nat, nb: nat, batchSize: nat)
    requires i < nb
    ensures BatchStart(i, batchSize) + batchSize <= BatchStart(nb, batchSize)
  {
    MulLeft(i + 1, nb, batchSize);
    assert (i + 1) * batchSize == i * batchSize + batchSize;
  }

  /** Every batch with index below the batch count lies inside [0, n). */
  lemma BatchInBounds(n: nat, batchSize: nat, i: nat)
    requires batchSize > 0 && i < NumBatches(n, batchSize)
    ensures BatchStart(i, batchSize) + batchSize <= n
  {
    EndsBefore(i, NumBatches(n, batchSize), batchSize);
  }

  /** Example k is read by some batch of an epoch. */
  ghost predicate Visited(n: nat, batchSize: nat, k: nat)
    requires batchSize > 0
  {
    exists i :: 0 <= i < NumBatches(n, batchSize) &&
      BatchStart(i, batchSize) <= k < BatchStart(i, batchSize) + batchSize
  }

  /** An epoch visits exactly the first n - n % batchSize examples: the
      trailing remainder is never trained on. */
  lemma VisitedIff(n: nat, batchSize: nat, k: nat)
    requires batchSize > 0 && k < n
    ensures Visited(n, batchSize, k) <==> k < n - n % batchSize
  {
    var nb := NumBatches(n, batchSize);
    assert nb * batchSize == n - n % batchSize;
    if Visited(n, batchSize, k) {
      VisitedBelow(n, batchSize, k);
    }
    if k < nb * batchSize {
      BelowVisited(n, batchSize, k);
    }
  }

  lemma VisitedBelow(n: nat, batchSize: nat, k: nat)
    requires batchSize > 0 && Visited(n, batchSize, k)
    ensures k < NumBatches(n, batchSize) * batchSize
  {
    var nb := NumBatches(n, batchSize);
    var i :| 0 <= i < nb && BatchStart(i, batchSize) <= k < BatchStart(i, batchSize) + batchSize;
    EndsBefore(i, nb, batchSize);
  }

  lemma BelowVisited(n: nat, batchSize: nat, k: nat)
    requires batchSize > 0 && k < NumBatches(n, batchSize) * batchSize
    ensures Visited(n, batchSize, k)
  {
    var nb := NumBatches(n, batchSize);
    var i := k / batchSize;
    assert BatchStart(i, batchSize) <= k < BatchStart(i, batchSize) + batchSize;
    if i >= nb {
      MulLeft(nb, i, batchSize);
    }
    assert i < nb;
  }
}
