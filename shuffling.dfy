/** The end-of-epoch shuffle of both training scripts.

    convnet.py draws `order = np.random.permutation(np.arange(dataSize))` and
    tf_test.py shuffles `np.arange(n)` in place; both then replace the
    features by `x[order]` and the labels by `y[order]`, so row i of the new
    data is row order[i] of the old. The random draw is an input here: any
    permutation of 0..n-1. */
module Shuffling {

  /** `np.arange(n)`. */
  function Range(n: nat): (r: seq<nat>)
    ensures |r| == n && forall i :: 0 <= i < n ==> r[i] == i
  {
    seq(n, i => i)
  }

  /** `order` holds each of 0..n-1 exactly once. */
  ghost predicate IsPermutation(order: seq<nat>, n: nat)
  {
    multiset(order) == multiset(Range(n))
  }

  predicate IndicesBelow(order: seq<nat>, n: nat)
  {
    forall i :: 0 <= i < |order| ==> order[i] < n
  }

  /** Fancy indexing `s[order]`. */
  function Permute<T>(s: seq<T>, order: seq<nat>): (r: seq<T>)
    requires IndicesBelow(order, |s|)
    ensures |r| == |order| && forall i :: 0 <= i < |order| ==> r[i] == s[order[i]]
  {
    seq(|order|, i requires 0 <= i < |order| => s[order[i]])
  }

  /** Rows of features paired with their labels. */
  function Zip<X, Y>(xs: seq<X>, ys: seq<Y>): (r: seq<(X, Y)>)
    requires |xs| == |ys|
    ensures |r| == |xs| && forall i :: 0 <= i < |xs| ==> r[i] == (xs[i], ys[i])
  {
    seq(|xs|, i requires 0 <= i < |xs| => (xs[i], ys[i]))
  }

  /** A permutation of 0..n-1 has n entries, all below n. */
  lemma PermutationBounds(order: seq<nat>, n: nat)
    requires IsPermutation(order, n)
    ensures |order| == n && IndicesBelow(order, n)
  {
    calc {
      |order|;
      |multiset(order)|;
      |multiset(Range(n))|;
      n;
    }
    forall i | 0 <= i < |order|
      ensures order[i] < n
    {
      assert order[i] in multiset(order);
      assert order[i] in Range(n);
    }
  }

  lemma RangeSnoc(n: nat)
    ensures Range(n + 1) == Range(n) + [n]
  {
  }

  /** Fancy indexing distributes over a split of the index sequence. */
  lemma PermuteAppend<T>(s: seq<T>, a: seq<nat>, b: seq<nat>)
    requires IndicesBelow(a, |s|) && IndicesBelow(b, |s|)
    ensures IndicesBelow(a + b, |s|)
    ensures Permute(s, a + b) == Permute(s, a) + Permute(s, b)
  {
  }

  /** Taking the largest index n out of a permutation of 0..n leaves a
      permutation of 0..n-1 around it. */
  lemma RemoveLargest(order: seq<nat>, n: nat) returns (before: seq<nat>, after: seq<nat>)
    requires IsPermutation(order, n + 1)
    ensures order == before + [n] + after
    ensures IsPermutation(before + after, n)
  {
    RangeSnoc(n);
    assert Range(n + 1)[n] == n;
    assert n in multiset(order);
    var p :| 0 <= p < |order| && order[p] == n;
    before, after := order[..p], order[p + 1..];
    assert order == before + [n] + after;
    MultisetCancel(multiset(before + after), multiset(Range(n)), n);
  }

  lemma MultisetCancel(a: multiset<nat>, b: multiset<nat>, x: nat)
    requires a + multiset{x} == b + multiset{x}
    ensures a == b
  {
    assert a == (a + multiset{x}) - multiset{x};
  }

  /** Both halves left by RemoveLargest index below n. */
  lemma HalvesBelow(before: seq<nat>, after: seq<nat>, n: nat)
    requires IsPermutation(before + after, n)
    ensures IndicesBelow(before, n) && IndicesBelow(after, n)
  {
    PermutationBounds(before + after, n);
    forall i | 0 <= i < |before| ensures before[i] < n {
      assert before[i] == (before + after)[i];
    }
    forall i | 0 <= i < |after| ensures after[i] < n {
      assert after[i] == (before + after)[|before| + i];
    }
  }

  /** Fancy indexing by `before + [n] + after` on a sequence of n + 1 rows,
      where the halves index the first n rows only. */
  lemma PermuteAroundLast<T>(s: seq<T>, before: seq<nat>, after: seq<nat>)
    requires |s| > 0 && IndicesBelow(before, |s| - 1) && IndicesBelow(after, |s| - 1)
    ensures IndicesBelow(before + [|s| - 1] + after, |s|)
    ensures Permute(s, before + [|s| - 1] + after)
         == Permute(s[..|s| - 1], before) + [s[|s| - 1]] + Permute(s[..|s| - 1], after)
  {
  }

  /** Applying a permutation to a sequence keeps its multiset of elements. */
  lemma {:induction false} PermutePreservesMultiset<T>(s: seq<T>, order: seq<nat>)
    requires IsPermutation(order, |s|)
    ensures IndicesBelow(order, |s|) && multiset(Permute(s, order)) == multiset(s)
  {
    PermutationBounds(order, |s|);
    if |s| > 0 {
      var n: nat := |s| - 1;
      var before, after := RemoveLargest(order, n);
      HalvesBelow(before, after, n);
      var init := s[..n];
      PermutePreservesMultiset(init, before + after);
      PermuteAppend(init, before, after);
      var left := Permute(init, before);
      var right := Permute(init, after);
      PermuteAroundLast(s, before, after);
      assert s == init + [s[n]];
      calc {
        multiset(Permute(s, order));
        multiset(left) + multiset(right) + multiset{s[n]};
        multiset(init) + multiset{s[n]};
        multiset(s);
      }
    }
  }

  /** Permuting features and labels with the same order permutes the pairs. */
  lemma ZipPermute<X, Y>(xs: seq<X>, ys: seq<Y>, order: seq<nat>)
    requires |xs| == |ys| && IndicesBelow(order, |xs|)
    ensures Zip(Permute(xs, order), Permute(ys, order)) == Permute(Zip(xs, ys), order)
  {
  }

  /** The joint shuffle keeps every feature row with its own label: the
      multiset of (row, label) pairs is unchanged. */
  lemma JointShufflePreservesPairs<X, Y>(xs: seq<X>, ys: seq<Y>, order: seq<nat>)
    requires |xs| == |ys| && IsPermutation(order, |xs|)
    ensures IndicesBelow(order, |xs|)
    ensures multiset(Zip(Permute(xs, order), Permute(ys, order))) == multiset(Zip(xs, ys))
  {
    PermutePreservesMultiset(Zip(xs, ys), order);
    ZipPermute(xs, ys, order);
  }

  /** Shuffling twice is shuffling once by the composed order, and that
      order is itself a permutation. */
  lemma ComposePermutations<T>(s: seq<T>, first: seq<nat>, second: seq<nat>)
    requires IsPermutation(first, |s|) && IsPermutation(second, |s|)
    ensures |first| == |s| && IndicesBelow(first, |s|) && IndicesBelow(second, |s|)
    ensures IsPermutation(Permute(first, second), |s|)
    ensures Permute(Permute(s, first), second) == Permute(s, Permute(first, second))
  {
    PermutationBounds(first, |s|);
    PermutationBounds(second, |s|);
    PermutePreservesMultiset(first, second);
  }

  ghost predicate AllPermutations(orders: seq<seq<nat>>, n: nat)
  {
    forall e :: 0 <= e < |orders| ==> IsPermutation(orders[e], n)
  }

  /** The data after one shuffle per epoch, orders[0] first. */
  ghost function ShuffleAll<T>(s: seq<T>, orders: seq<seq<nat>>): (r: seq<T>)
    requires AllPermutations(orders, |s|)
    ensures |r| == |s| && multiset(r) == multiset(s)
    decreases |orders|
  {
    if orders == [] then s
    else
      var last := orders[|orders| - 1];
      var before := ShuffleAll(s, orders[..|orders| - 1]);
      PermutePreservesMultiset(before, last);
      Permute(before, last)
  }

  /** The orders of the first e epochs are permutations too. */
  lemma AllPermutationsPrefix(orders: seq<seq<nat>>, n: nat, e: nat)
    requires AllPermutations(orders, n) && e <= |orders|
    ensures AllPermutations(orders[..e], n)
  {
    assert forall k :: 0 <= k < e ==> orders[..e][k] == orders[k];
  }

  /** One more epoch's shuffle on top of the first e. */
  lemma ShuffleAllSnoc<T>(s: seq<T>, orders: seq<seq<nat>>, e: nat)
    requires AllPermutations(orders, |s|) && e < |orders|
    ensures AllPermutations(orders[..e], |s|) && AllPermutations(orders[..e + 1], |s|)
    ensures IndicesBelow(orders[e], |s|)
    ensures ShuffleAll(s, orders[..e + 1]) == Permute(ShuffleAll(s, orders[..e]), orders[e])
  {
    AllPermutationsPrefix(orders, |s|, e);
    AllPermutationsPrefix(orders, |s|, e + 1);
    PermutationBounds(orders[e], |s|);
    var pre := orders[..e + 1];
    assert pre[..e] == orders[..e] && pre[e] == orders[e];
  }

  /** However many epochs ran, features and labels have received one and
      the same permutation of 0..n-1, so every row still has its label. */
  lemma {:induction false} ShuffleAllIsOnePermutation<X, Y>(xs: seq<X>, ys: seq<Y>, orders: seq<seq<nat>>)
    requires |xs| == |ys| && AllPermutations(orders, |xs|)
    ensures IsPermutation(ShuffleAll(Range(|xs|), orders), |xs|)
    ensures IndicesBelow(ShuffleAll(Range(|xs|), orders), |xs|)
    ensures ShuffleAll(xs, orders) == Permute(xs, ShuffleAll(Range(|xs|), orders))
    ensures ShuffleAll(ys, orders) == Permute(ys, ShuffleAll(Range(|xs|), orders))
    ensures multiset(Zip(ShuffleAll(xs, orders), ShuffleAll(ys, orders))) == multiset(Zip(xs, ys))
    decreases |orders|
  {
    var n := |xs|;
    var total := ShuffleAll(Range(n), orders);
    if orders == [] {
      assert Permute(xs, Range(n)) == xs;
      assert Permute(ys, Range(n)) == ys;
    } else {
      var init := orders[..|orders| - 1];
      var last := orders[|orders| - 1];
      ShuffleAllIsOnePermutation(xs, ys, init);
      var before := ShuffleAll(Range(n), init);
      ComposePermutations(xs, before, last);
      ComposePermutations(ys, before, last);
      assert total == Permute(before, last);
    }
    PermutationBounds(total, n);
    JointShufflePreservesPairs(xs, ys, total);
  }
}
