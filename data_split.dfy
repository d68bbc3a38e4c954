/** The data bookkeeping of the training script (2_stiffened_panels/2_train_model.py,
    lines 125-135): one random permutation applied to both the feature rows X
    and the targets Y, then Python slicing into a training block and a test
    block, and `n_test` overwritten by the size of the test block.

    The permutation comes from a seeded random generator; here it is a
    parameter, required only to be a permutation of 0 .. N-1. */
module DataSplit {

  /** 0, 1, ..., n-1: what `np.random.permutation(n)` permutes. */
  function Range(n: nat): (r: seq<nat>)
    ensures |r| == n && forall i :: 0 <= i < n ==> r[i] == i
  {
    seq(n, i => i)
  }

  /** `perm` holds each of 0 .. n-1 exactly once. */
  ghost predicate IsPermutation(perm: seq<nat>, n: nat)
  {
    multiset(perm) == multiset(Range(n))
  }

  predicate IndicesBelow(p: seq<nat>, n: nat)
  {
    forall k :: 0 <= k < |p| ==> p[k] < n
  }

  /** Fancy indexing `s[perm]`: entry k of the result is entry perm[k] of s. */
  function Gather<T>(s: seq<T>, perm: seq<nat>): (r: seq<T>)
    requires IndicesBelow(perm, |s|)
    ensures |r| == |perm|
    ensures forall k :: 0 <= k < |perm| ==> r[k] == s[perm[k]]
  {
    seq(|perm|, k requires 0 <= k < |perm| => s[perm[k]])
  }

  /** Rows paired with their targets. */
  function Zip<A, B>(xs: seq<A>, ys: seq<B>): (r: seq<(A, B)>)
    requires |xs| == |ys|
    ensures |r| == |xs| && forall k :: 0 <= k < |xs| ==> r[k] == (xs[k], ys[k])
  {
    seq(|xs|, k requires 0 <= k < |xs| => (xs[k], ys[k]))
  }

  /** A permutation has length n and only indices below n. */
  lemma PermutationIndices(perm: seq<nat>, n: nat)
    requires IsPermutation(perm, n)
    ensures |perm| == n && IndicesBelow(perm, n)
  {
    assert |perm| == |multiset(perm)| == |multiset(Range(n))| == n;
    forall k | 0 <= k < |perm| ensures perm[k] < n {
      assert perm[k] in multiset(perm);
      assert perm[k] in Range(n);
    }
  }

  lemma GatherAppend<T>(s: seq<T>, p: seq<nat>, q: seq<nat>)
    requires IndicesBelow(p, |s|) && IndicesBelow(q, |s|)
    ensures IndicesBelow(p + q, |s|)
    ensures Gather(s, p + q) == Gather(s, p) + Gather(s, q)
  {
  }

  lemma GatherCons<T>(s: seq<T>, p: seq<nat>)
    requires IndicesBelow(p, |s|) && 0 < |p|
    ensures IndicesBelow(p[1..], |s|)
    ensures Gather(s, p) == [s[p[0]]] + Gather(s, p[1..])
  {
  }

  /** Removing position j takes exactly one copy of q[j] out of the multiset. */
  lemma RemoveAt(q: seq<nat>, j: nat)
    requires j < |q|
    ensures multiset(q[..j] + q[j + 1..]) == multiset(q) - multiset{q[j]}
  {
    assert q == q[..j] + [q[j]] + q[j + 1..];
  }

  /** Gathering by q is gathering by q with position j removed, with s[q[j]] put back. */
  lemma GatherRemoveAt<T>(s: seq<T>, q: seq<nat>, j: nat)
    requires IndicesBelow(q, |s|) && j < |q|
    ensures IndicesBelow(q[..j] + q[j + 1..], |s|)
    ensures multiset(Gather(s, q)) == multiset(Gather(s, q[..j] + q[j + 1..])) + multiset{s[q[j]]}
  {
    var q' := q[..j] + q[j + 1..];
    assert q == q[..j] + [q[j]] + q[j + 1..];
    GatherAppend(s, q[..j], [q[j]]);
    GatherAppend(s, q[..j] + [q[j]], q[j + 1..]);
    GatherAppend(s, q[..j], q[j + 1..]);
    assert Gather(s, q) == Gather(s, q[..j]) + [s[q[j]]] + Gather(s, q[j + 1..]);
    assert Gather(s, q') == Gather(s, q[..j]) + Gather(s, q[j + 1..]);
  }

  /** Matching the head of p with position j of q leaves two tails holding the same indices. */
  lemma TailMatches(p: seq<nat>, q: seq<nat>, j: nat)
    requires multiset(p) == multiset(q)
    requires 0 < |p| && j < |q| && q[j] == p[0]
    ensures multiset(p[1..]) == multiset(q[..j] + q[j + 1..])
  {
    RemoveAt(q, j);
    RemoveAt(p, 0);
    assert p[..0] + p[1..] == p[1..];
  }

  /** Gathering by two index sequences holding the same indices gives the same rows, up to order. */
  lemma {:induction false} GatherSameIndices<T>(s: seq<T>, p: seq<nat>, q: seq<nat>)
    requires IndicesBelow(p, |s|) && IndicesBelow(q, |s|)
    requires multiset(p) == multiset(q)
    ensures multiset(Gather(s, p)) == multiset(Gather(s, q))
    decreases |p|
  {
    if |p| == 0 {
      assert |q| == |multiset(q)| == 0;
    } else {
      var a := p[0];
      assert a in multiset(q);
      var j :| 0 <= j < |q| && q[j] == a;
      var p', q' := p[1..], q[..j] + q[j + 1..];
      TailMatches(p, q, j);
      GatherRemoveAt(s, q, j);
      GatherCons(s, p);
      GatherSameIndices(s, p', q');
      calc {
        multiset(Gather(s, p));
        multiset([s[a]] + Gather(s, p'));
        multiset{s[a]} + multiset(Gather(s, q'));
        multiset(Gather(s, q));
      }
    }
  }

  /** `X[rand_perm, :]` reorders the rows and neither drops nor duplicates any. */
  lemma ShuffleIsPermutation<T>(s: seq<T>, perm: seq<nat>)
    requires IsPermutation(perm, |s|)
    ensures IndicesBelow(perm, |s|)
    ensures multiset(Gather(s, perm)) == multiset(s)
  {
    PermutationIndices(perm, |s|);
    GatherSameIndices(s, perm, Range(|s|));
    assert Gather(s, Range(|s|)) == s;
  }

  /** Applying the same permutation to X and to Y keeps each row with its own
      target: the shuffled (row, target) pairs are the original pairs, reordered. */
  lemma ShuffleKeepsPairs<A, B>(xs: seq<A>, ys: seq<B>, perm: seq<nat>)
    requires |xs| == |ys| && IsPermutation(perm, |xs|)
    ensures IndicesBelow(perm, |xs|)
    ensures Zip(Gather(xs, perm), Gather(ys, perm)) == Gather(Zip(xs, ys), perm)
    ensures multiset(Zip(Gather(xs, perm), Gather(ys, perm))) == multiset(Zip(xs, ys))
  {
    PermutationIndices(perm, |xs|);
    ShuffleIsPermutation(Zip(xs, ys), perm);
  }

  /** A sequence in which two positions hold the same value has that value at least twice. */
  lemma RepeatedValue(p: seq<nat>, i: nat, j: nat)
    requires i < j < |p| && p[i] == p[j]
    ensures multiset(p)[p[i]] >= 2
  {
    assert p == p[..i] + [p[i]] + p[i + 1..j] + [p[j]] + p[j + 1..];
  }

  lemma {:induction false} RangeCountsOnce(n: nat, v: nat)
    ensures multiset(Range(n))[v] <= 1
  {
    if n > 0 {
      assert Range(n) == Range(n - 1) + [n - 1];
      RangeCountsOnce(n - 1, v);
      if v == n - 1 {
        assert v !in Range(n - 1);
      }
    }
  }

  /** No index occurs twice in a permutation. */
  lemma PermutationDistinct(perm: seq<nat>, n: nat, i: nat, j: nat)
    requires IsPermutation(perm, n) && i < j < |perm|
    ensures perm[i] != perm[j]
  {
    if perm[i] == perm[j] {
      RepeatedValue(perm, i, j);
      RangeCountsOnce(n, perm[i]);
      assert false;
    }
  }

  /** How Python normalises a slice bound for a sequence of length n:
      a negative bound counts from the end, and the result is clamped to 0 .. n. */
  function SliceIndex(i: int, n: nat): (r: nat)
    ensures r <= n
    ensures 0 <= i ==> r == if i < n then i else n
    ensures i < 0 ==> r == if n + i < 0 then 0 else n + i
  {
    if i < 0 then (if n + i < 0 then 0 else n + i)
    else if i < n then i else n
  }

  /** `s[start:stop]` with Python's rules: empty when the normalised stop does not exceed the start. */
  function Slice<T>(s: seq<T>, start: int, stop: int): (r: seq<T>)
    ensures var lo, hi := SliceIndex(start, |s|), SliceIndex(stop, |s|);
      |r| == (if lo <= hi then hi - lo else 0) &&
      forall k :: 0 <= k < |r| ==> r[k] == s[lo + k]
  {
    var lo := SliceIndex(start, |s|);
    var hi := SliceIndex(stop, |s|);
    if lo <= hi then s[lo..hi] else []
  }

  /** Where the training block ends in the shuffled rows. */
  function TrainEnd(n: nat, nTrain: int): nat
  {
    SliceIndex(nTrain, n)
  }

  /** Where the test block ends in the shuffled rows: never before the training block ends. */
  function TestEnd(n: nat, nTrain: int, nTest: int): (e: nat)
    ensures TrainEnd(n, nTrain) <= e <= n
  {
    var hi := SliceIndex(nTrain + nTest, n);
    if hi < TrainEnd(n, nTrain) then TrainEnd(n, nTrain) else hi
  }

  /** The training block and the test block are the contiguous index ranges
      [0, TrainEnd) and [TrainEnd, TestEnd) of the shuffled rows, so they are
      disjoint, and together with the rows past TestEnd they make up all of it. */
  lemma SplitRanges<T>(s: seq<T>, nTrain: int, nTest: int)
    ensures Slice(s, 0, nTrain) == s[..TrainEnd(|s|, nTrain)]
    ensures Slice(s, nTrain, nTrain + nTest) == s[TrainEnd(|s|, nTrain)..TestEnd(|s|, nTrain, nTest)]
    ensures Slice(s, 0, nTrain) + Slice(s, nTrain, nTrain + nTest) + s[TestEnd(|s|, nTrain, nTest)..] == s
  {
    var a, b := TrainEnd(|s|, nTrain), TestEnd(|s|, nTrain, nTest);
    assert s[..a] + s[a..b] + s[b..] == s;
  }

  /** For the non-negative sizes the command line is meant to take: the
      training block has min(n_train, N) rows and the overwritten `n_test` is
      max(0, min(n_test, N - n_train)). */
  lemma SplitSizes<T>(s: seq<T>, nTrain: int, nTest: int)
    requires 0 <= nTrain && 0 <= nTest
    ensures |Slice(s, 0, nTrain)| == if nTrain < |s| then nTrain else |s|
    ensures |Slice(s, nTrain, nTrain + nTest)| ==
      if |s| - nTrain <= 0 then 0 else if nTest < |s| - nTrain then nTest else |s| - nTrain
  {
    SplitRanges(s, nTrain, nTest);
  }

  /** The original data rows that land in the training block and those that
      land in the test block are different rows. */
  lemma SplitRowsDisjoint(perm: seq<nat>, n: nat, nTrain: int, nTest: int, i: nat, j: nat)
    requires IsPermutation(perm, n)
    requires i < TrainEnd(n, nTrain) <= j < TestEnd(n, nTrain, nTest)
    ensures |perm| == n
    ensures perm[i] != perm[j]
  {
    PermutationIndices(perm, n);
    PermutationDistinct(perm, n, i, j);
  }

  /** Lines 125-135 of the script: shuffle X and Y by one permutation, slice
      the training and test blocks, and overwrite `n_test` with the actual
      size of the test block. */
  method ShuffleAndSplit<R(0), V(0)>(X: seq<R>, Y: seq<V>, perm: seq<nat>, nTrain: int, nTest: int)
    returns (xTrain: seq<R>, yTrain: seq<V>, xTest: seq<R>, yTest: seq<V>, nTestOut: int)
    requires |X| == |Y|
    requires IsPermutation(perm, |X|)
    ensures IndicesBelow(perm, |X|)
    ensures xTrain == Slice(Gather(X, perm), 0, nTrain) && yTrain == Slice(Gather(Y, perm), 0, nTrain)
    ensures xTest == Slice(Gather(X, perm), nTrain, nTrain + nTest)
    ensures yTest == Slice(Gather(Y, perm), nTrain, nTrain + nTest)
    ensures |xTrain| == |yTrain| == TrainEnd(|X|, nTrain)
    ensures nTestOut == |xTest| == |yTest| == TestEnd(|X|, nTrain, nTest) - TrainEnd(|X|, nTrain)
  {
    PermutationIndices(perm, |X|);
    var n := |perm|;
    var xs := new R[n];
    var ys := new V[n];
    for k := 0 to n
      invariant forall m :: 0 <= m < k ==> xs[m] == X[perm[m]] && ys[m] == Y[perm[m]]
    {
      xs[k] := X[perm[k]];
      ys[k] := Y[perm[k]];
    }
    var shuffledX, shuffledY := xs[..], ys[..];
    assert shuffledX == Gather(X, perm);
    assert shuffledY == Gather(Y, perm);
    SplitRanges(shuffledX, nTrain, nTest);
    SplitRanges(shuffledY, nTrain, nTest);
    xTrain := Slice(shuffledX, 0, nTrain);
    yTrain := Slice(shuffledY, 0, nTrain);
    xTest := Slice(shuffledX, nTrain, nTrain + nTest);
    yTest := Slice(shuffledY, nTrain, nTrain + nTest);
    nTestOut := |xTest|;
  }
}
