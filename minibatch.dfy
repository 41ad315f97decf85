/**
 * Mini-batch arithmetic of the stochastic training loop: how iteration numbers
 * map to (epoch, batch) pairs and how one shuffled order of the N samples is cut
 * into ceil(1/batch_size) consecutive slices.
 */
module MiniBatch {
  import opened Seqs
  import Arith

  /** math.ceil on a real. */
  function Ceil(x: real): (r: int)
    ensures x <= r as real < x + 1.0
  {
    -((-x).Floor)
  }

  /** int() on a real: truncation toward zero. */
  function Trunc(x: real): (r: int)
    ensures x >= 0.0 ==> r == x.Floor
  {
    if x >= 0.0 then x.Floor else -((-x).Floor)
  }

  /** int(a / n) for an integer a and a positive integer n: the quotient truncated toward zero. */
  function TruncDiv(a: int, n: int): int
    requires n > 0
  {
    if a >= 0 then a / n else -((-a) / n)
  }

  /** n_batches = ceil(1 / batch_size). */
  function NumBatches(batchSize: real): (n: int)
    requires batchSize > 0.0
    ensures n >= 1
  {
    Ceil(1.0 / batchSize)
  }

  lemma MulMonotone(a: real, x: real, y: real)
    requires a >= 0.0 && x <= y
    ensures a * x <= a * y
  {
    assert a * y - a * x == a * (y - x);
  }

  lemma MulStrict(a: real, x: real, y: real)
    requires a > 0.0 && x < y
    ensures a * x < a * y
  {
    assert a * y - a * x == a * (y - x);
    assert a * (y - x) > 0.0;
  }

  lemma Reciprocal(b: real)
    requires b > 0.0
    ensures b * (1.0 / b) == 1.0
  {
  }

  lemma ScaledBounds(b: real, inv: real, n: real)
    requires b > 0.0 && b * inv == 1.0 && inv <= n < inv + 1.0
    ensures (n - 1.0) * b < 1.0 <= n * b
  {
    MulStrict(b, n - 1.0, inv);
    MulMonotone(b, inv, n);
    assert b * n == n * b;
    assert b * (n - 1.0) == (n - 1.0) * b;
  }

  /** The n batches are enough for the whole epoch, and n - 1 are not. */
  lemma NumBatchesBounds(batchSize: real)
    requires batchSize > 0.0
    ensures (NumBatches(batchSize) as real - 1.0) * batchSize < 1.0 <= NumBatches(batchSize) as real * batchSize
  {
    var n := NumBatches(batchSize) as real;
    Reciprocal(batchSize);
    ScaledBounds(batchSize, 1.0 / batchSize, n);
  }

  /** S·b with S = batch_size·N: where batch b of an epoch starts, before truncation. */
  function Offset(batchSize: real, n: nat, b: int): real
  {
    (batchSize * n as real) * b as real
  }

  /** min = int(S·batch_ix). */
  function BatchStart(batchSize: real, n: nat, b: int): int
  {
    Trunc(Offset(batchSize, n, b))
  }

  /** max = int(S·(batch_ix + 1)), lowered to N when it exceeds N. */
  function BatchEnd(batchSize: real, n: nat, b: int): int
  {
    var hi := Trunc(Offset(batchSize, n, b + 1));
    if hi > n then n else hi
  }

  /** Offsets grow with the batch number. */
  lemma OffsetMonotone(batchSize: real, n: nat, b: int, c: int)
    requires batchSize > 0.0 && 0 <= b <= c
    ensures 0.0 <= Offset(batchSize, n, b) <= Offset(batchSize, n, c)
  {
    var S := batchSize * n as real;
    assert S >= 0.0;
    MulMonotone(S, 0.0, b as real);
    MulMonotone(S, b as real, c as real);
  }

  /** Every batch of an epoch but the one past the end starts within [0, N]. */
  lemma BatchStartInRange(batchSize: real, n: nat, b: int)
    requires batchSize > 0.0 && 0 <= b < NumBatches(batchSize)
    ensures 0 <= BatchStart(batchSize, n, b) <= n
  {
    NumBatchesBounds(batchSize);
    var k := NumBatches(batchSize);
    OffsetMonotone(batchSize, n, b, k - 1);
    var x := (k - 1) as real * batchSize;
    assert Offset(batchSize, n, k - 1) == n as real * x;
    MulMonotone(n as real, x, 1.0);
    assert Offset(batchSize, n, b) <= n as real;
  }

  /** The slice of batch b is a well-formed range within [0, N). */
  lemma BatchBounds(batchSize: real, n: nat, b: int)
    requires batchSize > 0.0 && 0 <= b < NumBatches(batchSize)
    ensures 0 <= BatchStart(batchSize, n, b) <= BatchEnd(batchSize, n, b) <= n
  {
    BatchStartInRange(batchSize, n, b);
    OffsetMonotone(batchSize, n, b, b + 1);
  }

  /** The first batch starts at 0. */
  lemma FirstBatchStartsAtZero(batchSize: real, n: nat)
    ensures BatchStart(batchSize, n, 0) == 0
  {
  }

  /** Each batch ends where the next one starts. */
  lemma BatchesAdjoin(batchSize: real, n: nat, b: int)
    requires batchSize > 0.0 && 0 <= b && b + 1 < NumBatches(batchSize)
    ensures BatchEnd(batchSize, n, b) == BatchStart(batchSize, n, b + 1)
  {
    BatchStartInRange(batchSize, n, b + 1);
  }

  /** The last batch of an epoch ends at N. */
  lemma LastBatchEndsAtN(batchSize: real, n: nat)
    requires batchSize > 0.0
    ensures BatchEnd(batchSize, n, NumBatches(batchSize) - 1) == n
  {
    NumBatchesBounds(batchSize);
    var k := NumBatches(batchSize);
    var y := k as real * batchSize;
    assert Offset(batchSize, n, k) == n as real * y;
    MulMonotone(n as real, 1.0, y);
    OffsetMonotone(batchSize, n, 0, k);
  }

  /** Batch starts grow with the batch number. */
  lemma BatchStartMonotone(batchSize: real, n: nat, b: int, c: int)
    requires batchSize > 0.0 && 0 <= b <= c
    ensures BatchStart(batchSize, n, b) <= BatchStart(batchSize, n, c)
  {
    OffsetMonotone(batchSize, n, b, c);
  }

  /** What s.random.choice(range(N), size=N, replace=False) returns: each of 0..N-1 once, in some order. */
  predicate IsPermutation(p: seq<nat>, n: nat)
  {
    |p| == n && Distinct(p) && (forall i :: 0 <= i < n ==> p[i] < n) && (forall x :: 0 <= x < n ==> x in p)
  }

  /** The identity order is one such permutation. */
  lemma IdentityIsPermutation(n: nat)
    ensures IsPermutation(Range(n), n)
  {
    forall x | 0 <= x < n
      ensures x in Range(n)
    {
      assert Range(n)[x] == x;
    }
  }

  /** The sample indices of batch b: shuffled_ix[min:max]. */
  function Batch(perm: seq<nat>, batchSize: real, b: int): (ix: seq<nat>)
    requires batchSize > 0.0 && 0 <= b < NumBatches(batchSize)
  {
    BatchBounds(batchSize, |perm|, b);
    perm[BatchStart(batchSize, |perm|, b)..BatchEnd(batchSize, |perm|, b)]
  }

  /** The batch whose slice holds position p of the shuffled order, searching down from batch b. */
  lemma {:induction false} FindBatch(batchSize: real, n: nat, p: int, b: int) returns (c: int)
    requires batchSize > 0.0 && 0 <= p < n && 0 <= b < NumBatches(batchSize)
    requires b == NumBatches(batchSize) - 1 || p < BatchStart(batchSize, n, b + 1)
    ensures 0 <= c <= b
    ensures BatchStart(batchSize, n, c) <= p < BatchEnd(batchSize, n, c)
    decreases b
  {
    if BatchStart(batchSize, n, b) <= p {
      c := b;
      if b == NumBatches(batchSize) - 1 {
        LastBatchEndsAtN(batchSize, n);
      } else {
        BatchesAdjoin(batchSize, n, b);
      }
    } else {
      assert b > 0 by {
        if b == 0 { FirstBatchStartsAtZero(batchSize, n); }
      }
      c := FindBatch(batchSize, n, p, b - 1);
    }
  }

  /** Sample x is in one of the batches of an epoch. */
  predicate InSomeBatch(perm: seq<nat>, batchSize: real, x: nat)
    requires batchSize > 0.0
  {
    exists b :: 0 <= b < NumBatches(batchSize) && x in Batch(perm, batchSize, b)
  }

  /** The batch holding position p of the order holds the sample at p. */
  lemma SampleInSomeBatch(perm: seq<nat>, batchSize: real, x: nat)
    requires batchSize > 0.0 && IsPermutation(perm, |perm|) && x < |perm|
    ensures InSomeBatch(perm, batchSize, x)
  {
    var n := |perm|;
    assert x in perm;
    var p :| 0 <= p < n && perm[p] == x;
    var b := FindBatch(batchSize, n, p, NumBatches(batchSize) - 1);
    var lo := BatchStart(batchSize, n, b);
    assert Batch(perm, batchSize, b)[p - lo] == x;
  }

  /** Within one epoch, every sample index 0..N-1 lies in some batch, and batches hold nothing else. */
  lemma EpochCoversAllSamples(perm: seq<nat>, batchSize: real)
    requires batchSize > 0.0 && IsPermutation(perm, |perm|)
    ensures forall x: nat :: x < |perm| ==> InSomeBatch(perm, batchSize, x)
    ensures forall b, x :: 0 <= b < NumBatches(batchSize) && x in Batch(perm, batchSize, b) ==> 0 <= x < |perm|
  {
    var n := |perm|;
    forall x: nat | x < n
      ensures InSomeBatch(perm, batchSize, x)
    {
      SampleInSomeBatch(perm, batchSize, x);
    }
    forall b, x | 0 <= b < NumBatches(batchSize) && x in Batch(perm, batchSize, b)
      ensures 0 <= x < n
    {
      BatchBounds(batchSize, n, b);
    }
  }

  /** Within one epoch, no sample index lies in two batches, nor twice in one. */
  lemma EpochBatchesDisjoint(perm: seq<nat>, batchSize: real)
    requires batchSize > 0.0 && IsPermutation(perm, |perm|)
    ensures forall b, c, x :: 0 <= b < c < NumBatches(batchSize) && x in Batch(perm, batchSize, b) ==> x !in Batch(perm, batchSize, c)
    ensures forall b :: 0 <= b < NumBatches(batchSize) ==> Distinct(Batch(perm, batchSize, b))
  {
    var n := |perm|;
    forall b, c, x | 0 <= b < c < NumBatches(batchSize) && x in Batch(perm, batchSize, b)
      ensures x !in Batch(perm, batchSize, c)
    {
      BatchBounds(batchSize, n, b);
      BatchBounds(batchSize, n, c);
      BatchesAdjoin(batchSize, n, b);
      BatchStartMonotone(batchSize, n, b + 1, c);
      var lb, lc := BatchStart(batchSize, n, b), BatchStart(batchSize, n, c);
      var i :| 0 <= i < |Batch(perm, batchSize, b)| && Batch(perm, batchSize, b)[i] == x;
      assert x == perm[lb + i];
      forall j | 0 <= j < |Batch(perm, batchSize, c)|
        ensures Batch(perm, batchSize, c)[j] != x
      {
        assert Batch(perm, batchSize, c)[j] == perm[lc + j];
        assert lb + i < lc + j;
      }
    }
    forall b | 0 <= b < NumBatches(batchSize)
      ensures Distinct(Batch(perm, batchSize, b))
    {
      BatchBounds(batchSize, n, b);
    }
  }

  /** The argument the stochastic loop passes at iteration i >= start_stochastic, after the method's own i -= 1. */
  function StochasticIndex(i: int, startStochastic: int): int
  {
    (i - (startStochastic - 1)) - 1
  }

  /**
   * Iteration start_stochastic + e·n + b of the stochastic loop is batch b of
   * epoch e: the first stochastic iteration is batch 0 of epoch 0, and each epoch
   * runs through its n batches in order before the next one starts.
   */
  lemma StochasticIterationBatch(batchSize: real, startStochastic: int, e: nat, b: int)
    requires batchSize > 0.0 && 0 <= b < NumBatches(batchSize)
    ensures var j := StochasticIndex(startStochastic + e * NumBatches(batchSize) + b, startStochastic);
      j % NumBatches(batchSize) == b && TruncDiv(j, NumBatches(batchSize)) == e
  {
    var k := NumBatches(batchSize);
    assert StochasticIndex(startStochastic + e * k + b, startStochastic) == e * k + b;
    Arith.DivModOfSum(e, k, b);
    assert e * k + b >= 0;
  }
}
