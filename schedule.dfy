/**
 * The iteration schedule shared by both training loops: which iterations
 * prune factors, which skip the sparsity nodes, which evaluate the ELBO, which
 * assess convergence, and the convergence token those assessments produce.
 */
module Schedule {
  import opened Wrappers
  import opened Seqs
  import opened TrainOptions
  import opened Convergence
  import opened Ledger
  import Arith

  /**
   * The settings the loops are modelled for: a non-negative maxiter, a non-zero
   * pruning frequency (of either sign), a positive ELBO frequency and a
   * non-negative start_elbo.
   */
  predicate Supported(s: Settings)
  {
    s.maxiter >= 0 && s.freqDrop != 0 && s.elbofreq > 0 && s.startElbo >= 0
  }

  /** Iteration i prunes factors: i >= start_drop and i mod freq_drop = 0. */
  predicate IsDropIteration(s: Settings, i: int)
    requires s.freqDrop != 0
  {
    i >= s.startDrop && i % s.freqDrop == 0
  }

  /**
   * The sign of freq_drop does not matter: i mod freq_drop is 0 exactly when
   * |freq_drop| divides i, under Python's floored `%` as under Euclidean `%`.
   */
  lemma {:induction false} DropIterationIgnoresSign(s: Settings, i: int)
    requires s.freqDrop != 0
    ensures IsDropIteration(s, i) <==> IsDropIteration(s.(freqDrop := -s.freqDrop), i)
  {
    var f := s.freqDrop;
    if i % f == 0 {
      assert i == (i / f) * f;
      assert i == (-(i / f)) * (-f);
      Arith.MultipleModZeroAnySign(-(i / f), -f);
    }
    if i % (-f) == 0 {
      assert i == (i / (-f)) * (-f);
      assert i == (-(i / (-f))) * f;
      Arith.MultipleModZeroAnySign(-(i / (-f)), f);
    }
  }

  /** Iteration i evaluates the ELBO: i >= start_elbo and (i - start_elbo) mod elbofreq = 0. */
  predicate IsCheckpoint(s: Settings, i: int)
    requires s.elbofreq != 0
  {
    i >= s.startElbo && (i - s.startElbo) % s.elbofreq == 0
  }

  /** The iteration whose total the delta of checkpoint i is taken against. */
  function PreviousCheckpoint(s: Settings, i: int): int
  {
    if i == s.startElbo then 0 else i - s.elbofreq
  }

  /** Checkpoint i also assesses convergence. */
  predicate IsAssessed(s: Settings, i: int)
    requires s.elbofreq != 0
  {
    IsCheckpoint(s, i) && i > s.startElbo && !s.forceiter
  }

  /** The j-th ELBO checkpoint, start_elbo + j·elbofreq. */
  function CheckpointNumber(s: Settings, j: nat): int
  {
    s.startElbo + j * s.elbofreq
  }

  /** The checkpoints are exactly start_elbo, start_elbo + elbofreq, start_elbo + 2·elbofreq, ... */
  lemma CheckpointsAreArithmetic(s: Settings, i: int)
    requires Supported(s)
    ensures IsCheckpoint(s, i) <==> exists j: nat :: i == CheckpointNumber(s, j)
  {
    if IsCheckpoint(s, i) {
      var j := (i - s.startElbo) / s.elbofreq;
      assert i - s.startElbo == j * s.elbofreq;
      assert i == CheckpointNumber(s, j);
    }
    if exists j: nat :: i == CheckpointNumber(s, j) {
      var j: nat :| i == CheckpointNumber(s, j);
      Arith.MultipleModZero(j, s.elbofreq);
      assert j * s.elbofreq >= 0;
    }
  }

  /**
   * At every checkpoint i >= 1, the ELBO row the delta is taken against has
   * already been written: row 0 (the baseline before training) or an earlier checkpoint.
   */
  lemma PreviousCheckpointIsEarlier(s: Settings, i: int)
    requires Supported(s) && i >= 1 && IsCheckpoint(s, i)
    ensures 0 <= PreviousCheckpoint(s, i) < i
    ensures PreviousCheckpoint(s, i) == 0 || IsCheckpoint(s, PreviousCheckpoint(s, i))
    ensures i > s.startElbo ==> PreviousCheckpoint(s, i) == i - s.elbofreq
  {
    if i != s.startElbo {
      Arith.StepBackMultiple(i - s.startElbo, s.elbofreq);
      assert i - s.elbofreq - s.startElbo == (i - s.startElbo) - s.elbofreq;
    }
  }

  /** ThetaW and ThetaZ, the sparsity nodes, wait for start_sparsity. */
  predicate IsSparsityNode(name: string)
  {
    name == "ThetaW" || name == "ThetaZ"
  }

  /** Whether iteration i updates the node `name` of the schedule. */
  predicate UpdatedAt(i: int, startSparsity: int, name: string)
  {
    !(IsSparsityNode(name) && i < startSparsity)
  }

  /** The nodes iteration i updates, in schedule order. */
  function Scheduled(schedule: seq<string>, i: int, startSparsity: int): seq<string>
  {
    Filter(schedule, name => UpdatedAt(i, startSparsity, name))
  }

  /** One more schedule entry adds it to the end of the nodes updated, when it is updated at all. */
  lemma ScheduledSnoc(schedule: seq<string>, x: string, i: int, startSparsity: int)
    ensures Scheduled(schedule + [x], i, startSparsity)
      == Scheduled(schedule, i, startSparsity) + (if UpdatedAt(i, startSparsity, x) then [x] else [])
  {
    assert (schedule + [x])[..|schedule|] == schedule;
  }

  /** From start_sparsity on, the whole schedule runs, in its order. */
  lemma FullScheduleFromStartSparsity(schedule: seq<string>, i: int, startSparsity: int)
    requires i >= startSparsity
    ensures Scheduled(schedule, i, startSparsity) == schedule
  {
    FilterKeepsAll(schedule, name => UpdatedAt(i, startSparsity, name));
  }

  /** Before start_sparsity, exactly the non-sparsity nodes of the schedule run. */
  lemma SparsitySkippedBeforeStart(schedule: seq<string>, i: int, startSparsity: int)
    requires i < startSparsity
    ensures "ThetaW" !in Scheduled(schedule, i, startSparsity)
    ensures "ThetaZ" !in Scheduled(schedule, i, startSparsity)
    ensures forall n :: n in schedule && !IsSparsityNode(n) ==> n in Scheduled(schedule, i, startSparsity)
  {
  }

  /**
   * The convergence token after iterations 1..i have run, when the nodes
   * report elboAt(j, ·) at iteration j and the mode is recognised.
   */
  function TokenAfter(s: Settings, elboAt: (nat, string) -> real, names: seq<string>, i: nat): int
    requires Supported(s) && Threshold(s.convergenceMode).Some?
  {
    if i == 0 then 1
    else
      var before := TokenAfter(s, elboAt, names, i - 1);
      if IsAssessed(s, i) then
        PreviousCheckpointIsEarlier(s, i);
        var delta := TotalAt(elboAt, names, i) - TotalAt(elboAt, names, PreviousCheckpoint(s, i));
        AssessConvergence(s.convergenceMode, delta, TotalAt(elboAt, names, 0), before).value.token
      else before
  }

  /**
   * Training stops at iteration i: it assesses convergence and either the mode is
   * unrecognised (exit) or the token reaches 5 (converged).
   */
  predicate StopsAt(s: Settings, elboAt: (nat, string) -> real, names: seq<string>, i: nat)
    requires Supported(s)
  {
    IsAssessed(s, i) && (Threshold(s.convergenceMode).None? || TokenAfter(s, elboAt, names, i) == 5)
  }
}
