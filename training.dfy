/**
 * What one training run does, as values: the calls the loop makes on the nodes
 * of the network, the statistics tables it fills in, and how the random choices
 * it makes (the factor dropped, the order of each epoch) are constrained.
 */
module Training {
  import opened Wrappers
  import opened Seqs
  import opened TrainOptions
  import opened Convergence
  import opened Ledger
  import opened Schedule
  import opened Pruning
  import opened MiniBatch

  /** The arguments of a node's update(): none in full-batch training, the mini-batch and step size in stochastic training. */
  datatype Step = FullBatch | Stochastic(ix: Option<seq<nat>>, ro: real)

  /** A call the loop makes on the nodes; "Y" stands for all of its per-view nodes. */
  datatype NodeCall =
    | Precompute(node: string)
    | SetTauTrick(enabled: bool)
    | Update(node: string, step: Step)
    | RemoveFactors(node: string, drop: seq<nat>)
    | DefineMiniBatch(node: string, ix: seq<nat>)

  /** Why training stopped early without statistics: exit() or an uncaught exception. */
  datatype Halt = AllFactorsShutDown | NoGroups | UnknownConvergenceMode

  /** How iterate ends. */
  datatype Outcome = Completed | Converged(iteration: nat) | Exited(iteration: nat, reason: Halt)

  /** train_stats: iter_time, number_factors and the ELBO table; None stands for a NaN row. */
  datatype TrainStats = TrainStats(time: seq<Option<real>>, numberFactors: seq<Option<int>>, elbo: seq<Option<ElboEntry>>)

  /** The variational nodes among `nodes`, in node order. */
  function VariationalOf(nodes: seq<string>, variational: set<string>): (r: seq<string>)
    ensures forall n :: n in r <==> n in nodes && n in variational
  {
    Filter(nodes, n => n in variational)
  }

  /** One call per name, in order. */
  function ForEach(names: seq<string>, call: string -> NodeCall): (r: seq<NodeCall>)
    ensures |r| == |names| && forall k :: 0 <= k < |names| ==> r[k] == call(names[k])
  {
    if |names| == 0 then [] else ForEach(names[..|names| - 1], call) + [call(names[|names| - 1])]
  }

  function PrecomputeEach(nodes: seq<string>): seq<NodeCall>
  {
    ForEach(nodes, n => Precompute(n))
  }

  /** precompute: every node precomputes, then the ELBO is taken with the tau trick off and the option restored. */
  function PrecomputeCalls(nodes: seq<string>, tauTrick: bool): seq<NodeCall>
  {
    PrecomputeEach(nodes) + [SetTauTrick(false), SetTauTrick(tauTrick)]
  }

  function RemoveEach(nodes: seq<string>, drop: seq<nat>): seq<NodeCall>
  {
    ForEach(nodes, n => RemoveFactors(n, drop))
  }

  /** Every node removes the dropped factors, when there are any. */
  function DropCalls(nodes: seq<string>, drop: seq<nat>): seq<NodeCall>
  {
    if |drop| > 0 then RemoveEach(nodes, drop) else []
  }

  function UpdateCalls(names: seq<string>, step: Step): seq<NodeCall>
  {
    ForEach(names, n => Update(n, step))
  }

  /** define_mini_batch: Y and Tau, then AlphaZ and ThetaZ when the network has them. */
  function DefineCalls(nodes: seq<string>, ix: seq<nat>): seq<NodeCall>
  {
    [DefineMiniBatch("Y", ix), DefineMiniBatch("Tau", ix)]
      + (if "AlphaZ" in nodes then [DefineMiniBatch("AlphaZ", ix)] else [])
      + (if "ThetaZ" in nodes then [DefineMiniBatch("ThetaZ", ix)] else [])
  }

  /** Every mini-batch node receives the same indices; Y and Tau always, AlphaZ and ThetaZ exactly when present. */
  lemma DefineCallsShareIndices(nodes: seq<string>, ix: seq<nat>, n: string, jx: seq<nat>)
    ensures DefineMiniBatch(n, jx) in DefineCalls(nodes, ix) <==>
      jx == ix && (n == "Y" || n == "Tau" || ((n == "AlphaZ" || n == "ThetaZ") && n in nodes))
    ensures forall c :: c in DefineCalls(nodes, ix) ==> c.DefineMiniBatch? && c.ix == ix
  {
  }

  /** The calls of one iteration after the mini-batch is defined: pruning, then the scheduled updates. */
  function IterationCalls(nodes: seq<string>, s: Settings, i: int, drop: seq<nat>, step: Step): seq<NodeCall>
  {
    DropCalls(nodes, drop) + UpdateCalls(Scheduled(s.schedule, i, s.startSparsity), step)
  }

  /** The calls of full-batch iterations 1..done, with drops[i] the factors dropped at iteration i. */
  function RunCalls(nodes: seq<string>, s: Settings, drops: seq<seq<nat>>, done: nat): seq<NodeCall>
    requires done < |drops|
  {
    if done == 0 then []
    else RunCalls(nodes, s, drops, done - 1) + IterationCalls(nodes, s, done, drops[done], FullBatch)
  }

  /** The last iteration of range(1, maxiter), or 0 when it is empty. */
  function LastIteration(s: Settings): nat
  {
    if s.maxiter >= 1 then s.maxiter - 1 else 0
  }

  /** The factors dropped in iterations 1..j. */
  function Dropped(drops: seq<seq<nat>>, j: nat): nat
    requires j < |drops|
  {
    if j == 0 then 0 else Dropped(drops, j - 1) + |drops[j]|
  }

  /** dim['K'] after iteration j, starting from k0. */
  function FactorsAfter(k0: nat, drops: seq<seq<nat>>, j: nat): int
    requires j < |drops|
  {
    k0 - Dropped(drops, j)
  }

  /** Iteration j prunes with a threshold: removeInactiveFactors is called there. */
  predicate Prunes(s: Settings, j: int)
    requires Supported(s)
  {
    IsDropIteration(s, j) && s.minR2.Some?
  }

  /**
   * drops[j] is what iteration j may drop: a drop list removeInactiveFactors can
   * return given the R² it sees, r2At(j, K), on a pruning iteration, and nothing otherwise.
   */
  predicate DropAllowed(s: Settings, r2At: (nat, nat) -> R2, k0: nat, drops: seq<seq<nat>>, j: nat)
    requires Supported(s) && 1 <= j < |drops|
  {
    var before := FactorsAfter(k0, drops, j - 1);
    if Prunes(s, j) then
      before >= 0 && HasFactors(r2At(j, before), before)
      && DropCandidates(s.minR2, r2At(j, before), before).Ok?
      && drops[j] in DropCandidates(s.minR2, r2At(j, before), before).value
    else drops[j] == []
  }

  /** Every drop of iterations 1..done was allowed. */
  predicate ValidDrops(s: Settings, r2At: (nat, nat) -> R2, k0: nat, drops: seq<seq<nat>>, done: nat)
    requires Supported(s) && done < |drops|
  {
    forall j :: 1 <= j <= done ==> DropAllowed(s, r2At, k0, drops, j)
  }

  /**
   * One allowed drop: K falls by at most one, and only on a pruning iteration, and
   * a factor dropped was below K and inactive in every group and view.
   */
  lemma DropStep(s: Settings, r2At: (nat, nat) -> R2, k0: nat, drops: seq<seq<nat>>, j: nat)
    requires Supported(s) && 1 <= j < |drops| && DropAllowed(s, r2At, k0, drops, j)
    requires FactorsAfter(k0, drops, j - 1) >= 0
    ensures 0 <= FactorsAfter(k0, drops, j) <= FactorsAfter(k0, drops, j - 1) <= FactorsAfter(k0, drops, j) + 1
    ensures !Prunes(s, j) ==> FactorsAfter(k0, drops, j) == FactorsAfter(k0, drops, j - 1)
    ensures drops[j] != [] ==>
      s.minR2.Some? && |drops[j]| == 1 && drops[j][0] < FactorsAfter(k0, drops, j - 1)
      && FactorInactive(r2At(j, FactorsAfter(k0, drops, j - 1)), s.minR2.value, drops[j][0])
  {
    if Prunes(s, j) {
      var before := FactorsAfter(k0, drops, j - 1);
      DropListIsAtMostOneInactiveFactor(s.minR2.value, r2At(j, before), before, drops[j]);
    }
  }

  /** Along a run of allowed drops, K never falls below 0 and never grows. */
  lemma {:induction false} FactorsNeverGrow(s: Settings, r2At: (nat, nat) -> R2, k0: nat, drops: seq<seq<nat>>, done: nat)
    requires Supported(s) && done < |drops| && ValidDrops(s, r2At, k0, drops, done)
    ensures 0 <= FactorsAfter(k0, drops, done) <= k0
  {
    if done > 0 {
      FactorsNeverGrow(s, r2At, k0, drops, done - 1);
      assert DropAllowed(s, r2At, k0, drops, done);
      DropStep(s, r2At, k0, drops, done);
    }
  }

  /** Row j of the ELBO table after iterations 1..done: row 0 and the checkpoints are filled in. */
  function ElboCell(s: Settings, elboAt: (nat, string) -> real, names: seq<string>, j: nat, done: nat): Option<ElboEntry>
    requires Supported(s)
  {
    if j <= done && (j == 0 || IsCheckpoint(s, j)) then Some(EntryAt(elboAt, names, j)) else None
  }

  /** Entry j of number_factors after iterations 1..done: K before training and K after each pruning iteration. */
  function FactorCell(s: Settings, k0: nat, drops: seq<seq<nat>>, j: nat, done: nat): Option<int>
    requires Supported(s) && done < |drops|
  {
    if j == 0 then Some(k0)
    else if j <= done && IsDropIteration(s, j) then Some(FactorsAfter(k0, drops, j))
    else None
  }

  /** Entry j of iter_time once iterations 1..timed have been timed. */
  function TimeCell(duration: nat -> real, j: nat, timed: nat): Option<real>
  {
    if j == 0 then Some(0.0) else if j <= timed then Some(duration(j)) else None
  }

  predicate ElboTableIs(t: seq<Option<ElboEntry>>, len: nat, s: Settings, elboAt: (nat, string) -> real, names: seq<string>, done: nat)
    requires Supported(s)
  {
    |t| == len && forall j :: 0 <= j < len ==> t[j] == ElboCell(s, elboAt, names, j, done)
  }

  predicate FactorTableIs(t: seq<Option<int>>, len: nat, s: Settings, k0: nat, drops: seq<seq<nat>>, done: nat)
    requires Supported(s) && done < |drops|
  {
    |t| == len && forall j :: 0 <= j < len ==> t[j] == FactorCell(s, k0, drops, j, done)
  }

  predicate TimeTableIs(t: seq<Option<real>>, len: nat, duration: nat -> real, timed: nat)
  {
    |t| == len && forall j :: 0 <= j < len ==> t[j] == TimeCell(duration, j, timed)
  }

  /** Iteration j prunes and removeInactiveFactors exits there: no group to intersect, or no factor left. */
  predicate PruningHaltsAt(s: Settings, r2At: (nat, nat) -> R2, k0: nat, drops: seq<seq<nat>>, j: nat)
    requires Supported(s) && 1 <= j < |drops|
  {
    var before := FactorsAfter(k0, drops, j - 1);
    Prunes(s, j) && (before < 0 || |r2At(j, before)| == 0 || FactorsAfter(k0, drops, j) == 0)
  }

  /** Iteration j runs to its end without stopping training. */
  predicate Continues(s: Settings, elboAt: (nat, string) -> real, r2At: (nat, nat) -> R2, names: seq<string>,
                      k0: nat, drops: seq<seq<nat>>, j: nat)
    requires Supported(s) && 1 <= j < |drops|
  {
    !PruningHaltsAt(s, r2At, k0, drops, j) && !StopsAt(s, elboAt, names, j)
  }

  /** The stochastic loop's mini-batch index at iteration i >= start_stochastic. */
  function IndexAt(st: StochasticSettings, i: int): int
  {
    StochasticIndex(i, st.startStochastic)
  }

  /** batch_ix at iteration i. */
  function BatchAt(st: StochasticSettings, i: int): int
    requires st.batchSize > 0.0
  {
    IndexAt(st, i) % NumBatches(st.batchSize)
  }

  /** epoch at iteration i. */
  function EpochAt(st: StochasticSettings, i: int): int
    requires st.batchSize > 0.0
  {
    TruncDiv(IndexAt(st, i), NumBatches(st.batchSize))
  }

  /** ro at iteration i: 1 before start_stochastic, the step size of the epoch from then on. */
  function RoAt(st: StochasticSettings, stepSize: int -> real, i: int): real
    requires st.batchSize > 0.0
  {
    if i >= st.startStochastic then stepSize(EpochAt(st, i)) else 1.0
  }

  /**
   * The epochs the stochastic loop has started once iterations 1..done have run:
   * the first stochastic iteration starts epoch 0, and so on.
   */
  function EpochsStarted(st: StochasticSettings, done: int): nat
    requires st.batchSize > 0.0
  {
    if done < st.startStochastic then 0
    else
      var e := EpochAt(st, done);
      if e < 0 then 0 else e + 1
  }

  /** From start_stochastic on, iteration i is batch BatchAt(i) of epoch EpochAt(i); the first is batch 0 of epoch 0. */
  lemma BatchAndEpochInRange(st: StochasticSettings, i: int)
    requires st.batchSize > 0.0 && i >= st.startStochastic
    ensures 0 <= BatchAt(st, i) < NumBatches(st.batchSize) && EpochAt(st, i) >= 0
    ensures EpochsStarted(st, i) == EpochAt(st, i) + 1
    ensures i == st.startStochastic ==> BatchAt(st, i) == 0 && EpochAt(st, i) == 0
  {
    var j := IndexAt(st, i);
    assert j == i - st.startStochastic >= 0;
  }

  /** Consecutive stochastic iterations: the batch counter moves on by one, and wraps to 0 exactly when a new epoch starts. */
  lemma NextIteration(st: StochasticSettings, i: int)
    requires st.batchSize > 0.0 && i > st.startStochastic
    ensures BatchAt(st, i) == 0 ==> EpochAt(st, i) == EpochAt(st, i - 1) + 1
    ensures BatchAt(st, i) != 0 ==> EpochAt(st, i) == EpochAt(st, i - 1) && BatchAt(st, i) == BatchAt(st, i - 1) + 1
  {
    var n := NumBatches(st.batchSize);
    var j := IndexAt(st, i);
    assert j == i - st.startStochastic > 0;
    assert IndexAt(st, i - 1) == j - 1;
    Arith.NextDivMod(j - 1, n);
  }

  /** A new epoch starts exactly at batch 0. */
  lemma EpochsStartAtBatchZero(st: StochasticSettings, i: int)
    requires st.batchSize > 0.0 && i >= st.startStochastic
    ensures BatchAt(st, i) == 0 <==> EpochsStarted(st, i) == EpochsStarted(st, i - 1) + 1
    ensures BatchAt(st, i) != 0 ==> EpochsStarted(st, i) == EpochsStarted(st, i - 1)
  {
    BatchAndEpochInRange(st, i);
    if i > st.startStochastic {
      BatchAndEpochInRange(st, i - 1);
      NextIteration(st, i);
    }
  }

  /** The stochastic loop's calls for iterations 1..|drops|-1. */
  function StochasticRunCalls(nodes: seq<string>, s: Settings, st: StochasticSettings, stepSize: int -> real,
                              drops: seq<seq<nat>>, batches: seq<Option<seq<nat>>>): seq<NodeCall>
    requires st.batchSize > 0.0 && 1 <= |drops| == |batches|
  {
    Concat(StochasticParts(nodes, s, st, stepSize, drops, batches), |drops| - 1)
  }

  /**
   * The calls of each stochastic iteration j; drops[j] and batches[j] are the
   * factors dropped and the mini-batch drawn at iteration j, the batch defined on
   * the nodes from start_stochastic on.
   */
  function StochasticParts(nodes: seq<string>, s: Settings, st: StochasticSettings, stepSize: int -> real,
                           drops: seq<seq<nat>>, batches: seq<Option<seq<nat>>>): nat -> seq<NodeCall>
    requires st.batchSize > 0.0 && |drops| == |batches|
  {
    j => if 0 <= j < |drops| && j < |batches| then StochasticIterationCalls(nodes, s, st, stepSize, drops[j], batches[j], j) else []
  }

  /** The mini-batch definition iteration i opens with: from start_stochastic on, the batch it draws. */
  function MiniBatchCalls(nodes: seq<string>, st: StochasticSettings, batch: Option<seq<nat>>, i: int): seq<NodeCall>
  {
    if i >= st.startStochastic && batch.Some? then DefineCalls(nodes, batch.value) else []
  }

  /** The calls of stochastic iteration i: the mini-batch definition, pruning, then the updates with (ix, ro). */
  function StochasticIterationCalls(nodes: seq<string>, s: Settings, st: StochasticSettings, stepSize: int -> real,
                                    drop: seq<nat>, batch: Option<seq<nat>>, i: nat): seq<NodeCall>
    requires st.batchSize > 0.0
  {
    MiniBatchCalls(nodes, st, batch, i) + IterationCalls(nodes, s, i, drop, Stochastic(batch, RoAt(st, stepSize, i)))
  }

  /**
   * batches[j] is the mini-batch of iteration j: none before start_stochastic,
   * and from then on batch BatchAt(j) of the order perms[EpochAt(j)] drawn for its epoch.
   */
  predicate DrawnAt(st: StochasticSettings, perms: seq<seq<nat>>, batches: seq<Option<seq<nat>>>, j: nat)
    requires st.batchSize > 0.0 && j < |batches|
  {
    if j < st.startStochastic then batches[j] == None
    else
      BatchAndEpochInRange(st, j);
      EpochAt(st, j) < |perms| && batches[j] == Some(Batch(perms[EpochAt(st, j)], st.batchSize, BatchAt(st, j)))
  }

  /** Iterations 1..|batches|-1 drew their mini-batches from one order of the n samples per epoch started. */
  predicate BatchesDrawn(st: StochasticSettings, n: nat, perms: seq<seq<nat>>, batches: seq<Option<seq<nat>>>)
    requires st.batchSize > 0.0
  {
    && |batches| >= 1
    && |perms| == EpochsStarted(st, |batches| - 1)
    && (forall e :: 0 <= e < |perms| ==> IsPermutation(perms[e], n))
    && forall j :: 1 <= j < |batches| ==> DrawnAt(st, perms, batches, j)
  }

  /** Adding one name to the end adds its call to the end. */
  lemma ForEachSnoc(names: seq<string>, x: string, call: string -> NodeCall)
    ensures ForEach(names + [x], call) == ForEach(names, call) + [call(x)]
  {
    assert (names + [x])[..|names|] == names;
  }

  /** One more schedule entry adds its update call, when it is updated at iteration i. */
  lemma UpdateCallsStep(schedule: seq<string>, idx: nat, i: int, startSparsity: int, step: Step)
    requires idx < |schedule|
    ensures UpdateCalls(Scheduled(schedule[..idx + 1], i, startSparsity), step)
      == UpdateCalls(Scheduled(schedule[..idx], i, startSparsity), step)
         + (if UpdatedAt(i, startSparsity, schedule[idx]) then [Update(schedule[idx], step)] else [])
  {
    assert schedule[..idx + 1] == schedule[..idx] + [schedule[idx]];
    ScheduledSnoc(schedule[..idx], schedule[idx], i, startSparsity);
    if UpdatedAt(i, startSparsity, schedule[idx]) {
      UpdateCallsSnoc(Scheduled(schedule[..idx], i, startSparsity), schedule[idx], step);
    }
  }

  lemma UpdateCallsSnoc(names: seq<string>, x: string, step: Step)
    ensures UpdateCalls(names + [x], step) == UpdateCalls(names, step) + [Update(x, step)]
  {
    ForEachSnoc(names, x, n => Update(n, step));
  }

  lemma {:induction false} DroppedPrefix(drops: seq<seq<nat>>, more: seq<seq<nat>>, j: nat)
    requires j < |drops|
    ensures Dropped(drops + more, j) == Dropped(drops, j)
  {
    if j > 0 {
      DroppedPrefix(drops, more, j - 1);
      assert (drops + more)[j] == drops[j];
    }
  }

  lemma {:induction false} RunCallsPrefix(nodes: seq<string>, s: Settings, drops: seq<seq<nat>>, more: seq<seq<nat>>, done: nat)
    requires done < |drops|
    ensures RunCalls(nodes, s, drops + more, done) == RunCalls(nodes, s, drops, done)
  {
    if done > 0 {
      RunCallsPrefix(nodes, s, drops, more, done - 1);
      assert (drops + more)[done] == drops[done];
    }
  }

  /** Recording the next iteration's drop leaves every fact about the earlier iterations as it was. */
  lemma ExtendDrops(s: Settings, elboAt: (nat, string) -> real, r2At: (nat, nat) -> R2, names: seq<string>,
                    k0: nat, drops: seq<seq<nat>>, d: seq<nat>)
    requires Supported(s) && |drops| >= 1
    ensures forall j :: 0 <= j < |drops| ==> FactorsAfter(k0, drops + [d], j) == FactorsAfter(k0, drops, j)
    ensures forall j :: 1 <= j < |drops| ==>
      (DropAllowed(s, r2At, k0, drops + [d], j) <==> DropAllowed(s, r2At, k0, drops, j))
      && (Continues(s, elboAt, r2At, names, k0, drops + [d], j) <==> Continues(s, elboAt, r2At, names, k0, drops, j))
    ensures ValidDrops(s, r2At, k0, drops, |drops| - 1) ==> ValidDrops(s, r2At, k0, drops + [d], |drops| - 1)
    ensures forall j: nat, done: nat :: done < |drops| ==> FactorCell(s, k0, drops + [d], j, done) == FactorCell(s, k0, drops, j, done)
  {
    var ext := drops + [d];
    forall j | 0 <= j < |drops|
      ensures FactorsAfter(k0, ext, j) == FactorsAfter(k0, drops, j)
    {
      DroppedPrefix(drops, [d], j);
    }
    forall j | 1 <= j < |drops|
      ensures DropAllowed(s, r2At, k0, ext, j) <==> DropAllowed(s, r2At, k0, drops, j)
      ensures Continues(s, elboAt, r2At, names, k0, ext, j) <==> Continues(s, elboAt, r2At, names, k0, drops, j)
    {
      assert ext[j] == drops[j];
      assert FactorsAfter(k0, ext, j - 1) == FactorsAfter(k0, drops, j - 1);
      assert FactorsAfter(k0, ext, j) == FactorsAfter(k0, drops, j);
    }
  }
}
