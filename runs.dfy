/**
 * A training loop as it runs: what holds after iterations 1..i-1, the three
 * ways training ends, and one lemma per way an iteration can end that carries
 * the state across it. Both loops share these; the calls each loop makes on
 * the nodes, and the mini-batches of the stochastic loop, are stated beside them.
 */
module Runs {
  import opened Wrappers
  import opened Seqs
  import opened TrainOptions
  import opened Convergence
  import opened Ledger
  import opened Schedule
  import opened Pruning
  import opened MiniBatch
  import opened Training

  /**
   * The state after iterations 1..i-1, from K = k0 before iteration 1: the
   * drops so far were allowed, no iteration stopped training, and K, the three
   * tables and the convergence token are what those iterations produce.
   */
  ghost predicate RunProgress(s: Settings, elboAt: (nat, string) -> real, r2At: (nat, nat) -> R2, duration: nat -> real,
                              vn: seq<string>, k0: nat, drops: seq<seq<nat>>, i: nat, k: nat,
                              elbo: seq<Option<ElboEntry>>, nf: seq<Option<int>>, time: seq<Option<real>>, token: int)
    requires Supported(s)
  {
    && 1 <= i && |drops| == i && ValidDrops(s, r2At, k0, drops, i - 1)
    && (forall j :: 1 <= j < i ==> Continues(s, elboAt, r2At, vn, k0, drops, j))
    && k == FactorsAfter(k0, drops, i - 1)
    && ElboTableIs(elbo, s.maxiter + 1, s, elboAt, vn, i - 1)
    && FactorTableIs(nf, s.maxiter + 1, s, k0, drops, i - 1)
    && TimeTableIs(time, s.maxiter + 1, duration, i - 1)
    && (Threshold(s.convergenceMode).Some? ==> token == TokenAfter(s, elboAt, vn, i - 1))
  }

  /**
   * Training ran through every iteration 1..LastIteration(s): each drop was
   * allowed, no iteration stopped training, and K and the three tables of
   * `stats` are what those iterations produce.
   */
  ghost predicate RunCompleted(s: Settings, elboAt: (nat, string) -> real, r2At: (nat, nat) -> R2, duration: nat -> real,
                               vn: seq<string>, k0: nat, drops: seq<seq<nat>>, k: nat, stats: TrainStats)
    requires Supported(s)
  {
    var last := LastIteration(s);
    && |drops| == last + 1 && ValidDrops(s, r2At, k0, drops, last)
    && (forall j :: 1 <= j <= last ==> Continues(s, elboAt, r2At, vn, k0, drops, j))
    && k == FactorsAfter(k0, drops, last)
    && TimeTableIs(stats.time, s.maxiter + 1, duration, last)
    && FactorTableIs(stats.numberFactors, s.maxiter + 1, s, k0, drops, last)
    && ElboTableIs(stats.elbo, s.maxiter + 1, s, elboAt, vn, last)
  }

  /**
   * Training converged at iteration c: the token reached 5 there, nothing
   * stopped it earlier, and `stats` holds the factor and ELBO tables cut to
   * rows 0..c-1 and an iter_time of timeLen rows.
   */
  ghost predicate RunConverged(s: Settings, elboAt: (nat, string) -> real, r2At: (nat, nat) -> R2, duration: nat -> real,
                               vn: seq<string>, k0: nat, drops: seq<seq<nat>>, c: nat, k: nat, stats: TrainStats, timeLen: nat)
    requires Supported(s)
  {
    && 1 <= c <= LastIteration(s) && |drops| == c + 1 && ValidDrops(s, r2At, k0, drops, c)
    && (forall j :: 1 <= j < c ==> Continues(s, elboAt, r2At, vn, k0, drops, j))
    && !PruningHaltsAt(s, r2At, k0, drops, c)
    && IsAssessed(s, c) && Threshold(s.convergenceMode).Some? && TokenAfter(s, elboAt, vn, c) == 5
    && k == FactorsAfter(k0, drops, c)
    && TimeTableIs(stats.time, timeLen, duration, c - 1)
    && FactorTableIs(stats.numberFactors, c, s, k0, drops, c - 1)
    && ElboTableIs(stats.elbo, c, s, elboAt, vn, c - 1)
  }

  /** Training exited at iteration c for `reason`, and nothing stopped it earlier. */
  ghost predicate RunExited(s: Settings, elboAt: (nat, string) -> real, r2At: (nat, nat) -> R2,
                            vn: seq<string>, k0: nat, drops: seq<seq<nat>>, c: nat, reason: Halt, k: nat)
    requires Supported(s)
  {
    && 1 <= c <= LastIteration(s) && |drops| == c + 1 && ValidDrops(s, r2At, k0, drops, c - 1)
    && (forall j :: 1 <= j < c ==> Continues(s, elboAt, r2At, vn, k0, drops, j))
    && match reason
       case AllFactorsShutDown =>
         Prunes(s, c) && DropAllowed(s, r2At, k0, drops, c) && k == 0 && FactorsAfter(k0, drops, c) == 0
       case NoGroups =>
         Prunes(s, c) && drops[c] == [] && k == FactorsAfter(k0, drops, c - 1) && |r2At(c, k)| == 0
       case UnknownConvergenceMode =>
         && DropAllowed(s, r2At, k0, drops, c) && !PruningHaltsAt(s, r2At, k0, drops, c)
         && IsAssessed(s, c) && Threshold(s.convergenceMode).None?
         && k == FactorsAfter(k0, drops, c)
  }

  /** Before iteration 1: nothing dropped, row 0 of each table filled in, and the token at 1. */
  lemma ProgressStart(s: Settings, elboAt: (nat, string) -> real, r2At: (nat, nat) -> R2, duration: nat -> real,
                      vn: seq<string>, k0: nat, elbo: seq<Option<ElboEntry>>, nf: seq<Option<int>>, time: seq<Option<real>>)
    requires Supported(s)
    requires |elbo| == |nf| == |time| == s.maxiter + 1
    requires elbo[0] == Some(EntryAt(elboAt, vn, 0)) && nf[0] == Some(k0 as int) && time[0] == Some(0.0)
    requires forall j :: 1 <= j < |elbo| ==> elbo[j] == None && nf[j] == None && time[j] == None
    ensures RunProgress(s, elboAt, r2At, duration, vn, k0, [[]], 1, k0, elbo, nf, time, 1)
  {
  }

  /**
   * Recording iteration i's drop keeps what iterations 1..i-1 established:
   * their drops were allowed, they ran to their end, and K after them.
   */
  lemma ExtendHistory(s: Settings, elboAt: (nat, string) -> real, r2At: (nat, nat) -> R2,
                      vn: seq<string>, k0: nat, drops: seq<seq<nat>>, drops': seq<seq<nat>>, i: nat)
    requires Supported(s) && 1 <= i && |drops| == i && |drops'| == i + 1 && drops' == drops + [drops'[i]]
    requires ValidDrops(s, r2At, k0, drops, i - 1)
    requires forall j :: 1 <= j < i ==> Continues(s, elboAt, r2At, vn, k0, drops, j)
    ensures ValidDrops(s, r2At, k0, drops', i - 1)
    ensures forall j :: 1 <= j < i ==> Continues(s, elboAt, r2At, vn, k0, drops', j)
    ensures FactorsAfter(k0, drops', i - 1) == FactorsAfter(k0, drops, i - 1)
  {
    ExtendDrops(s, elboAt, r2At, vn, k0, drops, drops'[i]);
  }

  /**
   * An iteration that runs to its end: an allowed drop that does not halt, the
   * ELBO step without a stop and the time entry carry the state after
   * iterations 1..i-1 to the state after iterations 1..i.
   */
  lemma ProgressStep(s: Settings, elboAt: (nat, string) -> real, r2At: (nat, nat) -> R2, duration: nat -> real,
                     vn: seq<string>, k0: nat, drops: seq<seq<nat>>, i: nat, k: nat,
                     elbo: seq<Option<ElboEntry>>, nf: seq<Option<int>>, time: seq<Option<real>>, token: int,
                     drops': seq<seq<nat>>, k': nat,
                     elbo': seq<Option<ElboEntry>>, nf': seq<Option<int>>, time': seq<Option<real>>, token': int)
    requires Supported(s) && i < s.maxiter
    requires RunProgress(s, elboAt, r2At, duration, vn, k0, drops, i, k, elbo, nf, time, token)
    requires |drops'| == i + 1 && drops' == drops + [drops'[i]]
    requires DropAllowed(s, r2At, k0, drops', i) && !PruningHaltsAt(s, r2At, k0, drops', i)
    requires k' == FactorsAfter(k0, drops', i) && FactorTableIs(nf', s.maxiter + 1, s, k0, drops', i)
    requires !StopsAt(s, elboAt, vn, i) && ElboTableIs(elbo', s.maxiter + 1, s, elboAt, vn, i)
    requires Threshold(s.convergenceMode).Some? ==> token' == TokenAfter(s, elboAt, vn, i)
    requires time' == time[i := Some(duration(i))]
    ensures RunProgress(s, elboAt, r2At, duration, vn, k0, drops', i + 1, k', elbo', nf', time', token')
  {
    ExtendHistory(s, elboAt, r2At, vn, k0, drops, drops', i);
    assert TimeTableIs(time', s.maxiter + 1, duration, i);
  }

  /**
   * An iteration whose ELBO step converges ends training with the factor and
   * ELBO tables of the iterations before it, and iter_time either whole (the
   * full-batch loop) or cut the same way (the stochastic loop).
   */
  lemma ConvergenceStep(s: Settings, elboAt: (nat, string) -> real, r2At: (nat, nat) -> R2, duration: nat -> real,
                        vn: seq<string>, k0: nat, drops: seq<seq<nat>>, i: nat, k: nat,
                        elbo: seq<Option<ElboEntry>>, nf: seq<Option<int>>, time: seq<Option<real>>, token: int,
                        drops': seq<seq<nat>>, k': nat, nf': seq<Option<int>>)
    requires Supported(s) && i < s.maxiter
    requires RunProgress(s, elboAt, r2At, duration, vn, k0, drops, i, k, elbo, nf, time, token)
    requires |drops'| == i + 1 && drops' == drops + [drops'[i]]
    requires DropAllowed(s, r2At, k0, drops', i) && !PruningHaltsAt(s, r2At, k0, drops', i)
    requires k' == FactorsAfter(k0, drops', i) && FactorTableIs(nf', s.maxiter + 1, s, k0, drops', i)
    requires IsAssessed(s, i) && Threshold(s.convergenceMode).Some? && TokenAfter(s, elboAt, vn, i) == 5
    ensures RunConverged(s, elboAt, r2At, duration, vn, k0, drops', i, k', TrainStats(time, nf'[..i], elbo[..i]), s.maxiter + 1)
    ensures RunConverged(s, elboAt, r2At, duration, vn, k0, drops', i, k', TrainStats(time[..i], nf'[..i], elbo[..i]), i)
  {
    ExtendHistory(s, elboAt, r2At, vn, k0, drops, drops', i);
    forall j | 0 <= j < i
      ensures nf'[..i][j] == FactorCell(s, k0, drops', j, i - 1)
    {
      assert nf'[j] == FactorCell(s, k0, drops', j, i);
    }
  }

  /** An iteration whose pruning halts training: K reached 0, or there was no group to intersect. */
  lemma PruneExitStep(s: Settings, elboAt: (nat, string) -> real, r2At: (nat, nat) -> R2, duration: nat -> real,
                      vn: seq<string>, k0: nat, drops: seq<seq<nat>>, i: nat, k: nat,
                      elbo: seq<Option<ElboEntry>>, nf: seq<Option<int>>, time: seq<Option<real>>, token: int,
                      drops': seq<seq<nat>>, k': nat, reason: Halt)
    requires Supported(s) && i < s.maxiter
    requires RunProgress(s, elboAt, r2At, duration, vn, k0, drops, i, k, elbo, nf, time, token)
    requires |drops'| == i + 1 && drops' == drops + [drops'[i]]
    requires reason == AllFactorsShutDown ==>
      Prunes(s, i) && DropAllowed(s, r2At, k0, drops', i) && k' == 0 && FactorsAfter(k0, drops', i) == 0
    requires reason == NoGroups ==> Prunes(s, i) && drops'[i] == [] && k' == k && |r2At(i, k')| == 0
    requires reason != UnknownConvergenceMode
    ensures RunExited(s, elboAt, r2At, vn, k0, drops', i, reason, k')
  {
    ExtendHistory(s, elboAt, r2At, vn, k0, drops, drops', i);
  }

  /** An iteration that assesses convergence under an unrecognised mode exits. */
  lemma ModeExitStep(s: Settings, elboAt: (nat, string) -> real, r2At: (nat, nat) -> R2, duration: nat -> real,
                     vn: seq<string>, k0: nat, drops: seq<seq<nat>>, i: nat, k: nat,
                     elbo: seq<Option<ElboEntry>>, nf: seq<Option<int>>, time: seq<Option<real>>, token: int,
                     drops': seq<seq<nat>>, k': nat)
    requires Supported(s) && i < s.maxiter
    requires RunProgress(s, elboAt, r2At, duration, vn, k0, drops, i, k, elbo, nf, time, token)
    requires |drops'| == i + 1 && drops' == drops + [drops'[i]]
    requires DropAllowed(s, r2At, k0, drops', i) && !PruningHaltsAt(s, r2At, k0, drops', i)
    requires k' == FactorsAfter(k0, drops', i)
    requires IsAssessed(s, i) && Threshold(s.convergenceMode).None?
    ensures RunExited(s, elboAt, r2At, vn, k0, drops', i, UnknownConvergenceMode, k')
  {
    ExtendHistory(s, elboAt, r2At, vn, k0, drops, drops', i);
  }

  /** Once iteration LastIteration(s) has run to its end, training has completed with the tables built so far. */
  lemma ProgressCompletes(s: Settings, elboAt: (nat, string) -> real, r2At: (nat, nat) -> R2, duration: nat -> real,
                          vn: seq<string>, k0: nat, drops: seq<seq<nat>>, i: nat, k: nat,
                          elbo: seq<Option<ElboEntry>>, nf: seq<Option<int>>, time: seq<Option<real>>, token: int)
    requires Supported(s) && i == LastIteration(s) + 1
    requires RunProgress(s, elboAt, r2At, duration, vn, k0, drops, i, k, elbo, nf, time, token)
    ensures RunCompleted(s, elboAt, r2At, duration, vn, k0, drops, k, TrainStats(time, nf, elbo))
  {
  }

  /** The same, with the calls the completed run made on the nodes. */
  lemma FullBatchCompletes(nodes: seq<string>, s: Settings, elboAt: (nat, string) -> real, r2At: (nat, nat) -> R2,
                           duration: nat -> real, vn: seq<string>, k0: nat, calls0: seq<NodeCall>, drops: seq<seq<nat>>,
                           i: nat, k: nat, elbo: seq<Option<ElboEntry>>, nf: seq<Option<int>>, time: seq<Option<real>>,
                           token: int, calls: seq<NodeCall>)
    requires Supported(s) && i == LastIteration(s) + 1
    requires RunProgress(s, elboAt, r2At, duration, vn, k0, drops, i, k, elbo, nf, time, token) == true
    requires calls == calls0 + RunCalls(nodes, s, drops, i - 1)
    ensures FullBatchFinished(nodes, s, elboAt, r2At, duration, vn, k0, calls0, Completed, drops, k, calls, TrainStats(time, nf, elbo))
  {
    ProgressCompletes(s, elboAt, r2At, duration, vn, k0, drops, i, k, elbo, nf, time, token);
  }

  /** The calls of a full-batch run that exits at iteration c for `reason`. */
  function FullBatchExitCalls(nodes: seq<string>, s: Settings, drops: seq<seq<nat>>, c: nat, reason: Halt): seq<NodeCall>
    requires 1 <= c < |drops|
  {
    match reason
    case AllFactorsShutDown => RunCalls(nodes, s, drops, c - 1) + DropCalls(nodes, drops[c])
    case NoGroups => RunCalls(nodes, s, drops, c - 1)
    case UnknownConvergenceMode => RunCalls(nodes, s, drops, c)
  }

  /**
   * How a full-batch run from K = k0 ended: completed, converged at c or exited
   * at c, with K, the statistics and the calls made on the nodes after calls0
   * that the iterations it ran produce.
   */
  ghost predicate FullBatchFinished(nodes: seq<string>, s: Settings, elboAt: (nat, string) -> real, r2At: (nat, nat) -> R2,
                                    duration: nat -> real, vn: seq<string>, k0: nat, calls0: seq<NodeCall>,
                                    outcome: Outcome, drops: seq<seq<nat>>, k: nat, calls: seq<NodeCall>, stats: TrainStats)
    requires Supported(s)
  {
    match outcome
    case Completed =>
      && RunCompleted(s, elboAt, r2At, duration, vn, k0, drops, k, stats)
      && calls == calls0 + RunCalls(nodes, s, drops, LastIteration(s))
    case Converged(c) =>
      && RunConverged(s, elboAt, r2At, duration, vn, k0, drops, c, k, stats, s.maxiter + 1)
      && calls == calls0 + RunCalls(nodes, s, drops, c)
    case Exited(c, reason) =>
      && RunExited(s, elboAt, r2At, vn, k0, drops, c, reason, k)
      && calls == calls0 + FullBatchExitCalls(nodes, s, drops, c, reason)
  }

  /**
   * The calls of full-batch iteration i follow those of iterations 1..i-1:
   * after its pruning, and after its updates.
   */
  lemma FullBatchCalls(nodes: seq<string>, s: Settings, calls0: seq<NodeCall>, drops: seq<seq<nat>>, drops': seq<seq<nat>>,
                       i: nat, calls: seq<NodeCall>)
    requires 1 <= i && |drops| == i && |drops'| == i + 1 && drops' == drops + [drops'[i]]
    requires calls == calls0 + RunCalls(nodes, s, drops, i - 1)
    ensures calls == calls0 + FullBatchExitCalls(nodes, s, drops', i, NoGroups)
    ensures calls + DropCalls(nodes, drops'[i]) == calls0 + FullBatchExitCalls(nodes, s, drops', i, AllFactorsShutDown)
    ensures calls + DropCalls(nodes, drops'[i]) + UpdateCalls(Scheduled(s.schedule, i, s.startSparsity), FullBatch)
      == calls0 + RunCalls(nodes, s, drops', i)
  {
    RunCallsPrefix(nodes, s, drops, [drops'[i]], i - 1);
    var before, drop, updates := RunCalls(nodes, s, drops, i - 1), DropCalls(nodes, drops'[i]), UpdateCalls(Scheduled(s.schedule, i, s.startSparsity), FullBatch);
    assert RunCalls(nodes, s, drops', i) == before + (drop + updates);
    AppendAssoc3(calls0, before, drop);
    AppendAssoc(calls0, before, drop, updates);
  }

  /** The calls of a stochastic run that exits at iteration |drops|-1 for `reason`. */
  function StochasticExitCalls(nodes: seq<string>, s: Settings, st: StochasticSettings, stepSize: int -> real,
                               drops: seq<seq<nat>>, batches: seq<Option<seq<nat>>>, reason: Halt): seq<NodeCall>
    requires st.batchSize > 0.0 && 2 <= |drops| == |batches|
  {
    var c := |drops| - 1;
    var defined := StochasticRunCalls(nodes, s, st, stepSize, drops[..c], batches[..c]) + MiniBatchCalls(nodes, st, batches[c], c);
    match reason
    case AllFactorsShutDown => defined + DropCalls(nodes, drops[c])
    case NoGroups => defined
    case UnknownConvergenceMode => StochasticRunCalls(nodes, s, st, stepSize, drops, batches)
  }

  /**
   * The calls of stochastic iteration i follow those of iterations 1..i-1:
   * after the mini-batch is defined, after its pruning, and after its updates.
   */
  lemma StochasticCalls(nodes: seq<string>, s: Settings, st: StochasticSettings, stepSize: int -> real, calls0: seq<NodeCall>,
                        drops: seq<seq<nat>>, drops': seq<seq<nat>>, batches: seq<Option<seq<nat>>>, batches': seq<Option<seq<nat>>>,
                        i: nat, calls: seq<NodeCall>)
    requires st.batchSize > 0.0 && 1 <= i && |drops| == i && |batches| == i
    requires |drops'| == i + 1 && drops' == drops + [drops'[i]] && |batches'| == i + 1 && batches' == batches + [batches'[i]]
    requires calls == calls0 + StochasticRunCalls(nodes, s, st, stepSize, drops, batches)
    ensures var defined := calls + MiniBatchCalls(nodes, st, batches'[i], i);
      && defined == calls0 + StochasticExitCalls(nodes, s, st, stepSize, drops', batches', NoGroups)
      && defined + DropCalls(nodes, drops'[i])
         == calls0 + StochasticExitCalls(nodes, s, st, stepSize, drops', batches', AllFactorsShutDown)
      && defined + DropCalls(nodes, drops'[i])
         + UpdateCalls(Scheduled(s.schedule, i, s.startSparsity), Stochastic(batches'[i], RoAt(st, stepSize, i)))
         == calls0 + StochasticRunCalls(nodes, s, st, stepSize, drops', batches')
  {
    StochasticRunCallsSnoc(nodes, s, st, stepSize, drops, batches, drops'[i], batches'[i]);
    StochasticExitCallsSnoc(nodes, s, st, stepSize, drops, batches, drops'[i], batches'[i]);
    var before := StochasticRunCalls(nodes, s, st, stepSize, drops, batches);
    var define, drop := MiniBatchCalls(nodes, st, batches'[i], i), DropCalls(nodes, drops'[i]);
    var updates := UpdateCalls(Scheduled(s.schedule, i, s.startSparsity), Stochastic(batches'[i], RoAt(st, stepSize, i)));
    Regroup(calls0, before, define, drop, updates);
  }

  /** One more iteration adds its calls after those of the iterations before it. */
  lemma StochasticRunCallsSnoc(nodes: seq<string>, s: Settings, st: StochasticSettings, stepSize: int -> real,
                               drops: seq<seq<nat>>, batches: seq<Option<seq<nat>>>, d: seq<nat>, b: Option<seq<nat>>)
    requires st.batchSize > 0.0 && 1 <= |drops| == |batches|
    ensures StochasticRunCalls(nodes, s, st, stepSize, drops + [d], batches + [b])
      == StochasticRunCalls(nodes, s, st, stepSize, drops, batches) + StochasticIterationCalls(nodes, s, st, stepSize, d, b, |drops|)
  {
    StochasticPartsAgree(nodes, s, st, stepSize, drops, batches, d, b);
    StochasticPartsLast(nodes, s, st, stepSize, drops, batches, d, b);
    ConcatSnoc(StochasticParts(nodes, s, st, stepSize, drops + [d], batches + [b]), StochasticParts(nodes, s, st, stepSize, drops, batches),
               |drops| - 1, |drops + [d]| - 1);
  }

  /** An iteration that exits after its mini-batch, or after its pruning, adds only those calls. */
  lemma StochasticExitCallsSnoc(nodes: seq<string>, s: Settings, st: StochasticSettings, stepSize: int -> real,
                                drops: seq<seq<nat>>, batches: seq<Option<seq<nat>>>, d: seq<nat>, b: Option<seq<nat>>)
    requires st.batchSize > 0.0 && 1 <= |drops| == |batches|
    ensures StochasticExitCalls(nodes, s, st, stepSize, drops + [d], batches + [b], NoGroups)
      == StochasticRunCalls(nodes, s, st, stepSize, drops, batches) + MiniBatchCalls(nodes, st, b, |drops|)
    ensures StochasticExitCalls(nodes, s, st, stepSize, drops + [d], batches + [b], AllFactorsShutDown)
      == StochasticRunCalls(nodes, s, st, stepSize, drops, batches) + MiniBatchCalls(nodes, st, b, |drops|) + DropCalls(nodes, d)
  {
    assert (drops + [d])[..|drops + [d]| - 1] == drops && (batches + [b])[..|drops + [d]| - 1] == batches;
    StochasticExitLast(nodes, st, drops, batches, d, b);
  }

  /** The mini-batch and pruning calls of the iteration added last. */
  lemma StochasticExitLast(nodes: seq<string>, st: StochasticSettings, drops: seq<seq<nat>>, batches: seq<Option<seq<nat>>>,
                           d: seq<nat>, b: Option<seq<nat>>)
    requires st.batchSize > 0.0 && |drops| == |batches|
    ensures MiniBatchCalls(nodes, st, (batches + [b])[|drops + [d]| - 1], |drops + [d]| - 1) == MiniBatchCalls(nodes, st, b, |drops|)
    ensures DropCalls(nodes, (drops + [d])[|drops + [d]| - 1]) == DropCalls(nodes, d)
  {
    var last := |drops + [d]| - 1;
    assert last == |drops| && (drops + [d])[last] == d && (batches + [b])[last] == b;
  }

  /** The part recorded last is the calls of the iteration added last. */
  lemma StochasticPartsLast(nodes: seq<string>, s: Settings, st: StochasticSettings, stepSize: int -> real,
                            drops: seq<seq<nat>>, batches: seq<Option<seq<nat>>>, d: seq<nat>, b: Option<seq<nat>>)
    requires st.batchSize > 0.0 && |drops| == |batches|
    ensures StochasticParts(nodes, s, st, stepSize, drops + [d], batches + [b])(|drops + [d]| - 1)
      == StochasticIterationCalls(nodes, s, st, stepSize, d, b, |drops|)
  {
    var last := |drops + [d]| - 1;
    assert last == |drops| && (drops + [d])[last] == d && (batches + [b])[last] == b;
  }

  /** Recording one more iteration leaves the calls of the earlier ones as they were. */
  lemma StochasticPartsAgree(nodes: seq<string>, s: Settings, st: StochasticSettings, stepSize: int -> real,
                             drops: seq<seq<nat>>, batches: seq<Option<seq<nat>>>, d: seq<nat>, b: Option<seq<nat>>)
    requires st.batchSize > 0.0 && |drops| == |batches|
    ensures forall j :: 1 <= j <= |drops| - 1 ==>
      StochasticParts(nodes, s, st, stepSize, drops + [d], batches + [b])(j) == StochasticParts(nodes, s, st, stepSize, drops, batches)(j)
  {
    forall j | 1 <= j <= |drops| - 1
      ensures StochasticParts(nodes, s, st, stepSize, drops + [d], batches + [b])(j) == StochasticParts(nodes, s, st, stepSize, drops, batches)(j)
    {
      assert (drops + [d])[j] == drops[j] && (batches + [b])[j] == batches[j];
    }
  }

  /** The regroupings of one iteration's calls after those of the iterations before it. */
  lemma Regroup<T>(calls0: seq<T>, before: seq<T>, define: seq<T>, drop: seq<T>, updates: seq<T>)
    ensures calls0 + before + define == calls0 + (before + define)
    ensures calls0 + before + define + drop == calls0 + (before + define + drop)
    ensures calls0 + before + define + drop + updates == calls0 + (before + (define + (drop + updates)))
  {
  }

  /** What an earlier iteration drew stays drawn when more orders and batches follow. */
  lemma DrawnAtKept(st: StochasticSettings, perms: seq<seq<nat>>, batches: seq<Option<seq<nat>>>, j: nat,
                    morePerms: seq<seq<nat>>, moreBatches: seq<Option<seq<nat>>>)
    requires st.batchSize > 0.0 && j < |batches| && DrawnAt(st, perms, batches, j)
    ensures DrawnAt(st, perms + morePerms, batches + moreBatches, j)
  {
    assert (batches + moreBatches)[j] == batches[j];
    if j >= st.startStochastic {
      BatchAndEpochInRange(st, j);
      assert (perms + morePerms)[EpochAt(st, j)] == perms[EpochAt(st, j)];
    }
  }

  /**
   * Drawing iteration i's mini-batch keeps BatchesDrawn: before start_stochastic
   * there is none; from then on it is batch BatchAt(i) of the latest order, with
   * a new order drawn exactly when BatchAt(i) is 0.
   */
  lemma DrawBatch(st: StochasticSettings, n: nat, perms: seq<seq<nat>>, batches: seq<Option<seq<nat>>>, i: nat,
                  newPerms: seq<seq<nat>>, b: Option<seq<nat>>)
    requires st.batchSize > 0.0 && st.startStochastic >= 1 && 1 <= i && |batches| == i
    requires BatchesDrawn(st, n, perms, batches)
    requires i < st.startStochastic ==> newPerms == [] && b == None
    requires i >= st.startStochastic ==>
      && (BatchAt(st, i) == 0 ==> |newPerms| == 1 && IsPermutation(newPerms[0], n))
      && (BatchAt(st, i) != 0 ==> newPerms == [])
      && |perms + newPerms| > 0
      && b == Some(Batch((perms + newPerms)[|perms + newPerms| - 1], st.batchSize, BatchAt(st, i)))
    ensures BatchesDrawn(st, n, perms + newPerms, batches + [b])
  {
    var perms', batches' := perms + newPerms, batches + [b];
    if i >= st.startStochastic {
      EpochsStartAtBatchZero(st, i);
      BatchAndEpochInRange(st, i);
      assert DrawnAt(st, perms', batches', i);
    } else {
      assert EpochsStarted(st, i) == 0;
    }
    forall e | 0 <= e < |perms'|
      ensures IsPermutation(perms'[e], n)
    {
      if e >= |perms| {
        assert perms'[e] == newPerms[0];
      }
    }
    forall j | 1 <= j < i
      ensures DrawnAt(st, perms', batches', j)
    {
      DrawnAtKept(st, perms, batches, j, newPerms, [b]);
    }
  }

  /** Past the first stochastic iteration, an order has been drawn by the time a batch other than 0 is cut. */
  lemma OrderDrawnBefore(st: StochasticSettings, n: nat, perms: seq<seq<nat>>, batches: seq<Option<seq<nat>>>, i: nat)
    requires st.batchSize > 0.0 && st.startStochastic >= 1 && 1 <= i && |batches| == i
    requires BatchesDrawn(st, n, perms, batches)
    requires i >= st.startStochastic && BatchAt(st, i) != 0
    ensures |perms| >= 1
  {
    BatchAndEpochInRange(st, i);
    if i > st.startStochastic {
      BatchAndEpochInRange(st, i - 1);
    }
  }
  /**
   * How a stochastic run from K = k0 ended: as for the full-batch loop, with
   * the mini-batch of every iteration it reached drawn from one order of the n
   * samples per epoch started, the calls of the stochastic iterations, and on
   * convergence iter_time cut like the other tables.
   */
  ghost predicate StochasticFinished(nodes: seq<string>, s: Settings, st: StochasticSettings, stepSize: int -> real,
                                     elboAt: (nat, string) -> real, r2At: (nat, nat) -> R2, duration: nat -> real,
                                     vn: seq<string>, k0: nat, n: nat, calls0: seq<NodeCall>, outcome: Outcome,
                                     drops: seq<seq<nat>>, batches: seq<Option<seq<nat>>>, perms: seq<seq<nat>>,
                                     k: nat, calls: seq<NodeCall>, stats: TrainStats)
    requires Supported(s) && st.batchSize > 0.0
  {
    match outcome
    case Completed =>
      && RunCompleted(s, elboAt, r2At, duration, vn, k0, drops, k, stats)
      && |batches| == |drops| && BatchesDrawn(st, n, perms, batches)
      && calls == calls0 + StochasticRunCalls(nodes, s, st, stepSize, drops, batches)
    case Converged(c) =>
      && RunConverged(s, elboAt, r2At, duration, vn, k0, drops, c, k, stats, c)
      && |batches| == |drops| && BatchesDrawn(st, n, perms, batches)
      && calls == calls0 + StochasticRunCalls(nodes, s, st, stepSize, drops, batches)
    case Exited(c, reason) =>
      && RunExited(s, elboAt, r2At, vn, k0, drops, c, reason, k)
      && |batches| == |drops| && BatchesDrawn(st, n, perms, batches)
      && calls == calls0 + StochasticExitCalls(nodes, s, st, stepSize, drops, batches, reason)
  }

  /** Once iteration LastIteration(s) of the stochastic loop has run to its end, training has completed. */
  lemma StochasticCompletes(nodes: seq<string>, s: Settings, st: StochasticSettings, stepSize: int -> real,
                            elboAt: (nat, string) -> real, r2At: (nat, nat) -> R2, duration: nat -> real,
                            vn: seq<string>, k0: nat, n: nat, calls0: seq<NodeCall>,
                            drops: seq<seq<nat>>, batches: seq<Option<seq<nat>>>, perms: seq<seq<nat>>, i: nat, k: nat,
                            elbo: seq<Option<ElboEntry>>, nf: seq<Option<int>>, time: seq<Option<real>>,
                            token: int, calls: seq<NodeCall>)
    requires Supported(s) && st.batchSize > 0.0 && i == LastIteration(s) + 1
    requires RunProgress(s, elboAt, r2At, duration, vn, k0, drops, i, k, elbo, nf, time, token) == true
    requires |batches| == i && BatchesDrawn(st, n, perms, batches) == true
    requires calls == calls0 + StochasticRunCalls(nodes, s, st, stepSize, drops, batches)
    ensures StochasticFinished(nodes, s, st, stepSize, elboAt, r2At, duration, vn, k0, n, calls0, Completed,
                               drops, batches, perms, k, calls, TrainStats(time, nf, elbo))
  {
    ProgressCompletes(s, elboAt, r2At, duration, vn, k0, drops, i, k, elbo, nf, time, token);
  }
  /** A stochastic iteration whose pruning halts training ends the run with an exit. */
  lemma StochasticPruneExit(nodes: seq<string>, s: Settings, st: StochasticSettings, stepSize: int -> real,
                            elboAt: (nat, string) -> real, r2At: (nat, nat) -> R2, duration: nat -> real,
                            vn: seq<string>, k0: nat, n: nat, calls0: seq<NodeCall>, drops: seq<seq<nat>>, i: nat, k: nat,
                            elbo: seq<Option<ElboEntry>>, nf: seq<Option<int>>, time: seq<Option<real>>, token: int,
                            drops': seq<seq<nat>>, batches': seq<Option<seq<nat>>>, perms': seq<seq<nat>>,
                            k': nat, reason: Halt, calls: seq<NodeCall>, stats: TrainStats)
    requires Supported(s) && st.batchSize > 0.0 && i < s.maxiter
    requires RunProgress(s, elboAt, r2At, duration, vn, k0, drops, i, k, elbo, nf, time, token)
    requires |drops'| == i + 1 && drops' == drops + [drops'[i]]
    requires reason == AllFactorsShutDown ==>
      Prunes(s, i) && DropAllowed(s, r2At, k0, drops', i) && k' == 0 && FactorsAfter(k0, drops', i) == 0
    requires reason == NoGroups ==> Prunes(s, i) && drops'[i] == [] && k' == k && |r2At(i, k')| == 0
    requires reason != UnknownConvergenceMode
    requires |batches'| == i + 1 && BatchesDrawn(st, n, perms', batches')
    requires calls == calls0 + StochasticExitCalls(nodes, s, st, stepSize, drops', batches', reason)
    ensures StochasticFinished(nodes, s, st, stepSize, elboAt, r2At, duration, vn, k0, n, calls0, Exited(i, reason),
                               drops', batches', perms', k', calls, stats)
  {
    PruneExitStep(s, elboAt, r2At, duration, vn, k0, drops, i, k, elbo, nf, time, token, drops', k', reason);
  }

  /** A stochastic iteration whose ELBO step converges ends the run with every table cut to the iterations before it. */
  lemma StochasticConverges(nodes: seq<string>, s: Settings, st: StochasticSettings, stepSize: int -> real,
                            elboAt: (nat, string) -> real, r2At: (nat, nat) -> R2, duration: nat -> real,
                            vn: seq<string>, k0: nat, n: nat, calls0: seq<NodeCall>, drops: seq<seq<nat>>, i: nat, k: nat,
                            elbo: seq<Option<ElboEntry>>, nf: seq<Option<int>>, time: seq<Option<real>>, token: int,
                            drops': seq<seq<nat>>, batches': seq<Option<seq<nat>>>, perms': seq<seq<nat>>,
                            k': nat, nf': seq<Option<int>>, calls: seq<NodeCall>)
    requires Supported(s) && st.batchSize > 0.0 && i < s.maxiter
    requires RunProgress(s, elboAt, r2At, duration, vn, k0, drops, i, k, elbo, nf, time, token)
    requires |drops'| == i + 1 && drops' == drops + [drops'[i]]
    requires DropAllowed(s, r2At, k0, drops', i) && !PruningHaltsAt(s, r2At, k0, drops', i)
    requires k' == FactorsAfter(k0, drops', i) && FactorTableIs(nf', s.maxiter + 1, s, k0, drops', i)
    requires IsAssessed(s, i) && Threshold(s.convergenceMode).Some? && TokenAfter(s, elboAt, vn, i) == 5
    requires |batches'| == i + 1 && BatchesDrawn(st, n, perms', batches')
    requires calls == calls0 + StochasticRunCalls(nodes, s, st, stepSize, drops', batches')
    ensures StochasticFinished(nodes, s, st, stepSize, elboAt, r2At, duration, vn, k0, n, calls0, Converged(i),
                               drops', batches', perms', k', calls, TrainStats(time[..i], nf'[..i], elbo[..i]))
  {
    ConvergenceStep(s, elboAt, r2At, duration, vn, k0, drops, i, k, elbo, nf, time, token, drops', k', nf');
  }

  /** A stochastic iteration that assesses convergence under an unrecognised mode ends the run with an exit. */
  lemma StochasticModeExit(nodes: seq<string>, s: Settings, st: StochasticSettings, stepSize: int -> real,
                           elboAt: (nat, string) -> real, r2At: (nat, nat) -> R2, duration: nat -> real,
                           vn: seq<string>, k0: nat, n: nat, calls0: seq<NodeCall>, drops: seq<seq<nat>>, i: nat, k: nat,
                           elbo: seq<Option<ElboEntry>>, nf: seq<Option<int>>, time: seq<Option<real>>, token: int,
                           drops': seq<seq<nat>>, batches': seq<Option<seq<nat>>>, perms': seq<seq<nat>>,
                           k': nat, calls: seq<NodeCall>, stats: TrainStats)
    requires Supported(s) && st.batchSize > 0.0 && i < s.maxiter
    requires RunProgress(s, elboAt, r2At, duration, vn, k0, drops, i, k, elbo, nf, time, token)
    requires |drops'| == i + 1 && drops' == drops + [drops'[i]]
    requires DropAllowed(s, r2At, k0, drops', i) && !PruningHaltsAt(s, r2At, k0, drops', i)
    requires k' == FactorsAfter(k0, drops', i)
    requires IsAssessed(s, i) && Threshold(s.convergenceMode).None?
    requires |batches'| == i + 1 && BatchesDrawn(st, n, perms', batches')
    requires calls == calls0 + StochasticRunCalls(nodes, s, st, stepSize, drops', batches')
    ensures StochasticFinished(nodes, s, st, stepSize, elboAt, r2At, duration, vn, k0, n, calls0,
                               Exited(i, UnknownConvergenceMode), drops', batches', perms', k', calls, stats)
  {
    ModeExitStep(s, elboAt, r2At, duration, vn, k0, drops, i, k, elbo, nf, time, token, drops', k');
  }
}
