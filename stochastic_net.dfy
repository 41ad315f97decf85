/**
 * The Bayesian network trained by stochastic variational inference: from
 * start_stochastic on, every iteration draws a mini-batch of the samples
 * (without replacement within an epoch), defines it on the nodes that depend on
 * the samples, and updates the nodes with that batch and the epoch's step size.
 */
module StochasticNets {
  import opened Wrappers
  import opened Seqs
  import opened TrainOptions
  import opened Convergence
  import opened Ledger
  import opened Schedule
  import opened Pruning
  import opened MiniBatch
  import opened Training
  import opened Runs
  import opened BayesNets

  class StochasticBayesNet {
    /** The network this one extends: its dimensions, nodes, options and statistics. */
    const net: BayesNet
    /** shuffled_ix: the order of the samples drawn for the current epoch, once one has been drawn. */
    var shuffledIx: Option<seq<nat>>

    /** The network is valid and the current order, if any, is a permutation of the N samples. */
    predicate Valid()
      reads this
    {
      net.Valid() && (shuffledIx.Some? ==> IsPermutation(shuffledIx.value, net.n))
    }

    constructor(n: nat, m: nat, g: nat, k: nat, nodes: seq<string>, variational: set<string>)
      requires Distinct(nodes)
      ensures Valid() && fresh(net) && shuffledIx == None
      ensures net.n == n && net.m == m && net.g == g && net.k == k
      ensures net.nodes == nodes && net.variational == variational
      ensures net.options == None && !net.trained && !net.simulated && net.trainStats == None && net.calls == []
    {
      net := new BayesNet(n, m, g, k, nodes, variational);
      shuffledIx := None;
    }

    /** define_mini_batch: Y and Tau, then AlphaZ and ThetaZ when present, receive the indices. */
    method DefineMiniBatch(ix: seq<nat>)
      modifies net`calls
      ensures net.calls == old(net.calls) + DefineCalls(net.nodes, ix)
    {
      net.calls := net.calls + [NodeCall.DefineMiniBatch("Y", ix), NodeCall.DefineMiniBatch("Tau", ix)];
      if "AlphaZ" in net.nodes {
        net.calls := net.calls + [NodeCall.DefineMiniBatch("AlphaZ", ix)];
      }
      if "ThetaZ" in net.nodes {
        net.calls := net.calls + [NodeCall.DefineMiniBatch("ThetaZ", ix)];
      }
    }

    /**
     * sample_mini_batch: S = int(batch_size·N) distinct sample indices, defined
     * on the nodes; numpy refuses (None here) a negative S or one above N.
     */
    method SampleMiniBatch(batchSize: real) returns (ix: Option<seq<nat>>)
      modifies net`calls
      ensures var size := Trunc(batchSize * net.n as real);
        && (ix.None? <==> size < 0 || size > net.n)
        && (ix.Some? ==> |ix.value| == size && Distinct(ix.value) && forall j :: 0 <= j < |ix.value| ==> ix.value[j] < net.n)
        && net.calls == old(net.calls) + (if ix.Some? then DefineCalls(net.nodes, ix.value) else [])
    {
      var size := Trunc(batchSize * net.n as real);
      if size < 0 || size > net.n {
        return None;
      }
      var lowest := Range(net.n)[..size];
      assert |lowest| == size && Distinct(lowest) && forall j :: 0 <= j < size ==> lowest[j] < net.n;
      var chosen: seq<nat> :| |chosen| == size && Distinct(chosen) && forall j :: 0 <= j < size ==> chosen[j] < net.n;
      DefineMiniBatch(chosen);
      return Some(chosen);
    }

    /**
     * sample_mini_batch_no_replace(i): with j = i - 1, batch j mod n_batches of
     * epoch int(j / n_batches); a batch 0 first draws a fresh order of the
     * samples. The batch is the order's slice [int(S·b), min(int(S·(b+1)), N)),
     * S = batch_size·N. Without an order to cut (a batch other than 0 before any
     * batch 0) Python fails, here None.
     */
    method SampleMiniBatchNoReplace(batchSize: real, i: int) returns (ix: Option<seq<nat>>, epoch: int)
      requires batchSize > 0.0 && Valid()
      modifies this`shuffledIx, net`calls
      ensures Valid()
      ensures var b := (i - 1) % NumBatches(batchSize);
        && epoch == TruncDiv(i - 1, NumBatches(batchSize))
        && (b == 0 ==> shuffledIx.Some?)
        && (b != 0 ==> shuffledIx == old(shuffledIx))
        && (ix.None? <==> shuffledIx.None?)
        && (ix.Some? ==> ix.value == Batch(shuffledIx.value, batchSize, b))
        && net.calls == old(net.calls) + (if ix.Some? then DefineCalls(net.nodes, ix.value) else [])
    {
      var j := i - 1;
      var nBatches := NumBatches(batchSize);
      var b := j % nBatches;
      epoch := TruncDiv(j, nBatches);
      if b == 0 {
        IdentityIsPermutation(net.n);
        var perm: seq<nat> :| IsPermutation(perm, net.n);
        shuffledIx := Some(perm);
      }
      if shuffledIx.None? {
        return None, epoch;
      }
      var batch := Batch(shuffledIx.value, batchSize, b);
      DefineMiniBatch(batch);
      ix := Some(batch);
    }

    /**
     * The opening of iteration i: from start_stochastic on, the mini-batch and the
     * step size ro of its epoch; before it, no batch and ro = 1. perms' are the
     * orders drawn so far, the last of them the current shuffled_ix.
     */
    method DrawStep(st: StochasticSettings, stepSize: int -> real, i: nat,
                    ghost perms: seq<seq<nat>>, ghost batches: seq<Option<seq<nat>>>)
      returns (ix: Option<seq<nat>>, ro: real, ghost perms': seq<seq<nat>>)
      requires Valid() && st.batchSize > 0.0 && st.startStochastic >= 1 && 1 <= i && |batches| == i
      requires BatchesDrawn(st, net.n, perms, batches) == true
      requires |perms| > 0 ==> shuffledIx == Some(perms[|perms| - 1])
      modifies this`shuffledIx, net`calls
      ensures Valid()
      ensures BatchesDrawn(st, net.n, perms', batches + [ix]) == true
      ensures |perms'| > 0 ==> shuffledIx == Some(perms'[|perms'| - 1])
      ensures ro == RoAt(st, stepSize, i)
      ensures net.calls == old(net.calls) + MiniBatchCalls(net.nodes, st, ix, i)
    {
      perms' := perms;
      ix, ro := None, 1.0;
      if i >= st.startStochastic {
        BatchAndEpochInRange(st, i);
        if BatchAt(st, i) != 0 {
          OrderDrawnBefore(st, net.n, perms, batches, i);
        }
        var epoch;
        ix, epoch := SampleMiniBatchNoReplace(st.batchSize, i - (st.startStochastic - 1));
        ro := stepSize(epoch);
        var drawn: seq<seq<nat>> := [];
        if BatchAt(st, i) == 0 {
          drawn := [shuffledIx.value];
        }
        perms' := perms + drawn;
        DrawBatch(st, net.n, perms, batches, i, drawn, ix);
      } else {
        DrawBatch(st, net.n, perms, batches, i, [], None);
      }
    }

    /**
     * Iteration i of the stochastic loop once its mini-batch ix and step size ro
     * are drawn (callsBefore are the calls before the draw): pruning, the
     * scheduled updates with (ix, ro), the ELBO step and the time entry.
     */
    method StochasticIteration(s: Settings, st: StochasticSettings, stepSize: int -> real,
                               elboAt: (nat, string) -> real, r2At: (nat, nat) -> R2, duration: nat -> real,
                               vn: seq<string>, ghost k0: nat, ghost calls0: seq<NodeCall>, i: nat,
                               ghost drops: seq<seq<nat>>, ghost batches: seq<Option<seq<nat>>>, ghost perms: seq<seq<nat>>,
                               ix: Option<seq<nat>>, ro: real, ghost callsBefore: seq<NodeCall>,
                               elbo: seq<Option<ElboEntry>>, nf: seq<Option<int>>, time: seq<Option<real>>, token: int)
      returns (stop: Option<Outcome>, ghost drops': seq<seq<nat>>,
               elbo': seq<Option<ElboEntry>>, nf': seq<Option<int>>, time': seq<Option<real>>, token': int)
      requires net.Valid() && Supported(s) && i < s.maxiter && vn == VariationalOf(net.nodes, net.variational)
      requires st.batchSize > 0.0 && st.startStochastic >= 1
      requires R2Shaped(r2At)
      requires RunProgress(s, elboAt, r2At, duration, vn, k0, drops, i, net.k, elbo, nf, time, token) == true
      requires |batches| == i && BatchesDrawn(st, net.n, perms, batches + [ix]) == true && ro == RoAt(st, stepSize, i)
      requires callsBefore == calls0 + StochasticRunCalls(net.nodes, s, st, stepSize, drops, batches)
      requires net.calls == callsBefore + MiniBatchCalls(net.nodes, st, ix, i)
      modifies net`k, net`calls
      ensures net.Valid()
      ensures |elbo'| == |nf'| == |time'| == s.maxiter + 1
      ensures stop.None? ==>
        && RunProgress(s, elboAt, r2At, duration, vn, k0, drops', i + 1, net.k, elbo', nf', time', token') == true
        && net.calls == calls0 + StochasticRunCalls(net.nodes, s, st, stepSize, drops', batches + [ix])
      ensures stop.Some? ==> stop == Some(Converged(i)) || (stop.value.Exited? && stop.value.iteration == i)
      ensures stop.Some? ==>
        StochasticFinished(net.nodes, s, st, stepSize, elboAt, r2At, duration, vn, k0, net.n, calls0, stop.value,
                           drops', batches + [ix], perms, net.k, net.calls, TrainStats(time'[..i], nf'[..i], elbo'[..i])) == true
    {
      elbo', time', token' := elbo, time, token;
      ghost var k1 := net.k;
      ghost var batches' := batches + [ix];
      var halt;
      halt, drops', nf' := net.PruneStep(s, r2At, k0, i, drops, nf);
      StochasticCalls(net.nodes, s, st, stepSize, calls0, drops, drops', batches, batches', i, callsBefore);
      if halt.Some? {
        StochasticPruneExit(net.nodes, s, st, stepSize, elboAt, r2At, duration, vn, k0, net.n, calls0, drops, i, k1,
                            elbo, nf, time, token, drops', batches', perms, net.k, halt.value, net.calls,
                            TrainStats(time'[..i], nf'[..i], elbo'[..i]));
        stop := Some(Exited(i, halt.value));
        return;
      }
      net.UpdateNodes(s.schedule, i, s.startSparsity, Stochastic(ix, ro));
      stop, elbo', token' := net.ElboStep(s, elboAt, vn, i, elbo, token);
      if stop == Some(Converged(i)) {
        StochasticConverges(net.nodes, s, st, stepSize, elboAt, r2At, duration, vn, k0, net.n, calls0, drops, i, k1,
                            elbo, nf, time, token, drops', batches', perms, net.k, nf', net.calls);
        assert elbo'[..i] == elbo[..i];
        return;
      }
      if stop.Some? {
        StochasticModeExit(net.nodes, s, st, stepSize, elboAt, r2At, duration, vn, k0, net.n, calls0, drops, i, k1,
                           elbo, nf, time, token, drops', batches', perms, net.k, net.calls,
                           TrainStats(time'[..i], nf'[..i], elbo'[..i]));
        return;
      }
      time' := time'[i := Some(duration(i))];
      ProgressStep(s, elboAt, r2At, duration, vn, k0, drops, i, k1, elbo, nf, time, token,
                   drops', net.k, elbo', nf', time', token');
    }

    /** Iteration i of the stochastic loop: the draw of its mini-batch, then the rest of the iteration. */
    method StochasticStep(s: Settings, st: StochasticSettings, stepSize: int -> real, vn: seq<string>,
                          elboAt: (nat, string) -> real, r2At: (nat, nat) -> R2, duration: nat -> real,
                          ghost k0: nat, ghost calls0: seq<NodeCall>, i: nat,
                          ghost drops: seq<seq<nat>>, ghost batches: seq<Option<seq<nat>>>, ghost perms: seq<seq<nat>>,
                          elbo: seq<Option<ElboEntry>>, nf: seq<Option<int>>, time: seq<Option<real>>, token: int)
      returns (stop: Option<Outcome>, ghost drops': seq<seq<nat>>, ghost batches': seq<Option<seq<nat>>>, ghost perms': seq<seq<nat>>,
               elbo': seq<Option<ElboEntry>>, nf': seq<Option<int>>, time': seq<Option<real>>, token': int)
      requires Valid() && Supported(s) && 1 <= i < s.maxiter && vn == VariationalOf(net.nodes, net.variational)
      requires st.batchSize > 0.0 && st.startStochastic >= 1
      requires R2Shaped(r2At)
      requires RunProgress(s, elboAt, r2At, duration, vn, k0, drops, i, net.k, elbo, nf, time, token) == true
      requires |batches| == i && BatchesDrawn(st, net.n, perms, batches) == true
      requires |perms| > 0 ==> shuffledIx == Some(perms[|perms| - 1])
      requires net.calls == calls0 + StochasticRunCalls(net.nodes, s, st, stepSize, drops, batches)
      modifies this`shuffledIx, net`k, net`calls
      ensures Valid()
      ensures |batches'| == i + 1 && BatchesDrawn(st, net.n, perms', batches') == true
      ensures |perms'| > 0 ==> shuffledIx == Some(perms'[|perms'| - 1])
      ensures |elbo'| == |nf'| == |time'| == s.maxiter + 1
      ensures stop.None? ==>
        && RunProgress(s, elboAt, r2At, duration, vn, k0, drops', i + 1, net.k, elbo', nf', time', token') == true
        && net.calls == calls0 + StochasticRunCalls(net.nodes, s, st, stepSize, drops', batches')
      ensures stop.Some? ==>
        StochasticFinished(net.nodes, s, st, stepSize, elboAt, r2At, duration, vn, k0, net.n, calls0, stop.value,
                           drops', batches', perms', net.k, net.calls, TrainStats(time'[..i], nf'[..i], elbo'[..i])) == true
    {
      ghost var callsBefore := net.calls;
      var ix, ro;
      ix, ro, perms' := DrawStep(st, stepSize, i, perms, batches);
      stop, drops', elbo', nf', time', token' := StochasticIteration(s, st, stepSize, elboAt, r2At, duration, vn, k0, calls0, i,
                                                                     drops, batches, perms', ix, ro, callsBefore,
                                                                     elbo, nf, time, token);
      batches' := batches + [ix];
    }

    /**
     * The stochastic loop over iterations 1..maxiter-1, from the state before
     * iteration 1; `stats` is what train_stats receives when training does not exit.
     */
    method StochasticRun(s: Settings, st: StochasticSettings, stepSize: int -> real, vn: seq<string>,
                         elboAt: (nat, string) -> real, r2At: (nat, nat) -> R2, duration: nat -> real,
                         ghost k0: nat, ghost calls0: seq<NodeCall>,
                         elbo0: seq<Option<ElboEntry>>, nf0: seq<Option<int>>, time0: seq<Option<real>>)
      returns (outcome: Outcome, ghost drops: seq<seq<nat>>, ghost batches: seq<Option<seq<nat>>>,
               ghost perms: seq<seq<nat>>, stats: TrainStats)
      requires Valid() && Supported(s) && vn == VariationalOf(net.nodes, net.variational)
      requires st.batchSize > 0.0 && st.startStochastic >= 1
      requires R2Shaped(r2At)
      requires RunProgress(s, elboAt, r2At, duration, vn, k0, [[]], 1, net.k, elbo0, nf0, time0, 1)
      requires net.calls == calls0
      modifies this`shuffledIx, net`k, net`calls
      ensures Valid()
      ensures StochasticFinished(net.nodes, s, st, stepSize, elboAt, r2At, duration, vn, k0, net.n, calls0, outcome,
                                 drops, batches, perms, net.k, net.calls, stats) == true
    {
      var elbo, nf, time, token := elbo0, nf0, time0, 1;
      drops, batches, perms := [[]], [None], [];
      var i := 1;
      assert EpochsStarted(st, 0) == 0;
      while i < s.maxiter
        invariant Valid()
        invariant 1 <= i <= LastIteration(s) + 1
        invariant RunProgress(s, elboAt, r2At, duration, vn, k0, drops, i, net.k, elbo, nf, time, token) == true
        invariant |batches| == i && BatchesDrawn(st, net.n, perms, batches) == true
        invariant |perms| > 0 ==> shuffledIx == Some(perms[|perms| - 1])
        invariant net.calls == calls0 + StochasticRunCalls(net.nodes, s, st, stepSize, drops, batches)
      {
        var stop: Option<Outcome>;
        stop, drops, batches, perms, elbo, nf, time, token := StochasticStep(s, st, stepSize, vn, elboAt, r2At, duration, k0, calls0, i,
                                                                             drops, batches, perms, elbo, nf, time, token);
        if stop.Some? {
          outcome, stats := stop.value, TrainStats(time[..i], nf[..i], elbo[..i]);
          return;
        }
        i := i + 1;
      }
      StochasticCompletes(net.nodes, s, st, stepSize, elboAt, r2At, duration, vn, k0, net.n, calls0,
                          drops, batches, perms, i, net.k, elbo, nf, time, token, net.calls);
      outcome, stats := Completed, TrainStats(time, nf, elbo);
    }

    /** The body of the stochastic iterate once the settings are read: precompute, then the iterations. */
    method StochasticTrainLoop(s: Settings, st: StochasticSettings, stepSize: int -> real, vn: seq<string>,
                               elboAt: (nat, string) -> real, r2At: (nat, nat) -> R2, duration: nat -> real)
      returns (outcome: Outcome, ghost drops: seq<seq<nat>>, ghost batches: seq<Option<seq<nat>>>, ghost perms: seq<seq<nat>>)
      requires Valid() && Supported(s) && vn == VariationalOf(net.nodes, net.variational)
      requires st.batchSize > 0.0 && st.startStochastic >= 1
      requires R2Shaped(r2At)
      modifies this`shuffledIx, net`k, net`calls, net`trainStats, net`trained
      ensures Valid()
      ensures outcome.Exited? ==> net.trained == old(net.trained) && net.trainStats == old(net.trainStats)
      ensures !outcome.Exited? ==> net.trained && net.trainStats.Some?
      ensures StochasticFinished(net.nodes, s, st, stepSize, elboAt, r2At, duration, vn, old(net.k), net.n,
                                 old(net.calls) + PrecomputeCalls(net.nodes, s.tauTrick), outcome, drops, batches, perms,
                                 net.k, net.calls, if outcome.Exited? then TrainStats([], [], []) else net.trainStats.value) == true
    {
      ghost var k0 := net.k;
      var elbo: seq<Option<ElboEntry>> := seq(s.maxiter + 1, _ => None);
      var nf: seq<Option<int>> := seq(s.maxiter + 1, _ => None);
      var time: seq<Option<real>> := seq(s.maxiter + 1, _ => None);
      var first := net.Precompute(elboAt, s.tauTrick);
      ghost var calls0 := net.calls;
      elbo := elbo[0 := Some(first)];
      nf := nf[0 := Some(net.k)];
      time := time[0 := Some(0.0)];
      ProgressStart(s, elboAt, r2At, duration, vn, k0, elbo, nf, time);
      var stats;
      outcome, drops, batches, perms, stats := StochasticRun(s, st, stepSize, vn, elboAt, r2At, duration, k0, calls0, elbo, nf, time);
      if !outcome.Exited? {
        net.trainStats := Some(stats);
        net.trained := true;
      }
    }

    /**
     * iterate (stochastic). Like the full-batch loop, but from start_stochastic
     * on every iteration first draws its mini-batch and takes the step size
     * stepSize(epoch) of its epoch, and on convergence the time table too is cut
     * to the iterations before it.
     */
    method Iterate(stepSize: int -> real, elboAt: (nat, string) -> real, r2At: (nat, nat) -> R2, duration: nat -> real)
      returns (outcome: Outcome, s: Settings, st: StochasticSettings,
               ghost drops: seq<seq<nat>>, ghost batches: seq<Option<seq<nat>>>, ghost perms: seq<seq<nat>>)
      requires Valid() && net.Trainable()
      requires var read := ReadStochasticSettings(net.options.value);
        read.Some? && read.value.batchSize > 0.0 && read.value.startStochastic >= 1
      requires R2Shaped(r2At)
      modifies this`shuffledIx, net`k, net`calls, net`trainStats, net`trained
      ensures Valid()
      ensures ReadSettings(net.options.value) == Some(s) && ReadStochasticSettings(net.options.value) == Some(st)
      ensures outcome.Exited? ==> net.trained == old(net.trained) && net.trainStats == old(net.trainStats)
      ensures !outcome.Exited? ==> net.trained && net.trainStats.Some?
      ensures StochasticFinished(net.nodes, s, st, stepSize, elboAt, r2At, duration, VariationalOf(net.nodes, net.variational),
                                 old(net.k), net.n, old(net.calls) + PrecomputeCalls(net.nodes, s.tauTrick), outcome,
                                 drops, batches, perms, net.k, net.calls,
                                 if outcome.Exited? then TrainStats([], [], []) else net.trainStats.value)
    {
      s := ReadSettings(net.options.value).value;
      st := ReadStochasticSettings(net.options.value).value;
      var vn := net.GetVariationalNodes();
      outcome, drops, batches, perms := StochasticTrainLoop(s, st, stepSize, vn, elboAt, r2At, duration);
    }
  }
}
