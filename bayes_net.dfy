/**
 * The Bayesian network that drives variational training: its options, the
 * collection of parameters and ELBO terms from its nodes, factor pruning and
 * the full-batch training loop.
 */
module BayesNets {
  import opened Wrappers
  import opened Seqs
  import opened TrainOptions
  import opened Convergence
  import opened Ledger
  import opened Schedule
  import opened Pruning
  import opened Training
  import opened Runs

  class BayesNet {
    /** dim['N'], the number of samples. */
    const n: nat
    /** dim['M'], the number of views. */
    const m: nat
    /** dim['G'], the number of groups. */
    const g: nat
    /** dim['K'], the number of active factors. */
    var k: nat
    /** The keys of the nodes dictionary, in its order. */
    const nodes: seq<string>
    /** The nodes that are variational nodes. */
    const variational: set<string>
    /** The training options, once set. */
    var options: Option<Options>
    var trained: bool
    var simulated: bool
    var trainStats: Option<TrainStats>
    /** The calls made on the nodes so far, oldest first. */
    var calls: seq<NodeCall>

    /** Dictionary keys are distinct. */
    predicate Valid()
    {
      Distinct(nodes)
    }

    constructor(n: nat, m: nat, g: nat, k: nat, nodes: seq<string>, variational: set<string>)
      requires Distinct(nodes)
      ensures Valid()
      ensures this.n == n && this.m == m && this.g == g && this.k == k
      ensures this.nodes == nodes && this.variational == variational
      ensures options == None && !trained && !simulated && trainStats == None && calls == []
    {
      this.n, this.m, this.g, this.k := n, m, g, k;
      this.nodes, this.variational := nodes, variational;
      options := None;
      trained, simulated := false, false;
      trainStats := None;
      calls := [];
    }

    /**
     * setTrainOptions: the options are stored, unchanged, exactly when every
     * required key is present; otherwise the failed assertion's message is returned.
     */
    method SetTrainOptions(opts: Options) returns (failure: Option<string>)
      modifies this`options
      ensures failure == CheckTrainOptions(opts)
      ensures failure.None? <==> forall key :: key in RequiredKeys ==> key in opts
      ensures failure.None? ==> options == Some(opts)
      ensures failure.Some? ==> options == old(options)
    {
      failure := CheckTrainOptions(opts);
      if failure.None? {
        options := Some(opts);
      }
    }

    /**
     * getParameters: the parameters of the requested nodes (all nodes when none
     * is requested) that have any, keyed by node; None when a requested node does
     * not exist (a KeyError).
     */
    method GetParameters<P>(requested: seq<string>, parametersOf: string -> Option<P>) returns (r: Option<map<string, P>>)
      ensures var wanted := if |requested| == 0 then nodes else requested;
        (r.Some? <==> forall x :: x in wanted ==> x in nodes)
        && (r.Some? ==> forall x :: x in r.value <==> x in wanted && parametersOf(x).Some?)
        && (r.Some? ==> forall x :: x in r.value ==> r.value[x] == parametersOf(x).value)
    {
      var wanted := if |requested| == 0 then nodes else requested;
      var params: map<string, P> := map[];
      var idx := 0;
      while idx < |wanted|
        invariant 0 <= idx <= |wanted|
        invariant forall j :: 0 <= j < idx ==> wanted[j] in nodes
        invariant forall x :: x in params <==> x in wanted[..idx] && parametersOf(x).Some?
        invariant forall x :: x in params ==> params[x] == parametersOf(x).value
      {
        var node := wanted[idx];
        if node !in nodes {
          return None;
        }
        var tmp := parametersOf(node);
        if tmp.Some? {
          params := params[node := tmp.value];
        }
        assert wanted[..idx + 1] == wanted[..idx] + [node];
        idx := idx + 1;
      }
      assert wanted[..idx] == wanted;
      return Some(params);
    }

    /** getVariationalNodes: the variational nodes, in node order. */
    method GetVariationalNodes() returns (r: seq<string>)
      ensures r == VariationalOf(nodes, variational)
    {
      r := [];
      var idx := 0;
      while idx < |nodes|
        invariant 0 <= idx <= |nodes|
        invariant r == VariationalOf(nodes[..idx], variational)
      {
        assert nodes[..idx + 1][..idx] == nodes[..idx];
        if nodes[idx] in variational {
          r := r + [nodes[idx]];
        }
        idx := idx + 1;
      }
      assert nodes[..idx] == nodes;
    }

    /**
     * calculateELBO: one entry per requested node (the variational nodes when
     * none is requested), in order, and their sum as the total; None when a
     * requested node does not exist (a KeyError) or is requested twice (the
     * Series then has that label twice, and adding its two entries to the one
     * "total" cell raises a ValueError). The default list, keys of a
     * dictionary, never repeats a name.
     */
    method CalculateElbo(requested: seq<string>, elboOf: string -> real) returns (r: Option<ElboEntry>)
      ensures var wanted := if |requested| == 0 then VariationalOf(nodes, variational) else requested;
        (r.Some? <==> (forall x :: x in wanted ==> x in nodes) && (|requested| == 0 || Distinct(requested)))
        && (r.Some? ==> |r.value.terms| == |wanted| && forall j :: 0 <= j < |wanted| ==> r.value.terms[j] == elboOf(wanted[j]))
        && (r.Some? ==> r.value.total == Sum(r.value.terms))
    {
      var wanted := requested;
      if |requested| == 0 {
        wanted := GetVariationalNodes();
      }
      var terms: seq<real> := [];
      var total := 0.0;
      var idx := 0;
      while idx < |wanted|
        invariant 0 <= idx <= |wanted|
        invariant forall j :: 0 <= j < idx ==> wanted[j] in nodes
        invariant |requested| > 0 ==> forall j, l :: 0 <= j < idx && 0 <= l < |wanted| && l != j ==> wanted[l] != wanted[j]
        invariant |terms| == idx && forall j :: 0 <= j < idx ==> terms[j] == elboOf(wanted[j])
        invariant total == Sum(terms)
      {
        if wanted[idx] !in nodes {
          return None;
        }
        if |requested| > 0 && exists l | 0 <= l < |wanted| :: l != idx && wanted[l] == wanted[idx] {
          return None;
        }
        var value := elboOf(wanted[idx]);
        assert (terms + [value])[..idx] == terms;
        terms := terms + [value];
        total := total + value;
        idx := idx + 1;
      }
      return Some(ElboEntry(terms, total));
    }

    /** The ELBO row of iteration i, as calculateELBO() computes it. */
    method ElboRow(elboAt: (nat, string) -> real, i: nat) returns (entry: ElboEntry)
      ensures entry == EntryAt(elboAt, VariationalOf(nodes, variational), i)
    {
      var r := CalculateElbo([], name => elboAt(i, name));
      var vn := VariationalOf(nodes, variational);
      assert r.Some?;
      assert r.value.terms == TermsAt(elboAt, vn, i);
      entry := r.value;
    }

    /**
     * precompute: every node precomputes, then the ELBO before training is taken
     * with the tau trick off, and the option's setting is restored.
     */
    method Precompute(elboAt: (nat, string) -> real, tauTrick: bool) returns (entry: ElboEntry)
      modifies this`calls
      ensures calls == old(calls) + PrecomputeCalls(nodes, tauTrick)
      ensures entry == EntryAt(elboAt, VariationalOf(nodes, variational), 0)
    {
      var each: seq<NodeCall> := [];
      var idx := 0;
      while idx < |nodes|
        invariant 0 <= idx <= |nodes|
        invariant |each| == idx && forall j :: 0 <= j < idx ==> each[j] == NodeCall.Precompute(nodes[j])
      {
        each := each + [NodeCall.Precompute(nodes[idx])];
        idx := idx + 1;
      }
      assert each == PrecomputeEach(nodes);
      calls := calls + each;
      calls := calls + [SetTauTrick(false)];
      entry := ElboRow(elboAt, 0);
      calls := calls + [SetTauTrick(tauTrick)];
    }

    /** One pass over the schedule: every node in order, skipping the sparsity nodes before start_sparsity. */
    method UpdateNodes(schedule: seq<string>, i: int, startSparsity: int, step: Step)
      modifies this`calls
      ensures calls == old(calls) + UpdateCalls(Scheduled(schedule, i, startSparsity), step)
    {
      var each: seq<NodeCall> := [];
      var idx := 0;
      while idx < |schedule|
        invariant 0 <= idx <= |schedule|
        invariant each == UpdateCalls(Scheduled(schedule[..idx], i, startSparsity), step)
        invariant calls == old(calls)
      {
        var node := schedule[idx];
        UpdateCallsStep(schedule, idx, i, startSparsity, step);
        if !(IsSparsityNode(node) && i < startSparsity) {
          each := each + [Update(node, step)];
        }
        idx := idx + 1;
      }
      assert schedule[..idx] == schedule;
      calls := calls + each;
    }

    /**
     * removeInactiveFactors: at most one factor no view of any group explains
     * above min_r2 is dropped on every node, K falls by the number dropped, and
     * training must stop when K reaches 0. Without groups to intersect nothing changes.
     */
    method RemoveInactiveFactors(minR2: Option<real>, r2: R2) returns (drop: seq<nat>, halt: Option<Halt>)
      requires HasFactors(r2, k)
      modifies this`k, this`calls
      ensures DropCandidates(minR2, r2, old(k)).Err? ==>
        drop == [] && halt == Some(NoGroups) && k == old(k) && calls == old(calls)
      ensures DropCandidates(minR2, r2, old(k)).Ok? ==>
        && drop in DropCandidates(minR2, r2, old(k)).value
        && k == old(k) - |drop|
        && calls == old(calls) + DropCalls(nodes, drop)
        && (halt == Some(AllFactorsShutDown) <==> k == 0)
        && (halt.None? <==> k != 0)
    {
      var candidates := DropCandidates(minR2, r2, k);
      if candidates.Err? {
        return [], Some(NoGroups);
      }
      drop :| drop in candidates.value;
      if minR2.Some? {
        DropListIsAtMostOneInactiveFactor(minR2.value, r2, k, drop);
      }
      if |drop| > 0 {
        var each: seq<NodeCall> := [];
        var idx := 0;
        while idx < |nodes|
          invariant 0 <= idx <= |nodes|
          invariant |each| == idx && forall j :: 0 <= j < idx ==> each[j] == RemoveFactors(nodes[j], drop)
        {
          each := each + [RemoveFactors(nodes[idx], drop)];
          idx := idx + 1;
        }
        assert each == RemoveEach(nodes, drop);
        calls := calls + each;
      }
      k := k - |drop|;
      halt := if k == 0 then Some(AllFactorsShutDown) else None;
    }

    /**
     * The stored options can drive the loop: every entry it reads is present with
     * its type, the settings are supported, and every scheduled node exists.
     */
    predicate Trainable()
      reads this`options
    {
      && options.Some? && ReadSettings(options.value).Some? && Supported(ReadSettings(options.value).value)
      && "Y" in nodes
      && forall x :: x in ReadSettings(options.value).value.schedule ==> x in nodes
    }

    /**
     * The pruning step of iteration i: removeInactiveFactors on a pruning
     * iteration, nothing otherwise; number_factors[i] records K on every
     * pruning iteration the loop goes on from.
     */
    method PruneStep(s: Settings, r2At: (nat, nat) -> R2, ghost k0: nat, i: nat, ghost drops: seq<seq<nat>>, nf: seq<Option<int>>)
      returns (halt: Option<Halt>, ghost drops': seq<seq<nat>>, nf': seq<Option<int>>)
      requires Supported(s) && 1 <= i < s.maxiter && |drops| == i && ValidDrops(s, r2At, k0, drops, i - 1)
      requires R2Shaped(r2At)
      requires k == FactorsAfter(k0, drops, i - 1)
      requires FactorTableIs(nf, s.maxiter + 1, s, k0, drops, i - 1)
      modifies this`k, this`calls
      ensures |drops'| == i + 1 && drops' == drops + [drops'[i]] && |nf'| == |nf|
      ensures halt.None? ==>
        && DropAllowed(s, r2At, k0, drops', i) && !PruningHaltsAt(s, r2At, k0, drops', i)
        && k == FactorsAfter(k0, drops', i)
        && calls == old(calls) + DropCalls(nodes, drops'[i])
        && FactorTableIs(nf', s.maxiter + 1, s, k0, drops', i)
      ensures halt == Some(AllFactorsShutDown) ==>
        && Prunes(s, i) && DropAllowed(s, r2At, k0, drops', i)
        && k == 0 && FactorsAfter(k0, drops', i) == 0
        && calls == old(calls) + DropCalls(nodes, drops'[i])
      ensures halt == Some(NoGroups) ==>
        && Prunes(s, i) && drops'[i] == [] && k == old(k) && |r2At(i, k)| == 0
        && calls == old(calls)
      ensures halt != Some(UnknownConvergenceMode)
    {
      nf' := nf;
      var drop: seq<nat> := [];
      halt := None;
      if IsDropIteration(s, i) && s.minR2.Some? {
        drop, halt := RemoveInactiveFactors(s.minR2, r2At(i, k));
      }
      ExtendDrops(s, (j: nat, x: string) => 0.0, r2At, [], k0, drops, drop);
      drops' := drops + [drop];
      assert FactorsAfter(k0, drops', i) == FactorsAfter(k0, drops', i - 1) - |drop|;
      if halt.None? {
        if IsDropIteration(s, i) {
          nf' := nf'[i := Some(k)];
        }
        assert FactorTableIs(nf', s.maxiter + 1, s, k0, drops', i);
      }
    }

    /**
     * The ELBO step of iteration i: at a checkpoint, the ELBO row, its delta
     * against row PreviousCheckpoint(i) and, when assessed, the convergence test.
     */
    method ElboStep(s: Settings, elboAt: (nat, string) -> real, vn: seq<string>, i: nat,
                    elbo: seq<Option<ElboEntry>>, token: int)
      returns (stop: Option<Outcome>, elbo': seq<Option<ElboEntry>>, token': int)
      requires Supported(s) && 1 <= i && vn == VariationalOf(nodes, variational)
      requires ElboTableIs(elbo, s.maxiter + 1, s, elboAt, vn, i - 1) && i < |elbo|
      requires Threshold(s.convergenceMode).Some? ==> token == TokenAfter(s, elboAt, vn, i - 1)
      ensures |elbo'| == |elbo| && elbo'[..i] == elbo[..i]
      ensures stop.None? ==>
        && !StopsAt(s, elboAt, vn, i)
        && ElboTableIs(elbo', s.maxiter + 1, s, elboAt, vn, i)
        && (Threshold(s.convergenceMode).Some? ==> token' == TokenAfter(s, elboAt, vn, i))
      ensures stop == Some(Converged(i)) || stop == Some(Exited(i, UnknownConvergenceMode)) || stop == None
      ensures stop == Some(Converged(i)) ==>
        IsAssessed(s, i) && Threshold(s.convergenceMode).Some? && TokenAfter(s, elboAt, vn, i) == 5
      ensures stop == Some(Exited(i, UnknownConvergenceMode)) ==>
        IsAssessed(s, i) && Threshold(s.convergenceMode).None?
    {
      elbo', token' := elbo, token;
      stop := None;
      if IsCheckpoint(s, i) {
        var entry := ElboRow(elboAt, i);
        PreviousCheckpointIsEarlier(s, i);
        var previous := if i == s.startElbo then 0 else i - s.elbofreq;
        assert elbo'[previous] == ElboCell(s, elboAt, vn, previous, i - 1);
        assert elbo'[0] == ElboCell(s, elboAt, vn, 0, i - 1);
        var delta := entry.total - elbo'[previous].value.total;
        var firstTotal := elbo'[0].value.total;
        elbo' := elbo'[i := Some(entry)];
        if i > s.startElbo && !s.forceiter {
          var assessment := AssessConvergence(s.convergenceMode, delta, firstTotal, token');
          if assessment.None? {
            stop := Some(Exited(i, UnknownConvergenceMode));
            return;
          }
          token' := assessment.value.token;
          if assessment.value.converged {
            stop := Some(Converged(i));
            return;
          }
        }
      }
      assert ElboTableIs(elbo', s.maxiter + 1, s, elboAt, vn, i);
    }

    /** Iteration i of the full-batch loop: pruning, the scheduled updates, the ELBO step and the time entry. */
    method FullBatchIteration(s: Settings, elboAt: (nat, string) -> real, r2At: (nat, nat) -> R2, duration: nat -> real,
                              vn: seq<string>, ghost k0: nat, ghost calls0: seq<NodeCall>, i: nat, ghost drops: seq<seq<nat>>,
                              elbo: seq<Option<ElboEntry>>, nf: seq<Option<int>>, time: seq<Option<real>>, token: int)
      returns (stop: Option<Outcome>, ghost drops': seq<seq<nat>>,
               elbo': seq<Option<ElboEntry>>, nf': seq<Option<int>>, time': seq<Option<real>>, token': int)
      requires Supported(s) && 1 <= i < s.maxiter && vn == VariationalOf(nodes, variational)
      requires R2Shaped(r2At)
      requires RunProgress(s, elboAt, r2At, duration, vn, k0, drops, i, k, elbo, nf, time, token) == true
      requires calls == calls0 + RunCalls(nodes, s, drops, i - 1)
      modifies this`k, this`calls
      ensures |elbo'| == |nf'| == |time'| == s.maxiter + 1
      ensures stop.None? ==>
        && RunProgress(s, elboAt, r2At, duration, vn, k0, drops', i + 1, k, elbo', nf', time', token') == true
        && calls == calls0 + RunCalls(nodes, s, drops', i)
      ensures stop.Some? ==> stop == Some(Converged(i)) || (stop.value.Exited? && stop.value.iteration == i)
      ensures stop.Some? ==>
        FullBatchFinished(nodes, s, elboAt, r2At, duration, vn, k0, calls0, stop.value, drops', k, calls, TrainStats(time', nf'[..i], elbo'[..i])) == true
    {
      elbo', time', token' := elbo, time, token;
      ghost var k1, calls1 := k, calls;
      var halt;
      halt, drops', nf' := PruneStep(s, r2At, k0, i, drops, nf);
      FullBatchCalls(nodes, s, calls0, drops, drops', i, calls1);
      if halt.Some? {
        PruneExitStep(s, elboAt, r2At, duration, vn, k0, drops, i, k1, elbo, nf, time, token, drops', k, halt.value);
        stop := Some(Exited(i, halt.value));
        return;
      }
      UpdateNodes(s.schedule, i, s.startSparsity, FullBatch);
      stop, elbo', token' := ElboStep(s, elboAt, vn, i, elbo, token);
      if stop == Some(Converged(i)) {
        ConvergenceStep(s, elboAt, r2At, duration, vn, k0, drops, i, k1, elbo, nf, time, token, drops', k, nf');
        assert elbo'[..i] == elbo[..i];
        return;
      }
      if stop.Some? {
        ModeExitStep(s, elboAt, r2At, duration, vn, k0, drops, i, k1, elbo, nf, time, token, drops', k);
        return;
      }
      time' := time'[i := Some(duration(i))];
      ProgressStep(s, elboAt, r2At, duration, vn, k0, drops, i, k1, elbo, nf, time, token,
                   drops', k, elbo', nf', time', token');
    }

    /**
     * iterate (full batch). Iterations 1..maxiter-1 each prune on the pruning
     * iterations, update the scheduled nodes and, at the ELBO checkpoints, record
     * the ELBO and assess convergence. drops[i] is the factor list pruned at
     * iteration i. Training ends when the range is exhausted, on convergence (the
     * ELBO and factor tables are cut to the iterations before it, the time table
     * is not), or by an exit, which leaves no statistics.
     */
    method Iterate(elboAt: (nat, string) -> real, r2At: (nat, nat) -> R2, duration: nat -> real)
      returns (outcome: Outcome, s: Settings, ghost drops: seq<seq<nat>>)
      requires Trainable()
      requires R2Shaped(r2At)
      modifies this`k, this`calls, this`trainStats, this`trained
      ensures options == old(options) && ReadSettings(options.value) == Some(s)
      ensures outcome.Exited? ==> trained == old(trained) && trainStats == old(trainStats)
      ensures !outcome.Exited? ==> trained && trainStats.Some?
      ensures FullBatchFinished(nodes, s, elboAt, r2At, duration, VariationalOf(nodes, variational), old(k),
                                old(calls) + PrecomputeCalls(nodes, s.tauTrick), outcome, drops, k, calls,
                                if outcome.Exited? then TrainStats([], [], []) else trainStats.value)
    {
      s := ReadSettings(options.value).value;
      var vn := GetVariationalNodes();
      outcome, drops := TrainLoop(s, vn, elboAt, r2At, duration);
    }

    /** The body of iterate once the settings are read: precompute, then the iterations. */
    method TrainLoop(s: Settings, vn: seq<string>, elboAt: (nat, string) -> real, r2At: (nat, nat) -> R2, duration: nat -> real)
      returns (outcome: Outcome, ghost drops: seq<seq<nat>>)
      requires Supported(s) && vn == VariationalOf(nodes, variational)
      requires R2Shaped(r2At)
      modifies this`k, this`calls, this`trainStats, this`trained
      ensures outcome.Exited? ==> trained == old(trained) && trainStats == old(trainStats)
      ensures !outcome.Exited? ==> trained && trainStats.Some?
      ensures FullBatchFinished(nodes, s, elboAt, r2At, duration, vn, old(k), old(calls) + PrecomputeCalls(nodes, s.tauTrick),
                                outcome, drops, k, calls, if outcome.Exited? then TrainStats([], [], []) else trainStats.value) == true
    {
      ghost var k0 := k;
      var elbo: seq<Option<ElboEntry>> := seq(s.maxiter + 1, _ => None);
      var nf: seq<Option<int>> := seq(s.maxiter + 1, _ => None);
      var time: seq<Option<real>> := seq(s.maxiter + 1, _ => None);
      var first := Precompute(elboAt, s.tauTrick);
      ghost var calls0 := calls;
      assert calls0 == old(calls) + PrecomputeCalls(nodes, s.tauTrick);
      elbo := elbo[0 := Some(first)];
      nf := nf[0 := Some(k)];
      time := time[0 := Some(0.0)];
      ProgressStart(s, elboAt, r2At, duration, vn, k0, elbo, nf, time);
      var stats;
      outcome, drops, stats := RunIterations(s, vn, elboAt, r2At, duration, k0, calls0, elbo, nf, time);
      if !outcome.Exited? {
        trainStats := Some(stats);
        trained := true;
      }
    }

    /**
     * The loop over iterations 1..maxiter-1, from the state before iteration 1;
     * `stats` is what train_stats receives when training does not exit.
     */
    method RunIterations(s: Settings, vn: seq<string>, elboAt: (nat, string) -> real, r2At: (nat, nat) -> R2, duration: nat -> real,
                         ghost k0: nat, ghost calls0: seq<NodeCall>,
                         elbo0: seq<Option<ElboEntry>>, nf0: seq<Option<int>>, time0: seq<Option<real>>)
      returns (outcome: Outcome, ghost drops: seq<seq<nat>>, stats: TrainStats)
      requires Supported(s) && vn == VariationalOf(nodes, variational)
      requires R2Shaped(r2At)
      requires RunProgress(s, elboAt, r2At, duration, vn, k0, [[]], 1, k, elbo0, nf0, time0, 1)
      requires calls == calls0
      modifies this`k, this`calls
      ensures FullBatchFinished(nodes, s, elboAt, r2At, duration, vn, k0, calls0, outcome, drops, k, calls, stats) == true
    {
      var elbo, nf, time, token := elbo0, nf0, time0, 1;
      drops := [[]];
      var i := 1;
      assert calls == calls0 + RunCalls(nodes, s, drops, 0);
      while i < s.maxiter
        invariant 1 <= i <= LastIteration(s) + 1
        invariant RunProgress(s, elboAt, r2At, duration, vn, k0, drops, i, k, elbo, nf, time, token) == true
        invariant calls == calls0 + RunCalls(nodes, s, drops, i - 1)
      {
        var stop: Option<Outcome>;
        stop, drops, elbo, nf, time, token := FullBatchIteration(s, elboAt, r2At, duration, vn, k0, calls0, i, drops, elbo, nf, time, token);
        if stop.Some? {
          outcome, stats := stop.value, TrainStats(time, nf[..i], elbo[..i]);
          return;
        }
        i := i + 1;
      }
      FullBatchCompletes(nodes, s, elboAt, r2At, duration, vn, k0, calls0, drops, i, k, elbo, nf, time, token, calls);
      outcome, stats := Completed, TrainStats(time, nf, elbo);
    }
  }
}
