# A verified model of the MOFA training orchestrator and its TauD noise node

This project models two parts of the variational-inference engine of MOFA
(multi-omics factor analysis). It states their behaviour in Dafny and proves
properties of it.

The first part is the training orchestrator, the `BayesNet` class and its
`StochasticBayesNet` variant. It covers:

- the sanity checks on the training options;
- the ELBO ledger, in which the total is the sum of the per-node terms;
- the convergence token, which increments on a small relative ELBO change and
  resets to 1 otherwise;
- pruning of inactive factors, where the eligible factors are intersected
  across groups, at most one is dropped, every node receives the drop list,
  and K falls by its length;
- the iteration schedule:
  - pruning iterations;
  - sparsity nodes skipped before `start_sparsity`;
  - ELBO checkpoints and their deltas;
  - when convergence is assessed;
  - truncation of the statistics on convergence;
- the stochastic variant's mini-batches. Each epoch takes one permutation of
  the N samples and cuts it into `ceil(1/batch_size)` consecutive slices.

The second part is the Gamma noise-precision node `TauD_Node`. It covers:

- the precomputed shape `Qa_pre`, taken from the counts of missing values;
- the broadcast of its expectations to N rows;
- the masked column-sum update of the rate;
- its ELBO contribution.

## Structure

The modules follow the program's structure:

- **`Wrappers`, `Seqs`, `Arith`, `Matrices`** hold stock helpers: `Option`
  and `Result`; sums and element-wise vectors; integer division facts; and
  matrices stored as `seq<seq<real>>`.
- **`TrainOptions`** holds the options dictionary, the twelve-key check and the
  typed reading of the entries the loops use.
- **`Convergence`** is `assess_convergence`, plus the token over a sequence of
  deltas.
- **`Ledger`** holds the ELBO row the nodes report at iteration i.
- **`Schedule`** holds the iteration predicates (pruning, checkpoints,
  assessment), the update schedule, and the convergence token after
  iteration i.
- **`Pruning`** holds the eligibility of factors and the drop lists that
  `removeInactiveFactors` may compute.
- **`MiniBatch`** holds the slice arithmetic and the epoch partition.
- **`Training`** describes one run as values:
  - the calls the loop makes on the nodes;
  - the three statistics tables;
  - which drops and which mini-batches are allowed.
- **`Runs`** holds the invariant of a running training loop, the three ways a
  run ends (completed, converged, exited), and one lemma per way an iteration
  ends.
- **`BayesNets`** is the class `BayesNet`, whose methods update `dim['K']`,
  the options, the statistics and the calls made on the nodes. Its `Iterate`
  is the full-batch loop.
- **`StochasticNets`** is the class `StochasticBayesNet`. Instead of
  subclassing, it holds a `BayesNet`. It adds the mini-batch sampling, the
  `shuffled_ix` field and the stochastic loop.
- **`TauNodes`** holds the node's arithmetic as functions with lemmas, and the
  class `TauDNode`, whose `Precompute` and `UpdateParameters` set its fields.

## How the unseen parts are modelled

- **Other nodes.** Their behaviour is not part of this model. A call into a
  node is recorded in a trace, `BayesNet.calls`, as one of: precompute, update,
  removeFactors, define_mini_batch, or switching the tau trick.
- **Node-supplied values** are caller-supplied functions:
  - `elboAt(i, name)`, each node's ELBO at iteration i;
  - `r2At(i, K)`, the variance explained that pruning sees;
  - `duration(i)`, the time of iteration i;
  - `stepSize(epoch)`, the stochastic step size.
- **Random choices** are nondeterministic (`:|`): which eligible factor is
  dropped, the sample indices drawn, and each epoch's permutation. The ghost
  out-parameters `drops`, `batches` and `perms` record what was chosen. The
  contracts say which choices are allowed.
- **`exit()`** and the crashes the loops can reach end training with an
  `Exited` outcome. The three reasons are:
  - no factor left after pruning;
  - no group to intersect, when `r2` is empty;
  - an unknown convergence mode.
- **In `TauD_Node`:**
  - `log` and `gammaln` are uninterpreted functions `real -> real`;
  - the expectations of Y, Z and W and the mask of Y are inputs;
  - N for the broadcast is the parameter `nZ`, the Z node's N.

## Behaviour of the code the model keeps

- **Convergence needs four small changes.** The token starts at 1 and
  convergence is declared when it reaches 5. So four consecutive small deltas
  are enough (`ConvergedAfterFourSmallChanges`), not five.
- **Slice bounds are floors.** The slice bounds are `int(S·j)` with
  `S = batch_size·N` taken as a real: floors of a real product. The chunks are
  not `round(batch_size·N)` long.
- **`iter_time` truncation differs between the loops.** On convergence the
  full-batch loop truncates `number_factors` and the ELBO table but not
  `iter_time`. The stochastic loop truncates all three. `RunConverged` takes
  the length of the time table as a parameter, so that each loop states its
  own.

## Model

| member | source | states |
|---|---|---|
| TrainOptions.CheckTrainOptions | mofapy2/core/BayesNet.py:51-62 | the check passes exactly when all twelve required keys are present; a failure gives the corrected message, which names a required key that is missing |
| TrainOptions.CheckNamesMissingKey | mofapy2/core/BayesNet.py:51-62 | a failed check's message names a key that is required and absent |
| TrainOptions.MessageInjective | mofapy2/core/BayesNet.py:51-62 | two different keys never give the same corrected assertion message |
| TrainOptions.FirstMissing | mofapy2/core/BayesNet.py:51-62 | the assertions fail at the first missing key in order: every earlier key is present |
| TrainOptions.StartElboMessageAsWritten | mofapy2/core/BayesNet.py:62 | with only start_elbo missing, the message as written names gpu_mode, a key that is present |
| TrainOptions.ReadSettings | mofapy2/core/BayesNet.py:202-291 | the settings are read exactly when each entry the loop looks up is present with a type Python computes with there, and `stochastic` (lines 249 and 468) is present. Numbers may be ints, floats or bools. start_drop and start_sparsity become their ceiling, and freq_drop and start_elbo must be whole. forceiter is its truth value. convergence_mode has a threshold exactly when it is the string fast, medium or slow |
| TrainOptions.ReadStochasticSettings | mofapy2/core/BayesNet.py:362-433 | batch_size, start_stochastic, learning_rate and forgetting_rate (all four printed at line 426) are read exactly when all are present as numbers (int, float or bool), with start_stochastic whole; each field is the entry's number |
| TrainOptions.CeilComparesAlike | mofapy2/core/BayesNet.py:221-229 | comparing an iteration number with start_drop or start_sparsity gives the same answer as comparing it with their ceiling, as the Settings fields hold them |
| TrainOptions.ModeOf | mofapy2/core/BayesNet.py:301-308 | a convergence mode has a threshold exactly when it is the string fast, medium or slow; any other value, string or not, is an unknown mode |
| TrainOptions.GetInt | mofapy2/core/BayesNet.py:202-291 | definition of an integer lookup: an integer entry is read exactly when the key is present with an integer value, and the result is that value |
| BayesNets.BayesNet.constructor | mofapy2/core/BayesNet.py:25-42 | stores dim and nodes, with no options, not trained, not simulated and no statistics |
| BayesNets.BayesNet.SetTrainOptions | mofapy2/core/BayesNet.py:47-64 | the options are stored unchanged exactly when every required key is present; otherwise they are left as they were and the failure is the corrected message of CheckTrainOptions |
| BayesNets.BayesNet.GetParameters | mofapy2/core/BayesNet.py:66-80 | with no names given, all nodes are used; the result maps exactly the wanted nodes whose parameters are not None to those parameters; it fails exactly when a wanted node does not exist |
| BayesNets.BayesNet.GetVariationalNodes | mofapy2/core/BayesNet.py:318-326 | returns the variational nodes in node order, and no other nodes |
| Training.VariationalOf | mofapy2/core/BayesNet.py:318-326 | a node is in the result exactly when it is a node of the network and is variational |
| BayesNets.BayesNet.CalculateElbo | mofapy2/core/BayesNet.py:342-349 | one term per requested node (the variational nodes by default), in order, each being that node's ELBO; the total is the sum of the terms; it fails exactly when a requested node does not exist (KeyError) or a name is requested twice (the ValueError of line 348) |
| BayesNets.BayesNet.ElboRow | mofapy2/core/BayesNet.py:342-349 | calculateELBO() at iteration i is the ledger row of the variational nodes' ELBOs at i |
| BayesNets.BayesNet.Precompute | mofapy2/core/BayesNet.py:182-200 | every node precomputes in order; the tau trick is switched off; the ELBO row is taken; the tau trick is then set back to Y_ELBO_TauTrick |
| BayesNets.BayesNet.UpdateNodes | mofapy2/core/BayesNet.py:228-231 | the nodes of the schedule are updated in schedule order, except that the sparsity nodes are skipped before start_sparsity |
| BayesNets.BayesNet.RemoveInactiveFactors | mofapy2/core/BayesNet.py:151-178 | the drop list is one the pruning rule allows; K falls by its length; every node receives removeFactors(drop) when the list is non-empty; training exits exactly when K reaches 0; with no group to intersect it raises and nothing changes |
| BayesNets.BayesNet.PruneStep | mofapy2/core/BayesNet.py:221-224 | pruning runs only on drop iterations with a threshold; number_factors[i] is written only on drop iterations; the drop is allowed; the cases in which pruning ends training are given |
| BayesNets.BayesNet.ElboStep | mofapy2/core/BayesNet.py:235-261 | the ELBO row is filled in at checkpoints only; on an assessed checkpoint the token becomes the running token; the loop stops exactly when convergence is assessed and either the token reaches 5 or the mode is unknown |
| BayesNets.BayesNet.FullBatchIteration | mofapy2/core/BayesNet.py:217-287 | one iteration either keeps the run invariant for the next iteration, or ends the run as converged or exited at i with the tables truncated to [:i] |
| BayesNets.BayesNet.RunIterations | mofapy2/core/BayesNet.py:217-287 | running from iteration 1 finishes the run: it completes, converges or exits as the iterations dictate, with the matching K, tables and node calls |
| BayesNets.BayesNet.TrainLoop | mofapy2/core/BayesNet.py:206-291 | the tables start as NaN rows with row 0 from precompute; the run finishes as dictated; train_stats is set and trained raised unless training exited |
| BayesNets.BayesNet.Iterate | mofapy2/core/BayesNet.py:202-291 | full-batch iterate: the options are read once and left unchanged; the run and its statistics are as above |
| Convergence.AssessConvergence | mofapy2/core/BayesNet.py:293-316 | an unknown mode exits; a small relative change increments the token, otherwise it is reset to 1 without converging; converged exactly when the new token is 5 |
| Convergence.TokenCountsTrailingSmall | mofapy2/core/BayesNet.py:310-314 | after a sequence of assessments, the token is 1 plus the number of trailing small changes |
| Convergence.ConvergedAfterFourSmallChanges | mofapy2/core/BayesNet.py:310-312 | an assessment converges exactly when it ends a run of four small changes |
| Schedule.DropIterationIgnoresSign | mofapy2/core/BayesNet.py:221 | a negative freq_drop prunes on the same iterations as its absolute value: Python's i % f == 0 holds exactly when the absolute value of f divides i |
| Schedule.CheckpointsAreArithmetic | mofapy2/core/BayesNet.py:235 | the ELBO checkpoints are exactly start_elbo + j·elbofreq |
| Schedule.PreviousCheckpointIsEarlier | mofapy2/core/BayesNet.py:241-244 | the delta is taken against an earlier row that is filled in: row 0 at the first checkpoint, i − elbofreq after it |
| Schedule.ScheduledSnoc | mofapy2/core/BayesNet.py:228-231 | the schedule is filtered node by node, in order |
| Schedule.FullScheduleFromStartSparsity | mofapy2/core/BayesNet.py:229 | from start_sparsity on, every scheduled node is updated |
| Schedule.SparsitySkippedBeforeStart | mofapy2/core/BayesNet.py:229-230 | before start_sparsity, ThetaW and ThetaZ are skipped and every other scheduled node is kept |
| Ledger.TermsAt | mofapy2/core/BayesNet.py:346-348 | definition of the ELBO terms: one term per node, in order, each being that node's value at iteration i |
| Pruning.InactiveInGroup | mofapy2/core/BayesNet.py:164 | definition of a group's inactive factors: a factor is listed exactly when it is below K and no view's R² exceeds min_r2 |
| Pruning.InactiveInAllGroups | mofapy2/core/BayesNet.py:164-165 | the intersection over groups holds exactly the factors that are inactive in every group and view |
| Pruning.DropCandidatesAsWritten | mofapy2/core/BayesNet.py:159-170 | the possible drop lists as written: without a threshold, concatenating no lists raises |
| Pruning.NoThresholdRaisesAsWritten | mofapy2/core/BayesNet.py:151-170 | removeInactiveFactors(min_r2=None), its default, raises instead of dropping nothing |
| Pruning.DropCandidates | mofapy2/core/BayesNet.py:159-170 | without a threshold, nothing is dropped; it fails only when a threshold is given and there is no group; there is always some drop list |
| Pruning.DropListIsAtMostOneInactiveFactor | mofapy2/core/BayesNet.py:164-167 | a drop list is empty or a single factor below K that is inactive in every group and view; it is empty exactly when no factor is inactive |
| Pruning.EveryInactiveFactorCanBeDropped | mofapy2/core/BayesNet.py:165-167 | the random choice can pick any inactive factor |
| Training.DropStep | mofapy2/core/BayesNet.py:221-224 | an allowed drop lowers K by at most one, only on a pruning iteration, and only by an inactive factor below K |
| Training.FactorsNeverGrow | mofapy2/core/BayesNet.py:174 | along allowed drops, K stays between 0 and its starting value |
| Training.DefineCallsShareIndices | mofapy2/core/BayesNet.py:399-406 | define_mini_batch gives the same indices to Y and Tau, and to AlphaZ and ThetaZ exactly when those nodes exist, and to no other node |
| Training.BatchAndEpochInRange | mofapy2/core/BayesNet.py:377-383 | from start_stochastic on, batch_ix lies in [0, n_batches) and the epoch is non-negative; the first stochastic iteration is batch 0 of epoch 0 |
| Training.NextIteration | mofapy2/core/BayesNet.py:382-383 | each stochastic iteration moves to the next batch of its epoch, or to batch 0 of the next epoch |
| Training.EpochsStartAtBatchZero | mofapy2/core/BayesNet.py:384-387 | a new epoch, and thus a new order, starts exactly at batch 0 |
| Runs.ProgressStart | mofapy2/core/BayesNet.py:207-215 | before iteration 1: nothing dropped; only row 0 of each table is filled; the token is 1 |
| Runs.ProgressStep | mofapy2/core/BayesNet.py:217-287 | an iteration that runs to its end keeps the run invariant, with its drop, its ELBO row, its token and its iteration time added |
| Runs.ConvergenceStep | mofapy2/core/BayesNet.py:257-261 | convergence is declared at an assessed checkpoint where the token reaches 5; number_factors and the ELBO table are cut to [:i]; iter_time is kept whole in the full-batch loop and cut in the stochastic one |
| Runs.PruneExitStep | mofapy2/core/BayesNet.py:164-178 | pruning ends training when K reaches 0 or when there is no group to intersect |
| Runs.ModeExitStep | mofapy2/core/BayesNet.py:307-308 | an unknown convergence mode ends training at the first assessed checkpoint |
| Runs.ProgressCompletes | mofapy2/core/BayesNet.py:289-291 | a run that reaches the end of range(1, maxiter) completes with the whole tables |
| Runs.FullBatchCompletes | mofapy2/core/BayesNet.py:289-291 | a completed full-batch run made exactly the calls of its iterations |
| Runs.FullBatchCalls | mofapy2/core/BayesNet.py:220-231 | the calls of a full-batch iteration are its pruning calls followed by its updates |
| Runs.StochasticCalls | mofapy2/core/BayesNet.py:432-451 | the calls of a stochastic iteration are its mini-batch definition, then its pruning calls, then its updates with (ix, ro) |
| Runs.StochasticRunCallsSnoc | mofapy2/core/BayesNet.py:429-451 | the calls of a stochastic run are those of its iterations in order, including where it exits |
| Runs.DrawBatch | mofapy2/core/BayesNet.py:384-394 | drawing iteration i's batch keeps the invariant: no batch before start_stochastic; a permutation of the samples is drawn at batch 0; batch b of the current order after it |
| Runs.OrderDrawnBefore | mofapy2/core/BayesNet.py:384-394 | an order has been drawn before any batch other than 0 is cut |
| Runs.StochasticCompletes | mofapy2/core/BayesNet.py:511-513 | a stochastic run that reaches the end completes with its batches and calls |
| Runs.StochasticPruneExit | mofapy2/core/BayesNet.py:440-444 | the stochastic run ends as pruning dictates, after defining that iteration's batch |
| Runs.StochasticConverges | mofapy2/core/BayesNet.py:476-482 | stochastic convergence truncates number_factors, the ELBO table and iter_time to [:i] |
| Runs.StochasticModeExit | mofapy2/core/BayesNet.py:476-477 | an unknown mode ends the stochastic run at its first assessed checkpoint |
| MiniBatch.NumBatchesBounds | mofapy2/core/BayesNet.py:380 | n_batches = ceil(1/batch_size) is the least n with n·batch_size ≥ 1 |
| MiniBatch.Ceil | mofapy2/core/BayesNet.py:380 | ceil(x) is the integer in [x, x+1) |
| MiniBatch.Trunc | mofapy2/core/BayesNet.py:389-390 | int() of a non-negative real is its floor |
| MiniBatch.BatchBounds | mofapy2/core/BayesNet.py:389-394 | every slice satisfies 0 ≤ min ≤ max ≤ N |
| MiniBatch.FirstBatchStartsAtZero | mofapy2/core/BayesNet.py:389 | the first slice starts at 0 |
| MiniBatch.BatchesAdjoin | mofapy2/core/BayesNet.py:389-392 | each slice ends where the next begins |
| MiniBatch.LastBatchEndsAtN | mofapy2/core/BayesNet.py:390-392 | the last slice of an epoch ends at N |
| MiniBatch.BatchStartMonotone | mofapy2/core/BayesNet.py:389 | the slice starts do not decrease with the batch index |
| MiniBatch.FindBatch | mofapy2/core/BayesNet.py:389-394 | every position of the order lies in some slice |
| MiniBatch.SampleInSomeBatch | mofapy2/core/BayesNet.py:387-394 | every sample is in some batch of the epoch |
| MiniBatch.EpochCoversAllSamples | mofapy2/core/BayesNet.py:387-394 | the batches of one epoch together cover [0, N) and contain nothing else |
| MiniBatch.EpochBatchesDisjoint | mofapy2/core/BayesNet.py:387-394 | different batches of one epoch share no sample, and no batch repeats a sample |
| MiniBatch.StochasticIterationBatch | mofapy2/core/BayesNet.py:377-383 | iteration start_stochastic + e·n_batches + b is batch b of epoch e |
| MiniBatch.IdentityIsPermutation | mofapy2/core/BayesNet.py:387 | a permutation of [0, N) always exists, so the shuffle can always be drawn |
| StochasticNets.StochasticBayesNet.constructor | mofapy2/core/BayesNet.py:353-354 | builds the underlying network as the base constructor does, with no order drawn |
| StochasticNets.StochasticBayesNet.DefineMiniBatch | mofapy2/core/BayesNet.py:399-406 | Y and Tau receive the indices, then AlphaZ and ThetaZ when present |
| StochasticNets.StochasticBayesNet.SampleMiniBatch | mofapy2/core/BayesNet.py:364-369 | returns int(batch_size·N) distinct indices in [0, N) and defines them on the nodes; numpy refuses a negative size or one above N |
| StochasticNets.StochasticBayesNet.SampleMiniBatchNoReplace | mofapy2/core/BayesNet.py:371-397 | batch (i−1) mod n_batches of epoch int((i−1)/n_batches); a new order is drawn exactly at batch 0; the batch is that slice of the current order and is defined on the nodes |
| StochasticNets.StochasticBayesNet.DrawStep | mofapy2/core/BayesNet.py:433-437 | ro is 1 before start_stochastic and stepSize(epoch) from then on; the batch is drawn from that epoch's order |
| StochasticNets.StochasticBayesNet.StochasticIteration | mofapy2/core/BayesNet.py:439-509 | one stochastic iteration keeps the run invariant, or ends the run as converged or exited at i |
| StochasticNets.StochasticBayesNet.StochasticStep | mofapy2/core/BayesNet.py:431-509 | one pass of the stochastic loop body, mini-batch draw included: one more batch is drawn as BatchesDrawn allows; RunProgress is kept for i+1 with the calls of the run so far, or StochasticFinished holds |
| StochasticNets.StochasticBayesNet.StochasticRun | mofapy2/core/BayesNet.py:429-509 | running from iteration 1 finishes the stochastic run as its iterations, batches and orders dictate |
| StochasticNets.StochasticBayesNet.StochasticTrainLoop | mofapy2/core/BayesNet.py:411-421 | the NaN tables, the precompute row, the run, then train_stats, unless training exited |
| StochasticNets.StochasticBayesNet.Iterate | mofapy2/core/BayesNet.py:408-512 | stochastic iterate: the settings are read from the options and the run finishes as stated |
| TauNodes.MaskedCount | biofam/core/nodes/Tau_nodes.py:27-30 | the number of masked cells in a column is at most N; it is 0 exactly when none is masked and N exactly when all are |
| TauNodes.ShapePre | biofam/core/nodes/Tau_nodes.py:30 | Qa_pre[j] lies between Pa[j] and Pa[j] + N/2; it is the top exactly when column j has no missing value and Pa[j] exactly when all are missing |
| TauNodes.TauDNode.constructor | biofam/core/nodes/Tau_nodes.py:17-18 | stores dim, P and Q, with nothing precomputed |
| TauNodes.TauDNode.Precompute | biofam/core/nodes/Tau_nodes.py:20-30 | stores N, lbconst = Σ(Pa·log Pb − gammaln Pa), and Qa_pre |
| TauNodes.TauDNode.GetExpectations | biofam/core/nodes/Tau_nodes.py:32-40 | expanded, E and lnE are N rows each equal to Q's vector; unexpanded, Q's expectations are returned as they are |
| TauNodes.TauDNode.GetExpectation | biofam/core/nodes/Tau_nodes.py:42-44 | the E entry of getExpectations, for both settings of expand |
| TauNodes.TauDNode.ExpandedRowsAreUnexpanded | biofam/core/nodes/Tau_nodes.py:32-44 | every expanded row equals the unexpanded vector |
| TauNodes.Residuals | biofam/core/nodes/Tau_nodes.py:63-86 | term1 + term2 + term3 − term4 has one entry per feature |
| TauNodes.ReferenceColumn | biofam/core/nodes/Tau_nodes.py:63-86 | column j of the per-cell residual: zero at masked cells |
| TauNodes.ResidualColumn | biofam/core/nodes/Tau_nodes.py:63-86 | entry j of term1 + term2 + term3 − term4 is the sum over the unmasked rows of Y² + ZZ·WWᵀ − Z²·(W²)ᵀ + (ZW)² − 2·ZW·Y |
| TauNodes.ResidualsAreUnmaskedSums | biofam/core/nodes/Tau_nodes.py:63-86 | the same for every column at once |
| TauNodes.RateIgnoresMaskedCells | biofam/core/nodes/Tau_nodes.py:64-79 | changing Y, ZW, ZZ·WWᵀ or Z²·(W²)ᵀ at masked cells leaves Qb unchanged |
| TauNodes.Rate | biofam/core/nodes/Tau_nodes.py:86-89 | Qb = Pb + tmp/2 has one rate per feature |
| TauNodes.RateOf | biofam/core/nodes/Tau_nodes.py:67-89 | the rate update from the expectations of Z and W, one rate per feature |
| TauNodes.DotDominates | biofam/core/nodes/Tau_nodes.py:73-78 | when second moments dominate squares, ZZ·WWᵀ dominates Z²·(W²)ᵀ |
| TauNodes.CellResidualNonNegative | biofam/core/nodes/Tau_nodes.py:71-86 | each cell's residual is non-negative when its second-moment product dominates its squared product |
| TauNodes.ReferenceColumnNonNegative | biofam/core/nodes/Tau_nodes.py:63-86 | under the same condition, each column's residual sum is non-negative |
| TauNodes.RateAtLeastPrior | biofam/core/nodes/Tau_nodes.py:89 | with moments that dominate squares, the updated rate is at least the prior rate |
| TauNodes.UpdatedPosteriorIsValid | biofam/core/nodes/Tau_nodes.py:89-92 | positive prior shapes and rates give positive posterior shapes and rates |
| TauNodes.TauDNode.UpdateParameters | biofam/core/nodes/Tau_nodes.py:47-92 | without precompute, the update fails and Q is unchanged; otherwise Q's shape becomes Qa_pre (the same after every update) and its rate Pb + (term1 + term2 + term3 − term4)/2 |
| TauNodes.ElboVanishesAtPrior | biofam/core/nodes/Tau_nodes.py:94-104 | when Q equals P, lbconst cancels Σ(a·log b − gammaln a) and the lnE and E terms cancel, so the ELBO is 0 |
| TauNodes.TauDNode.CalculateElbo | biofam/core/nodes/Tau_nodes.py:94-104 | lb_p − lb_q, which fails without precompute and is 0 when Q equals P |
| Matrices.MulT | biofam/core/nodes/Tau_nodes.py:67-78 | definition of the product A·Bᵀ: entry (n, d) is the dot product of row n of A and row d of B |
| Matrices.Masked | biofam/core/nodes/Tau_nodes.py:64-79 | definition of masking: masked cells are set to zero and the other cells are kept |
| Matrices.ColSums | biofam/core/nodes/Tau_nodes.py:71-84 | definition of sum(axis=0): entry j is the sum of column j |

## Left out

- **I/O is left out.** This covers printing, `sys.stdout.flush`, the warnings
  filter, and the verbose variance-explained and memory reports.
- **Time is a parameter.** `time()` is replaced by the caller's `duration(i)`.
- **Variance explained is an input.** `calculate_variance_explained` and
  `calculate_total_variance_explained` are float ratios over numpy calls.
  Pruning takes the R² matrices as an input. The loops require of this input
  (`Pruning.R2Shaped`) that, asked with K factors, every (group, view) row it
  gives has K entries, as the variance explained of a K-factor model has.
- **Step sizes are a parameter.** `step_size` and `step_size2` need real
  exponents, so the caller passes them as `stepSize(epoch)`.
- **Floating point, NaN, pandas and the GPU backend are left out:**
  - arithmetic is over exact reals;
  - NaN table rows are `None`;
  - ELBO rows are sequences of terms with a total;
  - the GPU backend's conversions are the identity;
  - the `gpu_mode` flag is not stored;
  - `getExpectations`, `getNodes`, `getTrainingStats`, `getTrainingOpts` and
    `getTrainingData` on the network are plain field reads and are not
    modelled.
- **Random choices carry no distribution.** A choice is any one the contract
  allows: the dropped factor, the indices drawn by `sample_mini_batch`, and
  each epoch's permutation.
- **The other nodes are not modelled.** Their update, precompute,
  removeFactors and define_mini_batch calls are entries of a call trace. Their
  ELBO values are the caller's `elboAt`.
- **Schedule.Supported restricts the loops.** Both loops are modelled only for
  maxiter ≥ 0, freq_drop ≠ 0, elbofreq > 0 and start_elbo ≥ 0. A negative
  freq_drop is covered: `Schedule.DropIterationIgnoresSign` shows that its
  sign does not change which iterations prune. Python does the following with
  the other values:
  - a maxiter of −1 allocates empty tables, and assigning row 0 raises
    IndexError; a smaller maxiter is a negative array size and raises
    ValueError;
  - a zero freq_drop or elbofreq raises ZeroDivisionError at the `%`;
  - a negative elbofreq makes each later delta read row i − elbofreq, a later
    row that is still NaN, or raise IndexError past row maxiter;
  - a negative start_elbo means no checkpoint takes its delta against row 0.
    The first deltas read row i − elbofreq, which can be negative and is then
    counted from the table's end.
- **StochasticNets.StochasticBayesNet.Iterate requires** batch_size > 0 and
  start_stochastic ≥ 1. Python does the following without them:
  - a zero batch_size raises ZeroDivisionError at line 380 once the first
    batch is drawn;
  - a negative batch_size gives a negative n_batches and negative slice bounds,
    which Python still accepts;
  - with start_stochastic ≤ 0, line 434 passes i − (start_stochastic − 1) ≥ 2
    at the first iteration. The first draw is then batch
    (1 − start_stochastic) mod n_batches, and line 394 raises AttributeError
    on the unset `shuffled_ix` unless that batch is 0.
- **Missing options keys are preconditions.** A `KeyError` from an options key
  that `setTrainOptions` does not check (`drop`, `elbofreq`,
  `Y_ELBO_TauTrick`, `stochastic`, `batch_size`, `start_stochastic`,
  `learning_rate`, `forgetting_rate`) is excluded by `ReadSettings` and
  `ReadStochasticSettings` being defined.
- TrainOptions.ReadSettings does not read every value Python would run the
  loop with. What Python does with those it refuses:
  - a maxiter that is not an int: a float raises TypeError in `range`
    (line 217). A bool would run, as Python's bools are ints.
  - an elbofreq that is not an int: a float raises TypeError at the second
    checkpoint's `iloc` (line 244), or never if only one checkpoint comes.
  - a freq_drop with a fractional part: Python prunes at the iterations
    that are multiples of it, such as 5 and 10 for 2.5.
  - a start_elbo with a fractional part: no iteration is a checkpoint.
  - a Y_ELBO_TauTrick that is not a bool is handed to the nodes as it is.
    The nodes' use of it is not modelled.
- TrainOptions.ReadStochasticSettings refuses a start_stochastic with a
  fractional part. With one, `batch_ix` is never 0, so `shuffled_ix` is never
  drawn, and line 394 raises AttributeError at the first draw.
- TrainOptions.ReadSettings asks for `stochastic` in every run. The loops look
  it up only at a checkpoint whose ELBO decreased, and the full-batch loop
  only when `quiet` is false. So `BayesNets.BayesNet.Iterate` and
  `StochasticNets.StochasticBayesNet.Iterate` do not cover a run without the
  key that never reaches such a lookup. Any value of the key will do, since
  it only chooses whether a warning is printed.
- BayesNets.BayesNet.SetTrainOptions returns the corrected message of
  CheckTrainOptions (see Findings). The source's message for a missing
  `start_elbo` names `gpu_mode`; that message is `TrainOptions.CheckAsWritten`.
- BayesNets.BayesNet.RemoveInactiveFactors follows DropCandidates: with no
  threshold it drops nothing, where Python raises ValueError at line 170 (see
  Findings; the as-written behaviour is `Pruning.DropCandidatesAsWritten`).
  Both loops call it only when min_r2 is not None (lines 222 and 442), so the
  runs are unaffected.
- **Absent nodes are not modelled.** A `KeyError` from a missing "Y" or "Tau"
  node in the loop is left out. So is one from a schedule entry that names no
  node. BayesNets.BayesNet.Trainable, required by `BayesNets.BayesNet.Iterate`
  and `StochasticNets.StochasticBayesNet.Iterate`, makes every schedule entry
  a node. Python raises KeyError (lines 231 and 451) only when an update
  reaches the missing name. So the model does not cover runs that Python
  completes, or exits, with such an entry:
  - maxiter ≤ 1, where no iteration runs;
  - an absent ThetaW or ThetaZ that is skipped in every iteration because
    start_sparsity ≥ maxiter;
  - a run that exits in iteration 1's pruning, before any update.
- **The tau trick is one call.** It is recorded as one `SetTauTrick` call,
  rather than one assignment per node of Y.
- **TauNodes shapes are preconditions:**
  - numpy broadcasting and shape errors are replaced by the matrix-shape
    preconditions;
  - P's parameters are vectors of length D;
  - the mask of Y is a full N×D boolean matrix, so the `nomask` case of
    `ma.getmask` is not modelled.
- **Zeroing is copied, not in place.** The in-place zeroing (`Y[mask] = 0`,
  `ZW[mask] = 0`, `ZW *= Y`) is modelled on local copies. Whether it aliases
  the Y node's storage depends on code that is not part of this model.
- **TauNodes.TauDNode.UpdateParameters sets only Q's parameters.**
  `Q.setParameters` belongs to code that is not part of this model, so Q's
  expectations (`qMoments`) are not recomputed from the new parameters.
- **`TauD_Node.sample` is left out.** Gamma sampling is not modelled.

## Findings

| source | as written | input that shows it | evidently intended | confidence | as-written member | corrected member |
|---|---|---|---|---|---|---|
| mofapy2/core/BayesNet.py:62 | the message of the start_elbo assertion names 'gpu_mode' | options with all required keys except start_elbo | the message names 'start_elbo', as every other assertion names its own key | high, not executed | TrainOptions.StartElboMessageAsWritten | TrainOptions.CheckTrainOptions |
| mofapy2/core/BayesNet.py:151-170 | with min_r2 None (the default), drop_dic stays empty and `s.concatenate` of an empty list raises ValueError | removeInactiveFactors() called with no threshold | no threshold drops no factor | medium, not executed | Pruning.NoThresholdRaisesAsWritten | Pruning.DropCandidates |
