# Verified models of NeMo-RL's training logic

These modules model the parts of NeMo-RL whose correctness rests on reasoning rather than on a library: advantage
estimation over token masks, sampling filters, config inheritance, a concurrent enrichment protocol, and the training
loops with their data sources. Each algorithm that works in place is a method over arrays or object fields, proved
against a specification function; the properties of those functions are lemmas.

- `Gae` (with `Tensor`): masked generalized advantage estimation over the reals, mask entries 0 or 1, one row at a time.
- `Sampling` (with `Tensor`): top-k / top-p filtering. A logit is minus infinity or a real; softmax is an arbitrary
  positive monotone weight, divided by the total; the sort is an arbitrary one, so ties may fall either way.
- `ConfigTree`, `ConfigPrune`, `ConfigLoad`, `ConfigFlatten`: configs as finite trees of maps, lists and scalars,
  compared as Python compares them.
- `TeacherProtocol`: all interleavings of the teacher enrichment calls, as a step relation. `TeacherSync`: what one
  call does to the shared store, for every combination of failing calls, and the coordinator's counters.
- `DynamicSampling`, `TrainingLog`, `GrpoLoop`, `DistillationLoop`: sampling rounds and the generate-and-train loops.
  Weights are version numbers; what the rollouts yield is given; a run is judged by the log of its events, replayed into
  a ledger. `GrpoExamples` holds runs of the trainer in which rounds are wasted or rows lost.
- `DpoLoop` (with `Repetition`): the resumable loop, its checkpoints in closed form.
- `DataSources` (with `Repetition`): endless sampling from finite loaders.

Places where the code does not do what one would expect, each with an input and the exact condition:

- Minimising a config drops an empty container that replaces something else, and a scalar that Python equates with a
  different one (`true` over `1`, `2.0` over `2`): inputs `ConfigPrune.EmptyContainerIsLost`,
  `ConfigPrune.BooleanOverOneIsLost` and `ConfigPrune.FloatOverIntIsLost`, condition
  `ConfigPrune.MinimisePreservesMeaning`.
- Two configs that differ in empty sections only are reported identical: input `ConfigFlatten.EmptySectionIsInvisible`,
  condition `ConfigFlatten.CompareErrsIff`, for configs in which no two leaf routes render alike. A dotted key can make
  them do so: input `ConfigFlatten.DottedKeyLooksNested`, condition `ConfigFlatten.IdenticalIffTwinned`.
- A loaded config is not always the merge of its files in depth-first order: input
  `ConfigLoad.DisagreementBreaksLastWriter`, condition `ConfigLoad.FaithfulIffRegroups`, and for single paths
  `ConfigLoad.LastWriterWinsIff`.
- A second cancellation during the drain of a teacher call frees the group's lock while its thread still runs:
  input `TeacherProtocol.SecondCancelBreaksSafety`, condition `TeacherProtocol.SafeIffNoDrainIsCut`.
- The documented upper bound on sampling rounds is exceeded by one: input `GrpoExamples.WastefulRun`, condition
  `TrainingLog.RoundsExceedIff` and, before the run, `TrainingLog.RoundsByPlan`.
- Survivors pending when an epoch ends stay in the row store for good: input `GrpoExamples.LeakyRun`, condition
  `TrainingLog.NothingIsLostIff` and, before the run, `TrainingLog.NothingIsLostByPlan`.
- With dynamic sampling the end of the last epoch goes unrecognised as the last step once any of its batches was spent on
  an incomplete round, because steps are compared with the number of batches: input `GrpoExamples.WastefulRun`,
  condition `TrainingLog.LastStepIff`.

## Model

| member | source | states |
|---|---|---|
| `Gae.CarryForwardLoop` | nemo_rl/algorithms/advantage_estimator.py:607-629 | the backward loop with its two accumulators yields, at every position and for every gamma and lambda, plain GAE of the sequence with masked tokens removed, read back at the next valid token (0 if there is none); returns are advantages plus values |
| `Gae.PlainGaeStep` | nemo_rl/algorithms/advantage_estimator.py:613-616 | the reference sum of (gamma lambda)^l times TD errors, with zero terminal bootstrap, satisfies the backward recurrence |
| `Gae.CompressedEntry` | nemo_rl/algorithms/advantage_estimator.py:618-622 | a valid token sits in the compressed sequence at the number of valid tokens before it |
| `Gae.RankCounts` | nemo_rl/algorithms/advantage_estimator.py:618-622 | the rank of a position is the number of response tokens before it |
| `Gae.FastPathRefinesLoop` | nemo_rl/algorithms/advantage_estimator.py:576-605 | for gamma = lambda = 1 the cumsum / cummin / gather form equals the loop's result at every position, masked ones, gaps and all-masked rows included |
| `Gae.RewardToGoIsTail` | nemo_rl/algorithms/advantage_estimator.py:587-594 | flip, cumsum, flip gives the masked rewards summed from each position to the end |
| `Gae.NextValidEntry` | nemo_rl/algorithms/advantage_estimator.py:599-603 | where, flip, cummin, flip gives the first valid position at or after each position, or the row length |
| `Gae.TailIsCompressedSum` | nemo_rl/algorithms/advantage_estimator.py:587-594 | a masked tail sum is a tail sum of the compressed rewards |
| `Gae.ComputeGae` | nemo_rl/algorithms/advantage_estimator.py:573-629 | whichever of the two paths is taken, the result is masked GAE |
| `Gae.LambdaOneTelescopes` | nemo_rl/algorithms/advantage_estimator.py:583-586 | with lambda = 1 the value terms cancel for every gamma: the advantage is the discounted reward-to-go minus the value |
| `Gae.BuildTokenLevelRewards` | nemo_rl/algorithms/advantage_estimator.py:428-458 | the scalar reward lands on the last valid token and nowhere else, KL penalties on valid tokens only, zero off the mask; rows without a valid token get none |
| `Gae.TerminalRewardReturn` | nemo_rl/algorithms/advantage_estimator.py:449-456 | with lambda = 1 and no KL term the return at a valid token is gamma to the number of valid tokens after it times the scalar reward, whatever the value predictions |
| `Gae.TerminalRewardReturns` | nemo_rl/algorithms/advantage_estimator.py:613-629 | the same for a whole row of computed returns |
| `Gae.AdaptiveLambdaRange` | nemo_rl/algorithms/advantage_estimator.py:465-468 | the length-adaptive lambda lies in [0, 1), and (1 - lambda) times max(alpha * length, 1) is 1 |
| `Gae.AdaptiveLambda` | nemo_rl/algorithms/advantage_estimator.py:465-468 | the length-adaptive lambda is 1 - 1/max(alpha * number of response tokens, 1); the clamp to [0, 1] changes nothing |
| `Gae.GaeBound` | nemo_rl/algorithms/advantage_estimator.py:613-616 | a bound that one step of the recurrence keeps bounds every advantage |
| `Gae.AdaptiveAdvantageBound` | nemo_rl/algorithms/advantage_estimator.py:460-471 | with the length-adaptive lambda, 0 <= gamma <= 1 and TD errors at most D in size, every advantage is at most D * max(alpha * length, 1) in size |
| `Gae.DecoupledGae` | nemo_rl/algorithms/advantage_estimator.py:514-545 | value returns under one lambda and advantages under another, equal to two independent computations also when one pass serves both |
| `Gae.ComputeAdvantage` | nemo_rl/algorithms/advantage_estimator.py:482-545 | one row end to end, with nothing but masked GAE named: the KL penalties and the scalar reward on the last response token; advantages under 1 - 1/max(alpha * response length, 1) if alpha is positive, else the policy's lambda, else the common one, whitened when configured and zero off the mask; returns under the value's lambda, else the common one; with value-lambda 1 and no KL term the returns are the discounted scalar reward |
| `Gae.WhiteningKeepsOrder` | nemo_rl/algorithms/advantage_estimator.py:393-406 | whitening never changes which of two advantages is larger |
| `Tensor.ScatterUndoesGather` | nemo_rl/algorithms/logits_sampling_utils.py:197-203 | scattering through the sort permutation undoes gathering through it |
| `Tensor.SumOfPermutation` | nemo_rl/algorithms/logits_sampling_utils.py:189-192 | sums do not depend on the order the sort produced |
| `Sampling.SortedTopKIsTopKSet` | nemo_rl/algorithms/logits_sampling_utils.py:174-186 | the threshold read from the sorted row keeps exactly the tokens with fewer than k strictly larger ones, however ties were ordered |
| `Sampling.TopKOnlyIsTopKSet` | nemo_rl/algorithms/logits_sampling_utils.py:98-101 | the path without a full sort keeps exactly the same set |
| `Sampling.KthLargestByCount` | nemo_rl/algorithms/logits_sampling_utils.py:177-184 | a logit is below the k-th largest exactly when at least k logits are larger |
| `Sampling.TopKSetIsTopK` | nemo_rl/algorithms/logits_sampling_utils.py:98-102 | the reference top-k set is the set of tokens that fewer than k tokens exceed, and the only one |
| `Sampling.KeptSuffix` | nemo_rl/algorithms/logits_sampling_utils.py:189-194 | in sorted order the kept tokens are a suffix, starting where the prefix weight first passes 1 - p |
| `Sampling.NucleusShape` | nemo_rl/algorithms/logits_sampling_utils.py:189-201 | the kept set is non-empty, closed upward under larger logits, and inside the top-k set, so the AND of the two masks is the top-p mask |
| `Sampling.NucleusReachesP` | nemo_rl/algorithms/logits_sampling_utils.py:189-194 | the kept mass is at least p of the top-k mass |
| `Sampling.NucleusIsTight` | nemo_rl/algorithms/logits_sampling_utils.py:189-194 | without any one smallest kept token the mass is below p of the top-k mass |
| `Sampling.NucleusIsSmallest` | nemo_rl/algorithms/logits_sampling_utils.py:189-194 | no smaller set of tokens reaches p of the top-k mass |
| `Sampling.KeepMaskIsKept` | nemo_rl/algorithms/logits_sampling_utils.py:170-203 | whatever p is: the filter keeps the nucleus for 0 < p < 1 (described by the row's own logits and weights: within the top k, last in sort order, reaching p, tight), the whole top k for p > 1, and only the last token of the sort for p <= 0 or a row without a finite logit |
| `Sampling.LargePKeepsTopK` | nemo_rl/algorithms/logits_sampling_utils.py:189-194 | above 1, p keeps all of the top k |
| `Sampling.OnlyTheLastIsKept` | nemo_rl/algorithms/logits_sampling_utils.py:189-194 | at or below 0, or with no finite logit, only the forced last entry survives |
| `Sampling.ScatterIsPointwise` | nemo_rl/algorithms/logits_sampling_utils.py:189-203 | masking in sorted order and scattering back is a pointwise filter: the original logit where kept, minus infinity elsewhere |
| `Sampling.FilterRow` | nemo_rl/algorithms/logits_sampling_utils.py:170-203 | one row of a chunk: the mask is the one described above for every p, and each output is the logit where the mask keeps it and minus infinity elsewhere |
| `Sampling.FilterInChunks` | nemo_rl/algorithms/logits_sampling_utils.py:160-206 | the preallocated outputs filled chunk by chunk are, for every chunk size and entry by entry, those of each row alone |
| `Sampling.ApplyTopKTopP` | nemo_rl/algorithms/logits_sampling_utils.py:112-212 | the whole filter, entry by entry: which path is taken, each token's mask as the top-k set or nucleus of its own row, each output the logit where kept and minus infinity elsewhere; the two errors (a chunk step of zero, k beyond the vocabulary), and that a negative chunk size fills nothing |
| `Sampling.SortExists` | nemo_rl/algorithms/logits_sampling_utils.py:170-171 | every row has an ascending order, so what is asked of the sort can be met |
| `Sampling.TangentMovesTheOutput` | nemo_rl/algorithms/logits_sampling_utils.py:219-241 | with the mask fixed, moving the logits moves the filtered row by the kept moves only |
| `Sampling.BackwardIsAdjoint` | nemo_rl/algorithms/logits_sampling_utils.py:243-253 | the backward pass with the saved mask is the adjoint of that movement, so it is the filter's gradient; without a mask it is the identity |
| `ConfigTree.MergeWithOverride` | tools/config_cli.py:86-100 | popping overridden keys and markers, then merging: at every path below a section with a true marker the result has that section's own node, the marker gone and nothing of the base; at every other path what the override defines or hides, else the base's node |
| `ConfigTree.OverlaySettles` | tools/config_cli.py:86-100 | the same about the key-by-key overlay |
| `ConfigTree.MergeNodes` | tools/config_cli.py:99 | merging: at every path the later tree's node, nothing where it has a value above the path, else the earlier tree's node |
| `ConfigTree.NodesDetermineTree` | tools/config_cli.py:99 | a tree is determined by the nodes at its paths, so the laws above fix the merged tree |
| `ConfigTree.OverlayIsMerge` | tools/config_cli.py:86-100 | without markers an overlay is a plain merge |
| `ConfigPrune.PruneEffect` | tools/config_cli.py:234-277 | merging the pruned child gives what merging the child gives if and only if the child is safe to prune, at every depth |
| `ConfigPrune.MinimisePreservesMeaning` | tools/config_cli.py:234-277 | base plus pruned child equals base plus child, markers included, if and only if the child holds no empty container replacing something else and no scalar that Python equates with a different one |
| `ConfigPrune.EmptyContainerIsLost` | tools/config_cli.py:259-263 | an input on which pruning changes the meaning: an empty list replacing a value |
| `ConfigPrune.BooleanOverOneIsLost` | tools/config_cli.py:273-277 | an input on which pruning changes the meaning: true over 1 |
| `ConfigPrune.FloatOverIntIsLost` | tools/config_cli.py:274-277 | a float over the equal integer is dropped |
| `ConfigPrune.TypedConfigsAreSafe` | tools/config_cli.py:234-277 | where numbers that meet are of the same type and no container is empty, minimising always preserves meaning |
| `ConfigPrune.EqualOfSameKinds` | tools/config_cli.py:274-277 | on such trees Python equality is identity |
| `ConfigPrune.PruneIdempotent` | tools/config_cli.py:234-277 | pruning a pruned tree changes nothing |
| `ConfigPrune.MinimisedPassesCheck` | tools/config_cli.py:565-587 | a minimised file satisfies the minimize-check comparison |
| `ConfigPrune.MinimisedFile` | tools/config_cli.py:330-418 | minimising a file fails exactly when it does not name its base by a string; otherwise defaults stay, keys are only deleted, and the other entries mean the same on the base exactly when pruning was safe |
| `ConfigPrune.PruneDeletes` | tools/config_cli.py:234-277 | the pruned child is the child with keys deleted |
| `ConfigPrune.PruneIsLeast` | tools/config_cli.py:234-277 | below markers, the pruned child is contained in every key-deletion of the child with the same merge |
| `ConfigPrune.MinimisedIsLeast` | tools/config_cli.py:404-413 | no key can be deleted from a minimised file without changing what it means |
| `ConfigLoad.LoadConfigWithInheritance` | tools/config_cli.py:103-149 | recursion into each default in order, then the file: a file without defaults is its body; the error of the first default that fails; otherwise, at every path, what the last of the loaded defaults and the file itself to decide anything there decides, marked sections included |
| `ConfigLoad.LoadSettles` | tools/config_cli.py:126-151 | the same about what a load means |
| `ConfigLoad.MergeAssociativeIff` | tools/config_cli.py:86-100 | merging three trees in either grouping gives the same tree if and only if, wherever the first and third are maps and the middle one is not, the first adds nothing to the third |
| `ConfigLoad.BlockIff` | tools/config_cli.py:86-100 | merging a block of trees first and then onto another equals merging its members onto it one by one if and only if, wherever the block puts a non-map under a map of the other and maps after it, the other adds nothing to those maps |
| `ConfigLoad.ChainsIff` | tools/config_cli.py:86-100 | the same for every initial part of the block at once |
| `ConfigLoad.FaithfulIffRegroups` | tools/config_cli.py:127-149 | for unmarked configs, the load of a file, every load below it and every partial load on the way are the left-to-right merges of their depth-first linearisations if and only if every default's block is free in that sense |
| `ConfigLoad.LoadIsMergeOfLinearisation` | tools/config_cli.py:127-149 | in particular a load of such a graph is that merge |
| `ConfigLoad.AgreementRegroups` | tools/config_cli.py:127-149 | configs that agree on map versus non-map at shared paths regroup |
| `ConfigLoad.NestedDefaultIff` | tools/config_cli.py:127-149 | in the smallest graph where grouping matters (p from a and b, b from c) the load is that merge if and only if the three bodies may be merged in either grouping |
| `ConfigLoad.LastWriterWinsIff` | tools/config_cli.py:127-149 | in a graph that regroups, the value at every path is the last decision there, and it is the last writer's if and only if no later config puts a map there or cuts the path off |
| `ConfigLoad.LastWriterWins` | tools/config_cli.py:127-149 | with agreeing configs every leaf of a loaded config is the one given by the last config in the linearisation that defines its path |
| `ConfigLoad.DisagreementBreaksLastWriter` | tools/config_cli.py:127-149 | a graph whose configs disagree on map versus scalar, where the loaded leaf is not the last writer's |
| `ConfigLoad.MinimiseKeepsLoad` | tools/config_cli.py:357-429 | rewriting a single-base file as minimised leaves what it loads to unchanged if and only if pruning is safe against the base without its own markers and no empty marker meets a true one |
| `ConfigFlatten.FlattenHasLeaf` | tools/config_cli.py:443-455 | every leaf appears in the flattened view under its rendered path |
| `ConfigFlatten.FlattenRoute` | tools/config_cli.py:443-455 | every flattened entry comes from a leaf at the path it names |
| `ConfigFlatten.RenderInjective` | tools/config_cli.py:443-455 | paths with non-empty keys free of '.' and '[' never render alike |
| `Prelude.DecimalRoundTrip` | tools/config_cli.py:450-452 | an index rendered in decimal is read back as itself, with no leading zero |
| `ConfigFlatten.FlattenIsDictionary` | tools/config_cli.py:443-455 | when no two leaf routes render alike the flattened view has one value per name |
| `ConfigFlatten.CleanKeysDoNotClash` | tools/config_cli.py:443-455 | with non-empty keys free of '.' and '[' no two leaf routes render alike, empty containers or not |
| `ConfigFlatten.IdenticalIffSameLeaves` | tools/config_cli.py:458-483 | without clashing routes compare reports identical exactly when the two configs have equal leaves at the same routes |
| `ConfigFlatten.SameLeavesIffCoresEqual` | tools/config_cli.py:443-455 | two trees have the same leaves exactly when their cores, the trees without leafless parts, are equal for Python |
| `ConfigFlatten.IdenticalIffCoresEqual` | tools/config_cli.py:458-483 | without clashing routes compare reports identical exactly when the cores of the expanded trees are equal for Python |
| `ConfigFlatten.CompareErrsIff` | tools/config_cli.py:458-483 | equal trees are always reported identical, and compare errs exactly on unequal trees with equal cores |
| `ConfigFlatten.IdenticalIffEqual` | tools/config_cli.py:458-483 | with clean keys and no empty sections compare reports identical exactly when Python calls the two expanded trees equal |
| `ConfigFlatten.IdenticalIffTwinned` | tools/config_cli.py:458-483 | where routes of the two configs may clash but each alone has one value per name, compare reports identical exactly when every leaf of either side has an equally rendered, equal leaf on the other |
| `ConfigFlatten.ReportAtRoute` | tools/config_cli.py:467-475 | a path is added, removed or changed exactly as its leaves say |
| `ConfigFlatten.ReportPartitionsDifferences` | tools/config_cli.py:467-475 | every differing path is in exactly one of added, removed and changed, and a path without a difference in none |
| `ConfigFlatten.EmptySectionIsInvisible` | tools/config_cli.py:443-455 | two different configs reported identical: an empty section, with clean keys and equal cores |
| `ConfigFlatten.DottedKeyLooksNested` | tools/config_cli.py:443-455 | two different configs reported identical: a dotted key, whose route clashes with a nested one |
| `TeacherProtocol.ResolveTeacher` | nemo_rl/algorithms/opd.py:289-319 | which routing error arises when, and otherwise the group behind the agent's own alias or the fallback |
| `TeacherProtocol.AliasesHaveModels` | nemo_rl/algorithms/opd.py:654-667 | with a validated configuration every alias used has a model |
| `TeacherProtocol.PadCount` | nemo_rl/algorithms/opd.py:452-458 | fewer than dp_size padding rows, and the padded batch divides evenly |
| `TeacherProtocol.StepKeepsInv` | nemo_rl/algorithms/opd.py:522-551 | every step of every call keeps the protocol's invariant, except a cancellation that cuts a drain of a running thread |
| `TeacherProtocol.SafeIffNoDrainIsCut` | nemo_rl/algorithms/opd.py:522-551 | over every interleaving: one thread per physical group, no thread outliving its call, rows present while a thread works on them, and padding accounted for, throughout, if and only if no cancellation cuts a drain of a running thread |
| `TeacherProtocol.AtMostOneCancelIsSafe` | nemo_rl/algorithms/opd.py:536-551 | in particular on every run in which no call is cancelled twice |
| `TeacherProtocol.RunsNeverDeadlock` | nemo_rl/algorithms/opd.py:533-551 | after every run that cuts no drain, while a call is unfinished some task or thread can take a step of its own, and that step brings its call closer to its end |
| `TeacherProtocol.NoDeadlock` | nemo_rl/algorithms/opd.py:533-551 | a waiting call is queued at a lock that can be granted or whose holder can move; a call in the block can always move |
| `TeacherProtocol.OwnStepsMakeProgress` | nemo_rl/algorithms/opd.py:522-551 | every step of its own brings a call closer to its end and leaves the other calls where they are |
| `TeacherProtocol.SecondCancelBreaksSafety` | nemo_rl/algorithms/opd.py:543-551 | a run with one call cancelled twice that ends with two threads in one group, one of them on rows its caller has dropped |
| `TeacherProtocol.CallsEndAsTheirWorkWent` | nemo_rl/algorithms/opd.py:437-551 | over every interleaving, in terms of the events: a finished call was rejected exactly when its routing failed, cancelled exactly when a cancellation hit it, returned exactly when its inference succeeded, its cleanup did not fail and nobody cancelled it, and raised exactly when a check, read, write, inference or cleanup failed uncancelled |
| `TeacherProtocol.InferenceIsPadded` | nemo_rl/algorithms/opd.py:454-495 | over every interleaving, while an inference runs the store holds the least number of padding rows with which its batch divides among the workers |
| `TeacherProtocol.GrantsAreInOrder` | nemo_rl/algorithms/opd.py:530-534 | over every interleaving, a group's lock is granted in the order the calls began: when it may be granted to a call, every earlier call of the group has been granted or cancelled |
| `TeacherSync.EnrichSync` | nemo_rl/algorithms/opd.py:437-520 | for every combination of faults: what is returned or raised; on success every row of the batch has the teacher's answer to its own input and no other row changes; on every exit old rows and input columns are kept and what a failed cleanup leaves are copies of the last row; no padding row left otherwise |
| `TeacherSync.FaultsDecide` | nemo_rl/algorithms/opd.py:443-520 | which error is raised, or none, as a condition on the batch and the faults alone: reading, writing, inference and cleanup failures in the order they can occur, and both errors when the cleanup fails after another failure |
| `TeacherSync.PadAndInfer` | nemo_rl/algorithms/opd.py:450-500 | the guarded part: which failure, which padding rows to clean, and the store without them |
| `TeacherSync.SentBatchDivides` | nemo_rl/algorithms/opd.py:450-491 | the batch sent is the given one, then fewer than dp_size new distinct ids, evenly divisible |
| `TeacherSync.PadIdsDistinct` | nemo_rl/algorithms/opd.py:472-476 | padding ids of one call are distinct |
| `TeacherSync.ScoreThenDrop` | nemo_rl/algorithms/opd.py:491-519 | inference on a padded batch followed by cleanup is inference on the batch |
| `TeacherSync.EveryExitPreserves` | nemo_rl/algorithms/opd.py:501-519 | if dropping the padding leaves the scored old rows, the old rows are intact and no id is added |
| `TeacherSync.Coordinator.Enrich` | nemo_rl/algorithms/opd.py:522-574 | routing, enrichment with the store as each outcome leaves it, and every activity counter moved by a successful call's amount and by no failed one |
| `TeacherSync.Coordinator.DrainMetrics` | nemo_rl/algorithms/opd.py:576-607 | reports every counter, the routing metrics when something ran and the payload when configured, and resets; fails without a reset exactly when an alias has no model, which a validated configuration excludes |
| `TeacherSync.CompressionRange` | nemo_rl/algorithms/opd.py:322-345 | the reported models per alias are positive and at most one once an alias was seen |
| `TeacherSync.DrainsConserve` | nemo_rl/algorithms/opd.py:553-607 | however drains and calls alternate, every activity is reported exactly once |
| `DynamicSampling.ApplyDynamicSampling` | nemo_rl/algorithms/grpo_sync.py:152-257 | one round: metadata and carry rows stay aligned, the batch is the first target-many of pending plus survivors, trivial and excess ids leave the store, and each error exactly when its condition holds |
| `DynamicSampling.PicksPartition` | nemo_rl/algorithms/grpo_sync.py:208-218 | the two filters split the rows: each row is kept or dropped, never both |
| `DynamicSampling.SurvivorsAreStamped` | nemo_rl/algorithms/grpo_sync.py:219-232 | survivors are the kept rows in order, each carrying its total reward as its filtered reward |
| `DynamicSampling.FilteringKeepsGroupsWhole` | nemo_rl/algorithms/grpo_sync.py:208-218 | flags constant per prompt group never split a group |
| `DynamicSampling.CutBetweenGroups` | nemo_rl/algorithms/grpo_sync.py:245-251 | cutting at a multiple of the group size never splits a group |
| `TrainingLog.EveryEventIsGood` | nemo_rl/algorithms/grpo_sync.py:629-741 | every event of a good log satisfies its rule in the situation it happened in |
| `TrainingLog.GenerationIsNeverStale` | nemo_rl/algorithms/grpo_sync.py:1066-1068 | over a whole run every rollout and validation uses the weights left by all updates so far, and every row of a batch, over however many rounds, was generated by the version it updates |
| `TrainingLog.ValidationsAreOnSchedule` | nemo_rl/algorithms/grpo_sync.py:1149-1153 | over a whole run an update that makes the total n is followed by a validation before the next rollout exactly when n is a multiple of the period and past the configured start, or the last step is to be validated and it is the last; and one comes first exactly when owed at the start |
| `TrainingLog.EventsAreInTime` | nemo_rl/algorithms/grpo_sync.py:632-1140 | a rollout comes only while steps, epochs and batches are left and holds the samples given for it; an update is marked last exactly at the step limit or on the last batch of the last epoch, counted in updates; an epoch ends only once its batches are drawn |
| `TrainingLog.LedgerCounts` | nemo_rl/algorithms/grpo_sync.py:1519-1531 | the counters of the ledger count the events of the log |
| `TrainingLog.RowsAreConserved` | nemo_rl/algorithms/grpo_sync.py:852-887 | every generated id is in exactly one of trained, discarded, pending, in flight and lost at an epoch's end, and the store holds exactly the last three |
| `TrainingLog.LedgerBalances` | nemo_rl/algorithms/grpo_sync.py:219-257 | as multisets, generated rows equal trained plus discarded plus lost plus pending plus in flight |
| `TrainingLog.LedgerIsUnique` | nemo_rl/algorithms/grpo_sync.py:755-764 | no id is generated twice |
| `TrainingLog.RolloutsAreUniform` | nemo_rl/algorithms/utils.py:307-316 | in a rollout that repeats each prompt g times the trivial-reward flags, computed per prompt from the unshaped rewards, are the same throughout each group |
| `TrainingLog.GroupsAreNeverSplit` | nemo_rl/algorithms/grpo_sync.py:245-251 | when every rollout repeats its prompts g times and the target is a multiple of g, every batch and every overflow consists of whole groups |
| `TrainingLog.RoundsAreCounted` | nemo_rl/algorithms/grpo_sync.py:219-241 | at every moment the survivors so far are those that the rollouts since the last update yield, and no earlier round had enough |
| `TrainingLog.RoundsAreLeast` | nemo_rl/algorithms/grpo_sync.py:233-241 | an update comes after the least number of rounds whose rollouts yield enough survivors, and at most max_gen_batches + 1 |
| `TrainingLog.RoundsExceedIff` | nemo_rl/algorithms/grpo_sync.py:233-241 | it takes max_gen_batches + 1 rounds if and only if that many rollouts yield fewer survivors than a batch (or the limit is 0) |
| `TrainingLog.RoundsByPlan` | nemo_rl/algorithms/grpo_sync.py:233-241 | the same before the run: which rollouts an update consumes, and whether it exceeds the limit, computed from what the rollouts yield, the batch size and the loader's length alone |
| `GrpoExamples.WastefulRun` | nemo_rl/algorithms/grpo_sync.py:233-241 | a run of the trainer, for any limit, on full batches of whole groups, whose update takes one round more than the limit; it comes from the last batch of the last epoch and is not taken for the last step |
| `TrainingLog.LostIff` | nemo_rl/algorithms/grpo_sync.py:632-635 | rows are lost exactly when some epoch ends with rows pending |
| `TrainingLog.NothingIsLostIff` | nemo_rl/algorithms/grpo_sync.py:632-635 | with dynamic sampling nothing is lost if and only if, at every epoch's end, the rollouts since the last update yielded no survivor |
| `TrainingLog.NothingIsLostByPlan` | nemo_rl/algorithms/grpo_sync.py:632-635 | the same before the run: wherever the plan ends an epoch among the run's rollouts, no survivor is left over |
| `TrainingLog.StoreIsEmptyIff` | nemo_rl/algorithms/grpo_sync.py:852-887 | the store is empty exactly when nothing is pending, in flight or lost |
| `GrpoExamples.LeakyRun` | nemo_rl/algorithms/grpo_sync.py:632-635 | a run of the trainer, on full batches of whole groups, that ends with all epochs done and survivors left in the store |
| `TrainingLog.LastStepIff` | nemo_rl/algorithms/grpo_sync.py:1135-1140 | an update counts as the last one exactly when it is at the step limit, or comes from the last batch of the last epoch and no batch of that epoch was spent on an incomplete round |
| `GrpoLoop.SyncTrainer.constructor` | nemo_rl/algorithms/grpo.py:2748-2753 | the flag is unset at first only on a fresh run whose synchronizer is current; a validation is owed first when configured and the run starts at step 0 |
| `GrpoLoop.SyncTrainer.PrepareGeneration` | nemo_rl/algorithms/grpo_sync.py:680-727 | after it the flag is unset and the two weight versions are equal |
| `GrpoLoop.SyncTrainer.RunRollout` | nemo_rl/algorithms/grpo_sync.py:680-768 | draws one batch, generates with the policy's current version, puts the rows in the store, and flags a row exactly when all rows of its prompt have its unshaped reward |
| `GrpoLoop.SyncTrainer.Sample` | nemo_rl/algorithms/grpo_sync.py:844-887 | the sampling filter inside the loop; afterwards the cache is incomplete or is a batch ready to train on |
| `GrpoLoop.SyncTrainer.Update` | nemo_rl/algorithms/grpo_sync.py:1064-1140 | trains, marks the generator stale, drops the batch from the store, and computes whether the step is the last |
| `GrpoLoop.SyncTrainer.FinishStep` | nemo_rl/algorithms/grpo_sync.py:1142-1527 | advances the counters and ends exactly for a validation that the schedule, written out, makes due and that meets the threshold, else the clock, else the step limit; goes on otherwise |
| `GrpoLoop.SyncTrainer.RunEpoch` | nemo_rl/algorithms/grpo_sync.py:637-1527 | the batches of an epoch: rounds go on only while the cache is short and the limit allows, a full cache is trained on at once |
| `GrpoLoop.SyncTrainer.EndEpoch` | nemo_rl/algorithms/grpo_sync.py:1530-1531 | the counters move on, and the pending cache is dropped while its rows stay in the store |
| `GrpoLoop.SyncTrainer.Run` | nemo_rl/algorithms/grpo_sync.py:494-1531 | every whole run, fresh or resumed, leaves a good log of the rollouts it was given that matches weights, store and counters; each rollout, validation and update used the weights of its time and came in its time; validations come exactly on schedule, before the first step and after the updates that are due one; no event before a later step gave a reason to end, and the ending is the one the last such event gives, or none and the epochs or the sampling rounds are used up |
| `TrainingLog.OnlyTheLastEnds` | nemo_rl/algorithms/grpo_sync.py:1514-1528 | a run goes on only past updates below the step limit and not near the time limit, and past validations below the threshold |
| `TrainingLog.SomethingEnded` | nemo_rl/algorithms/grpo_sync.py:1514-1528 | every ending comes from the update or validation that gives its reason, with no progress after it |
| `DistillationLoop.DistillationTrainer.PrepareGeneration` | nemo_rl/algorithms/distillation.py:808-819 | generation uses the student's current version, refitted or because it is the same object |
| `DistillationLoop.DistillationTrainer.Update` | nemo_rl/algorithms/distillation.py:949-975 | trains, marks the generator stale, and computes whether the step is the last |
| `DistillationLoop.DistillationTrainer.FinishStep` | nemo_rl/algorithms/distillation.py:976-1215 | advances the counters and ends exactly for the clock, else the step limit |
| `DistillationLoop.DistillationTrainer.Run` | nemo_rl/algorithms/distillation.py:702-1227 | every whole run leaves a good log whose every rollout, validation and update used the weights of its time, with or without a generation engine of its own; it goes on past every update that gives no reason to end and stops at the first that does; validations come exactly on schedule, and the log's rules are the configuration's |
| `DpoLoop.RestoreUndoesDump` | nemo_rl/algorithms/dpo.py:82-96 | restoring a saved state gives it back, with whatever attributes were saved beside it |
| `DpoLoop.TakeStep` | nemo_rl/algorithms/dpo.py:660-938 | a step trains the next batch, saves exactly when due and exactly the closed-form checkpoint, and ends for the last step, else the clock, else the stop, written out |
| `DpoLoop.RunEpoch` | nemo_rl/algorithms/dpo.py:665-938 | the batches left of an epoch, each checkpoint and the ending as the totals say |
| `DpoLoop.DpoTrain` | nemo_rl/algorithms/dpo.py:585-949 | from any checkpoint: the weights are trained on a prefix of the loader repeated forever, the checkpoints written are exactly those due, and the run stops at the first step that ends it |
| `DpoLoop.WhereRunsEnd` | nemo_rl/algorithms/dpo.py:651-714 | a run performs exactly min(max_num_steps, max_num_epochs * loader length, stop) steps in total unless the clock is near after an earlier one, the first of which then cuts it; it is reported as cut exactly when the clock is near at its last step and the job is not complete |
| `DpoLoop.LastStepIsSaved` | nemo_rl/algorithms/dpo.py:759-779 | with checkpoints on, the last step of every run that takes one is saved, last |
| `DpoLoop.SavesAreSnapshots` | nemo_rl/algorithms/dpo.py:774-779 | every checkpoint written is the closed-form one for its step |
| `DpoLoop.SavesAreThoseDue` | nemo_rl/algorithms/dpo.py:752-771 | a step's checkpoint is written exactly when checkpoints are on and the step is the last one, at or past the stop, a multiple of either period, or one after which the clock is near |
| `DpoLoop.RunSlice` | nemo_rl/algorithms/dpo.py:617-660 | resuming from a closed-form checkpoint ends in one |
| `DpoLoop.SlicingIsInvisible` | nemo_rl/algorithms/dpo.py:617-949 | time slicing is invisible: whatever the stops and clocks, the job is a closed-form prefix of the uninterrupted one; a slice no clock cuts completes, a job none cuts gets exactly as far as its stops allow, and it is the whole job once a slice without a nearer stop completes |
| `DpoLoop.RunSlices` | nemo_rl/algorithms/dpo.py:617-949 | resuming slice after slice from the last checkpoint: every slice is exactly a run from that checkpoint, and the job as a whole is as above |
| `DpoLoop.SnapshotAfter` | nemo_rl/algorithms/dpo.py:777-780 | the closed-form checkpoint advances as the counters do, over epoch ends too |
| `DpoLoop.SnapshotPosition` | nemo_rl/algorithms/dpo.py:617-620 | epoch times loader length plus loader position is the number of steps |
| `Repetition.FirstIsWholeEpochs` | nemo_rl/data/dataloader.py:29-36 | the repetition of a loader is whole passes over it, then a part of one |
| `DataSources.Sources.Draw` | examples/custom_dataloader/custom_dataloader.py:92-96 | the next batch of the repetition, the exhausted iterator replaced first; whatever calls were made before, what each loader has served is a prefix of its batches repeated forever; an empty loader lets StopIteration escape; other tasks untouched |
| `DataSources.Sources.DrawEach` | examples/custom_dataloader/custom_dataloader.py:44-55 | one batch of every task, each continuing its own repetition; fails exactly when some loader is empty |
| `DataSources.Sources.DrawChosen` | examples/custom_dataloader/custom_dataloader.py:87-104 | draw i is for task i modulo the number of tasks and is the batch that task's loader, repeated, has come to; enough prompts, and not before the last batch; each error exactly when it applies; it ends whenever some turn fails or some chosen loader has a batch with prompts |
| `DataSources.SharesAreInTurn` | examples/custom_dataloader/custom_dataloader.py:87-104 | shares handed out in turn, in closed form: draw i is its loader's batch at the number served before plus the task's earlier turns, modulo the loader's length |
| `DataSources.NeverEnough` | examples/custom_dataloader/custom_dataloader.py:87-104 | and otherwise no number of draws is enough and none fails |
| `DataSources.NextTurn` | examples/custom_dataloader/custom_dataloader.py:100 | the index kept modulo the number of tasks is the number of draws modulo it |
| `DataSources.MultipleIsHit` | nemo_rl/data/dataloader.py:99-102 | batches of a fixed size that divides the expectation reach it exactly |
| `DataSources.MergedInOrder` | examples/custom_dataloader/custom_dataloader.py:102-104 | the prompts returned are those of the batches drawn, one batch after another |
| `DataSources.MultipleDataloaderWrapper.Next` | nemo_rl/data/dataloader.py:93-107 | returns the prompts of the batches drawn, in order; the count assertion holds when a fixed batch size divides the expectation, and for one-from-each sampling exactly when one batch of each makes it up; records are reset on success only |
| `DataSources.CyclingDataLoader.Next` | nemo_rl/data/dataloader.py:29-44 | the i-th batch is the loader's batch at (start + i) modulo its length, wherever it was resumed; it fails if and only if the loader is empty |

## Left out

- Floating-point rounding everywhere: arithmetic is over the reals, and KL penalties are given, already scaled.
- Gae.ComputeAdvantage: the batch statistics that whitening uses are given; `masked_mean`, `masked_var` and `calculate_kl`, defined elsewhere, are not part of this model.
- The other estimators (GRPO, GDPO, Reinforce++, OPD), reward shaping and baselines.
- Sampling.NucleusShape: for rows with a finite logit and 0 < p < 1; `Sampling.KeepMaskIsKept` covers the others.
- Config files: YAML text, key order, interpolation, the missing-value marker, path resolution and in-place rewriting of files.
- ConfigLoad.LoadConfigWithInheritance: a defaults graph with a cycle, on which the recursion never ends, is excluded.
- ConfigLoad.LoadIsMergeOfLinearisation: exact together with every load and partial load below the file (`ConfigLoad.FaithfulIffRegroups`); a single load may also come out right because a later file overwrites a difference. Markers below the top level of a default are excluded.
- Config minimising against an explicit base: it also rewrites `defaults`, which is path arithmetic.
- TeacherSync.Coordinator.Enrich: the lock wait, inference and total times are clock readings and are given.
- TeacherProtocol.SafeIffNoDrainIsCut: interpreter shutdown and a lock handed to a waiter that is cancelled in the same tick are not separate steps; two unfinished calls never share rows, and a caller drops rows only when no unfinished call has them.
- TeacherSync.EnrichSync: a uuid that repeats is excluded; column names and tensor types are not modelled, so a padding source of the wrong type counts as a failed read.
- TrainingLog.LastStepIff: for runs that start with at least as many drawn batches as steps in the epoch, as every saved state has.
- GrpoLoop.SyncTrainer.Run: several data loaders at once, whose iteration never ends, checkpoint contents, metrics, FP8 scale calibration, log-probability passes and the rows validation puts into its own partition are not modelled.
- DistillationLoop.DistillationTrainer.Run: the teacher's top-k pass and checkpoint contents are not modelled.
- DpoLoop.DpoTrain: validation and its metrics, reference log-probabilities and the background finalisation of checkpoints are not modelled; a stateful loader is taken to resume at its saved position and to restart at 0 afterwards.
- DataSources.Sources.DrawChosen: task lists on which the loop never ends are excluded, and `DataSources.NeverEnough` shows that only those are.
- DataSources.CyclingDataLoader.Next: calls after the generator has raised are not modelled.
- Ray, torch kernels, TransferQueue and the checkpoint manager: only what the callers above rely on.
- `rm.py`, `mpo.py` and the asynchronous GRPO loop: the same loop again, or a protocol not covered here.
