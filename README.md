# TED+ topological-rank backdoor detector, modelled in Dafny

This project models the core of the TED+ defence (`other_defenses_tool_box/TEDPLUS.py`), which detects backdoored inputs to an image classifier.

- **Reference set.** A class-balanced set of correctly predicted defence samples is built first.
- **Layers.** The classifier's convolution, ReLU and linear layers are monitored through forward hooks.
- **Ranks.** For every monitored layer, a sample gets a rank: the sorted position of its nearest same-class reference activation. The rank saturates to `DEFENSE_TRAIN_SIZE - 1` when the distance exceeds a local threshold.
- **Trajectories.** The per-layer ranks of one sample form its trajectory. The trajectories are split into a benign pool (reference classes) and an unknown pool (the poison and clean groups). The final evaluation reduces to accuracy, confusion counts, TPR and FPR.

Two helper files are modelled with it:
- `other_defenses_tool_box/tools.py`: AverageMeter, top-k accuracy, Cutout, the CelebA attribute packing, and jaccard_idx.
- `attack_dataloader.py`: the ColorDepthShrinking quantisation and the order in which `get_transform` assembles its pipeline.

## How the model is organised

| module | file | what it models |
|---|---|---|
| `Wrappers` | wrappers.dfy | `Option`, `Result` and the error kinds. Every exception the source can raise becomes an `Err`. |
| `Sorting` | sorting.dfy | torch.sort as a stable argsort by a real key, and torch.max. |
| `ReferenceSet` | reference_set.dfy | The reference-set builder of `__init__`: per-class collection, draw, re-filter and cap. |
| `LayerHooks` | layer_hooks.dfy | The register_hooks naming rule. |
| `ActivationCapture` | activation_capture.dfy | fetch_activation. A class holds the hook scratch dictionary. |
| `PoisonCleanSets` | poison_clean_sets.dfy | create_targets and generate_poison_clean_sets. A class holds the counters and buffers. |
| `RankTransformer` | rank_transformer.dfy | gather_activation_into_class, get_dis_sort, the threshold and rank rule, getDefenseRegion and getLayerRegionDistance. A class holds the representation table. |
| `Trajectory` | trajectory.dfy | aggregate_by_all_layers and the benign/unknown partition. |
| `Evaluation` | evaluation.dfy | calculate_accuracy, the poison accuracy, the confusion counts, TPR and FPR. |
| `Tools` | tools.dfy | The tools.py helpers. |
| `AttackDataloader` | attack_dataloader.dfy | ColorDepthShrinking and get_transform. |

Modelling conventions:
- **Oracles.** The classifier, the poison transform and the SSDT generator are oracles over samples:
  - `predict` in PoisonCleanSets;
  - `model` in ActivationCapture, which returns what the hooks captured and the logits, or `None` when the forward pass raised.
- **Randomness.** Every `np.random.choice` and random crop centre is either a nondeterministic choice (`:|`) constrained by its replace/no-replace contract, or a parameter.
- **Distances.** Distances are squared Euclidean distances. `sqrt` is strictly increasing, so it changes no sorted order, no prefix maximum and no strict comparison, and every rank is the same.
- **Softmax.** Softmax is left out before the restricted arg-max, because it is strictly increasing within a row.
- **Tensors** are sequences. A batch list that the source concatenates at the end is kept as one flattened sequence.
- **Python dictionaries.** Their insertion order is recorded explicitly (`layerOrder`, `tagOrder`), because the partition walks the first layer's labels in that order.

### Behaviour of the code worth knowing
- **Empty threshold.** When a class's reference rows leave the threshold slice empty, the code calls `torch.max` on an empty tensor, which raises. The model returns `Err(EmptyMax)` (TEDPLUS.py:607, 640).
- **Raising forward pass.** A batch whose forward pass raises `break`s out of the loop, so no later batch is processed. The outputs of the hooks that fired before the exception stay in `self.activations` (TEDPLUS.py:488-492).
- **Rank search space.** The code sorts the probe's distances to all reference rows, of every class, and walks to the first position whose prediction is the class. The rank is a position in that full sorted list (TEDPLUS.py:601-604, 634-637).
- **Samples with no rank.** The code drops layer columns that are empty, not samples. Ranks of different lengths make the array ragged, and the model refuses that with `ShapeMismatch` (TEDPLUS.py:768-774).
- **Poison predictions.** Only the TaCT/SSDT branch keeps just the backdoored samples predicted as the target. The other branch keeps every backdoored sample whatever its prediction (TEDPLUS.py:377-417).
- **Key discovery.** fetch_activation finds the monitored layers by running the first batch of a fresh iteration of the loader, then iterates the loader again for the rows (TEDPLUS.py:478-481, 486). The loaders it is given shuffle (TEDPLUS.py:208, 456, 461), so the discovery batch is a parameter of its own (`probe`), not the loader's first batch.
- **Targeted stream.** The test loader does not shuffle (TEDPLUS.py:104), so every pass of the TaCT/SSDT loop deals the same batches in the same order. A short buffer takes whole batches, and the truncation keeps the first NUM_SAMPLES rows of the stream the passes yield.
- **TPR and FPR** are computed as fractions in [0, 1]. The code multiplies them by 100 only when printing.

## Model

| member | source | states |
|---|---|---|
| Sorting.SortIndices | other_defenses_tool_box/TEDPLUS.py:580 | The order lists each of 0..n-1 exactly once and is ascending in the key, with ties kept in index order. |
| Sorting.LexSortedIsPermutation | other_defenses_tool_box/TEDPLUS.py:580 | A sorted list holding exactly the indices 0..n-1 is a permutation of them. |
| Sorting.Argsort | other_defenses_tool_box/TEDPLUS.py:580 | torch.sort returns ascending values and a permutation of the indices. Value p is the key at the index in position p. |
| Sorting.Max | other_defenses_tool_box/TEDPLUS.py:607 | torch.max returns an element of the slice that bounds every element. |
| Sorting.MaxOfAscending | other_defenses_tool_box/TEDPLUS.py:607 | The maximum of an ascending slice is its last element. |
| LayerHooks.HookKind | other_defenses_tool_box/TEDPLUS.py:262-275 | A module gets no hook exactly when it is neither a Conv2d with a kernel other than 1x1, nor a ReLU, nor a Linear layer. |
| LayerHooks.MonitoredKinds | other_defenses_tool_box/TEDPLUS.py:258-276 | At most one hook per module. |
| LayerHooks.MonitoredKindsAppend | other_defenses_tool_box/TEDPLUS.py:260-276 | The hooks of a concatenation of module lists are the hooks of the parts, in order. |
| LayerHooks.NoHooksIff | other_defenses_tool_box/TEDPLUS.py:260-276 | No hook is registered if and only if no module is of a monitored kind. |
| LayerHooks.RegisterHooks | other_defenses_tool_box/TEDPLUS.py:243-276 | One name per monitored module, in module order. The i-th name carries the module's kind and the shared counter value i, so all names are distinct. |
| ReferenceSet.CorrectOf | other_defenses_tool_box/TEDPLUS.py:154-170 | The collected indices of a class are split indices whose label and prediction both equal the class. |
| ReferenceSet.CorrectOfComplete | other_defenses_tool_box/TEDPLUS.py:154-170 | Every correctly predicted split index of the class is collected, and a split without repeats yields no repeats. |
| ReferenceSet.CollectCorrect | other_defenses_tool_box/TEDPLUS.py:147-170 | The current_idx loop leaves, for every class, exactly the correctly predicted split indices of that class in split order (a defaultdict read gives [] for absent classes). |
| ReferenceSet.Draw | other_defenses_tool_box/TEDPLUS.py:178-184 | np.random.choice raises exactly when q > 0 and the pool is empty. Otherwise it returns q pool members, at q distinct positions when the pool has at least q. |
| ReferenceSet.SelectReference | other_defenses_tool_box/TEDPLUS.py:174-185 | Raises exactly when q > 0 and some retained class has no correct sample. Otherwise it draws one block of q per retained class, in class order. |
| ReferenceSet.Flatten | other_defenses_tool_box/TEDPLUS.py:185 | Every element of the extended list comes from one of the blocks. |
| ReferenceSet.FlattenLength | other_defenses_tool_box/TEDPLUS.py:185 | Blocks of q each extend to a list of (number of blocks) * q. |
| ReferenceSet.ClassMembersAppend | other_defenses_tool_box/TEDPLUS.py:185 | Selecting the members of a class distributes over concatenation. |
| ReferenceSet.ClassMembersUniform | other_defenses_tool_box/TEDPLUS.py:185 | A block whose indices all have label d contributes all of itself to class d and nothing to any other class. |
| ReferenceSet.FlattenMembers | other_defenses_tool_box/TEDPLUS.py:176-185 | When block d holds indices labelled d, the class-c members of the extended list are exactly block c. |
| ReferenceSet.Refilter | other_defenses_tool_box/TEDPLUS.py:192-204 | The re-verification keeps exactly the indices whose prediction equals their label. |
| ReferenceSet.RefilterKeepsCorrect | other_defenses_tool_box/TEDPLUS.py:203-204 | Re-filtering a list of correctly predicted indices removes nothing. |
| ReferenceSet.Cap | other_defenses_tool_box/TEDPLUS.py:205-206 | A list within the budget is kept. A longer one is replaced by budget-many distinct positions of it. |
| ReferenceSet.BlocksLabelled | other_defenses_tool_box/TEDPLUS.py:176-185 | Every drawn index of block d is a split index labelled and predicted d. |
| ReferenceSet.DrawnBlocks | other_defenses_tool_box/TEDPLUS.py:176-185 | defense_indices_final has retained * q entries, all correct split indices of retained classes, with exactly q per class. |
| ReferenceSet.ClassNoDup | other_defenses_tool_box/TEDPLUS.py:180-181 | A class with at least q candidates is drawn without repeats. |
| ReferenceSet.DrawnBlocksNoDup | other_defenses_tool_box/TEDPLUS.py:180-181 | In the extended list, each class with at least q candidates has pairwise distinct members. |
| ReferenceSet.BuildReferenceSet | other_defenses_tool_box/TEDPLUS.py:139-208 | Raises exactly when q > 0 and a retained class has no correct sample. Otherwise each class 0..num_classes-NUM_MISSING_CLASS-1 gets exactly q correct split indices, distinct when enough exist. The total is retained * q <= DEFENSE_TRAIN_SIZE, so the cap never fires. |
| ActivationCapture.FirstMaxPos | other_defenses_tool_box/TEDPLUS.py:498 | max(dim=1) returns the position of a maximum, the first one among equals. |
| ActivationCapture.RestrictedArgmax | other_defenses_tool_box/TEDPLUS.py:495-499 | Raises exactly when all_labels is empty or names a class outside the row. Otherwise the prediction is a member of all_labels whose score is at least that of every allowed class. |
| ActivationCapture.BatchPreds | other_defenses_tool_box/TEDPLUS.py:495-500 | One prediction per sample, each the restricted arg-max of its row. The batch fails exactly when some row does. |
| ActivationCapture.AppendActivations | other_defenses_tool_box/TEDPLUS.py:503-506 | A KeyError exactly when a captured layer has no list in the container. The layer keys never change. |
| ActivationCapture.DrainNext | other_defenses_tool_box/TEDPLUS.py:486-510 | A batch whose pass succeeds advances the loop to the rest of the loader with the batch's rows, labels and predictions appended and the scratch cleared. |
| ActivationCapture.Finish | other_defenses_tool_box/TEDPLUS.py:515-518 | torch.stack and torch.cat fail exactly when no label was gathered or some layer list is empty. Otherwise the gathered data is returned unchanged. |
| ActivationCapture.EmptyLists | other_defenses_tool_box/TEDPLUS.py:482-483 | One empty list per key of the scratch dictionary. |
| ActivationCapture.AllLabelsCons | other_defenses_tool_box/TEDPLUS.py:508-509 | The labels of a loader are the first batch's labels followed by those of the rest. |
| ActivationCapture.StepShape | other_defenses_tool_box/TEDPLUS.py:495-510 | A processed batch keeps every layer list one row per label and every prediction in all_labels. It appends the batch's labels and keeps the layer keys. |
| ActivationCapture.DrainShape | other_defenses_tool_box/TEDPLUS.py:486-513 | After the loop the same shape holds, and the labels are those of a prefix of the loader. |
| ActivationCapture.DrainAll | other_defenses_tool_box/TEDPLUS.py:486-510 | When no forward pass raises, the loop reads every batch and leaves the scratch dictionary empty. |
| ActivationCapture.FetchShape | other_defenses_tool_box/TEDPLUS.py:478-518 | A successful fetch returns as many predictions as labels, every prediction in all_labels, one row per label in each layer found by the discovery pass over the probe batch, and the labels of a non-empty prefix of the batches. When no pass raises, the labels are all of them and the scratch ends empty. |
| ActivationCapture.DrainSucceeds | other_defenses_tool_box/TEDPLUS.py:486-510 | The loop cannot fail when no pass raises, every captured layer has a list and every allowed class is inside every row. |
| ActivationCapture.FetchSucceeds | other_defenses_tool_box/TEDPLUS.py:471-521 | Under those conditions, with a non-empty loader holding labels and a probe batch whose pass does not raise, fetch_activation succeeds and returns every label in loader order. |
| ActivationCapture.ActivationCapture.constructor | other_defenses_tool_box/TEDPLUS.py:230 | The hook scratch dictionary starts empty. |
| ActivationCapture.ActivationCapture.Forward | other_defenses_tool_box/TEDPLUS.py:248-249 | A forward pass adds each hooked layer's output to self.activations and returns the logits, or None when it raised. |
| ActivationCapture.ActivationCapture.AppendRows | other_defenses_tool_box/TEDPLUS.py:503-506 | The loop over the captured layers appends their rows exactly as AppendActivations describes, including the KeyError. |
| ActivationCapture.ActivationCapture.FetchActivation | other_defenses_tool_box/TEDPLUS.py:471-521 | The result and the final self.activations are those of the fetch specification: the key discovery over the probe batch, the per-batch loop with its break on a raising pass, and the final stacks. Its properties are the lemmas above. |
| PoisonCleanSets.CreateTargets | other_defenses_tool_box/TEDPLUS.py:288-293 | The new targets have the length of the old ones, and every entry is the given label. |
| PoisonCleanSets.PoisonOf | other_defenses_tool_box/TEDPLUS.py:306-331 | The poison rows of a batch are backdoored samples of the source class that the classifier predicts as the target, at most one per sample. |
| PoisonCleanSets.CleanOf | other_defenses_tool_box/TEDPLUS.py:337-341 | The clean rows of a batch are un-backdoored samples outside the source class. |
| PoisonCleanSets.SelectionComplete | other_defenses_tool_box/TEDPLUS.py:306-341 | No qualifying sample is missed: every source-class sample whose backdoored version hits the target is a poison row, and every other-class sample is a clean row. |
| PoisonCleanSets.Rows | other_defenses_tool_box/TEDPLUS.py:383-417 | The rows of the chosen samples, in the drawn order, with their ids, original labels and poisoned flag. |
| PoisonCleanSets.PoisonCleanSets.constructor | other_defenses_tool_box/TEDPLUS.py:219-226 | Both counters are 0 and all six buffers are empty. |
| PoisonCleanSets.PoisonCleanSets.AppendPoison | other_defenses_tool_box/TEDPLUS.py:327-333 | The rows are appended with label 101 and their predictions, the counter grows by their number, and the buffer invariant is kept. |
| PoisonCleanSets.PoisonCleanSets.AppendClean | other_defenses_tool_box/TEDPLUS.py:343-350 | The same for the clean buffer, with label 102. |
| PoisonCleanSets.PoisonCleanSets.TargetedBatch | other_defenses_tool_box/TEDPLUS.py:305-352 | A batch adds its poison rows only while the poison buffer is short, and its clean rows only while the clean buffer is short. |
| PoisonCleanSets.PoisonCleanSets.Truncate | other_defenses_tool_box/TEDPLUS.py:360-376 | A buffer longer than NUM_SAMPLES is cut to its first NUM_SAMPLES rows. A shorter one is left alone. |
| PoisonCleanSets.RowsPrefix | other_defenses_tool_box/TEDPLUS.py:302-352 | A run of batches that continues another yields poison and clean rows that continue its rows. |
| PoisonCleanSets.PartialPassPrefix | other_defenses_tool_box/TEDPLUS.py:302-303 | m passes followed by the first k batches of the loader are a prefix of m + 1 passes. |
| PoisonCleanSets.StreamPrefix | other_defenses_tool_box/TEDPLUS.py:302-303 | The rows of m passes are a prefix of the rows of any m' >= m passes, so the first NUM_SAMPLES rows do not depend on where the loop stops. |
| PoisonCleanSets.RowsAppend | other_defenses_tool_box/TEDPLUS.py:302-352 | The rows of two runs of batches, one after the other, are the rows of the first followed by those of the second. |
| PoisonCleanSets.PoisonRowsEmpty | other_defenses_tool_box/TEDPLUS.py:306-331 | A run of batches yields no poison row if and only if none of its batches does. |
| PoisonCleanSets.CleanRowsEmpty | other_defenses_tool_box/TEDPLUS.py:337-350 | A run of batches yields no clean row if and only if none of its batches does. |
| PoisonCleanSets.PassesEmpty | other_defenses_tool_box/TEDPLUS.py:302-352 | Passes over a loader with no poison (clean) row yield no poison (clean) row. |
| PoisonCleanSets.FollowsStart | other_defenses_tool_box/TEDPLUS.py:302 | Before any batch, each buffer follows the empty stream. |
| PoisonCleanSets.FollowsStep | other_defenses_tool_box/TEDPLUS.py:306-352 | A batch's rows are appended only while the buffer is short, and the buffer then follows the stream extended by that batch's rows. |
| PoisonCleanSets.FollowsJoin | other_defenses_tool_box/TEDPLUS.py:302-358 | A buffer that followed one stream and then another follows the two streams joined. |
| PoisonCleanSets.FollowsExtend | other_defenses_tool_box/TEDPLUS.py:354-358 | A buffer that stopped because it is full follows any continuation of its stream. |
| PoisonCleanSets.FollowsCut | other_defenses_tool_box/TEDPLUS.py:360-376 | A buffer holding at least NUM_SAMPLES rows has as its first NUM_SAMPLES rows the first NUM_SAMPLES of its start followed by the stream. |
| PoisonCleanSets.PassJoin | other_defenses_tool_box/TEDPLUS.py:302-358 | After one more pass, whether complete or cut short by the break, each buffer follows the rows of one more pass. A full pass makes each short buffer the loader feeds grow. |
| PoisonCleanSets.PoisonCleanSets.Exhausted | other_defenses_tool_box/TEDPLUS.py:302 | A buffer still short after maxPasses passes, although every pass fed each short buffer it could, means the loader cannot fill the buffers within maxPasses passes. |
| PoisonCleanSets.PoisonCleanSets.TargetedPass | other_defenses_tool_box/TEDPLUS.py:303-355 | One `for` pass over the test loader: it stops early only with both buffers full, and each buffer follows the rows of the batches dealt. |
| PoisonCleanSets.PoisonCleanSets.FillPass | other_defenses_tool_box/TEDPLUS.py:302-358 | One iteration of the `while` keeps the loop's state one pass further on: the buffer invariant holds, the buffers follow the rows of one more pass, and every buffer the loader feeds is full or has gained a row per pass. |
| PoisonCleanSets.PoisonCleanSets.FillLoop | other_defenses_tool_box/TEDPLUS.py:302-358 | The `while` ends with both buffers at NUM_SAMPLES or more, each following the rows of the passes made. It reports LoaderExhausted only when the loader could not fill them within maxPasses passes. |
| PoisonCleanSets.PoisonCleanSets.GenerateTargeted | other_defenses_tool_box/TEDPLUS.py:300-376 | On success each buffer is exactly the first NUM_SAMPLES rows of its old contents followed by the rows of some number of passes over the test loader. Its old contents are kept as a prefix, every poison row is a source-class sample predicted as the target, every clean row is from another class, and the labels are 101/102. It succeeds whenever maxPasses >= NUM_SAMPLES and every short buffer has a batch that feeds it. It fails when a short buffer has none. |
| PoisonCleanSets.PoisonCleanSets.GenerateUntargeted | other_defenses_tool_box/TEDPLUS.py:377-417 | All test samples, in order, when fewer than NUM_SAMPLES exist. Otherwise NUM_SAMPLES distinct ones. They go clean into the clean buffer and backdoored into the poison buffer, in the same order, and both counters grow by their number. |
| PoisonCleanSets.PoisonCleanSets.Generate | other_defenses_tool_box/TEDPLUS.py:298-417 | The TaCT/SSDT branch leaves in each buffer the first NUM_SAMPLES rows of its old contents followed by the rows of the passes, and succeeds whenever the loader can fill the buffers within maxPasses passes. Otherwise it reports exhaustion. The other branch appends the rows of a draw of min(\|testset\|, NUM_SAMPLES) distinct test samples, clean and backdoored, in the same order, and never fails. |
| RankTransformer.SqDist | other_defenses_tool_box/TEDPLUS.py:579 | Distances are never negative. |
| RankTransformer.SqDistSymmetric | other_defenses_tool_box/TEDPLUS.py:579 | The distance is symmetric. |
| RankTransformer.SqDistSelf | other_defenses_tool_box/TEDPLUS.py:579 | A row is at distance 0 from itself. |
| RankTransformer.DisSort | other_defenses_tool_box/TEDPLUS.py:576-581 | get_dis_sort returns ascending distances and a permutation of the destinations. Distance p is that to the destination in position p. |
| RankTransformer.ClassIndices | other_defenses_tool_box/TEDPLUS.py:569 | The nonzero positions of target == c: exactly the positions labelled c, ascending. |
| RankTransformer.ClassRows | other_defenses_tool_box/TEDPLUS.py:572 | h[idxs, :] has one row per index. |
| RankTransformer.ClassRowsExact | other_defenses_tool_box/TEDPLUS.py:569-573 | Every row labelled c is among the gathered rows, and every gathered row is a row labelled c. |
| RankTransformer.GatherActivationIntoClass | other_defenses_tool_box/TEDPLUS.py:563-574 | A list of Test_C entries. Entry c is 0 (None) when no row is labelled c, and the rows labelled c in original order otherwise. Labels outside 0..Test_C-1 are dropped. |
| RankTransformer.GatherComplete | other_defenses_tool_box/TEDPLUS.py:563-574 | Every row with a label below Test_C is found in its class's entry. |
| RankTransformer.PresentLabels | other_defenses_tool_box/TEDPLUS.py:626 | torch.unique yields each predicted class once, ascending. |
| RankTransformer.ThresholdCount | other_defenses_tool_box/TEDPLUS.py:607 | ceil(SAMPLES_PER_CLASS * 0.5), as 2k between Q and Q + 1. |
| RankTransformer.SameClassOthers | other_defenses_tool_box/TEDPLUS.py:605-606 | The masked rows are exactly the same-class reference rows that differ from the neighbour. |
| RankTransformer.NoOthers | other_defenses_tool_box/TEDPLUS.py:605-606 | When every same-class row equals the neighbour, the mask leaves nothing. |
| RankTransformer.Threshold | other_defenses_tool_box/TEDPLUS.py:605-607 | torch.max over an empty slice (ceil count 0 or no other same-class row) raises. Otherwise the threshold is the distance from the neighbour to one of the other same-class rows. |
| RankTransformer.ThresholdIsPrefixMax | other_defenses_tool_box/TEDPLUS.py:606-607 | The threshold is the last of, and bounds all of, the first ceil(Q * ALPHA) sorted distances. |
| RankTransformer.FirstSameClass | other_defenses_tool_box/TEDPLUS.py:603-604 | The walk stops at the first sorted position from its start whose reference row has the class as its prediction. None means no such position exists. |
| RankTransformer.ItemRankBounds | other_defenses_tool_box/TEDPLUS.py:610-613 | With at most DEFENSE_TRAIN_SIZE reference rows, every emitted rank lies in 0..DEFENSE_TRAIN_SIZE-1. |
| RankTransformer.NeighbourIsNearest | other_defenses_tool_box/TEDPLUS.py:601-604 | The stopping neighbour is at least as close as every later same-class reference row. |
| RankTransformer.LayerNoNeighbourIff | other_defenses_tool_box/TEDPLUS.py:632-648 | Walking from position 0, a probe gets no rank exactly when no reference row is predicted as its class. |
| RankTransformer.DefenseNeighbourCases | other_defenses_tool_box/TEDPLUS.py:599-615 | Walking from position 1, a reference row of a class with two or more rows always finds a neighbour. A class with one row never emits a rank. |
| RankTransformer.IdenticalProbeRanksZero | other_defenses_tool_box/TEDPLUS.py:636-646 | A probe identical to a same-class reference row, and away from every other-class row, ranks 0 and never saturates, unless the threshold slice is empty. |
| RankTransformer.FarProbeSaturates | other_defenses_tool_box/TEDPLUS.py:610-611 | A probe farther from every same-class row than any two same-class rows are apart saturates to DEFENSE_TRAIN_SIZE-1, whatever its position. |
| RankTransformer.RanksOfErrPrefix | other_defenses_tool_box/TEDPLUS.py:599-615 | Once an empty threshold raises for a probe, the whole call raises. |
| RankTransformer.RanksOfBounded | other_defenses_tool_box/TEDPLUS.py:610-614 | Every appended rank lies in 0..DEFENSE_TRAIN_SIZE-1. |
| RankTransformer.RanksOfLength | other_defenses_tool_box/TEDPLUS.py:599-615 | At most one rank per probe: exactly one each when every probe finds a neighbour, none when none ranks. |
| RankTransformer.DefenseRanksLength | other_defenses_tool_box/TEDPLUS.py:583-616 | getDefenseRegion appends one rank per reference row of a class with two or more rows, and none for a single-row class. |
| RankTransformer.LayerRanksSameLength | other_defenses_tool_box/TEDPLUS.py:618-650 | Two layers with the same predictions give rank lists of the same length. Each probe's presence depends only on the predictions, so the trajectories line up across layers. |
| RankTransformer.LayerRanksOverErrPrefix | other_defenses_tool_box/TEDPLUS.py:628-648 | A raise for one class ends the whole layer. |
| RankTransformer.RankItem | other_defenses_tool_box/TEDPLUS.py:601-615 | The walk over the sorted positions with its break computes the rank rule (no neighbour, a rank, or the empty-threshold raise). |
| RankTransformer.RankItems | other_defenses_tool_box/TEDPLUS.py:599-615 | The loop over the probes appends exactly the ranks of the rule, and reports the raise. |
| RankTransformer.LayerRankLoop | other_defenses_tool_box/TEDPLUS.py:625-648 | The loop over the present classes, ascending, appends the ranks of each class's new rows against the reference set. |
| RankTransformer.ListedExtend | other_defenses_tool_box/TEDPLUS.py:589-591 | Adding a new key to a dictionary puts it at the end of the key order. |
| RankTransformer.TopologicalRepresentation.constructor | other_defenses_tool_box/TEDPLUS.py:235-236 | The representation and the candidate table start empty. |
| RankTransformer.TopologicalRepresentation.StoreEntry | other_defenses_tool_box/TEDPLUS.py:589-591 | d[layer] is created if missing, and d[layer][tag] is reset and filled. The layer and tag orders grow only for new keys, and every other entry is unchanged. |
| RankTransformer.TopologicalRepresentation.DefenseRegion | other_defenses_tool_box/TEDPLUS.py:583-616 | getDefenseRegion writes only table[layer][class]. On success the entry holds the ranks of the class's reference rows, and candidate_[layer] becomes the per-class grouping. It fails exactly when a threshold slice is empty. |
| RankTransformer.TopologicalRepresentation.LayerRegionDistance | other_defenses_tool_box/TEDPLUS.py:618-650 | getLayerRegionDistance writes only table[layer][new_temp_label]. On success the entry holds the ranks of the new rows, class by class, and the candidate table is untouched. |
| Trajectory.Columns | other_defenses_tool_box/TEDPLUS.py:768-773 | A layer without the label is a KeyError. Otherwise at most one list per layer is kept, and only non-empty ones. |
| Trajectory.Transpose | other_defenses_tool_box/TEDPLUS.py:774 | The transpose has one row per rank and one column per kept layer. |
| Trajectory.ToBlock | other_defenses_tool_box/TEDPLUS.py:773-774 | np.array(...).T of equal-length lists is a matrix whose width is the number of kept layers. |
| Trajectory.ColumnsErrPrefix | other_defenses_tool_box/TEDPLUS.py:768-773 | A KeyError on a prefix of the layers is a KeyError for all of them. |
| Trajectory.ColumnsAllLayers | other_defenses_tool_box/TEDPLUS.py:768-773 | When every layer has a non-empty list, the columns are exactly those lists, in layer order. |
| Trajectory.AggregateCells | other_defenses_tool_box/TEDPLUS.py:763-774 | With n ranks in every layer, row i of the matrix holds the i-th rank of each layer in layer order, and the label vector repeats the label n times. |
| Trajectory.AggregateMissing | other_defenses_tool_box/TEDPLUS.py:765-771 | A layer lacking the label makes aggregate_by_all_layers raise KeyError. |
| Trajectory.AggregateByAllLayers | other_defenses_tool_box/TEDPLUS.py:763-774 | The loop over the layers computes exactly the aggregate above, errors included. |
| Trajectory.Aggregates | other_defenses_tool_box/TEDPLUS.py:784-785 | One aggregate per label when all succeed. |
| Trajectory.ConcatInputs | other_defenses_tool_box/TEDPLUS.py:793-797 | np.concatenate fails on an empty list or on differing shapes. Otherwise every part has the result's shape. |
| Trajectory.AggregatesErrPrefix | other_defenses_tool_box/TEDPLUS.py:784-785 | The first failing label decides the error. |
| Trajectory.AggregatesLabels | other_defenses_tool_box/TEDPLUS.py:784-785 | Each aggregate's label vector repeats its own label only. |
| Trajectory.SelectSide | other_defenses_tool_box/TEDPLUS.py:786-791 | The benign side holds no Poison or Clean label, and the unknown side holds nothing else. |
| Trajectory.AllLabelsAppend | other_defenses_tool_box/TEDPLUS.py:793-797 | Concatenating the label vectors distributes over list concatenation. |
| Trajectory.PartitionDisjoint | other_defenses_tool_box/TEDPLUS.py:781-797 | Every benign label is a reference class, and every unknown label is Poison or Clean. |
| Trajectory.SelectCount | other_defenses_tool_box/TEDPLUS.py:786-791 | The two sides together hold every label row exactly once. |
| Trajectory.AggregatesCount | other_defenses_tool_box/TEDPLUS.py:766-767 | The label rows number as many as the first layer's ranks, summed over the labels. |
| Trajectory.PartitionCount | other_defenses_tool_box/TEDPLUS.py:781-797 | The benign and unknown label vectors together are as long as all the first layer's rank lists. |
| Trajectory.AggregateLabels | other_defenses_tool_box/TEDPLUS.py:784-791 | The loop over the first layer's labels sends each aggregate to the benign or the unknown list, as the split specification states. |
| Trajectory.Partition | other_defenses_tool_box/TEDPLUS.py:781-797 | The partition over the representation table equals the specification above, including its KeyError and concatenation failures. |
| Evaluation.CountEqual | other_defenses_tool_box/TEDPLUS.py:529 | The number of equal positions is at most the length. |
| Evaluation.CountEqualFull | other_defenses_tool_box/TEDPLUS.py:529 | All positions are counted exactly when the sequences are equal. |
| Evaluation.CountEqualNone | other_defenses_tool_box/TEDPLUS.py:529 | None is counted exactly when they differ everywhere. |
| Evaluation.CalculateAccuracy | other_defenses_tool_box/TEDPLUS.py:523-532 | 0.0 on empty input. Otherwise 100 * correct / total, which lies in [0, 100]. |
| Evaluation.AccuracyPerfectIff | other_defenses_tool_box/TEDPLUS.py:523-532 | The accuracy is 100 exactly when the input is non-empty and every prediction matches. |
| Evaluation.PoisonAccuracy | other_defenses_tool_box/TEDPLUS.py:705-708 | Divides by zero exactly when there is no poison prediction. Otherwise it is a percentage in [0, 100]. |
| Evaluation.PoisonAccuracyZeroIff | other_defenses_tool_box/TEDPLUS.py:705-708 | It is 0 exactly when no poison prediction is the target. |
| Evaluation.IsPoisonMask | other_defenses_tool_box/TEDPLUS.py:829 | The mask is set exactly at the Poison labels. |
| Evaluation.CountPair | other_defenses_tool_box/TEDPLUS.py:833 | A confusion cell counts at most all samples. |
| Evaluation.ConfusionCounts | other_defenses_tool_box/TEDPLUS.py:833 | The four-way unpacking of confusion_matrix(...).ravel() succeeds exactly when both values occur among the truths and predictions. |
| Evaluation.CountPairsTotal | other_defenses_tool_box/TEDPLUS.py:833 | The four cells add up to the number of samples. |
| Evaluation.ConfusionTotal | other_defenses_tool_box/TEDPLUS.py:833 | tn + fp + fn + tp is the number of samples. |
| Evaluation.Rate | other_defenses_tool_box/TEDPLUS.py:834-835 | num / den in [0, 1], or 0 when den is 0. |
| Evaluation.TPR | other_defenses_tool_box/TEDPLUS.py:834 | TPR lies in [0, 1]. |
| Evaluation.FPR | other_defenses_tool_box/TEDPLUS.py:835 | FPR lies in [0, 1]. |
| Evaluation.TprPerfectIff | other_defenses_tool_box/TEDPLUS.py:834 | With a poison sample present, TPR is 1 exactly when there is no false negative. |
| Evaluation.FprZeroIff | other_defenses_tool_box/TEDPLUS.py:835 | With a clean sample present, FPR is 0 exactly when there is no false positive. |
| Tools.AverageMeter.constructor | other_defenses_tool_box/tools.py:21-30 | A new meter has val, avg, sum and count at 0. |
| Tools.AverageMeter.Reset | other_defenses_tool_box/tools.py:26-30 | val, avg, sum and count return to 0, and the history is forgotten. |
| Tools.AverageMeter.Update | other_defenses_tool_box/tools.py:32-36 | val becomes the value, sum grows by val * n, count grows by n, and avg = sum / count. A zero count is the division by zero. |
| Tools.ConstantHistory | other_defenses_tool_box/tools.py:32-36 | Updates with one value v sum to v times their total weight. |
| Tools.HistoryBounds | other_defenses_tool_box/tools.py:32-36 | Values within [lo, hi] with positive weights give a weighted sum within lo and hi times the weight. |
| Tools.PositiveWeight | other_defenses_tool_box/tools.py:35 | Positive weights give a positive count. |
| Tools.AverageWithinValues | other_defenses_tool_box/tools.py:32-36 | The average of values in [lo, hi] lies in [lo, hi]: avg is the n-weighted mean. |
| Tools.AverageOfConstant | other_defenses_tool_box/tools.py:32-36 | The average of a constant value is that value. |
| Tools.TopOrder | other_defenses_tool_box/tools.py:544 | topk's order is a permutation of the classes by decreasing score. |
| Tools.CorrectInOnce | other_defenses_tool_box/tools.py:546-550 | A sample is counted at most once among its top k, and exactly once when its target is among them. |
| Tools.CorrectInMonotone | other_defenses_tool_box/tools.py:550 | Being among the top k stays true for larger k. |
| Tools.HitsBounded | other_defenses_tool_box/tools.py:549-551 | The hits never exceed the batch size. |
| Tools.HitsMonotone | other_defenses_tool_box/tools.py:549-551 | The hits are non-decreasing in k. |
| Tools.PercentOrdered | other_defenses_tool_box/tools.py:551 | The percentage of fewer hits is no larger and lies in [0, 100]. |
| Tools.TopKAccuracyProperties | other_defenses_tool_box/tools.py:539-552 | precision@k lies in [0, 100] and is non-decreasing in k. |
| Tools.MaxK | other_defenses_tool_box/tools.py:541 | max(topk) is one of the ks and bounds them all. |
| Tools.Accuracy | other_defenses_tool_box/tools.py:539-552 | Fails exactly on an empty topk, a k beyond the class count or an empty batch. Otherwise it returns one precision@k per k, in order. |
| Tools.Clip | other_defenses_tool_box/tools.py:580-583 | torch.clip lands in 0..hi and keeps values already in range. |
| Tools.HoleClipped | other_defenses_tool_box/tools.py:580-583 | Each hole satisfies 0 <= y1 <= y2 <= h and 0 <= x1 <= x2 <= w, and is at most 2 * (length // 2) wide. |
| Tools.CoveredStep | other_defenses_tool_box/tools.py:576-585 | A pixel is covered after hole n + 1 exactly when it was covered before or lies in hole n. |
| Tools.CutoutMask | other_defenses_tool_box/tools.py:571-585 | The mask is 0 exactly on the pixels inside some hole and 1 elsewhere. |
| Tools.Cutout | other_defenses_tool_box/tools.py:564-590 | Every channel keeps its pixels, except that the pixels inside some hole become 0. |
| Tools.CutoutNoHoles | other_defenses_tool_box/tools.py:576-590 | With no hole no pixel is covered, so the image is unchanged. |
| Tools.ConvertAttributes | other_defenses_tool_box/tools.py:599-600 | The packed attributes lie in 0..7. |
| Tools.AttributesRoundTrip | other_defenses_tool_box/tools.py:599-600 | Packing and unpacking are inverse on the triples and on 0..7. |
| Tools.AttributesInjective | other_defenses_tool_box/tools.py:599-600 | Distinct triples give distinct codes. |
| Tools.CountTwoAtMostCountOne | other_defenses_tool_box/tools.py:469 | The intersection count never exceeds the union count. |
| Tools.KthLargest | other_defenses_tool_box/tools.py:467 | topk(k)[0][-1] is one of the scores. |
| Tools.SumTemp | other_defenses_tool_box/tools.py:467-468 | One sum per pixel. |
| Tools.Overlap | other_defenses_tool_box/tools.py:469 | The overlap is NaN or lies in [0, 1]. |
| Tools.JaccardIdx | other_defenses_tool_box/tools.py:463-470 | 0 whenever select_num <= 0. topk raises exactly when 0 < select_num exceeds the pixel count. Any other result is NaN or lies in [0, 1]. |
| AttackDataloader.Pow2 | attack_dataloader.py:15 | 1 << e is at least 1. |
| AttackDataloader.ShrinkStep | attack_dataloader.py:14-15 | t = 1 << (8 - c) raises on the negative shift exactly when c > 8. Otherwise t >= 1. |
| AttackDataloader.ShrinkStepRange | attack_dataloader.py:15 | For 1 <= c <= 8, t = 2^(8-c) is a power of two between 1 and 128 that divides 128. |
| AttackDataloader.Pow2Bounds | attack_dataloader.py:15 | 2^e for e <= 7 is at most 128 and divides it. |
| AttackDataloader.Pow2Below | attack_dataloader.py:15 | 2^e * 2^(7-e) = 128. |
| AttackDataloader.Quantize | attack_dataloader.py:19 | The output is a multiple of t, at most p, and within t of p. |
| AttackDataloader.QuantizeIdempotent | attack_dataloader.py:15-19 | Quantizing twice is quantizing once, and t = 1 is the identity. |
| AttackDataloader.ShrinkImage | attack_dataloader.py:17-21 | The negative shift raises exactly when c > 8. Otherwise every pixel is quantized in place. |
| AttackDataloader.ShrinkFullDepth | attack_dataloader.py:15-19 | c = 8 returns the image unchanged. |
| AttackDataloader.ShrinkNonPositive | attack_dataloader.py:15-19 | c <= 0 makes t >= 256, which turns every pixel to 0. |
| AttackDataloader.Pow2AtLeast | attack_dataloader.py:15 | 2^e >= 256 for e >= 8. |
| AttackDataloader.GetTransform | attack_dataloader.py:41-85 | The successive appends build exactly the pipeline of the list specification. |
| AttackDataloader.ImageNetPipelinesFixed | attack_dataloader.py:42-62 | imagenet200 and tinyimagenet200 return fixed pipelines that ignore c and k and end with Normalize. |
| AttackDataloader.InvalidDatasetRaises | attack_dataloader.py:83-84 | Any other dataset raises. |
| AttackDataloader.SmallPipelineShape | attack_dataloader.py:63-76 | Resize comes first, then the augmentations, then the filters, then ToTensor. |
| AttackDataloader.Augment | attack_dataloader.py:65-70 | Only augmentations are appended in the training block. |
| AttackDataloader.Filters | attack_dataloader.py:71-74 | ColorDepthShrinking appears exactly when c > 0 and Smoothing exactly when k > 0, with the first before the second. |
| AttackDataloader.FilterOrder | attack_dataloader.py:71-74 | The pipeline contains ColorDepthShrinking exactly when c > 0 and Smoothing exactly when k > 0. |
| AttackDataloader.Augmentations | attack_dataloader.py:65-70 | RandomCrop exactly when training, RandomRotation exactly when training and not mnist, RandomHorizontalFlip exactly when training on cifar10. |
| AttackDataloader.NormalizeLast | attack_dataloader.py:76-84 | cifar10 and mnist end with their Normalize. gtsrb has no Normalize and ends with ToTensor. |

## Left out

- PCA and pyod outlier scoring, roc_curve/AUC, f1_score, the sklearn projection and the plotly scatter (TEDPLUS.py:799-836): these are floating-point library numerics. Only the confusion counts, TPR and FPR are modelled.
- The Euclidean square root and softmax are replaced by order-preserving equivalents (see the conventions above). Floating-point rounding, and ties that rounding could create, are not modelled: all arithmetic is on reals.
- The classifier, `create_bd` (the SSDT generator networks) and `poison_transform.transform` are oracles. Their internals are foreign code, and so is `torch.argmax` over the full logits in generate_poison_clean_sets, folded into `predict`.
- Devices, CUDA synchronisation, timing, DataLoader/Subset construction, train_test_split, global seeding and every print are I/O or runtime plumbing.
- The `label_to_indices` scan and the `unique_classes` count (TEDPLUS.py:110-116, 138-144) only feed prints.
- create_poison_clean_dataloaders, display_images_grid, the device transfers, layer_visualize.py, test_model.py and config.py are plotting, I/O or static configuration.
- Smoothing (a cv2 Gaussian blur), the GTSRB and ImageNet dataset classes, and the tools.py loaders, normalize_mad, tanh_func, to_numpy and val_atk are image filtering, file I/O or float utilities. Smoothing appears only as a tag in the pipeline.
- Batches are flattened.
  - fetch_activation's per-batch rows are one sequence per layer.
  - The buffers of generate_poison_clean_sets are one sequence each.
  - The loaders of batch size 50 are the concatenation of their batches.
  - Shuffling of the reference loader is not modelled: the re-verification mask is taken per index, as a correctness predicate.
- ReferenceSet.Draw and ReferenceSet.Cap: only the support of np.random.choice is modelled (which results are possible), not its distribution.
- PoisonCleanSets.PoisonCleanSets.GenerateTargeted: the source's `while` can spin forever when the loader never yields enough matches. The model makes at most `maxPasses` passes over the loader and returns `LoaderExhausted` instead.
- PoisonCleanSets.PoisonCleanSets.GenerateUntargeted: the rows are the test samples by identity and original label. The pixels of the clean and backdoored images are not modelled.
- Tools.AverageMeter.Update: a zero total count divides by zero in the source. The model returns `false` and leaves avg unchanged instead of raising.
- ActivationCapture.ActivationCapture.FetchActivation:
  - the discovery batch `probe` is a parameter, unrelated to the loader's batches: the loaders shuffle, and the order in which they deal batches is not modelled;
  - the rows' widths are not checked; `view(n, -1)` on rows of the wrong size is not modelled;
  - a layer whose captured rows do not number one per sample is taken as given by the oracle.
- RankTransformer.TopologicalRepresentation.StoreEntry: the source resets an entry to [] and appends ranks one by one, and the model writes the finished list once. No rank depends on the table, so on success the final state is the same. After a raise, the contracts of DefenseRegion and LayerRegionDistance leave the entry's contents unspecified (the source keeps the ranks emitted before the raise).
- AttackDataloader.ShrinkImage: pixels are 0..255 integers. `c <= 0` follows NumPy 1 semantics, where uint8 * t with t >= 256 yields 0.
- Sorting.SortIndices and Tools.TopOrder: ties are broken by index. torch.sort and torch.topk leave the order of equal values unspecified, so the model fixes one admissible order.
