# Verified model of semantic-ci-code

This project models the judgement engine of semantic-ci-code and the analyses that make claims
about it, and proves what those parts promise each other.

- **Judgement engine.** `Values`, `Vocabulary`, `States`, `Ordering` and `Sorting` are the data model: JSON-like
  values and their canonical form, constraints, code states and deltas. `Deltas` is
  `compute_code_state_delta`; `Paths`, `Operators`, `Compiler` and `Evaluator` are the path table and
  resolver, the operators, the compile-time checks and the evaluation run. On top of them:
  `DeltaLaws`, `ApiDeltaLaws`, `DeltaMembership` and `RecordMembership` (what a delta says of two states),
  `ItemLaws` (what the operators decide), `KindContracts` (what a kind of change owes), `CompileExactness`
  and `Literals` (what compilation accepts and makes of it), `TargetLaws`, `ShortCircuit`, `SmokeMode`,
  `AllowLists`, `Reads`, `CompileSoundness`, `Doctor`, `MissedLocks`, `VacuousPass`, `CheckoutVerdicts` and
  `CyclomaticLocks` (the target doctor's claims), `LockTrips`, `LockForms`, `RepairPlans` and `RepairJson`.
- **Complexity.** `Syntax` is the tree and its traversal, `Complexity` holds the two counters and
  `CountedNodes` reads both off the traversal; `ExtractMethod` proves the arithmetic behind
  the doctor's extract-method advisories; `NestedDefs` is the nested-definition walk.
- **Findings and sensors.** `SspDelta` and `SspVerdicts` (ordinals, the per-group delta and its
  verdict), `Ordinals` (the explicit and implicit ordinal allocator), `SensorDelta`, `SecuritySuite`
  and `SecurityVerdicts` (drift, suppression, policy).
- **Lock files and cache.** `LockClosure`, `LockLaws`, `ExcludedPaths`, `CodeStateCache`, `StaleAnswers` and
  `Eviction`.

Code that works by changing state is a class or a method with loops, proved against a function or a
predicate; pure code is functions and lemmas. `dafny verify dfyconfig.toml` checks everything.

## Where the code does not meet a promise

Each of these is stated as an exact condition, with a concrete input for the failing side.

- Smoke mode is sound except for delta constraints on bare `python_specific`, which has no dimension
  and is evaluated on what was extracted (`SmokeMode.SmokeSafeIsExact`).
- An accepted constraint is still blamed on its author when it reads a null `coverage` or
  `coverage_delta` value (`CompileSoundness.CompiledNeverBlamed`).
- The doctor's lock-only classification looks only at operator and literal. A literal of another
  category, `false`, `{}`, a negative tolerance, a coverage path, or `loc_delta` under a git overlay
  breaks the vacuous-PASS claim (`Doctor.LockOnlyExact`, `VacuousPass.LockOnlyVerdictExact`).
- It also misses locks: an unchanged state satisfies an equality with `{}` or `false`, a difference from a
  literal of another type and a bound that only its tolerance lets zero meet, none of which is classed
  (`MissedLocks.LeafExactly`, `MissedLocks.ToleranceIsMissed`); and `not_equals {}` is no positive addition for it
  (`MissedLocks.AdditionExactly`).
- The doctor's extract-method test mirrors the evaluator only for upper bounds, ranges and
  equalities with a number; it misses lower bounds, excluded whole numbers and equalities with
  anything else (`CyclomaticLocks.CyclomaticMirror`).
- The cache is not transparent. Effects record the full path of their file and a root
  `__init__.py` is named after its directory, every commit is checked out in a fresh directory, and
  the cache key holds no directory. A hit returns the plain answer exactly when the directory is the
  same or there is no effect, and but for those paths always when the directory names no module
  (`CodeStateCache.CacheTransparency`, `StaleAnswers`). For the same reason two checkouts of one
  commit are not equal states: `effects equals_baseline` is violated on an unchanged tree that has
  an effect, unless the cache answers (`StaleAnswers.CacheDecidesTheLock`). The vacuous-PASS claim on
  two checkouts breaks there and nowhere else that it holds on equal states
  (`CheckoutVerdicts.CheckoutVerdictExact`).
- The extract-method arithmetic (+1 cyclomatic, a cognitive saving) fails when an earlier definition
  has the name of the function a costly block is taken from, as for a property setter: the extractor
  keeps the first entry of a name, so the host gives nothing back
  (`ExtractMethod.ExtractionArithmetic`, `ExtractMethod.SetterGrows`).
- The API delta can report a symbol with the same variants as changed when two of them differ only by
  an absent and an empty text, which tie in the sort (`ApiDeltaLaws.ApiDeltaExact`,
  `ApiDeltaLaws.TieIsReported`).
- An unchanged state runs to the end unless a user lock reads a null coverage value
  (`LockTrips.LockStaysQuiet`).
- `equals {}` on an addition path is classed as a positive addition and is satisfied by no change,
  because a mapping canonicalises to a tuple (`Doctor.PositiveAdditionExact`).
- Net complexity is conserved exactly when the entries the index drops add up to the same on both
  sides, as they do when names are unique: the index keeps the first entry of a name and the total
  counts all of them (`DeltaLaws.ConservationExactly`).
- Plan JSON is the identity only on plans in restored form (`RepairJson.PlanIdentity`); the second
  serialisation is always the first (`RepairJson.PlanFixedPoint`).
- A cache that is over budget ends above the low-water mark exactly when the files that cannot be
  unlinked exceed it (`Eviction.StopReachesTarget`).

## Model

| member | source | states |
|---|---|---|
| `Deltas.BuildIndex` | src/semantic_ci_code/delta/code_state_delta.py:274-279 | The `_index_by` loop: a key is present iff it occurs, and it maps to the first entry that has it. |
| `Deltas.BuildGroups` | src/semantic_ci_code/delta/code_state_delta.py:282-286 | The `_group_by` loop: a key is present iff it occurs, and its group is the in-order subsequence of the entries that have it. |
| `DeltaLaws.NetTotalLaw` | src/semantic_ci_code/delta/code_state_delta.py:167-175 | For any lists, repeated names included, the net total equals added minus removed plus changed over the indexed entries, plus exactly the shadowed entries the index drops. |
| `DeltaLaws.ConservationExactly` | src/semantic_ci_code/delta/code_state_delta.py:228-247 | The net delta equals the per-function changes if and only if the entries the index drops add up to the same on both sides, for each of the two totals. |
| `DeltaLaws.ComplexityConservation` | src/semantic_ci_code/delta/code_state_delta.py:228-247 | With unique names the net complexity delta equals sum(added) - sum(removed) + sum(after - before over changed), and it telescopes over a middle state. |
| `DeltaLaws.RepeatedNameBreaksConservation` | src/semantic_ci_code/delta/code_state_delta.py:274-279 | A concrete state with a repeated name for which the conservation law fails. |
| `DeltaLaws.ReplayLaw` | src/semantic_ci_code/delta/code_state_delta.py:141-164 | Generic keyed diff: the dumped keys are exactly the set differences, so removing and adding them turns the baseline keys into the candidate keys. |
| `DeltaLaws.DeltaReplays` | src/semantic_ci_code/delta/code_state_delta.py:141-164 | Effect and import deltas, read back from their JSON dumps, replay the baseline key set to the candidate key set. |
| `DeltaLaws.DeltaSwaps` | src/semantic_ci_code/delta/code_state_delta.py:90-113 | Swapping the two states swaps added with removed for symbols, decorators, effects, imports, test cases, functions and module edges, swaps before with after in each changed record of symbols, test cases and functions, and negates the complexity totals. |
| `DeltaLaws.DeltaIsFieldwise` | src/semantic_ci_code/delta/code_state_delta.py:90-113 | Each delta field depends only on its own dimension of the two states. |
| `DeltaLaws.DetailsIsFieldwise` | src/semantic_ci_code/delta/code_state_delta.py:194-209 | Each `python_specific` sub-record depends only on its own dimension. |
| `DeltaLaws.UnchangedIsEmpty` | src/semantic_ci_code/delta/code_state_delta.py:90-113 | The delta of a state with itself is the empty delta, whatever duplicates the state holds. |
| `DeltaMembership.TestsExactly` | src/semantic_ci_code/delta/code_state_delta.py:178-191 | A case is new iff some candidate test and no baseline test has that file and function, removed iff the other way, a file is new iff only the candidate has tests in it; each list is strictly ascending. |
| `DeltaMembership.DecoratorsExactly` | src/semantic_ci_code/delta/code_state_delta.py:335-364 | A record of a symbol and decorator is added iff a public symbol of the candidate carries it and none of the baseline does, removed the other way; nothing is ever changed. |
| `DeltaMembership.LeafExactly` | src/semantic_ci_code/delta/code_state_delta.py:362-363 | The decorator leaf is what follows the last dot. |
| `DeltaMembership.EdgesExactly` | src/semantic_ci_code/delta/code_state_delta.py:212-225 | An edge is listed as added iff some candidate module of that name imports it and no baseline module of that name does, and as removed the other way. |
| `RecordMembership.ItemsExactly` | src/semantic_ci_code/delta/code_state_delta.py:141-164 | The effect and import records are exactly the dumps of the first entry of each key that only one state has. |
| `RecordMembership.SymbolsExactly` | src/semantic_ci_code/delta/code_state_delta.py:116-138 | The symbol records are exactly the dumps of every entry whose name and kind only one state has. |
| `RecordMembership.ChangedSidesExactly` | src/semantic_ci_code/delta/code_state_delta.py:313-332 | Every changed record names its symbol and lists on each side that state's variants, as one record when both sides have just one. |
| `RecordMembership.FunctionsExactly` | src/semantic_ci_code/delta/code_state_delta.py:228-247 | A function is added or removed iff its first entry's name is only in one state, and changed iff the first entries of its name differ in a measured count. |
| `RecordMembership.FunctionRecordBack` | src/semantic_ci_code/delta/code_state_delta.py:228-247 | The `complexity_changes` record reads back, field by field, as the three lists, and is absent iff all are empty. |
| `RecordMembership.ChangedTestsExactly` | src/semantic_ci_code/delta/code_state_delta.py:250-271 | The `test_surface_changes` record reads back as exactly the pairs of first entries of one test that differ in assertions or parameters. |
| `RecordMembership.NamesExactly` | src/semantic_ci_code/evaluator/path_resolver.py:25-64 | The flat `fqns` and `modules` projections list exactly the names of new symbols, effects and imports. |
| `RecordMembership.DumpsReadBack` | src/semantic_ci_code/delta/code_state_delta.py:366-413 | Every dump reads back, from the names of its fields, as the entry it was made of. |
| `RecordMembership.KeysExactly` | src/semantic_ci_code/delta/code_state_delta.py:372-385 | Two effects are one for the delta iff they agree on function, class and the text of the recorded call; two imports iff they agree on module, source and symbols up to order. |
| `RecordMembership.EntryCounts` | src/semantic_ci_code/delta/code_state_delta.py:167-175 | A further entry adds its known counts to the totals on the candidate side and takes them away on the baseline side; an unknown count is nothing. |
| `ApiDeltaLaws.ApiDeltaExact` | src/semantic_ci_code/delta/code_state_delta.py:116-138 | Read back from its records, the API delta adds exactly the new symbols and removes exactly the lost ones; it changes every common symbol whose variant records differ as multisets, and no other one unless a variant has an empty text. |
| `ApiDeltaLaws.TieIsReported` | src/semantic_ci_code/delta/code_state_delta.py:301-310 | Concrete gap: two variants told apart only by an absent and an empty text tie in the sort, so listing them in the other order counts as a difference. |
| `Paths.ResolvePath` | src/semantic_ci_code/evaluator/path_resolver.py:25-64 | The resolver loop computes the recursive walk from the root, unresolved included. |
| `Paths.StatePathResolves` | src/semantic_ci_code/evaluator/path_resolver.py:25-64 | Every root of a state path resolves to the field or public view that a table over all fields of the state names; any other root is unresolved. |
| `Paths.DeltaPathResolves` | src/semantic_ci_code/compiler/path_schema.py:62-119 | Every schema-valid delta path, aliases and flat projections included, resolves to the field of the delta that a table over all its fields names. |
| `Paths.DetailPathResolves` | src/semantic_ci_code/evaluator/path_resolver.py:25-64 | A path below `python_specific` resolves to the sub-record its second segment names, unresolved when absent. |
| `CompileExactness.SchemaIsTable` | src/semantic_ci_code/compiler/type_schema.py:254-330 | A delta path is in the schema iff some delta has a value there, and its category is the shape of every value there. |
| `CompileExactness.RootsAreTables` | src/semantic_ci_code/compiler/path_schema.py:62-119 | The roots the checks and the evaluator know are those with a value in the tables of state and delta paths, and the open ones. |
| `Operators.MatchedPairs` | src/semantic_ci_code/evaluator/operators.py:438-454 | The nested loops collect exactly the (expected, observed) pairs that match. |
| `ItemLaws.RecordsMatch` | src/semantic_ci_code/framework/match_schema.py:163-181 | An expected record matches an observed one iff the observed one has an equal value under every key the expected one uses, `from` reading `from_`. |
| `ItemLaws.PairsReadAlike` | src/semantic_ci_code/evaluator/evaluator.py:691-709 | A record given as a list of pairs reads under every key as the mapping does. |
| `ItemLaws.ComparedExactly` | src/semantic_ci_code/evaluator/operators.py:236-278 | Every comparison of a state path with its baseline is decided by the two lists of items: each has its like, or the lists are equal in order. |
| `ItemLaws.NewItemsExactly` | src/semantic_ci_code/evaluator/operators.py:263-269 | `no_new_items` is violated iff some candidate item has no equal item in the baseline, and unknown iff one of the lists is missing. |
| `ItemLaws.RemovedItemsMirror` | src/semantic_ci_code/evaluator/operators.py:254-278 | `no_removed_items` and `superset_of_baseline` give the status of `no_new_items` with the two states exchanged. |
| `ItemLaws.SameItemsExactly` | src/semantic_ci_code/evaluator/operators.py:263-278 | `no_new_items` and `no_removed_items` both hold iff each item of either state has its equal in the other. |
| `ItemLaws.ExpectedExactly` | src/semantic_ci_code/evaluator/operators.py:175-233 | Every constraint that expects a list at a closed path is decided by which expected items match which observed ones, per operator. |
| `ItemLaws.ItemVerdictExact` | src/semantic_ci_code/evaluator/evaluator.py:206-241 | The verdict of a run of such constraints is the worst severity among those whose items do not hold. |
| `ItemLaws.BrokenItemsFail` | src/semantic_ci_code/evaluator/evaluator.py:741-766 | A hard constraint whose items do not hold makes the verdict FAIL, whatever else the target holds. |
| `TargetLaws.MatchPreorder` | src/semantic_ci_code/framework/match_schema.py:163-181 | Record matching is reflexive and transitive, so a less specific record matches whatever a more specific one does. |
| `TargetLaws.LooserTargetNeverWorse` | src/semantic_ci_code/evaluator/operators.py:175-233 | Loosening the literals of user collection constraints (in the matching preorder, per operator) never worsens the verdict of a run, on all states, deltas, rules and modes. |
| `TargetLaws.GrowthNeverWorse` | src/semantic_ci_code/evaluator/operators.py:254-278 | When every constraint, templates included, is a user constraint that asks a dimension to include a list or to keep its baseline's items, or reads nothing that changed, adding entries to the candidate never worsens the verdict. |
| `Reads.SameReads` | src/semantic_ci_code/evaluator/evaluator.py:546-688 | A constraint has the same result in two runs that agree on the allow rules and on the fields its target names, in both states and the delta. |
| `TargetLaws.PinnedExactly` | src/semantic_ci_code/evaluator/operators.py:210-220 | `includes_all` and `subset_of` one list of test names compile, and together pass iff the new test cases are exactly those names. |
| `Compiler.NormalizeList` | src/semantic_ci_code/framework/match_schema.py:123-160 | The normalisation loop fails iff some item does not fit its schema; otherwise each result item is the normal form of the item in its place. |
| `Compiler.TemplatesHaveForm` | src/semantic_ci_code/compiler/templates.py:40-110 | Every template row is a hard delta constraint of one of two forms: equal to its baseline, or equal to nothing. What the rows come to is KindContracts.KindContract. |
| `Compiler.ValidateUniqueIds` | src/semantic_ci_code/compiler/target_compiler.py:458-479 | The one-pass check accepts exactly the lists without a repeated id. |
| `Compiler.CompileTarget` | src/semantic_ci_code/compiler/target_compiler.py:202-239 | Compilation succeeds exactly when all checks accept, and then gives the templates followed by the normalised user constraints in order. What such a target means is KindContracts.KindContract. |
| `Compiler.CompiledConstraints` | src/semantic_ci_code/compiler/target_compiler.py:259-327 | Every constraint of a compiled target is a template row or an accepted user constraint. |
| `KindContracts.RowHolds` | src/semantic_ci_code/compiler/templates.py:40-110 | Each template row is satisfied iff its rule holds of the two states, stated on their entries: equal guarded surfaces, types, tests or imports, equal effect keys, no unallowed new effect, no unallowed lost symbol; and violated otherwise. |
| `KindContracts.KindContract` | src/semantic_ci_code/compiler/templates.py:40-110 | For every compiled target, pair of states, overlay and allow rules: the verdict is FAIL when the states break the contract of the kind, and otherwise that of the user constraints alone. |
| `KindContracts.KindAlone` | src/semantic_ci_code/compiler/templates.py:40-110 | Without user constraints the verdict is FAIL iff the states break the contract of the kind, else PASS. |
| `KindContracts.SymbolAllowed` | src/semantic_ci_code/evaluator/evaluator.py:648-660 | A symbol is exempt iff some rule states its full name or a prefix of it. |
| `KindContracts.EffectAllowedExactly` | src/semantic_ci_code/evaluator/evaluator.py:673-688 | An effect is exempt iff some rule names its function or the call it makes, or states no name, and names its class or states none. |
| `KindContracts.ApiRuleExactly` | src/semantic_ci_code/compiler/target_compiler.py:305-317 | An API allow rule compiles iff it names some symbol and not the empty name. |
| `KindContracts.EffectRuleExactly` | src/semantic_ci_code/compiler/target_compiler.py:321-327 | An effect allow rule compiles iff it does not name every effect. |
| `CompileExactness.RejectedIsUnjudged` | src/semantic_ci_code/compiler/target_compiler.py:259-327 | A user constraint on a closed path whose literal normalises and which the checks reject is unknown in every run that evaluates it, but for collection operators on whole records and mapping literals, which the evaluator compares as lists of pairs. |
| `CompileExactness.UnknownCauses` | src/semantic_ci_code/evaluator/evaluator.py:712-738 | An evaluated constraint that stays unknown does so for the run on an open path, for the extraction on a schema path that does not resolve, and otherwise for its author. |
| `Literals.CompiledLiteral` | src/semantic_ci_code/compiler/target_compiler.py:330-352 | Compilation changes nothing of a user constraint but its literal, and of that only the items of a collection operator, each in place. |
| `Literals.ItemRejectedExactly` | src/semantic_ci_code/framework/match_schema.py:184-216 | Only records are refused: all of them at a target without schema, and elsewhere those with a foreign key or without a sufficient one. |
| `Literals.ShorthandMatches` | src/semantic_ci_code/framework/match_schema.py:153-155 | A text at a target with a schema matches exactly the observed records that have it under the schema's name key. |
| `Literals.EmptyListRefused` | src/semantic_ci_code/framework/match_schema.py:123-133 | An empty list is refused exactly for the two operators for which it would decide the same of every observed list. |
| `Literals.ApiSchema` | src/semantic_ci_code/framework/match_schema.py:44-116 | At the API surface a record may use exactly the keys of a dumped symbol that identify it, and must use its name. |
| `Literals.ApiDeltaSchema` | src/semantic_ci_code/framework/match_schema.py:44-116 | The same for added, removed and removed public symbols. |
| `Literals.ChangedSchema` | src/semantic_ci_code/framework/match_schema.py:44-116 | The same for changed symbols. |
| `Literals.EffectSchema` | src/semantic_ci_code/framework/match_schema.py:44-116 | At effects a record may use name and class, and one of the two suffices. |
| `Literals.DecoratorSchema` | src/semantic_ci_code/framework/match_schema.py:44-116 | At decorators a record may use all keys, and must use the decorator or its leaf. |
| `Literals.ImportSchema` | src/semantic_ci_code/framework/match_schema.py:44-116 | At imports a record may use module and source, and must use the module. |
| `Literals.ImportDeltaSchema` | src/semantic_ci_code/framework/match_schema.py:44-116 | The same for added and removed imports, whose dumps name the source by its alias. |
| `Literals.RenameSchema` | src/semantic_ci_code/framework/match_schema.py:44-116 | At renames a record may use either path, and one suffices. |
| `Evaluator.NeverRaises` | src/semantic_ci_code/evaluator/evaluator.py:305-403 | The unhandled-operator assertions are unreachable: every constraint, state pair, delta and mode yields a result for that constraint. |
| `Evaluator.Aggregate` | src/semantic_ci_code/evaluator/evaluator.py:741-766 | The loop with the early FAIL and the repair flag computes: FAIL iff some result forces it, else REPAIR iff some result forces it, else PASS. |
| `Evaluator.EvaluateConstraints` | src/semantic_ci_code/evaluator/evaluator.py:206-241 | Position by position the run reports the constraint's own result until a lock has tripped before it, and a short-circuit skip afterwards; the verdict is that of the reported results. What the own results are is stated by the ItemLaws, KindContracts and SmokeMode rows. |
| `ShortCircuit.VerdictPreserved` | src/semantic_ci_code/evaluator/evaluator.py:218-302 | Short-circuiting gives the verdict of evaluating every constraint; results agree up to and including the first trigger, everything after it is skipped. |
| `ShortCircuit.VerdictMonotone` | src/semantic_ci_code/evaluator/evaluator.py:741-766 | If no result got more severe, neither did the verdict. |
| `LockTrips.LockStaysQuiet` | src/semantic_ci_code/evaluator/evaluator.py:252-293 | On an unchanged state a compiled constraint trips the short-circuit if and only if it is an evaluated user lock that reads a null coverage value: root, record and leaf locks, baseline locks, coverage paths, any extraction. |
| `LockTrips.UnchangedRunsToTheEnd` | src/semantic_ci_code/evaluator/evaluator.py:218-241 | The run of an unchanged state is never cut short if and only if no user lock reads a null coverage value, and then it reports every constraint's own result. |
| `LockTrips.OnlyLocksStop` | src/semantic_ci_code/evaluator/evaluator.py:244-264 | Positive change requirements, templates and soft constraints never stop a run, and whatever stops a run forces FAIL. |
| `LockForms.UserLocksExactly` | src/semantic_ci_code/evaluator/evaluator.py:252-293 | The user locks are exactly the hard user constraints that keep the baseline, expect a guarded list path to be empty or a guarded record to be what the empty delta shows, or deny additions to a guarded list; guarded are all list paths but decorators and renames. |
| `LockForms.StopsExactly` | src/semantic_ci_code/evaluator/evaluator.py:218-250 | A position is skipped iff an earlier lock of these forms is violated or blamed on the author; every other position reports its own result. |
| `SmokeMode.AssembleCodeState` | src/semantic_ci_code/pipeline/python_code_state.py:214-263 | The assembled state holds exactly the selected dimensions that did not time out, and the timed-out set is exact. |
| `SmokeMode.AssembledExactly` | src/semantic_ci_code/pipeline/python_code_state.py:214-263 | Dimension by dimension: what the extractor found if it was selected and finished in time, else nothing; dimensions without extractor are empty. |
| `SmokeMode.SmokeSound` | src/semantic_ci_code/evaluator/evaluator.py:861-927 | For every target without bare `python_specific` and every state pair: each smoke result is skipped or equals the full run's own result, and the smoke verdict ranks no worse, although either run may short-circuit where the other does not. |
| `SmokeMode.BarePythonSpecificIsUnsound` | src/semantic_ci_code/evaluator/evaluator.py:896-927 | A compiled constraint on bare `python_specific` and a concrete pair of states on which smoke mode violates it while the full run satisfies it. |
| `SmokeMode.SmokeSafeIsExact` | src/semantic_ci_code/pipeline/python_code_state.py:65-71 | A kind and target agree with the full run on all constraints, states, overlays and rules if and only if they do not read bare `python_specific` of the delta. |
| `SmokeMode.SkippedExactly` | src/semantic_ci_code/evaluator/evaluator.py:861-871 | A judged constraint is skipped for its dimension iff it reads one that was not extracted. |
| `SmokeMode.TimedOutExactly` | src/semantic_ci_code/evaluator/evaluator.py:873-893 | It is unknown for a timeout iff it is not skipped and reads a dimension that timed out: on the candidate for a state constraint, on either side for a delta constraint. |
| `SmokeMode.SmokeSkipsExactly` | src/semantic_ci_code/pipeline/python_code_state.py:65-71 | Smoke mode skips exactly what reads complexity, tests, the module graph or a dimension that no extractor fills. |
| `AllowLists.ResultRelaxes` | src/semantic_ci_code/evaluator/evaluator.py:546-688 | Adding allow rules leaves every user result unchanged, and changes a template result only from violated to satisfied. |
| `AllowLists.AllowRulesOnlyRelax` | src/semantic_ci_code/evaluator/evaluator.py:546-688 | Adding allow rules never worsens the verdict of a run. |
| `CompileSoundness.CompiledNeverBlamed` | src/semantic_ci_code/evaluator/evaluator.py:406-543 | A compiled constraint never reports an operator/target mismatch, and is blamed on the author if and only if it is evaluated and reads a null coverage value. |
| `CompileSoundness.BlameOfValue` | src/semantic_ci_code/evaluator/evaluator.py:712-738 | On a closed path a resolved value is blamed exactly when the operator needs a collection or a number and the value is not one. |
| `CompileSoundness.NullCoverageIsBlamed` | src/semantic_ci_code/compiler/type_schema.py:172-247 | A concrete accepted constraint on `coverage` that is blamed on the author on every state without coverage. |
| `Doctor.LockOnlyExact` | src/semantic_ci_code/authoring/hazards.py:627-766 | On an unchanged state an evaluated lock-only constraint is satisfied iff its literal, tolerance and category meet `LockHolds`; off coverage targets it is otherwise violated. |
| `Doctor.LockOnlyTargetPasses` | src/semantic_ci_code/authoring/hazards.py:571-588 | A lock-only target whose participating locks hold gets PASS on an unchanged state, in full mode and in every partial extraction. |
| `Doctor.ScalarOutcome` | src/semantic_ci_code/evaluator/operators.py:281-333 | What each scalar operator decides about a whole number, from the literal and the tolerance alone. |
| `MissedLocks.LeafExactly` | src/semantic_ci_code/authoring/hazards.py:627-766 | On every unchanged state a compiled user constraint on a delta leaf is satisfied iff it is classed lock-only and its literal fits, or is one of the locks the doctor misses; otherwise it is violated. |
| `MissedLocks.BaselineExactly` | src/semantic_ci_code/authoring/hazards.py:668-680 | A comparison with the baseline is classed lock-only iff an unchanged state satisfies it. |
| `MissedLocks.AdditionExactly` | src/semantic_ci_code/authoring/hazards.py:783-840 | On the watched addition paths a constraint is violated by an unchanged state iff it is classed a positive addition and is not `equals {}`, or is `not_equals {}`. |
| `MissedLocks.AdditionsAreWatched` | src/semantic_ci_code/authoring/hazards.py:811-840 | Whatever is classed a positive addition is on one of those paths. |
| `MissedLocks.ParticipatesExactly` | src/semantic_ci_code/authoring/hazards.py:591-624 | A constraint takes part in the verdict iff it is of a judged kind and some unblamed result of it moves the verdict. |
| `MissedLocks.ToleranceIsMissed` | src/semantic_ci_code/authoring/hazards.py:627-766 | Concrete gap: `< 0` with tolerance 1 compiles, is satisfied by every unchanged state, and is not classed lock-only. |
| `VacuousPass.OverlaidLockExact` | src/semantic_ci_code/cli/delta_overlay.py:7-16 | Under a git overlay a lock-only constraint on line counts is satisfied iff the count meets the literal; every other one behaves as without the overlay. |
| `VacuousPass.OverlayReads` | src/semantic_ci_code/cli/delta_overlay.py:7-16 | An overlay decides what touched files, lines and renames resolve to, and no other path of the delta. |
| `VacuousPass.ContributionExact` | src/semantic_ci_code/authoring/hazards.py:591-624 | What a compiled constraint of a lock-only target asks of the verdict, read off its literal, severity, policy, the coverage and the line counts. |
| `VacuousPass.LockOnlyVerdictExact` | src/semantic_ci_code/authoring/hazards.py:196-232 | The verdict of every lock-only target on an unchanged state under any overlay, all severities and coverage paths included: FAIL, else REPAIR, else PASS, by the worst contribution; so the vacuous-PASS claim holds iff every contribution is PASS. |
| `VacuousPass.AddedLinesGap` | src/semantic_ci_code/authoring/hazards.py:627-766 | `loc_delta.added <= 0` compiles and is classed lock-only; on a diff without Python it fails exactly when the diff adds a line. |
| `CheckoutVerdicts.CheckoutsHaveNoDelta` | src/semantic_ci_code/delta/code_state_delta.py:372-381 | Two checkouts of one analysis have the empty delta, although their effects record different files. |
| `CheckoutVerdicts.EffectsLockResult` | src/semantic_ci_code/evaluator/operators.py:236-278 | On two checkouts every compiled lock-only constraint on the effects, whatever its operator, is satisfied iff the directory is the same or nothing has an effect. |
| `CheckoutVerdicts.CheckoutVerdictExact` | src/semantic_ci_code/authoring/hazards.py:196-232 | The verdict of every lock-only target on one tree checked out twice, under any overlay: the worst contribution, each as on equal states, except that a lock on the effects contributes its severity when the directories differ and the tree has an effect. |
| `Doctor.PositiveAdditionExact` | src/semantic_ci_code/authoring/hazards.py:783-808 | On an unchanged state a compiled positive-addition constraint is violated, except `equals {}`, which is satisfied. |
| `Doctor.PositiveAdditionFails` | src/semantic_ci_code/authoring/hazards.py:404-422 | A hard positive-addition constraint other than `equals {}` makes the verdict FAIL on an unchanged state, whatever else the target holds. |
| `Doctor.NotEqualsFalseGap` | src/semantic_ci_code/authoring/hazards.py:627-766 | Concrete gap: `not_equals false` on a number compiles, is classed lock-only, and the evaluator reports it violated on every unchanged state. |
| `Doctor.NotEqualsMappingGap` | src/semantic_ci_code/evaluator/operators.py:70-75 | Concrete gap: `not_equals {}` on a list is classed lock-only and reported violated on every unchanged state, since the empty mapping equals the empty list. |
| `Doctor.EqualsEmptyListGap` | src/semantic_ci_code/authoring/hazards.py:627-766 | Concrete gap: `equals []` on a number is classed lock-only and reported violated on every unchanged state. |
| `Doctor.EqualsZeroGap` | src/semantic_ci_code/authoring/hazards.py:627-766 | Concrete gap: `equals 0` on a list is classed lock-only and reported violated on every unchanged state. |
| `Doctor.ToleranceGap` | src/semantic_ci_code/evaluator/operators.py:281-303 | Concrete gap: with a negative tolerance `<= 0` is classed lock-only and reported violated on every unchanged state. |
| `Doctor.PositiveAdditionGap` | src/semantic_ci_code/authoring/hazards.py:783-808 | `equals {}` on an addition path compiles, is classed as a positive addition, and is reported satisfied on every unchanged state. |
| `CyclomaticLocks.CyclomaticExact` | src/semantic_ci_code/authoring/hazards.py:869-901 | Every compiled cyclomatic constraint is satisfied or violated, and violated exactly by the deltas the doctor rejects together with those it misses. |
| `CyclomaticLocks.CyclomaticMirror` | src/semantic_ci_code/authoring/hazards.py:869-901 | The doctor's rejection test agrees with the evaluator on every delta if and only if the operator and literal are ones it sees fully. |
| `CyclomaticLocks.D7MissesEqualsFalse` | src/semantic_ci_code/authoring/hazards.py:301-333 | Concrete gap: `equals false` compiles and is violated by one extracted helper, and the doctor does not reject it. |
| `CyclomaticLocks.D7MissesGreaterThan` | src/semantic_ci_code/authoring/hazards.py:301-333 | Concrete gap: `greater_than 5` compiles and is violated by one extracted helper, and the doctor does not reject it. |
| `RepairPlans.InstructionMembers` | src/semantic_ci_code/repair/emitter.py:178-253 | The plan's instructions are exactly the results that have a category, with that category. |
| `RepairPlans.VerdictMatchesPlan` | src/semantic_ci_code/repair/emitter.py:220-253 | For every result sequence: FAIL iff some instruction is fix-required; REPAIR iff none is and some is suggested. |
| `RepairPlans.SummaryAddsUp` | src/semantic_ci_code/cli/output/json_formatter.py:169-185 | The six summary counts plus the ignored non-authoring unknowns equal the number of results. |
| `RepairPlans.SummaryCounts` | src/semantic_ci_code/cli/output/json_formatter.py:169-185 | Each summary count is the number of results with the status, severity, cause and policy it stands for. |
| `RepairJson.PlanFixedPoint` | src/semantic_ci_code/repair/serialization.py:17-99 | Whatever evidence a plan carries, its JSON is accepted back, and serialising the restored plan gives the same JSON. |
| `RepairJson.PlanIdentity` | src/semantic_ci_code/cli/output/json_formatter.py:252-283 | Deserialising the serialised plan returns the plan itself if and only if it is in restored form. |
| `RepairJson.EvidenceExactly` | src/semantic_ci_code/repair/serialization.py:87-91 | Evidence pairs survive the round trip as they are iff their keys strictly ascend and their values are in restored form. |
| `Complexity.CyclomaticCounter.CountBody` | src/semantic_ci_code/complexity/python_complexity_extractor.py:192-271 | The visitor with the mutable counter adds one point per visited branch and assertion, operand after the first and comprehension condition; visited is what one traversal outside definitions, match subjects and patterns reaches. |
| `Complexity.CognitiveCounter.CountBody` | src/semantic_ci_code/complexity/python_complexity_extractor.py:274-397 | The visitor with the nesting argument computes the recursive cognitive cost of a body. |
| `Complexity.CognitiveCounter.VisitIf` | src/semantic_ci_code/complexity/python_complexity_extractor.py:298-318 | An `elif` stays at its parent's level; any other else branch is one deeper. |
| `Complexity.CognitiveIsAffine` | src/semantic_ci_code/complexity/python_complexity_extractor.py:282-397 | Cognitive cost at nesting n equals the cost at nesting 0 plus n times the number of nesting-bearing nodes, for every block. |
| `CountedNodes.CountersAgree` | src/semantic_ci_code/complexity/python_complexity_extractor.py:192-397 | Both counts of a block come from the nodes of that traversal: cyclomatic is the bearing nodes without comprehension clauses, with conditions, extra operands and assertions; cognitive is the bearing nodes, their levels, the boolean operators and the later conditions. |
| `CountedNodes.ElifExactly` | src/semantic_ci_code/complexity/python_complexity_extractor.py:298-318 | A lone `if` in an else branch is charged at its parent's level iff it stands in its parent's column; any other else branch is one deeper. |
| `Complexity.BuildStableEntries` | src/semantic_ci_code/complexity/python_complexity_extractor.py:400-408 | The pass with the seen set returns exactly the first entry of each name, ascending by name without repeats. |
| `Complexity.StableEntriesContract` | src/semantic_ci_code/complexity/python_complexity_extractor.py:400-408 | Stable entries ascend by name, have unique names, are exactly the first entries of each name, and keep every total when names do not repeat. |
| `ExtractMethod.CountFunction` | src/semantic_ci_code/complexity/python_complexity_extractor.py:171-189 | A function's entry holds one plus the cyclomatic cost and the cognitive cost of its body. |
| `ExtractMethod.CallsArePlain` | src/semantic_ci_code/complexity/python_complexity_extractor.py:282-292 | A call statement, a returned call and an assignment from a call cost nothing of their own exactly when their arguments do not, at any depth. |
| `ExtractMethod.CyclomaticShare` | src/semantic_ci_code/complexity/python_complexity_extractor.py:192-271 | In any context a block contributes exactly its own cyclomatic cost over a plain statement in its place. |
| `ExtractMethod.CognitiveShare` | src/semantic_ci_code/complexity/python_complexity_extractor.py:298-397 | In any context a block contributes exactly its own cognitive cost at the depth where it stands, over a plain statement in its place, the `elif` case included. |
| `ExtractMethod.ExtractionArithmetic` | src/semantic_ci_code/authoring/hazards.py:301-333 | For every module, repeated names included: moving a block at depth n into a new function raises total cyclomatic by 1 and lowers total cognitive by n times its nesting-bearing nodes if and only if no earlier definition has the host's name or the block costs nothing; otherwise both totals grow by the cost of the whole block, cyclomatic by 1 more. |
| `ExtractMethod.SetterGrows` | src/semantic_ci_code/complexity/python_complexity_extractor.py:400-408 | Concrete gap: taking the `if` out of a property setter, which the extractor drops behind the getter, adds 2 cyclomatic and 1 cognitive. |
| `ExtractMethod.RefactoringArithmetic` | src/semantic_ci_code/authoring/hazards.py:301-333 | k successive extractions change the net delta by exactly k plus the cost of the blocks of hidden hosts cyclomatic; with every host visible, by exactly +k cyclomatic and minus the summed savings cognitive. |
| `ExtractMethod.ExtractionTripsCyclomaticLock` | src/semantic_ci_code/authoring/hazards.py:869-901 | On every module a compiled cyclomatic constraint is violated by a refactoring iff the doctor rejects, or misses, the number of its helpers plus the cost of the hidden blocks; that is the doctor's +k iff no hidden block has a cost, and nothing is missed when the doctor sees the literal fully. |
| `NestedDefs.CountNestedDefs` | src/semantic_ci_code/authoring/nested_defs.py:62-85 | The explicit-stack walk, popping in any order, ends and returns the number of function definitions with a function ancestor. |
| `NestedDefs.NestedOrOutermost` | src/semantic_ci_code/authoring/nested_defs.py:62-85 | Every definition is either nested or outermost; below a function all are nested. |
| `SspDelta.GroupKept` | src/semantic_ci_code/ssp/delta.py:48-62 | The dedup and grouping loops build, per group, the positions of the kept findings in order. |
| `SspDelta.AssignOrdinals` | src/semantic_ci_code/ssp/delta.py:48-76 | Every deduplicated finding, and nothing else, gets the ordinal of its place in its group, and within a group ordinals increase exactly with the span order. |
| `SspDelta.OrdinalsAreDense` | src/semantic_ci_code/ssp/delta.py:63-76 | In every group the ordinals are exactly 0 to count - 1, one for each kept finding. |
| `SspDelta.OrdinalsFollowSpans` | src/semantic_ci_code/ssp/delta.py:159-162 | Of two kept findings of a group the one that starts or ends earlier, by start line, start column, end line, end column, has the smaller ordinal; at one place the one reported first. |
| `SspDelta.SastFingerprints` | src/semantic_ci_code/ssp/delta.py:79-90 | Under an injective digest a (group, ordinal) fingerprint is present exactly when the ordinal is below the group's count. |
| `SspDelta.DeltaCountsPerGroup` | src/semantic_ci_code/ssp/delta.py:13-45 | With b and c deduplicated findings in a group, exactly max(0, c - b) are added, max(0, b - c) removed and min(b, c) shared. |
| `SspDelta.DeltaEmptyExactly` | src/semantic_ci_code/ssp/delta.py:13-45 | Nothing is added or removed if and only if all group counts agree and the SCA advisories are the same. |
| `SspDelta.MovedCodeHasNoDelta` | src/semantic_ci_code/ssp/delta.py:141-162 | Any strictly monotone shift of all spans yields an empty delta with status pass. |
| `SspVerdicts.GroupSize` | src/semantic_ci_code/ssp/delta.py:48-62 | A group counts each of its distinct spans once and every finding without a span. |
| `SspVerdicts.SspFindingsExactly` | src/semantic_ci_code/ssp/delta.py:13-45 | The delta adds exactly the kept findings of a group beyond the baseline's count and the first reports of advisories the baseline does not have, and removes the mirror image. |
| `SspVerdicts.SspStatusExactly` | src/semantic_ci_code/ssp/delta.py:13-45 | Rejected iff the sensors differ, unknown iff either scan failed, and otherwise failed iff something above informational is added. |
| `LockClosure.LockPackagesByName` | src/semantic_ci_code/ssp/adapters/dependency_sources.py:282-294 | The index maps each non-empty name to its variants in order, and holds no other name. |
| `LockLaws.ReadLockExactly` | src/semantic_ci_code/ssp/adapters/dependency_sources.py:282-294 | The lock files a package under a name iff the name is not empty and the package has it. |
| `LockClosure.PushNext` | src/semantic_ci_code/ssp/adapters/dependency_sources.py:318-335 | The inner loops push exactly the unprocessed edges that the active variants and requested extras lead to. |
| `LockClosure.DependencyClosure` | src/semantic_ci_code/ssp/adapters/dependency_sources.py:297-336 | The worklist with its processed set ends, and returns exactly the names with an active variant that reachable edges ask for. What edges lead to is LockLaws.NextExactly and the laws after it. |
| `LockLaws.NextExactly` | src/semantic_ci_code/ssp/adapters/dependency_sources.py:503-539 | An edge leads exactly to the allowed dependencies of the active variants of its name and of the extras it requests. |
| `LockLaws.UnrequestedExtra` | src/semantic_ci_code/ssp/adapters/dependency_sources.py:503-539 | Deleting an extra that no reached edge to its package requests leaves the closure as it is. |
| `LockLaws.NoExtras` | src/semantic_ci_code/ssp/adapters/dependency_sources.py:503-539 | If no root and no listed dependency requests an extra, the closure is that of the lock with every extra deleted. |
| `LockLaws.RequestedExtra` | src/semantic_ci_code/ssp/adapters/dependency_sources.py:503-539 | Requesting one more extra on a root adds exactly what the extra's own dependencies reach. |
| `LockLaws.MarkersDecide` | src/semantic_ci_code/ssp/adapters/dependency_sources.py:414-474 | Deleting dependencies whose marker does not hold leaves the closure as it is. |
| `LockLaws.InactiveIgnored` | src/semantic_ci_code/ssp/adapters/dependency_sources.py:339-353 | Deleting inactive variants leaves the closure as it is. |
| `LockLaws.DefaultRootsExactly` | src/semantic_ci_code/ssp/adapters/dependency_sources.py:214-279 | The default roots are the allowed dependencies of the packages that do not belong to another project. |
| `LockLaws.OtherRootsExactly` | src/semantic_ci_code/ssp/adapters/dependency_sources.py:214-279 | The other roots are the allowed development, group and optional dependencies of the same packages. |
| `LockClosure.CollectRoots` | src/semantic_ci_code/ssp/adapters/dependency_sources.py:229-266 | The loop collects the default and the non-default root edges of the packages that count as roots. |
| `LockClosure.ExcludedLockPackageNames` | src/semantic_ci_code/ssp/adapters/dependency_sources.py:214-279 | The excluded set is exact with and without a known project, and never holds a package that the default dependencies reach. |
| `ExcludedPaths.MatchesExclude` | src/semantic_ci_code/framework/extract_config.py:61-70 | Returns the first matching pattern; returns none exactly when the path is kept. |
| `ExcludedPaths.FilterExcludedPaths` | src/semantic_ci_code/framework/extract_config.py:73-92 | Each path is kept or reported with a pattern that matches it; what is kept is determined by the set of patterns. |
| `ExcludedPaths.SortedPatternsAgree` | src/semantic_ci_code/cli/code_state_cache.py:90-102 | Two sorted pattern tuples are equal if and only if the lists are rearrangements, and then they have the same pattern set. |
| `CodeStateCache.KeyDeterminesInputs` | src/semantic_ci_code/cli/code_state_cache.py:138-173 | Two requests with one key and no time limit give the analysis the same inputs iff the checkout directory's name does not name a kept root `__init__.py`, whatever the order and repetition of their patterns. |
| `CodeStateCache.PatternsShareKey` | src/semantic_ci_code/cli/code_state_cache.py:90-102 | Requests that differ only in patterns share a key iff the patterns are rearrangements of each other. |
| `CodeStateCache.KeyExactly` | src/semantic_ci_code/cli/code_state_cache.py:138-173 | Two requests share a key iff they agree on tree, package, mode, dimensions, patterns up to order, interpreter, package version and the extractors they use; the directory and a time limit never count. |
| `CodeStateCache.ExtractResult` | src/semantic_ci_code/pipeline/python_code_state.py:130-154 | Extraction analyses exactly the kept paths under the request's environment, and effects record their file under the checkout directory. |
| `CodeStateCache.Store.Read` | src/semantic_ci_code/cli/code_state_cache.py:235-269 | Returns the readable state if there is one; one hit or one miss per read, and an invalid file is a miss. |
| `CodeStateCache.Store.Write` | src/semantic_ci_code/cli/code_state_cache.py:272-306 | The new store after a write that succeeds, fails before the file is replaced, or fails after; failures are counted. |
| `CodeStateCache.Store.ExtractCodeState` | src/semantic_ci_code/cli/commands/check.py:664-737 | Returns the plain extraction of the request that filled the slot, or of this one; says exactly when it hits and how store and counters change; a time limit bypasses the cache. |
| `CodeStateCache.Run` | src/semantic_ci_code/cli/commands/check.py:664-737 | Over every run of requests, failed writes, damage and removals, each request gets the plain extraction of its origin; hits plus misses equal the reads; invalid reads are misses. |
| `CodeStateCache.AnswerAt` | src/semantic_ci_code/cli/commands/check.py:664-737 | Position by position, the answer of a run is the plain extraction of the request that the event sequence determines. |
| `CodeStateCache.CheckoutsDiffer` | src/semantic_ci_code/effects/python_effect_extractor.py:313-328 | Two checkouts of one analysis give the same state iff they lie in the same directory or no effect was found. |
| `CodeStateCache.CheckoutsAgree` | src/semantic_ci_code/effects/python_effect_extractor.py:525-541 | Two checkouts of one analysis always agree but for the files named in the evidence of effects. |
| `CodeStateCache.CacheTransparency` | src/semantic_ci_code/cli/commands/check.py:664-737 | For every run and request whose directory name does not matter: the answer is the plain extraction iff it was extracted in the same directory or the tree has no effect, and always is but for those files. |
| `CodeStateCache.OneDirectoryIsTransparent` | src/semantic_ci_code/cli/commands/check.py:664-737 | If requests with one key always come from one directory, every answer is the plain extraction. |
| `StaleAnswers.StaleExactly` | src/semantic_ci_code/pipeline/python_code_state.py:316-336 | The second of two requests under one key is answered with another directory's paths exactly when the directories differ and the tree has an effect. |
| `StaleAnswers.StaleFile` | src/semantic_ci_code/pipeline/python_code_state.py:316-336 | A concrete tree and two checkouts of it for which the cached answer is not the plain extraction. |
| `StaleAnswers.StaleRootName` | src/semantic_ci_code/api_surface/python_api_extractor.py:334-341 | A concrete root package for which the cached answer names the module after another run's directory, evidence aside. |
| `StaleAnswers.EffectsLockExactly` | src/semantic_ci_code/evaluator/operators.py:236-251 | `effects equals_baseline` on two checkouts of one analysis is satisfied iff they are one directory or nothing has an effect. |
| `StaleAnswers.CacheDecidesTheLock` | src/semantic_ci_code/cli/commands/check.py:664-737 | On one commit against itself in two directories, with an effect, that lock is violated by plain extraction and satisfied through the cache. |
| `Eviction.Directory.EvictToBudget` | src/semantic_ci_code/cli/code_state_cache.py:309-340 | Removes nothing within budget; otherwise removes oldest first up to the first point at or below the low-water mark, skipping files that cannot be unlinked. |
| `Eviction.StopReachesTarget` | src/semantic_ci_code/cli/code_state_cache.py:325-340 | The cache ends at or below the target if and only if the files whose unlink fails fit in it. |
| `Eviction.ShortestPrefix` | src/semantic_ci_code/cli/code_state_cache.py:325-340 | With no failing unlink the removed files are the shortest sufficient oldest-first prefix. |
| `Eviction.EvictionBound` | src/semantic_ci_code/cli/code_state_cache.py:309-340 | The bound for a whole call: nothing lost within budget; over budget, the rest is at or below floor(budget * low_water) and one file fewer would not do. |
| `Eviction.SortedOldestFirst` | src/semantic_ci_code/cli/code_state_cache.py:319-320 | The sorted listing is in ascending modification time. |
| `Ordinals.NextFreeOrdinal` | src/semantic_ci_code/sensor/adapters/llm/codex_security.py:227-231 | The search ends at the first ordinal from the start that is not reserved. |
| `Ordinals.ReserveExplicitOrdinals` | src/semantic_ci_code/sensor/adapters/llm/codex_security.py:208-224 | Succeeds exactly when every explicit item validates and no (group, ordinal) is stated twice; then holds exactly the stated ordinals. |
| `Ordinals.RawFindings` | src/semantic_ci_code/sensor/adapters/llm/codex_security.py:175-205 | Accepts exactly the valid payloads without repeated ordinals; the k-th implicit finding of a group gets the k-th natural not reserved anywhere in the payload; the internal error never occurs. |
| `Ordinals.OrdinalsDistinct` | src/semantic_ci_code/sensor/adapters/llm/codex_security.py:175-205 | No two findings of an accepted payload share group and ordinal. |
| `Ordinals.ImplicitInOrder` | src/semantic_ci_code/sensor/adapters/llm/codex_security.py:184-193 | Implicit findings of one group get ascending ordinals in payload order. |
| `Ordinals.ValidExactly` | src/semantic_ci_code/sensor/adapters/llm/codex_security.py:175-205 | An item is valid iff it names class, module and symbol, anchors a presence without or an absence with an expected property, states no ordinal or a natural one, and has valid details. |
| `Ordinals.FindingOf` | src/semantic_ci_code/sensor/adapters/llm/codex_security.py:208-224 | The finding of a valid item states its group as the item does, with the module path in forward slashes. |
| `SensorDelta.AggregateStatus` | src/semantic_ci_code/sensor/models.py:311-317 | The most severe status present, or pass. |
| `SensorDelta.DriftReason` | src/semantic_ci_code/sensor/delta.py:149-162 | No reason exactly when both sides exist and agree on every watched field. |
| `SensorDelta.ComputeSecurityDelta` | src/semantic_ci_code/sensor/delta.py:25-55 | Rejects exactly LLM findings and findings on advisory sensors, in that order of precedence; otherwise gives the delta of every remaining sensor. |
| `SensorDelta.DeltaValidates` | src/semantic_ci_code/sensor/models.py:215-242 | Every per-sensor delta satisfies the model's own validators, so building one never raises. |
| `SensorDelta.DeltaByIdentity` | src/semantic_ci_code/sensor/delta.py:91-107 | On a sensor without drift a finding is added iff only the candidate reports its id, and removed iff only the baseline does. |
| `SensorDelta.DeltaConserves` | src/semantic_ci_code/sensor/delta.py:91-107 | Added plus unchanged is the candidate's finding count; removed plus unchanged is the baseline's. |
| `SensorDelta.AdvisersVanish` | src/semantic_ci_code/sensor/delta.py:119-146 | Adding finding-free non-reproducible sensors leaves the compared state and whether it is comparable unchanged. |
| `SecuritySuite.EvaluateSecurityDetail` | src/semantic_ci_code/suite/security.py:56-128 | The loop over sensors computes the suite of the per-sensor deltas, or the first rejection. |
| `SecuritySuite.JudgeSensors` | src/semantic_ci_code/suite/security.py:76-117 | Statuses, results and the added total are those of the sensors in sorted order. |
| `SecuritySuite.PassExactly` | src/semantic_ci_code/suite/security.py:162-199 | The suite passes iff every sensor is known, every unsuppressed added finding is allowed, and the count is not exceeded. |
| `SecurityVerdicts.SuiteStatusExactly` | src/semantic_ci_code/suite/security.py:56-199 | From the two states, the policy and the day alone: rejected for a suppression with a foreign id, an LLM finding or a finding of an advisory sensor, in that order; else unknown iff some sensor is one-sided, drifts in a watched field or did not complete; failed iff a finding that counts is severe or of a denied rule, or more count than allowed; a finding counts iff it is new on a compared sensor and no suppression runs to that day. |
| `SecuritySuite.SuppressionPartitions` | src/semantic_ci_code/suite/security.py:93-102 | A sensor's added and suppressed findings partition what its delta added, by active id. |
| `SecuritySuite.SuppressingNeverRaises` | src/semantic_ci_code/suite/security.py:145-159 | Adding valid suppressions or choosing an earlier date never raises the status, and never changes whether the evaluation is rejected. |
| `SecuritySuite.AdvisersChangeNothing` | src/semantic_ci_code/sensor/delta.py:119-146 | Adding finding-free non-reproducible sensors to either state leaves the whole outcome unchanged, errors included. |
| `SecuritySuite.LooserDriftNeverRaises` | src/semantic_ci_code/suite/security.py:131-142 | Watching fewer provenance fields never raises the status. |

## Left out

- Evidence records of evaluation results: they do not enter the verdict.
- Floating-point rounding: numbers are reals, so tolerances and the low-water mark are exact.
- Sets and non-string mapping keys in observed and expected values; mappings are given by their items in key order.
- LockTrips.LockStaysQuiet: a mapping literal is taken with its keys in order, as mappings are everywhere in this model.
- Target strings as text: a target is a list of segments, each with its schema name, or malformed.
- Authorship, change scope and evidence-required fields of a target, and the parsing of YAML and TOML.
- Extracted dimensions that no extractor fills are kept as dumped records; the delta's `python_specific` holds its three computed sub-records.
- Enum text and `str()` of non-string members in plan JSON: an enum member is present with a value or unreadable.
- Repair codes, messages, suggestions and every other message text.
- The SHA-256 digests of fingerprints, canonical ids and cache keys: fingerprints use an injective function, the cache key is the record that is digested.
- Environment markers, name normalisation and malformed lock entries: a listed dependency says whether its marker holds, and names and extras are normalised when the record is built.
- Pattern syntax of exclude lists: relative paths and matching are given functions; the configuration root and all paths are taken relative to the tree, which the search boundary of the check command ensures; symbolic links are not followed.
- Modification times and file sizes while a pass runs: the listing is taken once, and each unlink outcome is given.
- The JSON form of a state inside a cache file: reading back a file that was written is taken as lossless.
- Worker-thread timeouts: the dimensions that time out are an input.
- CodeStateCache.Run: damage that leaves a well-formed file with another state is excluded, because nothing in the file can reveal it.
- SensorDelta.ComputeSecurityDelta: the redundant aggregate status of the delta record and the order of drift-field names in messages are not modelled.
- The lexing, parsing and unparsing of Python source: the counters and walks start from a syntax tree.
- The other doctor advisories, the init recipes, and the parsing of pull-request bodies, labels and commits: they add only easy members.
- Git, worktrees, command-line plumbing, SARIF, Markdown and GitHub renderers, and the semgrep and pip-audit adapters.
