# Verification of the Sennel flow engine

A Dafny model of the parts of Sennel that decide: the settlement of saved Step Results in
`src/flow/definition.js`, the Requirement-test lifecycle, the settlement of Task Gate results, and the
read-only query layer. `dafny verify dfyconfig.toml` checks the whole project.

A thrown error is a `Failure`; `null` is `None`. What the source decides by expressions is a function
here. What it does step by step over mutable fields (the structure walk, the response validation, the
capture loop, the ledger reader, the snapshot reader, the settlement coordinator, page filling) is a
class or a method with a loop, proved against a specification function or predicate.

## Modules

| module | models |
|---|---|
| `Wrappers` | `Option` and `Result` |
| `RequirementTests`, `RequirementTestProofs`, `RequirementTestTheorems`, `RequirementTestReports` | the Requirement-test work list: admission of observations, the one policy, applying a decision, saved Results, and what every run keeps |
| `FlowSettlement`, `FlowSettlementProofs`, `FlowSettlementTheorems`, `FlowSettlementMeanings` | all 39 leaves with their Results, routes, skips, resets and completions, the dynamic Tasks, and what every run keeps and records |
| `CanonicalJson`, `CanonicalJsonProofs`, `CanonicalJsonTexts`, `GateIdentity` | the two canonical serializers, their texts and the identity of Gate actions |
| `GateSettlement` | the Task Gate policy, its durable effects, publication recovery, evaluation admission, the coordinator |
| `QueryTree`, `QueryTreeValidation`, `QueryTreeAgreement` | the node structure of a metadata response: producer, validation, agreement |
| `DetailClosure`, `DetailValidation` | the detail closure of an activities page: producer, validation, agreement |
| `Hydration` | demand-driven artifact capture |
| `Base64Url`, `Paging` | cursors and byte-bounded pages of activities and executions |
| `LedgerPrefix` | reading the confirmed prefix of the Activity ledger |
| `SnapshotRead` | the optimistic read against a concurrent writer |
| `ExecutionSummaries` | selecting execution items by node and summarizing them |
| `ReviewRetries` | counting Review retries and the two policies that read the count |

## Where the code does less than one would expect

Each of these is a lemma with a concrete run, beside the exact condition under which the property holds.

- An approval that adds Tasks is refused although its route was selected, when the implementation leaves
  were invalidated and no plan recovery was recorded. A first plan in which a questions repair changed
  something gets there (`ChangedDraftRepairBlocksTasks`); no other selected route is ever refused (`EveryStepApplies`).
- The catalog of a snapshot is read before the execution sources and, by design, not compared again after a
  successful capture. A read can return a catalog and an execution that never held together (`CatalogMayBeOlder`). They
  did hold together if and only if that catalog was still committed when the captured execution first showed
  (`CatalogHoldsTooIff`); one more reading of the catalog at the end of the capture tells whether all values
  still do (`RereadingDecides`).
- A repaired Requirement-test candidate is not always the one reviewed next: an earlier staged candidate
  comes first (`RepairedCandidateMayWait`, `RepairedCandidateIsNextUnlessPreceded`).

A remark on types: the facts of a Task Gate admit the result `recovered`, and such a result would be selected
for reconciliation for ever (`RecoveredIsReconciledForever`). No Task Gate evaluator publishes it; in
`src/flow/lib/run-gate.js` only the integration Gate does (line 4467). For the results a Task Gate publishes,
reconciliation is selected exactly while an effect is missing (`ReconcilesExactlyWhileMissing`).

## Model

| member | source | states |
|---|---|---|
| RequirementTestProofs.FocusIsActive | src/flow/lib/requirement-test-lifecycle.js:476-494 | in a plan of the shape each leaf works on, `activeWorkItem` finds the Requirement the shape singles out |
| RequirementTestTheorems.OneRequirementIsActive | src/flow/lib/requirement-test-lifecycle.js:476-494 | whenever a test leaf is active in a run, there is exactly one Requirement it works on, and `activeWorkItem` finds that one |
| RequirementTestProofs.FindingIsNew | src/flow/definition.js:888-949 | in every reachable state a rejection reports a finding that was never recorded, because recorded findings belong to earlier bundle revisions; the uncharged duplicate branch is never taken |
| RequirementTestProofs.ApplyMoves | src/flow/lib/requirement-test-transition.js:118-158 | applying a decision changes the active item's status, bundle, budget and findings as named, starts the named pending Requirement, and touches nothing else |
| RequirementTestProofs.StepFollowsTable | src/flow/definition.js:888-949 | a transition table by observation kind says what every admitted observation does to the plan; policy, decision constructor and application together do exactly that and keep the invariant |
| RequirementTestTheorems.ReachableInv | src/flow/definition.js:843-863 | every state of every run over any distinct Requirements satisfies the invariant of shape, budgets, findings and revisions |
| RequirementTestTheorems.AdmittedIsNeverRefused | src/flow/definition.js:746-841 | in a reachable state a step succeeds if and only if its observation is admitted: no later check can fail |
| RequirementTestReports.ReportsMakeSteps | src/flow/definition.js:746-841 | in every reachable state exactly what the active leaf can report about its Requirement, written out from its current bundle and Attempt by leaf and kind, makes a step; another kind, revision, digest or source Attempt is refused |
| RequirementTestReports.PassesIffReports | src/flow/definition.js:776-841 | for the item a leaf works on, the checks of admission pass exactly the reports of that leaf |
| RequirementTestReports.BundlesAreFormed | src/flow/definition.js:746-841 | every bundle a run holds has a positive revision and names its predecessor |
| RequirementTestTheorems.BudgetsAreBounded | src/flow/lib/requirement-test-lifecycle.js:50-84 | automatic and manual semantic charges stay within 5, tooling within 3; findings are distinct and number exactly the semantic charges; the bundle revision is at most one more, and no more while a repair is due |
| RequirementTestTheorems.EveryRejectionIsCharged | src/flow/definition.js:888-949 | every rejection in a run either charges one unit of the budget its policy names, records one finding and routes to repair, or defers the Requirement because that budget is used up |
| RequirementTestTheorems.EveryToolingFailureIsCharged | src/flow/definition.js:888-949 | a tooling failure is retried at the same leaf, charged, three times; the fourth one defers its Requirement |
| RequirementTestTheorems.ImplementExactlyWhenSettled | src/flow/definition.js:865-886 | `implement` is selected exactly when every Requirement is promoted or deferred |
| RequirementTestTheorems.SavedResultReplays | src/flow/definition.js:5330-5371 | the decision selected from the saved Result and its frontier alone is the one selected from the live plan, and the same Attempt goes on exactly when it returns to generation after a saved candidate |
| RequirementTestTheorems.GateMismatchReopensItsCandidate | src/flow/definition.js:888-949 | a Gate result against the expectation reopens the very candidate it rejected, changes only its status, and that candidate is reviewed next |
| RequirementTestTheorems.RepairedCandidateIsNextUnlessPreceded | src/flow/lib/requirement-test-lifecycle.js:476-494 | after a repair the repaired candidate is reviewed next if and only if no staged candidate precedes it |
| RequirementTestTheorems.RepairedCandidateMayWait | src/flow/lib/requirement-test-lifecycle.js:476-494 | a run with two Requirements in which the repaired candidate is not the one reviewed next |
| RequirementTestTheorems.RunsAreBounded | src/flow/definition.js:865-949 | a run has at most 31 steps per Requirement, one more per external block and two more per uncharged Gate mismatch |
| RequirementTestTheorems.PromotionHasEvidence | src/flow/definition.js:888-949 | a promoted bundle revision was passed by a review and after that met its expectation at the Gate |
| FlowSettlement.NextTask | src/flow/definition.js:6693-6699 | the first Task from a position that is not done, skipped or deferred, and none when all of them are |
| FlowSettlement.FirstExecutable | src/flow/lib/current-flow-state.js:3516-3518 | the first pending or invalidated node in order |
| FlowSettlementProofs.Forward | src/flow/definition.js:4054-4063 | a forward route over bypassable leaves makes only declared transitions and activates its target in a state that keeps the status invariant |
| FlowSettlementProofs.Backward | src/flow/lib/step-tree.js:26-34 | a backward route resets everything from its target on, makes only declared transitions and activates its target |
| FlowSettlementProofs.Retains | src/flow/lib/current-flow-state.js:5721-5738 | an implementation repair keeps its Result, and an evidence refresh keeps the never attempted tail, while everything that consumes them is reset |
| FlowSettlementProofs.Closes | src/flow/definition.js:6831-6893 | a Review without findings closes the leaves it makes unnecessary and reaches its target, even when one of them kept its Result |
| FlowSettlementProofs.Succession | src/flow/definition.js:6693-6740 | leaving `implement` or a Task activates exactly the Task, or `test-execute`, that was selected |
| FlowSettlementProofs.ApprovalMoves | src/flow/lib/current-flow-state.js:1128-1154 | a confirmed approval moves on if and only if it adds no Tasks or the implementation leaves are untouched or were all invalidated by a plan recovery |
| FlowSettlementProofs.EveryStepApplies | src/flow/lib/current-flow-state.js:5662-5719 | every selected settlement of every leaf and Task applies, its changes of status are declared for their leaves, its target is the next executable node, and the invariant holds again; the refused approval is the only exception |
| FlowSettlementTheorems.ReachableInv | src/flow/definition.js:6067-6140 | every state of every run satisfies the status invariant |
| FlowSettlementTheorems.RunsExtend | src/flow/lib/current-flow-state.js:5662-5719 | every possible event extends every run, except a refused approval |
| FlowSettlementTheorems.PlanStatuses | src/flow/definition.js:5134-5327 | while a plan leaf is active it alone is in progress, every earlier leaf is done or skipped, every later one pending or invalidated |
| FlowSettlementTheorems.IntegrationWaitsForTasks | src/flow/definition.js:6693-6740 | whenever `test-execute` or a later leaf is active, every Task is done, skipped or deferred |
| FlowSettlementTheorems.CompletionIsTotal | src/flow/definition.js:7058-7104 | a completed Flow has every leaf done or skipped and every Task finished |
| FlowSettlementTheorems.EveryLeafCanBeActive | src/flow/definition.js:6067-6140 | no stage is dead: every one of the 39 leaves is active in some run |
| FlowSettlementTheorems.FlowsCanComplete | src/flow/definition.js:7058-7104 | some run completes, so what is said of completed runs is not empty |
| FlowSettlementTheorems.ChangedDraftRepairBlocksTasks | src/flow/lib/current-flow-state.js:1128-1154 | a run reaches an approval that cannot add its Task because a questions repair changed something |
| FlowSettlementTheorems.ApprovalDominatesImplementation | src/flow/definition.js:5231-5327 | whenever anything behind approval is active, the Spec Gate was passed or deferred and approval then confirmed, with no entry to `draft`, `spec-review` or `spec-gate-repair` since |
| FlowSettlementTheorems.StagesAreSettledInOrder | src/flow/definition.js:5108-5327 | no stage of the Flow is jumped over: behind a stage, its last settlement is younger than that of the stage it relies on |
| FlowSettlementTheorems.ReportRestsOnFreshEvidence | src/flow/definition.js:7003-7056 | when `report` is active, test-execute, test-result-review, impl-review, impl-gate, retro, acceptance-review and final-regression were last settled in this order, all after the last work on the sources |
| FlowSettlementTheorems.FindingsAreNeverBypassed | src/flow/definition.js:6831-6893 | behind the leaf that resolves the findings of a review, the last such review was clean or that leaf was settled after it |
| FlowSettlementMeanings.EveryResultLeads | src/flow/definition.js:5108-5327 | in every run each Result of each leaf leads where it means to: past its stage, to the leaf that follows, back, into the Tasks, or nowhere, and then nothing changes |
| FlowSettlementMeanings.EveryTaskLeads | src/flow/definition.js:6693-6740 | a Task that is left is closed with its outcome and the next Task, or after the last one `test-execute`, becomes active |
| FlowSettlementMeanings.NothingPassesUncleared | src/flow/definition.js:6800-6816 | whenever what follows the Draft, Spec or implementation Gate, the review of results, the retrospective or the regression is active, the last Result that left it passed, was accepted or, of a semantic failure, was continued |
| FlowSettlementMeanings.PassesExactlyWhenCleared | src/flow/definition.js:6800-6816 | these stages are passed exactly with a clearing Result; a failed implementation Gate nobody accepted or continued leaves the state as it is |
| FlowSettlementMeanings.RepairsAreReviewedAgain | src/flow/definition.js:5134-5205 | behind a repair the last review was clean, or after it a repair changed nothing, triage selected the gate or the risk was accepted: what a repair changed is always reviewed again |
| FlowSettlementMeanings.ReportRestsOnClearedEvidence | src/flow/definition.js:7003-7056 | when `report` is active the chain of evidence was settled in order after the last work on the sources, each gate and review with a Result that cleared it |
| FlowSettlementMeanings.StatusesChangeAsMeant | src/flow/lib/current-flow-state.js:5662-5738 | what a Result passes over is skipped, what it goes back behind is invalidated, an applied repair keeps its Result, a never attempted tail stays as it is, and nothing else changes |
| FlowSettlementMeanings.NoStageIsSkipped | src/flow/definition.js:6067-6140 | in every run only leaves for findings, repairs, Requirement tests and decisions are ever skipped |
| FlowSettlementMeanings.DeclaredTransitionsMove | src/flow/definition.js:6067-6140 | every declared transition changes the status, and only work in progress is ever done |
| FlowSettlementMeanings.OperationIsTheLatestRecorded | src/flow/lib/current-flow-state.js:1128-1154 | the operation Task admission asks for is the latest recovery of the plan or rewinding of evidence the run has recorded |
| FlowSettlementMeanings.TasksAreRefusedExactly | src/flow/lib/current-flow-state.js:1128-1154 | an approval that adds Tasks is refused exactly when the implementation leaves were invalidated and the latest recorded operation on them was not a recovery of the plan |
| CanonicalJsonProofs.QuotedReadable | src/flow/definition.js:1924-1930 | a quoted string (section 7 of RFC 8259) is delimited and readable: equal texts that start with one hold the same string and continue the same way |
| CanonicalJsonProofs.Readable | src/flow/definition.js:1924-1930 | unique readability of every value: a text continued by a delimiter starts with one value only |
| CanonicalJsonProofs.RenderInjective | src/flow/definition.js:1924-1930 | two values are written the same if and only if they are the same, property order included |
| CanonicalJsonProofs.SameIsEqualCanon | src/flow/definition.js:1924-1930 | for any total order of property names, two values are equal up to property order at every depth if and only if their sorted forms are equal |
| CanonicalJsonProofs.UnitOrderIsTotal | src/flow/definition.js:1924-1930 | the order in which property names are sorted is total |
| CanonicalJsonProofs.SameTextIffSame | src/flow/definition.js:1924-1930 | two values have the same canonical text if and only if they are equal up to property order |
| CanonicalJsonProofs.EnumerationOrderIsTotal | src/flow/query-values.js:18-35 | the order in which a rebuilt object enumerates its properties, array indices by value first, is total |
| CanonicalJsonProofs.RebuildIsCanon | src/flow/query-values.js:18-35 | rebuilding succeeds exactly within the nesting limit and yields the value with its properties in enumeration order at every depth |
| CanonicalJsonProofs.SameQueryTextIffSame | src/flow/query-values.js:18-35 | the texts of query digests agree if and only if the values are equal up to property order |
| CanonicalJsonTexts.CanonIsTheSortedArrangement | src/flow/definition.js:1924-1930 | the normal form of a value is the one value equal to it up to property order whose properties ascend at every depth |
| CanonicalJsonTexts.UnitOrderMeans | src/flow/definition.js:1924-1930 | a name is below another that continues it, or that has the greater code unit where they first differ |
| CanonicalJsonTexts.EnumerationMeans | src/flow/query-values.js:18-35 | names of array indices come first, by value; the others ascend |
| CanonicalJsonTexts.RebuiltUpTo32Levels | src/flow/query-values.js:18-35 | query digests are taken of values nested up to 32 levels deep and of no others |
| CanonicalJsonTexts.TextIsJson | src/flow/definition.js:1924-1930 | literals, arrays and objects are written as RFC 8259 writes them, without white space |
| CanonicalJsonTexts.StringsOfOneUnit | src/flow/definition.js:1924-1930 | every code unit is written as itself, with its named escape, or with four lower-case hexadecimal digits |
| GateIdentity.ActionsMatchIffFactsAndPlanAgree | src/flow/definition.js:1783-1794 | with a collision-free digest two Gate actions match if and only if their facts and their selected plans agree up to property order |
| GateSettlement.NextIsRequired | src/flow/registry.js:982-1028 | with the first effects of a result recorded, exactly the next required one is selected, and the store admits it |
| GateSettlement.DispositionByEvidence | src/flow/definition.js:2059-2171 | by result and evidence, exactly when a Task Gate passes, recovers, repairs, retries, defers, hands off or stops |
| GateSettlement.EffectsByDisposition | src/flow/definition.js:1954-1985 | only a pass resets the retries and finishes the step, only a retry is counted, only a recovery leaves the step alone |
| GateSettlement.OneMoreAttempt | src/flow/lib/gate-transition-facts.js:90-110 | over any Attempts of a Gate, an ordinary fresh semantic failure records exactly one retry below the limit and none at it, a pass starts over, nothing else is counted |
| GateSettlement.RetriesNeverExceedTheLimit | src/flow/lib/gate-transition-facts.js:90-110 | the recorded retries never exceed the limit, whatever the Attempts observe |
| GateSettlement.ExhaustedFailuresEnd | src/flow/definition.js:2155-2171 | with the retries used up a semantic failure without other evidence defers or is handed off in the last round and stops in any other |
| GateSettlement.OnlyTheNextIsAdmitted | src/flow/lib/canonical-flow-manager-store.js:1316-1340 | the store admits the next required effect and no other, except an issue log for a recovered result |
| GateSettlement.OnlyTheUnpublishedIsEvaluated | src/flow/definition.js:2220-2232 | evaluation is admitted exactly while no result is published |
| GateSettlement.ReconcilesWhileMissing | src/flow/definition.js:2185-2208 | for a current Gate, reconciliation is selected exactly while a required effect is missing, and always for a recovered result |
| GateSettlement.ReconcilesExactlyWhileMissing | src/flow/definition.js:2185-2232 | for a result a Task Gate can publish, reconciliation is selected while a required effect is missing and never afterwards, and evaluation is never admitted again |
| GateSettlement.RecoveredIsReconciledForever | src/flow/definition.js:2185-2208 | a recovered result, which the facts admit by type only, would still be selected for reconciliation with nothing left to do |
| GateSettlement.SettledIsPrefix | src/flow/registry.js:982-1028 | from any recorded prefix of the required effects, a run of the coordinator extends it by as many as it has time for |
| GateSettlement.EffectsAreAppliedOnceInOrder | src/flow/definition.js:3771-3787 | over any sequence of Gate calls and interrupted settlements, the recorded effects are a prefix of the required ones as long as the steps given: each once, in order, none lost or invented (one evaluation per Attempt is how publication is modelled) |
| GateSettlement.Store.Record | src/flow/lib/canonical-flow-manager-store.js:1316-1340 | an effect is recorded if and only if the store's check admits it, and a refused one changes nothing |
| GateSettlement.Store.Apply | src/flow/registry.js:982-1028 | the coordinator, resumed on any recorded prefix and cut off anywhere, is never refused and leaves the longer prefix; given time it records exactly the required effects |
| QueryTree.Structure.Walk | src/flow/query.js:207-254 | walking a subtree appends its pre-order list of views, with phase and Task handed down |
| QueryTree.Structure.constructor | src/flow/query.js:207-254 | a structure is the pre-order list of the whole state tree |
| QueryTreeValidation.TreeClimbs | src/flow/query-contract.js:279-290 | in a connected structure whose children name their parent, every parent chain ends at the root |
| QueryTreeValidation.TreeParent | src/flow/query-contract.js:253-272 | in such a structure every node but the root is listed by one node, its parent |
| QueryTreeValidation.Validation.Unique | src/flow/query-contract.js:253-272 | comparing set size with length reports an error exactly when a value repeats |
| QueryTreeValidation.Validation.CheckSameIds | src/flow/query-contract.js:248-250 | an identity list is accepted exactly when it has no repetition and the expected members |
| QueryTreeValidation.Validation.Traverse | src/flow/query-contract.js:252-272 | below a Flow root, following child references adds no error if and only if the nodes form one connected tree |
| QueryTreeValidation.Validation.Ancestors | src/flow/query-contract.js:279-286 | the upward search collects exactly the chain from a node to the root |
| QueryTreeValidation.Validation.CheckShape | src/flow/query-contract.js:242-272 | adds no error if and only if identities are unique, there is one Flow, the identity lists match and the nodes form one tree |
| QueryTreeValidation.Validation.CheckNode | src/flow/query-contract.js:273-290 | for a node of a tree adds no error if and only if its role fits its kind and its Task and phase are its nearest ancestors of that kind |
| QueryTreeValidation.Validation.CheckMetadata | src/flow/query-contract.js:242-290 | the validation accepts exactly the valid structures |
| QueryTreeAgreement.ProjectedIsTree | src/flow/query.js:207-254 | flattening a state tree with unique identities gives one connected tree |
| QueryTreeAgreement.ProjectedIsValid | src/flow/query.js:207-254 | flattening a saved state gives a valid structure: what is handed down from above is what the nearest ancestors say |
| QueryTreeAgreement.NodesAreShownAsSaved | src/flow/query.js:207-254 | every node of a saved state is shown once, with its kind, parent, children in order and the role its place gives it |
| QueryTreeAgreement.ValidateProjection | src/flow/query-contract.js:242-290 | producer and validation run together: whatever is projected from a saved state is accepted without an error |
| QueryTreeAgreement.ValidIsRooted | src/flow/query-contract.js:242-290 | in a valid structure every node but the root is listed exactly by its parent and climbs to the root |
| QueryTreeAgreement.AcceptedIsOneTree | src/flow/query-contract.js:242-290 | whatever is accepted is one rooted tree, and acceptance is validity |
| Hydration.QueryArtifactCapture.Run | src/flow/query-artifact-capture.js:19-24 | one run over captured bytes ends as the run with every artifact at hand does, or stops at an artifact that one reads and that is not captured |
| Hydration.QueryArtifactCapture.RunOrFetch | src/flow/query-artifact-capture.js:27-33 | one iteration ends the hydration with that outcome or captures one more artifact the projection reads |
| Hydration.LimitIsOnlyAMeasure | src/flow/query-artifact-capture.js:25-35 | the bound on the reads of a run is a measure only: any that suffices gives the same outcome and the same artifacts |
| Hydration.EagerEndsAsTheProjection | src/flow/query-artifact-capture.js:25-35 | the eager run ends with the value or error of the projection that has read all it asks for, or with the error of the artifact that cannot be had |
| Hydration.QueryArtifactCapture.Hydrate | src/flow/query-artifact-capture.js:25-35 | for every projection whose eager run on its source ends, the retry loop terminates with that run's outcome, after one run per fetched artifact and one more; it fetches only what the eager run reads, nothing twice, and never meets a captured path again |
| DetailClosure.EntityId | src/flow/query-details.js:163-175 | the identity of an entity starts with the prefix of its group |
| DetailClosure.MintedIsUnambiguous | src/flow/query-details.js:163-175 | because identities start with the kind of their entity, no identity is reachable in two groups, and visiting by identity alone loses nothing |
| DetailClosure.QueryDetailIndex.Add | src/flow/query-details.js:536-541 | an entity is indexed under its group and identity unless that identity stands for another one; everything indexed keeps its prefix |
| DetailClosure.Finished | src/flow/query-details.js:596-612 | when the queue is empty and no identity is shared, what is listed is exactly the reachable set and nothing dangles |
| DetailClosure.QueryDetailIndex.ClosureFor | src/flow/query-details.js:596-612 | the closure fails if and only if a reachable reference dangles, and names one; otherwise it lists exactly the reachable entities, each once |
| DetailValidation.Search | src/flow/query-contract.js:421-431 | the traversal of the response reaches only connected identities, and everything its entities mention |
| DetailValidation.CheckEntities | src/flow/query-contract.js:388-432 | adds no error if and only if identities are unique over all groups, all references resolve in their group, and every entity is connected to a direct reference |
| DetailValidation.ExactIsAccepted | src/flow/query-contract.js:388-432 | an exact closure is accepted |
| DetailValidation.AgreesWithClosure | src/flow/query-contract.js:388-432 | for entities taken from the index, acceptance by the response check is exactness of the closure |
| DetailValidation.CloseAndCheck | src/flow/query-contract.js:388-432 | both algorithms run together: the response check accepts whatever the closure returns, and there is something to accept exactly when nothing dangles |
| Base64Url.DecodeEncode | src/flow/query.js:1074-1084 | reading an encoded cursor gives back its bytes (section 5 of RFC 4648, unpadded) |
| Base64Url.EncodeInjective | src/flow/query.js:1074-1084 | different payloads have different cursor texts |
| Paging.CursorIsBound | src/flow/query.js:1086-1143 | a cursor is accepted by its own query on its own snapshot with its own position; another query is a mismatch, another snapshot a change |
| Paging.IssuedCursorStarts | src/flow/query.js:1333-1346 | a request with an issued cursor starts behind its position if the projector knows it, and each refusal is named |
| Paging.OnlyCursorsAreValid | src/flow/query.js:1086-1143 | a text that is not refused as invalid is a cursor issued for some query, snapshot and position |
| Paging.FillPage | src/flow/query.js:1355-1366 | a page takes the longest run of remaining items within the limit all of whose prefixes fit, and fails exactly when the first item alone does not fit |
| Paging.CursorResumes | src/flow/query-executions.js:736-740 | the cursor at item n continues with exactly what follows item n |
| Paging.NextPage | src/flow/query.js:1333-1368 | a page of a readable selection takes at least one item if there is one, passes the page checks and points to where it ends |
| Paging.FollowCursors | src/flow/query-contract.js:347-353 | following `endCursor` yields the selection in order without gap or duplicate, in at most one page per item, and one page when there is none; every page passes the page checks |
| LedgerPrefix.SameRecords | src/flow/query.js:1015-1049 | the records at the start of a ledger are determined by its bytes |
| LedgerPrefix.ReadConfirmedLedger | src/flow/query.js:1015-1049 | succeeds exactly if the ledger starts with as many valid records as are confirmed, with orders from 1 on and distinct identities, and returns their Activities and exactly their bytes |
| LedgerPrefix.RestIsIgnored | src/flow/query.js:1015-1049 | the records read are the same whatever follows them |
| LedgerPrefix.FewerIsPrefix | src/flow/query.js:1015-1049 | reading fewer records gives a prefix of what reading more of them gives |
| SnapshotRead.OpensWell | src/lib/flow-version.js:1400-1494 | the captured execution held at both ends of the capture, the catalog was committed before it; a quiet world is captured |
| SnapshotRead.ReadsWell | src/flow/query.js:872-891 | inventory, projection and execution of a response held together throughout its capture; a read fails only when something changed or the Version is absent |
| SnapshotRead.OpensOnceReads | src/lib/flow-version.js:1400-1494 | one attempt reads catalog, execution, execution and, when these differ, the catalog again; it is repeated exactly when both have changed |
| SnapshotRead.OpensAtTheFirst | src/lib/flow-version.js:1400-1494 | opening ends with the first attempt under which execution sources and catalog do not both change |
| SnapshotRead.OpensUntilExhausted | src/lib/flow-version.js:1400-1494 | opening fails after all attempts when both change under every one of them |
| SnapshotRead.UnstableMeansEveryAttemptChanged | src/flow/query.js:872-891 | a read that gives up as unstable has made every allowed attempt, and something changed during each |
| SnapshotRead.QuietAttemptSucceeds | src/flow/query.js:872-891 | one quiet attempt among those allowed is enough, if the Version is in the inventory up to its end |
| SnapshotRead.Reader.Open | src/lib/flow-version.js:1400-1494 | opening does exactly what the step function says, attempt by attempt |
| SnapshotRead.Reader.Read | src/flow/query.js:872-891 | reading does exactly what the step function says, within the attempts allowed; what it returns held together at one instant of the read |
| SnapshotRead.CatalogMayBeOlder | src/lib/flow-version.js:1473-1476 | a concrete read that returns a catalog and an execution that never held together |
| SnapshotRead.CatalogHoldsTooIff | src/lib/flow-version.js:1473-1476 | with a forward-moving catalog all four values held together at some instant if and only if the catalog was still committed when the captured execution first showed |
| SnapshotRead.RereadingDecides | src/lib/flow-version.js:1473-1476 | reading the catalog again at the end of the capture gives the returned one if and only if all four values still hold together from then on |
| ExecutionSummaries.SummaryIsPartitioned | src/flow/query-executions.js:226-258 | confirmed, not started and unknown starts add up to the provider attempts, and so do measured and unknown subjects of every usage field |
| ExecutionSummaries.SummaryOfOne | src/flow/query-executions.js:226-258 | the summary of one item, figure by figure: kind, cache hit and start counted, recorded values and durations taken over |
| ExecutionSummaries.SummaryOfBoth | src/flow/query-executions.js:226-258 | the summary of two lists together is the sum of their summaries |
| ExecutionSummaries.SelectedExactly | src/flow/query-executions.js:645-649 | selecting keeps exactly the items of the nodes and, if one is named, of the Attempt, as often as they stand |
| ExecutionSummaries.SelectedAppends | src/flow/query-executions.js:645-649 | and in their order |
| ExecutionSummaries.Visit | src/flow/query-executions.js:631-643 | visiting adds exactly the identities below a node |
| ExecutionSummaries.TargetNodes | src/flow/query-executions.js:631-643 | a target selects its node, or the node and everything below it |
| ExecutionSummaries.SummariesAddUp | src/flow/query-executions.js:226-258 | over disjoint node sets every count and every total adds up |
| ExecutionSummaries.SummaryIsConserved | src/flow/query-executions.js:226-258 | the summary of a node with its descendants is that of the node alone plus those of its children with their descendants |
| ReviewRetries.AttemptsStep | src/flow/definition.js:3478-3486 | one more metric resets the attempts of its phase, adds its delta, or is passed over |
| ReviewRetries.CountReviewAttempts | src/flow/definition.js:3478-3486 | the loop counts exactly the deltas behind the last reset of the phase |
| ReviewRetries.OneMoreMetric | src/flow/definition.js:3478-3486 | a review retry counts its delta, one where none is recorded; a reset starts over; metrics of a Task, another counter or phase change nothing |
| ReviewRetries.DispositionByOutcome | src/flow/definition.js:3493-3545 | by verdict, outcome and attempts, exactly when a Review is retried, deferred, blocked, blocked externally or left alone |
| ReviewRetries.RejectionsAreRetriedUpToTheLimit | src/flow/definition.js:3526-3545 | the k-th rejection in a row is retried if and only if k is below the limit, and otherwise deferred where that is available, or blocked |
| ReviewRetries.ProjectionAgreesWithResolver | src/flow/definition.js:3619-3624 | exhaustion projected before a rejection is recorded holds if and only if the resolver, after its metric is appended, no longer selects retry |

## Left out

- SnapshotRead.Reader.Read: states one common instant for inventory, projection and execution only; the catalog is bound to an earlier instant, because the code does not compare it again after a successful capture (the exact condition is `CatalogHoldsTooIff`). Sources are registers read at an instant; artifact verification against the catalog and retries for other failures are not modelled.
- GateSettlement.ReconcilesWhileMissing: takes the facts of one Attempt as fixed, so it does not cover a classification that changes between two reads. Whether the retries are used up is counted from the recorded retries of the Gate's Attempts; tooling consumption is not modelled. The issue-log entry written together with a publication, evidence binding checks and the spec, draft and integration phases are not modelled.
- FlowSettlementProofs.EveryStepApplies: covers Results with a Definition-selected settlement. Failed statuses, error Results and their retries, nonblocking continue decisions, and finalization downstream Activities are decided in other files and not modelled; the frontier a Result captured is taken to be that of the current state. A Requirement-test decision may have any target there; which target is selected is the subject of `RequirementTests`.
- FlowSettlementTheorems.IntegrationWaitsForTasks: a Task is one position that moves inside itself or leaves as done or deferred; the leaves of a Task's review funnel, and which transitions a Task reset makes, are not modelled. The preceding Activities Task admission asks for are reduced to the latest operation on the implementation leaves.
- RequirementTestTheorems.SavedResultReplays: all items share one plan revision; equality of Spec revisions and digests other than the bundle's are not modelled.
- CanonicalJsonProofs.SameQueryTextIffSame: response and identity byte limits, `undefined` and non-finite numbers are not modelled; a number is carried as the text JavaScript gives for it.
- GateIdentity.ActionsMatchIffFactsAndPlanAgree: SHA-256 is a collision-free function by hypothesis; the properties of the facts the identity does not repeat stand in one JSON value.
- QueryTreeValidation.Validation.CheckMetadata: display names, coverage labels, definition Step ids, results, relationships, locations and artifacts of a node are not checked; one method of the source is several here.
- DetailClosure.QueryDetailIndex.ClosureFor: resolving a reference to a detail, the Step-specific projectors and the findings-mirror fallback are not modelled.
- DetailValidation.CheckEntities: per-entity source checks and reference bindings are not modelled.
- Paging.CursorIsBound: payload size limits, and field formats beyond a well-formed position, are not modelled; the record codec and its digest are parameters, and executions cursors are modelled by the same record.
- Paging.FollowCursors: date filtering and sorting come before it (the selection is given in order); as in the source, the size of a response without items is not checked.
- Hydration.QueryArtifactCapture.Hydrate: captured values that are not bytes, and projections that catch the request for an artifact themselves, are not modelled.
- LedgerPrefix.ReadConfirmedLedger: JSON parsing and the Activity constructor are one parameter.
- ExecutionSummaries.SummaryIsConserved: totals are integers (the source adds floating-point numbers); observed spans, legacy and unassigned metric counts, completeness labels and targets that name an absent node or Attempt are not modelled.
- ReviewRetries.ProjectionAgreesWithResolver: the maximum number of attempts is a parameter; draft, spec and test phases have policies of their own.
- `resolveRetryRecovery`, `resolveFinalizationRecovery` and `resolveSourceHandoffTransitionPlan`: small finite decision tables.
- File, Git and process plumbing, the command line, help, documentation data and presets.
