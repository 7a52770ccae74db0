/**
 The settlement state machine: a saved Result of the active leaf selects a settlement (`Settle`), and
 a settlement moves the Flow (`Apply`). Leaves are numbered in Definition order; the dynamic Tasks
 stand between `implement` and `test-execute`. A thrown error is a `Failure`.
*/
module FlowSettlement {
  import opened Wrappers

  const LEAVES := 39
  type Leaf = n: nat | n < LEAVES

  const BRANCH: Leaf := 0
  const PREPARE_SPEC: Leaf := 1
  const DRAFT: Leaf := 2
  const QUESTIONS_REVIEW: Leaf := 3
  const QUESTIONS_TRIAGE: Leaf := 4
  const QUESTIONS_REPAIR: Leaf := 5
  const DRAFT_REFINE: Leaf := 6
  const DRAFT_GATE_REPAIR: Leaf := 7
  const COVERAGE_REVIEW: Leaf := 8
  const COVERAGE_TRIAGE: Leaf := 9
  const COVERAGE_REPAIR: Leaf := 10
  const DRAFT_GATE: Leaf := 11
  const SPEC: Leaf := 12
  const SPEC_REVIEW: Leaf := 13
  const SPEC_TRIAGE: Leaf := 14
  const SPEC_REPAIR: Leaf := 15
  const SPEC_GATE: Leaf := 16
  const SPEC_GATE_REPAIR: Leaf := 17
  const APPROVAL: Leaf := 18
  const TEST_GENERATE: Leaf := 19
  const TEST_REVIEW: Leaf := 20
  const TEST_REPAIR: Leaf := 21
  const TEST_GATE: Leaf := 22
  const IMPLEMENT: Leaf := 23
  const TEST_EXECUTE: Leaf := 24
  const TEST_RESULT_REVIEW: Leaf := 25
  const IMPL_REVIEW: Leaf := 26
  const IMPL_TRIAGE: Leaf := 27
  const IMPL_REPAIR: Leaf := 28
  const IMPL_GATE: Leaf := 29
  const RETRO: Leaf := 30
  const ACCEPTANCE_REVIEW: Leaf := 31
  const ACCEPTANCE_DECISION: Leaf := 32
  const FINAL_REGRESSION: Leaf := 33
  const REPORT: Leaf := 34
  const FINALIZE_COMMIT: Leaf := 35
  const FINALIZE_MERGE: Leaf := 36
  const FINALIZE_SYNC: Leaf := 37
  const FINALIZE_CLEANUP: Leaf := 38

  datatype Status = Pending | InProgress | Done | Skipped | Invalidated | Deferred

  predicate Executable(s: Status) {
    s == Pending || s == Invalidated
  }

  /** A Task in this status is passed over when the next Task is selected. */
  predicate TaskTerminal(s: Status) {
    s == Done || s == Skipped || s == Deferred
  }

  /** Leaves a selected route may bypass before they ran. */
  predicate Bypassable(leaf: Leaf) {
    || leaf in {QUESTIONS_TRIAGE, QUESTIONS_REPAIR, COVERAGE_TRIAGE, COVERAGE_REPAIR}
    || leaf in {DRAFT_REFINE, DRAFT_GATE_REPAIR, SPEC_GATE_REPAIR, IMPL_REPAIR}
    || TEST_GENERATE <= leaf <= TEST_GATE
  }

  /** The transitions the Definition declares for one leaf; the failed status is not modelled. */
  predicate Declared(leaf: Leaf, from: Status, to: Status) {
    match to
    case InProgress => from in {Pending, Done, Skipped, Invalidated}
    case Done => from == InProgress || (leaf == IMPLEMENT && from == Pending)
    case Invalidated => from in {Pending, InProgress, Done, Skipped}
    case Skipped =>
      || (Executable(from) && Bypassable(leaf))
      || (from == Pending && leaf in {FINALIZE_SYNC, FINALIZE_CLEANUP})
      || (from == InProgress && leaf in {BRANCH, FINALIZE_SYNC, ACCEPTANCE_DECISION})
      || (from == InProgress && leaf in {QUESTIONS_TRIAGE, QUESTIONS_REPAIR, COVERAGE_TRIAGE, COVERAGE_REPAIR})
    case Pending => from == Skipped && leaf in {FINALIZE_SYNC, FINALIZE_CLEANUP}
    case Deferred => false
  }

  /** Leaves one Result kind may close although they never ran, by the leaf that produced the Result. */
  predicate ClosesUnexecuted(source: Leaf, leaf: Leaf) {
    || (source == IMPL_REVIEW && leaf in {IMPL_TRIAGE, IMPL_REPAIR})
    || (source == ACCEPTANCE_REVIEW && leaf == ACCEPTANCE_DECISION)
  }

  datatype Position = At(leaf: Leaf) | InTask(task: nat) | Parked | Completed

  /** The latest operation that invalidated the implementation suffix, as Task admission asks for it. */
  datatype SuffixOperation = NoSuffixOperation | PlanRecovery | EvidenceRewind

  datatype State = State(leaves: seq<Status>, tasks: seq<Status>, active: Position, suffix: SuffixOperation)

  function Initial(): State {
    State([InProgress] + seq(LEAVES - 1, _ => Pending), [], At(BRANCH), NoSuffixOperation)
  }

  // ---------------------------------------------------------------- Results and settlements

  datatype ImplGateMeaning = GatePassed | GateAwaiting | GateEvidenceRefresh | GateSemanticFailure
  datatype RegressionMeaning = RegressionPassed | RegressionPolicySkipped | RegressionFailureAccepted
                             | RegressionRepairable | RegressionUndecided | RegressionBlocked

  datatype StepResult =
    | ExecutionRequired
    // preparation
    | BranchPrepared | BranchNotRequired | PrepareSpecReady
    // draft
    | DraftCreated
    | QuestionsPassed | QuestionsFindings | QuestionsTriaged | QuestionsRepaired(changed: bool)
    | RefineAwaitingAnswer | RefineCompleted
    | CoveragePassed | CoverageFindings | CoverageTriaged | CoverageRepaired(changed: bool)
    | DraftGatePassed | DraftGateCarriedForward | DraftGateRepairRequired
    | DraftGateRepairApplied | DraftGateRepairCarriedForward
    // spec
    | SpecCreated | SpecReviewed | SpecTriaged | SpecRepaired
    | SpecGatePassed | SpecGateDeferred | SpecGateRepairRequired | SpecGateAwaiting
    | SpecRepairReadyForGate | SpecRepairReviewRequired | SpecRepairDraftReturn
    // approval and Requirement tests
    | ApprovalAwaiting | ApprovalConfirmed(withTests: bool, addedTasks: nat)
    | TestContinuation | TestDecision(testTarget: Leaf)
    // implementation
    | Implemented | TaskStageMoved | TaskLeft(outcome: Status)
    | TestObserved | EvidenceAccepted | EvidenceRejected(rejectionAccepted: bool, retry: bool)
    | ReviewCleared | ReviewTooling(riskAccepted: bool) | ReviewRejected
    | TriageSelectedRepair | TriageSelectedGate | RepairApplied
    | ImplGate(meaning: ImplGateMeaning, gateAccepted: bool, continued: bool)
    // acceptance
    | RetroAggregated | RetroIncomplete(retroAccepted: bool) | RetroEvidenceRefresh
    | AcceptancePassed | AcceptanceHeld | AcceptanceRepairRequired | AcceptanceDecisionRequired
    | RiskAccepted | DecisionAwaiting | DecisionAborted
    | Regression(regression: RegressionMeaning, sourceCurrent: bool, regressionAccepted: bool)
    | ReportGenerated
    // finalization
    | Committed | Merged | MergePullRequestOpened | SyncSettled | CleanedUp

  /** The leaf a Result belongs to; only the active leaf may settle its own Results. */
  predicate BelongsTo(r: StepResult, leaf: Leaf) {
    match r
    case ExecutionRequired => leaf > PREPARE_SPEC
    case BranchPrepared | BranchNotRequired => leaf == BRANCH
    case PrepareSpecReady => leaf == PREPARE_SPEC
    case DraftCreated => leaf == DRAFT
    case QuestionsPassed | QuestionsFindings => leaf == QUESTIONS_REVIEW
    case QuestionsTriaged => leaf == QUESTIONS_TRIAGE
    case QuestionsRepaired(_) => leaf == QUESTIONS_REPAIR
    case RefineAwaitingAnswer | RefineCompleted => leaf == DRAFT_REFINE
    case CoveragePassed | CoverageFindings => leaf == COVERAGE_REVIEW
    case CoverageTriaged => leaf == COVERAGE_TRIAGE
    case CoverageRepaired(_) => leaf == COVERAGE_REPAIR
    case DraftGatePassed | DraftGateCarriedForward | DraftGateRepairRequired => leaf == DRAFT_GATE
    case DraftGateRepairApplied | DraftGateRepairCarriedForward => leaf == DRAFT_GATE_REPAIR
    case SpecCreated => leaf == SPEC
    case SpecReviewed => leaf == SPEC_REVIEW
    case SpecTriaged => leaf == SPEC_TRIAGE
    case SpecRepaired => leaf == SPEC_REPAIR
    case SpecGatePassed | SpecGateDeferred | SpecGateRepairRequired | SpecGateAwaiting => leaf == SPEC_GATE
    case SpecRepairReadyForGate | SpecRepairReviewRequired | SpecRepairDraftReturn => leaf == SPEC_GATE_REPAIR
    case ApprovalAwaiting | ApprovalConfirmed(_, _) => leaf == APPROVAL
    case TestContinuation => leaf == TEST_GENERATE
    case TestDecision(target) => TEST_GENERATE <= leaf <= TEST_GATE && TEST_GENERATE <= target <= IMPLEMENT
    case Implemented => leaf == IMPLEMENT
    case TaskStageMoved | TaskLeft(_) => false
    case TestObserved => leaf == TEST_EXECUTE
    case EvidenceAccepted | EvidenceRejected(_, _) => leaf == TEST_RESULT_REVIEW
    case ReviewCleared | ReviewTooling(_) | ReviewRejected => leaf == IMPL_REVIEW
    case TriageSelectedRepair | TriageSelectedGate => leaf == IMPL_TRIAGE
    case RepairApplied => leaf == IMPL_REPAIR
    case ImplGate(_, _, _) => leaf == IMPL_GATE
    case RetroAggregated | RetroIncomplete(_) | RetroEvidenceRefresh => leaf == RETRO
    case AcceptancePassed | AcceptanceHeld | AcceptanceRepairRequired | AcceptanceDecisionRequired =>
      leaf == ACCEPTANCE_REVIEW
    case RiskAccepted | DecisionAwaiting | DecisionAborted => leaf == ACCEPTANCE_DECISION
    case Regression(_, _, _) => leaf == FINAL_REGRESSION
    case ReportGenerated => leaf == REPORT
    case Committed => leaf == FINALIZE_COMMIT
    case Merged | MergePullRequestOpened => leaf == FINALIZE_MERGE
    case SyncSettled => leaf == FINALIZE_SYNC
    case CleanedUp => leaf == FINALIZE_CLEANUP
  }

  /** A Result the active step can save. */
  predicate Admissible(s: State, r: StepResult) {
    match s.active
    case At(leaf) => BelongsTo(r, leaf)
    case InTask(task) => task < |s.tasks| && (r in {ExecutionRequired, TaskStageMoved} || (r.TaskLeft? && r.outcome in {Done, Deferred}))
    case Parked | Completed => false
  }

  datatype Effects = Effects(skips: set<Leaf>, resets: set<Leaf>, completions: set<Leaf>)

  const NO_EFFECTS := Effects({}, {}, {})

  datatype Settlement =
    | Route(target: Leaf, effects: Effects)
    | ToTask(task: nat)
    | WithinTask
    | Execution | Await | Blocked | Park | Completion

  /** The leaves from `from` up to but not including `to`. */
  function Between(from: nat, to: nat): (r: set<Leaf>)
    requires to <= LEAVES
    ensures forall i: Leaf :: i in r <==> from <= i < to
    decreases LEAVES + 1 - from
  {
    if from >= to then {} else {from} + Between(from + 1, to)
  }

  function From(leaf: Leaf): set<Leaf> {
    Between(leaf, LEAVES)
  }

  /** The contiguous effects between two leaves: a forward route bypasses what lies between, any other resets the suffix. */
  function Contiguous(source: Leaf, target: Leaf): Effects {
    if source < target then NO_EFFECTS.(skips := Between(source + 1, target))
    else NO_EFFECTS.(resets := From(target))
  }

  function Connect(source: Leaf, target: Leaf): Settlement {
    Route(target, Contiguous(source, target))
  }

  /** The same resets without the source, which keeps its Result. */
  function RetainingSource(source: Leaf, target: Leaf): Settlement {
    Route(target, NO_EFFECTS.(resets := Contiguous(source, target).resets - {source}))
  }

  function Closing(s: State, candidates: set<Leaf>): Effects
    requires |s.leaves| == LEAVES
  {
    NO_EFFECTS.(completions := set i: Leaf | i in candidates && Executable(s.leaves[i]))
  }

  /** The first Task after position `from - 1` that is not terminal, `|tasks|` when there is none. */
  function NextTask(tasks: seq<Status>, from: nat): (k: nat)
    requires from <= |tasks|
    ensures from <= k <= |tasks|
    ensures forall i | from <= i < k :: TaskTerminal(tasks[i])
    ensures k < |tasks| ==> !TaskTerminal(tasks[k])
    decreases |tasks| - from
  {
    if from == |tasks| || !TaskTerminal(tasks[from]) then from else NextTask(tasks, from + 1)
  }

  function ToNextTask(s: State, from: nat): Settlement
    requires from <= |s.tasks|
  {
    var k := NextTask(s.tasks, from);
    if k < |s.tasks| then ToTask(k) else Route(TEST_EXECUTE, NO_EFFECTS)
  }

  /** Preparation and Draft. */
  function SettlePlan(leaf: Leaf, r: StepResult): Settlement {
    match r
    case BranchPrepared | BranchNotRequired => Route(PREPARE_SPEC, NO_EFFECTS)
    case PrepareSpecReady => Route(DRAFT, NO_EFFECTS)
    case DraftCreated => Connect(leaf, QUESTIONS_REVIEW)
    case QuestionsPassed => Connect(leaf, DRAFT_REFINE)
    case QuestionsFindings => Connect(leaf, QUESTIONS_TRIAGE)
    case QuestionsTriaged => Connect(leaf, QUESTIONS_REPAIR)
    case QuestionsRepaired(changed) => Connect(leaf, if changed then QUESTIONS_REVIEW else DRAFT_REFINE)
    case RefineAwaitingAnswer => Await
    case RefineCompleted => Connect(leaf, COVERAGE_REVIEW)
    case CoveragePassed => Connect(leaf, DRAFT_GATE)
    case CoverageFindings => Connect(leaf, COVERAGE_TRIAGE)
    case CoverageTriaged => Connect(leaf, COVERAGE_REPAIR)
    case CoverageRepaired(changed) => Connect(leaf, if changed then COVERAGE_REVIEW else DRAFT_GATE)
    case DraftGateRepairRequired => Connect(leaf, DRAFT_GATE_REPAIR)
    case DraftGatePassed | DraftGateCarriedForward => Connect(leaf, SPEC)
    case DraftGateRepairApplied | DraftGateRepairCarriedForward => Connect(leaf, COVERAGE_REVIEW)
    case _ => Execution
  }

  /** Spec, approval and Requirement tests. */
  function SettleSpec(leaf: Leaf, r: StepResult): Settlement {
    match r
    case SpecGatePassed | SpecGateDeferred => Connect(leaf, APPROVAL)
    case SpecGateRepairRequired => Route(SPEC_GATE_REPAIR, NO_EFFECTS.(resets := {SPEC_GATE_REPAIR, SPEC_GATE}))
    case SpecRepairReadyForGate => Route(SPEC_GATE, NO_EFFECTS.(resets := {SPEC_GATE, SPEC_GATE_REPAIR}))
    case SpecRepairReviewRequired => Route(SPEC_REVIEW, NO_EFFECTS.(resets := From(SPEC_REVIEW)))
    case SpecRepairDraftReturn => Route(DRAFT, NO_EFFECTS.(resets := From(DRAFT)))
    case SpecGateAwaiting | ApprovalAwaiting => Await
    case SpecCreated => Connect(leaf, SPEC_REVIEW)
    case SpecReviewed => Connect(leaf, SPEC_TRIAGE)
    case SpecTriaged => Connect(leaf, SPEC_REPAIR)
    case SpecRepaired => Connect(leaf, SPEC_GATE)
    case ApprovalConfirmed(withTests, _) => Connect(leaf, if withTests then TEST_GENERATE else IMPLEMENT)
    case TestDecision(target) => Connect(leaf, target)
    case _ => Execution
  }

  /** Implementation; the observed frontier of triage, repair and Tasks is the one of the current state. */
  function SettleImpl(s: State, leaf: Leaf, r: StepResult): Settlement
    requires |s.leaves| == LEAVES
  {
    match r
    case Implemented => ToNextTask(s, 0)
    case TestObserved => Connect(leaf, TEST_RESULT_REVIEW)
    case EvidenceAccepted => Connect(leaf, IMPL_REVIEW)
    case EvidenceRejected(accepted, retry) =>
      if accepted then Connect(leaf, IMPL_REVIEW) else if retry then Execution else Await
    case ReviewCleared => Route(IMPL_GATE, Closing(s, {IMPL_TRIAGE, IMPL_REPAIR}))
    case ReviewTooling(accepted) =>
      if accepted then Route(IMPL_GATE, Closing(s, {IMPL_TRIAGE, IMPL_REPAIR})) else Await
    case ReviewRejected => Route(IMPL_TRIAGE, NO_EFFECTS.(resets := From(IMPL_TRIAGE)))
    case TriageSelectedRepair => Connect(leaf, IMPL_REPAIR)
    case TriageSelectedGate => Connect(leaf, IMPL_GATE)
    case RepairApplied => RetainingSource(leaf, TEST_EXECUTE)
    case ImplGate(meaning, accepted, continued) =>
      if meaning.GatePassed? || accepted || (meaning.GateSemanticFailure? && continued) then Connect(leaf, RETRO)
      else if meaning.GateEvidenceRefresh? then Connect(leaf, TEST_EXECUTE)
      else if meaning.GateAwaiting? then Await
      else Execution
    case _ => Execution
  }

  function SettleRegression(r: StepResult): Settlement
    requires r.Regression?
  {
    if !r.sourceCurrent then Blocked
    else if r.regressionAccepted then Route(REPORT, NO_EFFECTS)
    else match r.regression
      case RegressionPassed | RegressionPolicySkipped | RegressionFailureAccepted => Route(REPORT, NO_EFFECTS)
      case RegressionRepairable => Execution
      case RegressionUndecided => Await
      case RegressionBlocked => Blocked
  }

  /** Acceptance and finalization. */
  function SettleAcceptance(s: State, leaf: Leaf, r: StepResult): Settlement
    requires |s.leaves| == LEAVES
  {
    match r
    case RetroAggregated => Route(ACCEPTANCE_REVIEW, NO_EFFECTS)
    case RetroIncomplete(accepted) => if accepted then Route(ACCEPTANCE_REVIEW, NO_EFFECTS) else Await
    case RetroEvidenceRefresh => RetainingSource(leaf, TEST_EXECUTE)
    case AcceptanceHeld | DecisionAwaiting => Await
    case AcceptancePassed => Route(FINAL_REGRESSION, Closing(s, {ACCEPTANCE_DECISION}))
    case AcceptanceRepairRequired => Connect(leaf, IMPL_TRIAGE)
    case AcceptanceDecisionRequired => Route(ACCEPTANCE_DECISION, NO_EFFECTS)
    case RiskAccepted => Route(FINAL_REGRESSION, NO_EFFECTS)
    case DecisionAborted => Park
    case Regression(_, _, _) => SettleRegression(r)
    case ReportGenerated => Route(FINALIZE_COMMIT, NO_EFFECTS)
    case Committed => Route(FINALIZE_MERGE, NO_EFFECTS)
    case Merged => Route(FINALIZE_SYNC, NO_EFFECTS)
    case MergePullRequestOpened => Await
    case SyncSettled => Route(FINALIZE_CLEANUP, NO_EFFECTS)
    case CleanedUp => Completion
    case _ => Execution
  }

  function SettleTask(s: State, task: nat, r: StepResult): Settlement
    requires task < |s.tasks|
  {
    match r
    case TaskLeft(_) => ToNextTask(s, task + 1)
    case TaskStageMoved => WithinTask
    case _ => Execution
  }

  function Settle(s: State, r: StepResult): Settlement
    requires |s.leaves| == LEAVES && Admissible(s, r)
  {
    match s.active
    case InTask(task) => SettleTask(s, task, r)
    case At(leaf) =>
      if leaf < SPEC then SettlePlan(leaf, r)
      else if leaf < IMPLEMENT then SettleSpec(leaf, r)
      else if leaf < RETRO then SettleImpl(s, leaf, r)
      else SettleAcceptance(s, leaf, r)
    case Parked | Completed => Execution
  }

  // ---------------------------------------------------------------- applying a settlement

  /** The least index from `from` on with an executable status, `|statuses|` when there is none. */
  function FirstExecutable(statuses: seq<Status>, from: nat): (k: nat)
    requires from <= |statuses|
    ensures from <= k <= |statuses|
    ensures forall i | from <= i < k :: !Executable(statuses[i])
    ensures k < |statuses| ==> Executable(statuses[k])
    decreases |statuses| - from
  {
    if from == |statuses| || Executable(statuses[from]) then from else FirstExecutable(statuses, from + 1)
  }

  /** The next leaf or Task to execute, in tree order: the Tasks follow `implement`. */
  function NextExecutable(leaves: seq<Status>, tasks: seq<Status>): Position
    requires |leaves| == LEAVES
  {
    var leaf := FirstExecutable(leaves, 0);
    var task := FirstExecutable(tasks, 0);
    if leaf <= IMPLEMENT then At(leaf)
    else if task < |tasks| then InTask(task)
    else if leaf < LEAVES then At(leaf)
    else Completed
  }

  /** How a route treats the leaf it leaves and the leaves it resets. */
  datatype Mode = Mode(sourceStatus: Status, keepsPendingTail: bool)

  const CONFIRMED := Mode(Done, false)

  predicate Resets(leaves: seq<Status>, source: Leaf, e: Effects, mode: Mode, i: Leaf)
    requires |leaves| == LEAVES
  {
    i in e.resets && !(mode.keepsPendingTail && source < i && leaves[i] == Pending)
  }

  function StatusAfter(leaves: seq<Status>, source: Leaf, e: Effects, mode: Mode, i: Leaf): Status
    requires |leaves| == LEAVES
  {
    if i in e.skips || i in e.completions then Skipped
    else if Resets(leaves, source, e, mode, i) then Invalidated
    else if i == source then mode.sourceStatus
    else leaves[i]
  }

  function LeavesAfter(leaves: seq<Status>, source: Leaf, e: Effects, mode: Mode): (after: seq<Status>)
    requires |leaves| == LEAVES
    ensures |after| == LEAVES
    ensures forall i: Leaf :: after[i] == StatusAfter(leaves, source, e, mode, i)
  {
    seq(LEAVES, i requires 0 <= i < LEAVES => StatusAfter(leaves, source, e, mode, i))
  }

  /** Every single change of status a route makes has to be declared for its leaf. */
  predicate EffectDeclared(leaves: seq<Status>, source: Leaf, e: Effects, mode: Mode, i: Leaf)
    requires |leaves| == LEAVES
  {
    && (i in e.skips ==> Executable(leaves[i]) && Declared(i, leaves[i], Skipped))
    && (i in e.completions ==> Executable(leaves[i]) && ClosesUnexecuted(source, i))
    && (Resets(leaves, source, e, mode, i) ==>
          var was := if i == source then mode.sourceStatus else leaves[i];
          was == Invalidated || Declared(i, was, Invalidated))
  }

  predicate EffectsDeclared(leaves: seq<Status>, source: Leaf, e: Effects, mode: Mode)
    requires |leaves| == LEAVES
  {
    && Declared(source, leaves[source], mode.sourceStatus)
    && forall i: Leaf :: EffectDeclared(leaves, source, e, mode, i)
  }

  /** The executable leaf or Task `position` becomes the only active one. */
  function Activate(s: State, position: Position): (after: Result<State>)
    requires |s.leaves| == LEAVES
    ensures after.Success? ==> |after.value.leaves| == LEAVES && after.value.active == position
    ensures after.Success? ==> after.value.suffix == s.suffix
    ensures after.Success? && position.At? ==> after.value.tasks == s.tasks
  {
    if NextExecutable(s.leaves, s.tasks) != position then Failure("the route did not reach its selected successor")
    else match position
      case At(leaf) =>
        if Declared(leaf, s.leaves[leaf], InProgress) then Success(s.(leaves := s.leaves[leaf := InProgress], active := position))
        else Failure("the Definition forbids a transition of the route")
      case InTask(task) =>
        if task < |s.tasks| then Success(s.(tasks := s.tasks[task := InProgress], active := position))
        else Failure("the route target is absent")
      case _ => Failure("the route target is absent")
  }

  function FollowRoute(s: State, source: Leaf, target: Leaf, e: Effects, mode: Mode): (after: Result<State>)
    requires |s.leaves| == LEAVES
    ensures after.Success? ==> |after.value.leaves| == LEAVES && after.value.active == At(target)
    ensures after.Success? ==> after.value.tasks == s.tasks && after.value.suffix == s.suffix
  {
    if !EffectsDeclared(s.leaves, source, e, mode) then Failure("the Definition forbids a transition of the route")
    else Activate(s.(leaves := LeavesAfter(s.leaves, source, e, mode)), At(target))
  }

  function InvalidatedTasks(tasks: seq<Status>): (r: seq<Status>)
    ensures |r| == |tasks| && forall i | 0 <= i < |r| :: r[i] == Invalidated
  {
    seq(|tasks|, i => Invalidated)
  }

  /** Task admission at approval: the leaves behind `implement` are untouched, or a plan recovery invalidated them all. */
  predicate AdmitsTasks(s: State)
    requires |s.leaves| == LEAVES
  {
    || (forall i: Leaf | TEST_EXECUTE <= i <= IMPL_GATE :: s.leaves[i] == Pending)
    || ((forall i: Leaf | TEST_EXECUTE <= i <= IMPL_GATE :: s.leaves[i] == Invalidated) && s.suffix == PlanRecovery)
  }

  function ConfirmApproval(s: State, addedTasks: nat, target: Leaf, e: Effects): (after: Result<State>)
    requires |s.leaves| == LEAVES
    ensures after.Success? ==> |after.value.leaves| == LEAVES && after.value.active == At(target)
  {
    if addedTasks > 0 && !AdmitsTasks(s) then Failure("approval Task admission requires a plan recovery route")
    else FollowRoute(s.(tasks := s.tasks + seq(addedTasks, i => Pending)), APPROVAL, target, e, CONFIRMED)
  }

  /** The Spec Gate keeps its confirmation; everything from its repair on, Tasks included, is reset. */
  function RestartSpecGateRepair(s: State): (after: Result<State>)
    requires |s.leaves| == LEAVES
    ensures after.Success? ==> |after.value.leaves| == LEAVES && after.value.active == At(SPEC_GATE_REPAIR)
  {
    FollowRoute(s.(tasks := InvalidatedTasks(s.tasks), suffix := PlanRecovery), SPEC_GATE, SPEC_GATE_REPAIR,
                NO_EFFECTS.(resets := From(SPEC_GATE_REPAIR)), CONFIRMED)
  }

  /** Draft is reopened from any later leaf or Task. */
  function ReopenDraft(s: State): (after: Result<State>)
    requires |s.leaves| == LEAVES
    ensures after.Success? ==> |after.value.leaves| == LEAVES && after.value.active == At(DRAFT)
  {
    if !(s.active.InTask? || (s.active.At? && s.active.leaf > DRAFT)) then Failure("draft reopen requires a later active Attempt")
    else if exists i: Leaf | DRAFT <= i :: !(s.leaves[i] == Invalidated || Declared(i, s.leaves[i], Invalidated)) then
      Failure("the Definition forbids a transition of the route")
    else
      Activate(s.(leaves := seq(LEAVES, i requires 0 <= i < LEAVES => if i < DRAFT then s.leaves[i] else Invalidated),
                  tasks := InvalidatedTasks(s.tasks), suffix := PlanRecovery), At(DRAFT))
  }

  function ApplyRoute(s: State, source: Leaf, r: StepResult, target: Leaf, e: Effects): (after: Result<State>)
    requires |s.leaves| == LEAVES
    ensures after.Success? ==> |after.value.leaves| == LEAVES
  {
    match r
    case SpecGateRepairRequired => RestartSpecGateRepair(s)
    case SpecRepairDraftReturn => ReopenDraft(s)
    case DraftGateRepairRequired => FollowRoute(s.(suffix := PlanRecovery), source, target, e, CONFIRMED)
    case ApprovalConfirmed(_, added) => ConfirmApproval(s, added, target, e)
    case TestDecision(_) =>
      FollowRoute(if target <= source then s.(tasks := InvalidatedTasks(s.tasks)) else s, source, target, e, CONFIRMED)
    case RetroEvidenceRefresh => FollowRoute(s.(suffix := EvidenceRewind), source, target, e, Mode(Invalidated, true))
    case ImplGate(_, _, _) | RepairApplied | AcceptanceRepairRequired =>
      FollowRoute(if target <= source then s.(suffix := EvidenceRewind) else s, source, target, e, CONFIRMED)
    case _ => FollowRoute(s, source, target, e, CONFIRMED)
  }

  /** Leaving a Task, or `implement`, towards a Task. */
  function LeaveFor(s: State, outcome: Status, target: Position): (after: Result<State>)
    requires |s.leaves| == LEAVES
    ensures after.Success? ==> |after.value.leaves| == LEAVES && after.value.active == target
  {
    match s.active
    case InTask(task) =>
      if task < |s.tasks| then Activate(s.(tasks := s.tasks[task := outcome]), target) else Failure("the Task is absent")
    case At(leaf) => Activate(s.(leaves := s.leaves[leaf := Done]), target)
    case _ => Failure("no active Attempt")
  }

  function Apply(s: State, r: StepResult, settlement: Settlement): (after: Result<State>)
    requires |s.leaves| == LEAVES
    ensures after.Success? ==> |after.value.leaves| == LEAVES
  {
    match settlement
    case Route(target, e) =>
      if s.active.At? then ApplyRoute(s, s.active.leaf, r, target, e)
      else LeaveFor(s, if r.TaskLeft? then r.outcome else Done, At(target))
    case ToTask(task) => LeaveFor(s, if r.TaskLeft? then r.outcome else Done, InTask(task))
    case WithinTask | Execution | Await | Blocked => Success(s)
    case Park => Success(s.(active := Parked))
    case Completion =>
      if !s.active.At? then Failure("no active Attempt")
      else
        var leaves := s.leaves[s.active.leaf := Done];
        if NextExecutable(leaves, s.tasks) != Completed then Failure("a step is still executable")
        else Success(s.(leaves := leaves, active := Completed))
  }

  // ---------------------------------------------------------------- runs

  datatype Event = Saved(result: StepResult) | Reopened

  predicate Possible(s: State, e: Event) {
    match e
    case Saved(r) => Admissible(s, r)
    case Reopened => s.active.InTask? || (s.active.At? && s.active.leaf > DRAFT)
  }

  function Next(s: State, e: Event): (after: Result<State>)
    requires |s.leaves| == LEAVES && Possible(s, e)
    ensures after.Success? ==> |after.value.leaves| == LEAVES
  {
    match e
    case Saved(r) => Apply(s, r, Settle(s, r))
    case Reopened => ReopenDraft(s)
  }

  /** What the Activity ledger keeps of one step: where it started and what was selected. */
  datatype Record = Record(source: Position, event: Event, settlement: Settlement)

  datatype Run = Run(state: State, history: seq<Record>)

  function Selected(s: State, e: Event): Settlement
    requires |s.leaves| == LEAVES && Possible(s, e)
  {
    match e
    case Saved(r) => Settle(s, r)
    case Reopened => Route(DRAFT, NO_EFFECTS.(resets := From(DRAFT)))
  }

  function Extend(before: Run, e: Event): (r: Result<Run>)
    requires |before.state.leaves| == LEAVES && Possible(before.state, e)
    ensures r.Success? ==> |r.value.state.leaves| == LEAVES && |r.value.history| == |before.history| + 1
  {
    match Next(before.state, e)
    case Failure(error) => Failure(error)
    case Success(after) =>
      Success(Run(after, before.history + [Record(before.state.active, e, Selected(before.state, e))]))
  }

  /** The run a log of events leads to, unless some event is impossible or refused. */
  function Replay(log: seq<Event>): (r: Result<Run>)
    ensures r.Success? ==> |r.value.state.leaves| == LEAVES && |r.value.history| == |log|
  {
    if log == [] then Success(Run(Initial(), []))
    else
      var n := |log| - 1;
      match Replay(log[..n])
      case Failure(error) => Failure(error)
      case Success(before) =>
        if !Possible(before.state, log[n]) then Failure("the event is not possible") else Extend(before, log[n])
  }
}
