/** What holds in every run of the settlement machine. */
module FlowSettlementTheorems {
  import opened Wrappers
  import opened FlowSettlement
  import opened FlowSettlementProofs

  // ---------------------------------------------------------------- the status invariant

  /** In every reachable state one leaf or Task is active, what precedes it is closed, what follows it waits. */
  lemma {:induction false} ReachableInv(log: seq<Event>)
    requires Replay(log).Success?
    ensures Inv(Replay(log).value.state)
  {
    if log == [] {
      InitialInv();
    } else {
      var n := |log| - 1;
      ReachableInv(log[..n]);
      EveryStepApplies(Replay(log[..n]).value.state, log[n]);
    }
  }

  /** A possible event extends a run unless it is an approval whose added Tasks are refused. */
  lemma RunsExtend(log: seq<Event>, e: Event)
    requires Replay(log).Success? && Possible(Replay(log).value.state, e)
    ensures Replay(log + [e]).Success? <==> !RefusesTasks(Replay(log).value.state, e)
    ensures Replay(log + [e]).Success? ==> Replay(log + [e]).value.state == Next(Replay(log).value.state, e).value
  {
    ReachableInv(log);
    EveryStepApplies(Replay(log).value.state, e);
    assert (log + [e])[..|log|] == log;
  }

  predicate OnlyActive(s: State, leaf: Leaf)
    requires |s.leaves| == LEAVES
  {
    && (forall i: Leaf :: s.leaves[i] == InProgress <==> i == leaf)
    && (forall k | 0 <= k < |s.tasks| :: s.tasks[k] != InProgress)
  }

  /** While a plan leaf is active it alone is in progress, earlier leaves are done or skipped, later ones wait. */
  lemma PlanStatuses(log: seq<Event>, leaf: Leaf)
    requires Replay(log).Success? && Replay(log).value.state.active == At(leaf) && leaf < IMPLEMENT
    ensures var s := Replay(log).value.state;
            && OnlyActive(s, leaf)
            && (forall i: Leaf | i < leaf :: s.leaves[i] in {Done, Skipped})
            && (forall i: Leaf | leaf < i :: s.leaves[i] in {Pending, Invalidated})
  {
    ReachableInv(log);
    var s := Replay(log).value.state;
    forall i: Leaf | leaf < i ensures s.leaves[i] in {Pending, Invalidated} {
      assert Waits(s.leaves, leaf, i);
    }
  }

  /** `test-execute` and everything behind it run only while every Task is done, skipped or deferred. */
  lemma IntegrationWaitsForTasks(log: seq<Event>)
    requires Replay(log).Success?
    ensures var s := Replay(log).value.state;
            ((s.active.At? && s.active.leaf >= TEST_EXECUTE) || s.active.Completed?) ==>
              forall k | 0 <= k < |s.tasks| :: s.tasks[k] in {Done, Skipped, Deferred}
  {
    ReachableInv(log);
  }

  /** A completed Flow has no leaf and no Task left to run. */
  lemma CompletionIsTotal(log: seq<Event>)
    requires Replay(log).Success? && Replay(log).value.state.active == Completed
    ensures var s := Replay(log).value.state;
            && (forall i: Leaf :: s.leaves[i] in {Done, Skipped})
            && (forall k | 0 <= k < |s.tasks| :: TaskTerminal(s.tasks[k]))
  {
    ReachableInv(log);
    var s := Replay(log).value.state;
    forall i: Leaf ensures s.leaves[i] in {Done, Skipped} {
      assert Closed(s.leaves[i]);
    }
  }

  // ---------------------------------------------------------------- Task admission may be refused

  /** A run that stands at a plan leaf, no suffix operation so far, with this status of `test-execute`. */
  predicate Stands(log: seq<Event>, leaf: Leaf, behind: Status) {
    && Replay(log).Success?
    && Replay(log).value.state.active == At(leaf)
    && Replay(log).value.state.leaves[TEST_EXECUTE] == behind
    && Replay(log).value.state.suffix == NoSuffixOperation
  }

  /** The plan leaf `leaf` settles `r` by an ordinary route to `target`. */
  predicate Leads(leaf: Leaf, r: StepResult, target: Leaf) {
    && leaf < APPROVAL && target <= APPROVAL && BelongsTo(r, leaf)
    && !r.DraftGateRepairRequired? && !r.SpecGateRepairRequired? && !r.SpecRepairDraftReturn?
    && var settlement := if leaf < SPEC then SettlePlan(leaf, r) else SettleSpec(leaf, r);
       settlement == Connect(leaf, target) || (leaf < target && settlement == Route(target, NO_EFFECTS))
  }

  lemma OrdinaryStep(s: State, leaf: Leaf, r: StepResult, target: Leaf)
    requires |s.leaves| == LEAVES && s.active == At(leaf) && Leads(leaf, r, target)
    ensures Possible(s, Saved(r)) && !RefusesTasks(s, Saved(r))
    ensures Settle(s, r).Route? && Next(s, Saved(r)) == FollowRoute(s, leaf, target, Settle(s, r).effects, CONFIRMED)
    ensures Settle(s, r).effects == Contiguous(leaf, target) || (leaf < target && Settle(s, r).effects == NO_EFFECTS)
  {
  }

  lemma FollowedRoute(s: State, leaf: Leaf, target: Leaf, e: Effects)
    requires |s.leaves| == LEAVES && FollowRoute(s, leaf, target, e, CONFIRMED).Success?
    requires leaf <= APPROVAL && target <= APPROVAL
    requires e == Contiguous(leaf, target) || (leaf < target && e == NO_EFFECTS)
    ensures var after := FollowRoute(s, leaf, target, e, CONFIRMED).value;
            && after.leaves[TEST_EXECUTE] == (if target <= leaf then Invalidated else s.leaves[TEST_EXECUTE])
            && after.suffix == s.suffix && after.active == At(target)
  {
  }

  ghost predicate Reachable(leaf: Leaf, behind: Status) {
    exists log: seq<Event> :: Stands(log, leaf, behind)
  }

  lemma StandsOn(log: seq<Event>, leaf: Leaf, behind: Status, r: StepResult, target: Leaf)
    requires Stands(log, leaf, behind) && Leads(leaf, r, target)
    ensures Stands(log + [Saved(r)], target, if target <= leaf then Invalidated else behind)
  {
    var s := Replay(log).value.state;
    OrdinaryStep(s, leaf, r, target);
    RunsExtend(log, Saved(r));
    FollowedRoute(s, leaf, target, Settle(s, r).effects);
  }

  lemma PlanStep(leaf: Leaf, behind: Status, r: StepResult, target: Leaf)
    requires Reachable(leaf, behind) && Leads(leaf, r, target)
    ensures Reachable(target, if target <= leaf then Invalidated else behind)
  {
    var log: seq<Event> :| Stands(log, leaf, behind);
    StandsOn(log, leaf, behind, r, target);
  }

  /** Ordinary plan routes carry `reach` from leaf to leaf. */
  ghost predicate ClosedUnderRoutes(reach: (Leaf, Status) -> bool) {
    forall leaf: Leaf, behind: Status, r: StepResult, target: Leaf | reach(leaf, behind) && Leads(leaf, r, target) ::
      reach(target, if target <= leaf then Invalidated else behind)
  }

  /** A first plan whose questions are repaired once, with a change. */
  lemma QuestionsRepairedOnce(reach: (Leaf, Status) -> bool)
    requires ClosedUnderRoutes(reach) && reach(BRANCH, Pending)
    ensures reach(QUESTIONS_REVIEW, Invalidated)
  {
    assert reach(PREPARE_SPEC, Pending) by { assert Leads(BRANCH, BranchPrepared, PREPARE_SPEC); }
    assert reach(DRAFT, Pending) by { assert Leads(PREPARE_SPEC, PrepareSpecReady, DRAFT); }
    assert reach(QUESTIONS_REVIEW, Pending) by { assert Leads(DRAFT, DraftCreated, QUESTIONS_REVIEW); }
    assert reach(QUESTIONS_TRIAGE, Pending) by { assert Leads(QUESTIONS_REVIEW, QuestionsFindings, QUESTIONS_TRIAGE); }
    assert reach(QUESTIONS_REPAIR, Pending) by { assert Leads(QUESTIONS_TRIAGE, QuestionsTriaged, QUESTIONS_REPAIR); }
    assert reach(QUESTIONS_REVIEW, Invalidated) by { assert Leads(QUESTIONS_REPAIR, QuestionsRepaired(true), QUESTIONS_REVIEW); }
  }

  lemma RepairReachesApproval(reach: (Leaf, Status) -> bool)
    requires ClosedUnderRoutes(reach) && reach(QUESTIONS_REVIEW, Invalidated)
    ensures reach(APPROVAL, Invalidated)
  {
    assert reach(DRAFT_REFINE, Invalidated) by { assert Leads(QUESTIONS_REVIEW, QuestionsPassed, DRAFT_REFINE); }
    assert reach(COVERAGE_REVIEW, Invalidated) by { assert Leads(DRAFT_REFINE, RefineCompleted, COVERAGE_REVIEW); }
    assert reach(DRAFT_GATE, Invalidated) by { assert Leads(COVERAGE_REVIEW, CoveragePassed, DRAFT_GATE); }
    assert reach(SPEC, Invalidated) by { assert Leads(DRAFT_GATE, DraftGatePassed, SPEC); }
    assert reach(SPEC_REVIEW, Invalidated) by { assert Leads(SPEC, SpecCreated, SPEC_REVIEW); }
    assert reach(SPEC_TRIAGE, Invalidated) by { assert Leads(SPEC_REVIEW, SpecReviewed, SPEC_TRIAGE); }
    assert reach(SPEC_REPAIR, Invalidated) by { assert Leads(SPEC_TRIAGE, SpecTriaged, SPEC_REPAIR); }
    assert reach(SPEC_GATE, Invalidated) by { assert Leads(SPEC_REPAIR, SpecRepaired, SPEC_GATE); }
    assert reach(APPROVAL, Invalidated) by { assert Leads(SPEC_GATE, SpecGatePassed, APPROVAL); }
  }

  /**
   A first run through the plan in which a Draft repair changed the questions reaches an approval that
   cannot add its Task: the repair reset the implementation leaves, and no plan recovery was recorded.
  */
  lemma ChangedDraftRepairBlocksTasks() returns (log: seq<Event>, e: Event)
    ensures Replay(log).Success? && Possible(Replay(log).value.state, e)
    ensures Replay(log).value.state.suffix == NoSuffixOperation
    ensures e == Saved(ApprovalConfirmed(true, 1))
    ensures Replay(log + [e]).Failure?
  {
    forall leaf: Leaf, behind: Status, r: StepResult, target: Leaf | Reachable(leaf, behind) && Leads(leaf, r, target)
      ensures Reachable(target, if target <= leaf then Invalidated else behind)
    {
      PlanStep(leaf, behind, r, target);
    }
    assert Stands([], BRANCH, Pending);
    QuestionsRepairedOnce(Reachable);
    RepairReachesApproval(Reachable);
    log :| Stands(log, APPROVAL, Invalidated);
    e := Saved(ApprovalConfirmed(true, 1));
    RunsExtend(log, e);
  }

  // ---------------------------------------------------------------- what a run has recorded

  datatype Mark = SourceWork | RoutedFrom(leaf: Leaf) | DraftEntry | Reentry | GateCleared | Approved | Clean(review: Leaf)

  /** Results of a review that leave no finding to resolve. */
  predicate CleanResult(review: Leaf, r: StepResult) {
    || (review == QUESTIONS_REVIEW && r == QuestionsPassed)
    || (review == COVERAGE_REVIEW && r == CoveragePassed)
    || (review == IMPL_REVIEW && r in {ReviewCleared, ReviewTooling(true)})
    || (review == ACCEPTANCE_REVIEW && r == AcceptancePassed)
  }

  predicate Marks(r: Record, m: Mark) {
    match m
    case SourceWork => r.source.InTask? || r.source in {At(IMPLEMENT), At(IMPL_REPAIR)}
    case RoutedFrom(leaf) => r.source == At(leaf) && r.settlement.Route?
    case DraftEntry => r.settlement.Route? && r.settlement.target == DRAFT
    case Reentry => r.settlement.Route? && r.settlement.target in {DRAFT, SPEC_REVIEW, SPEC_GATE_REPAIR}
    case GateCleared => r.event.Saved? && r.event.result in {SpecGatePassed, SpecGateDeferred}
    case Approved => r.event.Saved? && r.event.result.ApprovalConfirmed?
    case Clean(review) => r.source == At(review) && r.settlement.Route? && r.event.Saved? && CleanResult(review, r.event.result)
  }

  /** The position of the last record with a mark, -1 when there is none. */
  function Latest(history: seq<Record>, m: Mark): (k: int)
    ensures -1 <= k < |history|
    ensures k >= 0 ==> Marks(history[k], m)
    ensures forall i | k < i < |history| :: !Marks(history[i], m)
  {
    if history == [] then -1
    else if Marks(history[|history| - 1], m) then |history| - 1
    else Latest(history[..|history| - 1], m)
  }

  lemma LatestAfter(history: seq<Record>, r: Record, m: Mark)
    ensures Latest(history + [r], m) == if Marks(r, m) then |history| else Latest(history, m)
  {
    assert (history + [r])[..|history|] == history;
  }

  /** How far a position stands in the Flow; a Task counts as `implement`. */
  function Rank(p: Position): Leaf {
    match p
    case At(leaf) => leaf
    case InTask(_) => IMPLEMENT
    case Parked => ACCEPTANCE_DECISION
    case Completed => FINALIZE_CLEANUP
  }

  /** The leaves no route jumps over, with what each has to be settled after. */
  function ReliesOn(stage: Leaf): Option<Mark> {
    if stage == DRAFT then Some(DraftEntry)
    else if stage == QUESTIONS_REVIEW then Some(RoutedFrom(DRAFT))
    else if stage == DRAFT_REFINE then Some(RoutedFrom(QUESTIONS_REVIEW))
    else if stage == COVERAGE_REVIEW then Some(RoutedFrom(DRAFT_REFINE))
    else if stage == DRAFT_GATE then Some(RoutedFrom(COVERAGE_REVIEW))
    else if SPEC <= stage <= SPEC_GATE then Some(RoutedFrom(stage - 1))
    else if stage == APPROVAL then Some(RoutedFrom(SPEC_GATE))
    else if stage == TEST_EXECUTE then Some(SourceWork)
    else if stage in {TEST_RESULT_REVIEW, IMPL_REVIEW, RETRO, ACCEPTANCE_REVIEW} then Some(RoutedFrom(stage - 1))
    else if stage == IMPL_GATE then Some(RoutedFrom(IMPL_REVIEW))
    else if stage == FINAL_REGRESSION then Some(RoutedFrom(ACCEPTANCE_REVIEW))
    else if REPORT <= stage < FINALIZE_CLEANUP then Some(RoutedFrom(stage - 1))
    else None
  }

  /** The furthest a route from here can go: the next leaf that may not be jumped over. */
  function NextStage(leaf: Leaf): Leaf {
    if leaf < DRAFT then DRAFT
    else if leaf == DRAFT then QUESTIONS_REVIEW
    else if leaf < DRAFT_REFINE then DRAFT_REFINE
    else if leaf < COVERAGE_REVIEW then COVERAGE_REVIEW
    else if leaf < DRAFT_GATE then DRAFT_GATE
    else if leaf < SPEC_GATE then leaf + 1
    else if leaf < APPROVAL then APPROVAL
    else if leaf < IMPLEMENT then IMPLEMENT
    else if leaf < IMPL_REVIEW then leaf + 1
    else if leaf < IMPL_GATE then IMPL_GATE
    else if leaf < ACCEPTANCE_REVIEW then leaf + 1
    else if leaf < FINAL_REGRESSION then FINAL_REGRESSION
    else if leaf < FINALIZE_CLEANUP then leaf + 1
    else FINALIZE_CLEANUP
  }

  lemma StagesAreNotJumped(leaf: Leaf, stage: Leaf)
    requires ReliesOn(stage).Some? && leaf < stage
    ensures NextStage(leaf) <= stage
  {
  }

  /** The leaf-to-leaf routes of the machine, as far as the proofs below distinguish them. */
  predicate Edge(source: Leaf, target: Leaf) {
    && target <= NextStage(source)
    && (target == APPROVAL ==> source == SPEC_GATE)
    && (target > APPROVAL ==> source >= APPROVAL)
    && (source == IMPL_REPAIR ==> target == TEST_EXECUTE)
  }

  /** The leaf that resolves the findings of a review; the leaves between the two lead to it. */
  function Resolver(review: Leaf): Option<Leaf> {
    if review == QUESTIONS_REVIEW then Some(QUESTIONS_REPAIR)
    else if review == COVERAGE_REVIEW then Some(COVERAGE_REPAIR)
    else if review == IMPL_REVIEW then Some(IMPL_TRIAGE)
    else if review == ACCEPTANCE_REVIEW then Some(ACCEPTANCE_DECISION)
    else None
  }

  /** Only a clean review is routed past its resolver, and a triage never is. */
  predicate Resolves(source: Leaf, r: StepResult, target: Leaf) {
    && (Resolver(source).Some? && target > Resolver(source).value ==> CleanResult(source, r))
    && (source in {QUESTIONS_TRIAGE, COVERAGE_TRIAGE} ==> target <= source + 1)
  }

  /** How one recorded step can move the active position. */
  predicate Shape(r: Record, after: Position) {
    && (Marks(r, GateCleared) ==> r.source == At(SPEC_GATE))
    && (Marks(r, Approved) ==> r.source == At(APPROVAL))
    && match r.settlement
       case Route(target, _) => after == At(target) && RouteShape(r, target)
       case ToTask(_) => after.InTask? && (r.source.InTask? || r.source == At(IMPLEMENT))
       case WithinTask => after.InTask? && r.source.InTask?
       case Execution | Await | Blocked => after == r.source
       case Park => r.source == At(ACCEPTANCE_DECISION) && after == Parked
       case Completion => r.source == At(FINALIZE_CLEANUP) && after == Completed
  }

  predicate RouteShape(r: Record, target: Leaf) {
    match r.event
    case Reopened => target == DRAFT
    case Saved(_) =>
      match r.source
      case At(leaf) =>
        && Edge(leaf, target) && Resolves(leaf, r.event.result, target)
        && (target == APPROVAL ==> Marks(r, GateCleared))
        && (leaf == APPROVAL ==> Marks(r, Approved))
      case InTask(_) => target == TEST_EXECUTE
      case _ => false
  }

  /** Routes are edges, and the other settlements that move occur at one leaf each. */
  predicate SettlesInShape(s: State, r: StepResult)
    requires |s.leaves| == LEAVES && Admissible(s, r)
  {
    match Settle(s, r)
    case Route(target, _) => RouteShape(Record(s.active, Saved(r), Settle(s, r)), target)
    case ToTask(_) => s.active.InTask? || s.active == At(IMPLEMENT)
    case WithinTask => s.active.InTask?
    case Park => s.active == At(ACCEPTANCE_DECISION)
    case Completion => s.active == At(FINALIZE_CLEANUP)
    case _ => true
  }

  lemma PlanShape(s: State, leaf: Leaf, r: StepResult)
    requires |s.leaves| == LEAVES && s.active == At(leaf) && leaf < SPEC && BelongsTo(r, leaf)
    ensures SettlesInShape(s, r)
  {
  }

  lemma SpecShape(s: State, leaf: Leaf, r: StepResult)
    requires |s.leaves| == LEAVES && s.active == At(leaf) && SPEC <= leaf < IMPLEMENT && BelongsTo(r, leaf)
    ensures SettlesInShape(s, r)
  {
  }

  lemma ImplShape(s: State, leaf: Leaf, r: StepResult)
    requires |s.leaves| == LEAVES && s.active == At(leaf) && IMPLEMENT <= leaf < RETRO && BelongsTo(r, leaf)
    ensures SettlesInShape(s, r)
  {
  }

  lemma AcceptanceShape(s: State, leaf: Leaf, r: StepResult)
    requires |s.leaves| == LEAVES && s.active == At(leaf) && RETRO <= leaf && BelongsTo(r, leaf)
    ensures SettlesInShape(s, r)
  {
  }

  lemma SettlementShape(s: State, r: StepResult)
    requires |s.leaves| == LEAVES && Admissible(s, r)
    ensures SettlesInShape(s, r)
  {
    if s.active.At? {
      var leaf := s.active.leaf;
      if leaf < SPEC { PlanShape(s, leaf, r); }
      else if leaf < IMPLEMENT { SpecShape(s, leaf, r); }
      else if leaf < RETRO { ImplShape(s, leaf, r); }
      else { AcceptanceShape(s, leaf, r); }
    }
  }

  lemma RouteArrives(s: State, source: Leaf, r: StepResult, target: Leaf, e: Effects)
    requires |s.leaves| == LEAVES && ApplyRoute(s, source, r, target, e).Success?
    requires r.SpecGateRepairRequired? ==> target == SPEC_GATE_REPAIR
    requires r.SpecRepairDraftReturn? ==> target == DRAFT
    ensures ApplyRoute(s, source, r, target, e).value.active == At(target)
  {
  }

  /** Where a settlement that applies leaves the active position. */
  lemma SettlementArrives(s: State, r: StepResult)
    requires |s.leaves| == LEAVES && Admissible(s, r) && Apply(s, r, Settle(s, r)).Success?
    requires SettlesInShape(s, r)
    ensures var after := Apply(s, r, Settle(s, r)).value.active;
            match Settle(s, r)
            case Route(target, _) => after == At(target)
            case ToTask(task) => after == InTask(task)
            case WithinTask | Execution | Await | Blocked => after == s.active
            case Park => after == Parked
            case Completion => after == Completed
  {
    match Settle(s, r)
    case Route(target, effects) =>
      if s.active.At? { RouteArrives(s, s.active.leaf, r, target, effects); }
    case _ =>
  }

  lemma StepShape(s: State, e: Event)
    requires |s.leaves| == LEAVES && Possible(s, e) && Next(s, e).Success?
    ensures Shape(Record(s.active, e, Selected(s, e)), Next(s, e).value.active)
  {
    if e.Saved? {
      SettlementShape(s, e.result);
      SettlementArrives(s, e.result);
      assert Next(s, e).value == Apply(s, e.result, Settle(s, e.result)).value;
    }
  }

  // ---------------------------------------------------------------- every leaf can be reached

  /** A leaf and a Result that lead to `leaf`. */
  function Way(leaf: Leaf): (Leaf, StepResult)
    requires leaf != BRANCH
  {
    match leaf
    case 1 => (BRANCH, BranchPrepared)
    case 2 => (PREPARE_SPEC, PrepareSpecReady)
    case 3 => (DRAFT, DraftCreated)
    case 4 => (QUESTIONS_REVIEW, QuestionsFindings)
    case 5 => (QUESTIONS_TRIAGE, QuestionsTriaged)
    case 6 => (QUESTIONS_REVIEW, QuestionsPassed)
    case 7 => (DRAFT_GATE, DraftGateRepairRequired)
    case 8 => (DRAFT_REFINE, RefineCompleted)
    case 9 => (COVERAGE_REVIEW, CoverageFindings)
    case 10 => (COVERAGE_TRIAGE, CoverageTriaged)
    case 11 => (COVERAGE_REVIEW, CoveragePassed)
    case 12 => (DRAFT_GATE, DraftGatePassed)
    case 13 => (SPEC, SpecCreated)
    case 14 => (SPEC_REVIEW, SpecReviewed)
    case 15 => (SPEC_TRIAGE, SpecTriaged)
    case 16 => (SPEC_REPAIR, SpecRepaired)
    case 17 => (SPEC_GATE, SpecGateRepairRequired)
    case 18 => (SPEC_GATE, SpecGatePassed)
    case 19 => (APPROVAL, ApprovalConfirmed(true, 0))
    case 20 => (TEST_GENERATE, TestDecision(TEST_REVIEW))
    case 21 => (TEST_REVIEW, TestDecision(TEST_REPAIR))
    case 22 => (TEST_REVIEW, TestDecision(TEST_GATE))
    case 23 => (TEST_GATE, TestDecision(IMPLEMENT))
    case 24 => (IMPLEMENT, Implemented)
    case 25 => (TEST_EXECUTE, TestObserved)
    case 26 => (TEST_RESULT_REVIEW, EvidenceAccepted)
    case 27 => (IMPL_REVIEW, ReviewRejected)
    case 28 => (IMPL_TRIAGE, TriageSelectedRepair)
    case 29 => (IMPL_REVIEW, ReviewCleared)
    case 30 => (IMPL_GATE, ImplGate(GatePassed, false, false))
    case 31 => (RETRO, RetroAggregated)
    case 32 => (ACCEPTANCE_REVIEW, AcceptanceDecisionRequired)
    case 33 => (ACCEPTANCE_REVIEW, AcceptancePassed)
    case 34 => (FINAL_REGRESSION, Regression(RegressionPassed, true, false))
    case 35 => (REPORT, ReportGenerated)
    case 36 => (FINALIZE_COMMIT, Committed)
    case 37 => (FINALIZE_MERGE, Merged)
    case _ => (FINALIZE_SYNC, SyncSettled)
  }

  /** How many of these steps lead to a leaf at most; only the Draft Gate repair comes after a later leaf. */
  function Distance(leaf: Leaf): nat {
    if leaf == DRAFT_GATE_REPAIR then 2 * DRAFT_GATE + 1 else 2 * leaf
  }

  /** In a Flow without Tasks this Result of this leaf is settled by a route to `leaf`. */
  predicate Leading(s: State, leaf: Leaf)
    requires leaf != BRANCH && |s.leaves| == LEAVES && s.active == At(Way(leaf).0)
  {
    && BelongsTo(Way(leaf).1, Way(leaf).0)
    && Settle(s, Way(leaf).1).Route? && Settle(s, Way(leaf).1).target == leaf
  }

  lemma PlanWays(s: State, leaf: Leaf)
    requires leaf != BRANCH && leaf <= SPEC_TRIAGE && |s.leaves| == LEAVES && s.active == At(Way(leaf).0)
    ensures Leading(s, leaf)
  {
  }

  lemma SpecWays(s: State, leaf: Leaf)
    requires SPEC_TRIAGE < leaf <= IMPLEMENT && |s.leaves| == LEAVES && s.active == At(Way(leaf).0)
    ensures Leading(s, leaf)
  {
  }

  lemma ImplWays(s: State, leaf: Leaf)
    requires IMPLEMENT < leaf <= RETRO && |s.leaves| == LEAVES && s.active == At(Way(leaf).0) && s.tasks == []
    ensures Leading(s, leaf)
  {
  }

  lemma AcceptanceWays(s: State, leaf: Leaf)
    requires RETRO < leaf <= REPORT && |s.leaves| == LEAVES && s.active == At(Way(leaf).0)
    ensures Leading(s, leaf)
  {
  }

  lemma FinalizationWays(s: State, leaf: Leaf)
    requires REPORT < leaf && |s.leaves| == LEAVES && s.active == At(Way(leaf).0)
    ensures Leading(s, leaf)
  {
  }

  lemma WayLeads(s: State, leaf: Leaf)
    requires leaf != BRANCH && |s.leaves| == LEAVES && s.tasks == [] && s.active == At(Way(leaf).0)
    ensures Leading(s, leaf)
  {
    if leaf <= SPEC_TRIAGE { PlanWays(s, leaf); }
    else if leaf <= IMPLEMENT { SpecWays(s, leaf); }
    else if leaf <= RETRO { ImplWays(s, leaf); }
    else if leaf <= REPORT { AcceptanceWays(s, leaf); }
    else { FinalizationWays(s, leaf); }
  }

  lemma RouteAddsNoTasks(s: State, source: Leaf, r: StepResult, target: Leaf, e: Effects)
    requires |s.leaves| == LEAVES && s.tasks == [] && ApplyRoute(s, source, r, target, e).Success?
    requires (r.ApprovalConfirmed? ==> r.addedTasks == 0) && !r.SpecRepairDraftReturn?
    ensures ApplyRoute(s, source, r, target, e).value.tasks == []
  {
    hide FollowRoute, AdmitsTasks;
    match r
    case SpecGateRepairRequired => assert RestartSpecGateRepair(s).value.tasks == [];
    case ApprovalConfirmed(_, added) => assert ConfirmApproval(s, added, target, e).value.tasks == [];
    case _ =>
  }

  /** The next leaf of the way: the run so far is extended by one step. */
  lemma OneStepOn(start: seq<Event>, leaf: Leaf) returns (log: seq<Event>)
    requires leaf != BRANCH && Replay(start).Success?
    requires Replay(start).value.state.active == At(Way(leaf).0) && Replay(start).value.state.tasks == []
    ensures Replay(log).Success? && Replay(log).value.state.active == At(leaf) && Replay(log).value.state.tasks == []
  {
    var s, r := Replay(start).value.state, Way(leaf).1;
    log := start + [Saved(r)];
    StepsOn(s, leaf);
    RunsExtend(start, Saved(r));
  }

  lemma StepsOn(s: State, leaf: Leaf)
    requires leaf != BRANCH && |s.leaves| == LEAVES && s.active == At(Way(leaf).0) && s.tasks == []
    ensures Possible(s, Saved(Way(leaf).1)) && !RefusesTasks(s, Saved(Way(leaf).1))
    ensures var after := Next(s, Saved(Way(leaf).1));
            after.Success? ==> after.value.active == At(leaf) && after.value.tasks == []
  {
    var r := Way(leaf).1;
    WayLeads(s, leaf);
    if Next(s, Saved(r)).Success? {
      var e := Settle(s, r).effects;
      assert Next(s, Saved(r)) == ApplyRoute(s, Way(leaf).0, r, leaf, e);
      RouteArrives(s, Way(leaf).0, r, leaf, e);
      RouteAddsNoTasks(s, Way(leaf).0, r, leaf, e);
    }
  }

  /** No stage is dead: every leaf is active in some run. */
  lemma {:induction false} EveryLeafCanBeActive(leaf: Leaf) returns (log: seq<Event>)
    ensures Replay(log).Success? && Replay(log).value.state.active == At(leaf) && Replay(log).value.state.tasks == []
    decreases Distance(leaf)
  {
    if leaf == BRANCH {
      log := [];
    } else {
      var start := EveryLeafCanBeActive(Way(leaf).0);
      log := OneStepOn(start, leaf);
    }
  }

  /** And a Flow can complete. */
  lemma FlowsCanComplete() returns (log: seq<Event>)
    ensures Replay(log).Success? && Replay(log).value.state.active == Completed
  {
    var start := EveryLeafCanBeActive(FINALIZE_CLEANUP);
    RunsExtend(start, Saved(CleanedUp));
    SettlementArrives(Replay(start).value.state, CleanedUp);
    log := start + [Saved(CleanedUp)];
  }

  // ---------------------------------------------------------------- approval and evidence

  predicate Before(history: seq<Record>, m: Mark, n: Mark) {
    Latest(history, m) < Latest(history, n)
  }

  /** Behind approval, the gate was cleared after the last reentry into the plan, and approval confirmed after that. */
  predicate Dominated(history: seq<Record>, active: Position) {
    && (Rank(active) >= APPROVAL ==> Before(history, Reentry, GateCleared))
    && (Rank(active) > APPROVAL ==> Before(history, GateCleared, Approved))
  }

  /** Behind `stage`, its last settlement is younger than what it relies on; an active repair is source work itself. */
  predicate Link(history: seq<Record>, leaf: Leaf, stage: Leaf)
    requires ReliesOn(stage).Some?
  {
    leaf > stage && !(leaf == IMPL_REPAIR && stage == TEST_EXECUTE) ==>
      Before(history, ReliesOn(stage).value, RoutedFrom(stage))
  }

  /** All stages behind the active leaf have been settled in their order. */
  predicate InOrder(history: seq<Record>, leaf: Leaf) {
    forall stage: Leaf | ReliesOn(stage).Some? :: Link(history, leaf, stage)
  }

  lemma BeforeAfter(history: seq<Record>, r: Record, m: Mark, n: Mark)
    ensures Before(history + [r], m, n) <==> if Marks(r, n) then !Marks(r, m) else !Marks(r, m) && Before(history, m, n)
  {
    LatestAfter(history, r, m);
    LatestAfter(history, r, n);
  }

  lemma DominationKept(history: seq<Record>, r: Record, after: Position)
    requires Dominated(history, r.source) && Shape(r, after)
    ensures Dominated(history + [r], after)
  {
    BeforeAfter(history, r, Reentry, GateCleared);
    BeforeAfter(history, r, GateCleared, Approved);
  }

  lemma LinkKept(history: seq<Record>, r: Record, after: Position, stage: Leaf)
    requires ReliesOn(stage).Some? && Link(history, Rank(r.source), stage) && Shape(r, after)
    ensures Link(history + [r], Rank(after), stage)
  {
    BeforeAfter(history, r, ReliesOn(stage).value, RoutedFrom(stage));
    if Rank(r.source) < stage { StagesAreNotJumped(Rank(r.source), stage); }
  }

  lemma OrderKept(history: seq<Record>, r: Record, after: Position)
    requires InOrder(history, Rank(r.source)) && Shape(r, after)
    ensures InOrder(history + [r], Rank(after))
  {
    forall stage: Leaf | ReliesOn(stage).Some? ensures Link(history + [r], Rank(after), stage) {
      LinkKept(history, r, after, stage);
    }
  }

  /** Behind a resolver, the last review was clean or the resolver has been settled since. */
  predicate FindingsResolved(history: seq<Record>, leaf: Leaf, review: Leaf)
    requires Resolver(review).Some?
  {
    leaf > Resolver(review).value ==>
      || Latest(history, Clean(review)) == Latest(history, RoutedFrom(review))
      || Before(history, RoutedFrom(review), RoutedFrom(Resolver(review).value))
  }

  lemma ResolutionKept(history: seq<Record>, r: Record, after: Position, review: Leaf)
    requires Resolver(review).Some? && FindingsResolved(history, Rank(r.source), review) && Shape(r, after)
    ensures FindingsResolved(history + [r], Rank(after), review)
  {
    LatestAfter(history, r, Clean(review));
    LatestAfter(history, r, RoutedFrom(review));
    LatestAfter(history, r, RoutedFrom(Resolver(review).value));
    if Rank(r.source) < review { StagesAreNotJumped(Rank(r.source), review); }
  }

  lemma {:induction false} ResolutionInv(log: seq<Event>, review: Leaf)
    requires Replay(log).Success? && Resolver(review).Some?
    ensures FindingsResolved(Replay(log).value.history, Rank(Replay(log).value.state.active), review)
  {
    if log != [] {
      var n := |log| - 1;
      ResolutionInv(log[..n], review);
      var before := Replay(log[..n]).value;
      StepShape(before.state, log[n]);
      ResolutionKept(before.history, Record(before.state.active, log[n], Selected(before.state, log[n])),
                     Replay(log).value.state.active, review);
    }
  }

  lemma {:induction false} HistoryInv(log: seq<Event>)
    requires Replay(log).Success?
    ensures var run := Replay(log).value;
            Dominated(run.history, run.state.active) && InOrder(run.history, Rank(run.state.active))
  {
    if log != [] {
      var n := |log| - 1;
      HistoryInv(log[..n]);
      var before := Replay(log[..n]).value;
      StepShape(before.state, log[n]);
      var r := Record(before.state.active, log[n], Selected(before.state, log[n]));
      DominationKept(before.history, r, Replay(log).value.state.active);
      OrderKept(before.history, r, Replay(log).value.state.active);
    }
  }

  /**
   Nothing behind approval is active unless, since the plan was last reentered, the Spec Gate passed
   or was deferred and approval was then confirmed.
  */
  lemma ApprovalDominatesImplementation(log: seq<Event>)
    requires Replay(log).Success? && Rank(Replay(log).value.state.active) > APPROVAL
    ensures exists g: nat, a: nat :: ClearedThenApproved(Replay(log).value.history, g, a)
  {
    HistoryInv(log);
    var h := Replay(log).value.history;
    assert ClearedThenApproved(h, Latest(h, GateCleared), Latest(h, Approved));
  }

  predicate ClearedThenApproved(history: seq<Record>, g: nat, a: nat) {
    && g < a < |history|
    && Marks(history[g], GateCleared) && Marks(history[a], Approved)
    && forall k | g <= k < |history| :: !Marks(history[k], Reentry)
  }

  /** Step `k` settled a route from `leaf`, and no later step did. */
  predicate LastSettled(history: seq<Record>, leaf: Leaf, k: nat) {
    && k < |history|
    && Marks(history[k], RoutedFrom(leaf))
    && forall i | k < i < |history| :: !Marks(history[i], RoutedFrom(leaf))
  }

  /**
   No stage of the Flow is jumped over: behind a stage, it has been settled after the stage it relies on,
   the questions review after the Draft, refinement after that review, and so on to the last finalization
   step; `test-execute` relies on the last work on the sources, which an active repair still is.
  */
  lemma StagesAreSettledInOrder(log: seq<Event>, stage: Leaf)
    requires Replay(log).Success? && ReliesOn(stage).Some? && (stage == TEST_EXECUTE ==> Rank(Replay(log).value.state.active) != IMPL_REPAIR)
    requires stage < Rank(Replay(log).value.state.active)
    ensures Before(Replay(log).value.history, ReliesOn(stage).value, RoutedFrom(stage))
  {
    HistoryInv(log);
    assert Link(Replay(log).value.history, Rank(Replay(log).value.state.active), stage);
  }

  /**
   When `report` is active, the whole chain of evidence has been settled after the last work on the
   sources, and in its order: no stage was last settled before the stage it relies on.
  */
  lemma ReportRestsOnFreshEvidence(log: seq<Event>)
      returns (execute: nat, review: nat, impl: nat, gate: nat, retro: nat, acceptance: nat, regression: nat)
    requires Replay(log).Success? && Replay(log).value.state.active == At(REPORT)
    ensures var h := Replay(log).value.history;
            && execute < review < impl < gate < retro < acceptance < regression < |h|
            && (forall i | execute <= i < |h| :: !Marks(h[i], SourceWork))
            && LastSettled(h, TEST_EXECUTE, execute) && LastSettled(h, TEST_RESULT_REVIEW, review)
            && LastSettled(h, IMPL_REVIEW, impl) && LastSettled(h, IMPL_GATE, gate) && LastSettled(h, RETRO, retro)
            && LastSettled(h, ACCEPTANCE_REVIEW, acceptance) && LastSettled(h, FINAL_REGRESSION, regression)
  {
    EvidenceStages();
    StagesAreSettledInOrder(log, TEST_EXECUTE);
    StagesAreSettledInOrder(log, TEST_RESULT_REVIEW);
    StagesAreSettledInOrder(log, IMPL_REVIEW);
    StagesAreSettledInOrder(log, IMPL_GATE);
    StagesAreSettledInOrder(log, RETRO);
    StagesAreSettledInOrder(log, ACCEPTANCE_REVIEW);
    StagesAreSettledInOrder(log, FINAL_REGRESSION);
    var h := Replay(log).value.history;
    execute, review := Latest(h, RoutedFrom(TEST_EXECUTE)), Latest(h, RoutedFrom(TEST_RESULT_REVIEW));
    impl, gate := Latest(h, RoutedFrom(IMPL_REVIEW)), Latest(h, RoutedFrom(IMPL_GATE));
    retro, acceptance := Latest(h, RoutedFrom(RETRO)), Latest(h, RoutedFrom(ACCEPTANCE_REVIEW));
    regression := Latest(h, RoutedFrom(FINAL_REGRESSION));
  }

  lemma EvidenceStages()
    ensures ReliesOn(TEST_EXECUTE) == Some(SourceWork)
    ensures ReliesOn(TEST_RESULT_REVIEW) == Some(RoutedFrom(TEST_EXECUTE))
    ensures ReliesOn(IMPL_REVIEW) == Some(RoutedFrom(TEST_RESULT_REVIEW))
    ensures ReliesOn(IMPL_GATE) == Some(RoutedFrom(IMPL_REVIEW))
    ensures ReliesOn(RETRO) == Some(RoutedFrom(IMPL_GATE))
    ensures ReliesOn(ACCEPTANCE_REVIEW) == Some(RoutedFrom(RETRO))
    ensures ReliesOn(FINAL_REGRESSION) == Some(RoutedFrom(ACCEPTANCE_REVIEW))
  {
  }

  /**
   Findings are never passed by: behind the leaf that resolves them, the last review of that kind was
   clean, or it was followed by the settlement of that leaf.
  */
  lemma FindingsAreNeverBypassed(log: seq<Event>, review: Leaf)
    requires Replay(log).Success? && Resolver(review).Some?
    requires Rank(Replay(log).value.state.active) > Resolver(review).value
    ensures var h := Replay(log).value.history;
            || (Latest(h, RoutedFrom(review)) >= 0 && Marks(h[Latest(h, RoutedFrom(review))], Clean(review)))
            || Before(h, RoutedFrom(review), RoutedFrom(Resolver(review).value))
  {
    ResolutionInv(log, review);
    StagesAreSettledInOrder(log, review);
  }
}
