/**
 What each Result of the settlement machine means, and with which Results the stages of a Flow are left:
 where every Result leads, and what the run has recorded behind each gate, review and repair.
*/
module FlowSettlementMeanings {
  import opened Wrappers
  import opened FlowSettlement
  import opened FlowSettlementProofs
  import opened FlowSettlementTheorems

  // ---------------------------------------------------------------- the meaning of a Result

  /**
   A Result passes its stage, opens the leaf that follows, goes back, chooses among test leaves and
   implementation, or leaves everything as it is.
  */
  datatype Meaning = Passes | Opens | Returns(to: Leaf) | Chooses(target: Leaf) | Waits | EntersTasks | Parks | Completes

  /** A Gate passes, or its failure was accepted, or a semantic failure was continued. */
  predicate GateCleared(r: StepResult) {
    && r.ImplGate?
    && (r.meaning == GatePassed || r.gateAccepted || (r.meaning == GateSemanticFailure && r.continued))
  }

  /** A regression for the current sources that passed, was not required, or whose failure was accepted. */
  predicate RegressionCleared(r: StepResult) {
    && r.Regression? && r.sourceCurrent
    && (r.regressionAccepted || r.regression in {RegressionPassed, RegressionPolicySkipped, RegressionFailureAccepted})
  }

  predicate EvidenceCleared(r: StepResult) {
    r == EvidenceAccepted || (r.EvidenceRejected? && r.rejectionAccepted)
  }

  predicate RetroCleared(r: StepResult) {
    r in {RetroAggregated, RetroIncomplete(true)}
  }

  /** A repair that changed something is reviewed again, one that changed nothing passes. */
  function RepairMeaning(changed: bool, review: Leaf): Meaning {
    if changed then Returns(review) else Passes
  }

  function PlanMeaning(r: StepResult): Meaning {
    match r
    case BranchPrepared | BranchNotRequired | PrepareSpecReady => Opens
    case QuestionsFindings | QuestionsTriaged | CoverageFindings | CoverageTriaged => Opens
    case QuestionsRepaired(changed) => RepairMeaning(changed, QUESTIONS_REVIEW)
    case CoverageRepaired(changed) => RepairMeaning(changed, COVERAGE_REVIEW)
    case DraftGateRepairRequired => Returns(DRAFT_GATE_REPAIR)
    case RefineAwaitingAnswer | ExecutionRequired => Waits
    case _ => Passes
  }

  function SpecMeaning(r: StepResult): Meaning {
    match r
    case SpecGateRepairRequired => Opens
    case SpecRepairReadyForGate => Returns(SPEC_GATE)
    case SpecRepairReviewRequired => Returns(SPEC_REVIEW)
    case SpecRepairDraftReturn => Returns(DRAFT)
    case ApprovalConfirmed(withTests, _) => Chooses(if withTests then TEST_GENERATE else IMPLEMENT)
    case TestDecision(target) => Chooses(target)
    case SpecGateAwaiting | ApprovalAwaiting | TestContinuation | ExecutionRequired => Waits
    case _ => Passes
  }

  function ImplMeaning(r: StepResult): Meaning {
    if r == Implemented then EntersTasks
    else if EvidenceCleared(r) || GateCleared(r) || r in {TestObserved, ReviewCleared, ReviewTooling(true), TriageSelectedGate} then Passes
    else if r in {ReviewRejected, TriageSelectedRepair} then Opens
    else if r == RepairApplied || (r.ImplGate? && r.meaning == GateEvidenceRefresh) then Returns(TEST_EXECUTE)
    else Waits
  }

  function AcceptanceMeaning(r: StepResult): Meaning {
    if RetroCleared(r) || RegressionCleared(r) || r in {AcceptancePassed, RiskAccepted, ReportGenerated, Committed, Merged, SyncSettled} then Passes
    else if r == AcceptanceDecisionRequired then Opens
    else if r == RetroEvidenceRefresh then Returns(TEST_EXECUTE)
    else if r == AcceptanceRepairRequired then Returns(IMPL_TRIAGE)
    else if r == DecisionAborted then Parks
    else if r == CleanedUp then Completes
    else Waits
  }

  function MeaningOf(leaf: Leaf, r: StepResult): Meaning {
    if leaf < SPEC then PlanMeaning(r)
    else if leaf < IMPLEMENT then SpecMeaning(r)
    else if leaf < RETRO then ImplMeaning(r)
    else AcceptanceMeaning(r)
  }

  /** Where a meaning leads from a leaf: passing leads to the next stage that may not be jumped over. */
  function LeadsTo(leaf: Leaf, m: Meaning): Option<Leaf>
    requires m.Opens? ==> leaf < FINALIZE_CLEANUP
  {
    match m
    case Passes => Some(NextStage(leaf))
    case Opens => Some(leaf + 1)
    case Returns(to) => Some(to)
    case Chooses(target) => Some(target)
    case _ => None
  }

  /** A settlement does what the Result means. */
  predicate AsMeant(s: State, leaf: Leaf, r: StepResult)
    requires |s.leaves| == LEAVES && s.active == At(leaf) && BelongsTo(r, leaf)
  {
    var m := MeaningOf(leaf, r);
    && (m.Opens? ==> leaf < FINALIZE_CLEANUP)
    && match m
       case Waits => Settle(s, r) in {WithinTask, Execution, Await, Blocked}
       case EntersTasks => Settle(s, r) == ToNextTask(s, 0) && !r.ApprovalConfirmed?
       case Parks => Settle(s, r) == Park
       case Completes => Settle(s, r) == Completion
       case _ => Settle(s, r).Route? && Some(Settle(s, r).target) == LeadsTo(leaf, m)
  }

  lemma PlanAsMeant(s: State, leaf: Leaf, r: StepResult)
    requires |s.leaves| == LEAVES && s.active == At(leaf) && leaf < SPEC && BelongsTo(r, leaf)
    ensures AsMeant(s, leaf, r)
  {
  }

  lemma SpecAsMeant(s: State, leaf: Leaf, r: StepResult)
    requires |s.leaves| == LEAVES && s.active == At(leaf) && SPEC <= leaf < IMPLEMENT && BelongsTo(r, leaf)
    ensures AsMeant(s, leaf, r)
  {
  }

  lemma ImplAsMeant(s: State, leaf: Leaf, r: StepResult)
    requires |s.leaves| == LEAVES && s.active == At(leaf) && IMPLEMENT <= leaf < RETRO && BelongsTo(r, leaf)
    ensures AsMeant(s, leaf, r)
  {
  }

  lemma AcceptanceAsMeant(s: State, leaf: Leaf, r: StepResult)
    requires |s.leaves| == LEAVES && s.active == At(leaf) && RETRO <= leaf <= ACCEPTANCE_DECISION && BelongsTo(r, leaf)
    ensures AsMeant(s, leaf, r)
  {
  }

  lemma ClosingAsMeant(s: State, leaf: Leaf, r: StepResult)
    requires |s.leaves| == LEAVES && s.active == At(leaf) && ACCEPTANCE_DECISION < leaf && BelongsTo(r, leaf)
    ensures AsMeant(s, leaf, r)
  {
  }

  lemma SettledAsMeant(s: State, leaf: Leaf, r: StepResult)
    requires |s.leaves| == LEAVES && s.active == At(leaf) && BelongsTo(r, leaf)
    ensures AsMeant(s, leaf, r)
  {
    if leaf < SPEC { PlanAsMeant(s, leaf, r); }
    else if leaf < IMPLEMENT { SpecAsMeant(s, leaf, r); }
    else if leaf < RETRO { ImplAsMeant(s, leaf, r); }
    else if leaf <= ACCEPTANCE_DECISION { AcceptanceAsMeant(s, leaf, r); }
    else { ClosingAsMeant(s, leaf, r); }
  }

  // ---------------------------------------------------------------- where every Result leads

  /** The position and state a Result of this meaning leaves behind. */
  predicate LandsAsMeant(before: State, leaf: Leaf, m: Meaning, after: State) {
    match m
    case Waits => after == before
    case EntersTasks => after.active == if before.tasks == [] then At(TEST_EXECUTE) else InTask(0)
    case Parks => after.active == Parked
    case Completes => after.active == Completed
    case _ => (m.Opens? ==> leaf < FINALIZE_CLEANUP) && Some(after.active) == match LeadsTo(leaf, m) case None => None case Some(to) => Some(At(to))
  }

  lemma WaitingChangesNothing(s: State, r: StepResult)
    requires |s.leaves| == LEAVES && Admissible(s, r) && Settle(s, r) in {WithinTask, Execution, Await, Blocked}
    ensures Next(s, Saved(r)) == Success(s)
  {
  }

  lemma FirstTask(s: State)
    requires |s.leaves| == LEAVES && s.active == At(IMPLEMENT) && AtInv(s, IMPLEMENT)
    ensures ToNextTask(s, 0) == if s.tasks == [] then Route(TEST_EXECUTE, NO_EFFECTS) else ToTask(0)
  {
    if s.tasks != [] { assert Executable(s.tasks[0]); }
  }

  lemma MeaningLands(s: State, leaf: Leaf, r: StepResult)
    requires Inv(s) && s.active == At(leaf) && BelongsTo(r, leaf) && Next(s, Saved(r)).Success?
    ensures LandsAsMeant(s, leaf, MeaningOf(leaf, r), Next(s, Saved(r)).value)
  {
    hide MeaningOf, BelongsTo, Settle, Apply, AtInv, TaskInv;
    SettledAsMeant(s, leaf, r);
    assert Admissible(s, r);
    SettlementShape(s, r);
    assert Next(s, Saved(r)) == Apply(s, r, Settle(s, r));
    SettlementArrives(s, r);
    match MeaningOf(leaf, r)
    case Waits => WaitingChangesNothing(s, r);
    case EntersTasks => EnteringTasks(s, leaf, r);
    case _ =>
  }

  lemma EnteringTasks(s: State, leaf: Leaf, r: StepResult)
    requires Inv(s) && s.active == At(leaf) && BelongsTo(r, leaf) && MeaningOf(leaf, r) == EntersTasks
    ensures Settle(s, r) == if s.tasks == [] then Route(TEST_EXECUTE, NO_EFFECTS) else ToTask(0)
  {
    assert leaf == IMPLEMENT && r == Implemented;
    FirstTask(s);
  }

  /** In every run every Result of the active leaf leads where it means to, and one that waits changes nothing. */
  lemma EveryResultLeads(log: seq<Event>, leaf: Leaf, r: StepResult)
    requires Replay(log).Success? && Replay(log).value.state.active == At(leaf) && BelongsTo(r, leaf)
    requires !RefusesTasks(Replay(log).value.state, Saved(r))
    ensures Replay(log + [Saved(r)]).Success?
    ensures LandsAsMeant(Replay(log).value.state, leaf, MeaningOf(leaf, r), Replay(log + [Saved(r)]).value.state)
  {
    hide MeaningOf, BelongsTo, Next, LandsAsMeant;
    var s := Replay(log).value.state;
    assert Possible(s, Saved(r));
    ReachableInv(log);
    RunsExtend(log, Saved(r));
    EveryStepApplies(s, Saved(r));
    MeaningLands(s, leaf, r);
  }

  /** A Task that is left is closed with its outcome, and the next Task, or after the last one `test-execute`, becomes active. */
  lemma EveryTaskLeads(log: seq<Event>, task: nat, outcome: Status)
    requires Replay(log).Success? && Replay(log).value.state.active == InTask(task) && outcome in {Done, Deferred}
    ensures task < |Replay(log).value.state.tasks| && Replay(log + [Saved(TaskLeft(outcome))]).Success?
    ensures var before, after := Replay(log).value.state, Replay(log + [Saved(TaskLeft(outcome))]).value.state;
            if task + 1 < |before.tasks| then
              after.active == InTask(task + 1) && after.tasks == before.tasks[task := outcome][task + 1 := InProgress] && after.leaves == before.leaves
            else
              after.active == At(TEST_EXECUTE) && after.tasks == before.tasks[task := outcome]
              && after.leaves == before.leaves[TEST_EXECUTE := InProgress]
  {
    ReachableInv(log);
    RunsExtend(log, Saved(TaskLeft(outcome)));
    TaskLeads(Replay(log).value.state, task, outcome);
  }

  lemma TaskLeads(s: State, task: nat, outcome: Status)
    requires Inv(s) && s.active == InTask(task) && outcome in {Done, Deferred} && Next(s, Saved(TaskLeft(outcome))).Success?
    ensures var after := Next(s, Saved(TaskLeft(outcome))).value;
            if task + 1 < |s.tasks| then
              after.active == InTask(task + 1) && after.tasks == s.tasks[task := outcome][task + 1 := InProgress] && after.leaves == s.leaves
            else
              after.active == At(TEST_EXECUTE) && after.tasks == s.tasks[task := outcome] && after.leaves == s.leaves[TEST_EXECUTE := InProgress]
  {
    if task + 1 < |s.tasks| { assert Executable(s.tasks[task + 1]); }
  }

  // ---------------------------------------------------------------- stages are left cleared

  /** The Results with which a gate or its evidence lets the Flow pass. */
  predicate Cleared(stage: Leaf, r: StepResult) {
    || (stage == DRAFT_GATE && r in {DraftGatePassed, DraftGateCarriedForward})
    || (stage == SPEC_GATE && r in {SpecGatePassed, SpecGateDeferred})
    || (stage == TEST_RESULT_REVIEW && EvidenceCleared(r))
    || (stage == IMPL_GATE && GateCleared(r))
    || (stage == RETRO && RetroCleared(r))
    || (stage == FINAL_REGRESSION && RegressionCleared(r))
  }

  /** From where on a stage counts as passed; the Spec Gate repair stands behind its gate without passing it. */
  function Beyond(stage: Leaf): Option<Leaf> {
    if stage == SPEC_GATE then Some(APPROVAL)
    else if stage in {DRAFT_GATE, TEST_RESULT_REVIEW, IMPL_GATE, RETRO, FINAL_REGRESSION} then Some(stage + 1)
    else None
  }

  /** The last settlement that left the stage carries a Result that cleared it. */
  predicate LeftCleared(history: seq<Record>, leaf: Leaf, stage: Leaf)
    requires Beyond(stage).Some?
  {
    leaf >= Beyond(stage).value ==>
      var k := Latest(history, RoutedFrom(stage));
      k >= 0 && history[k].event.Saved? && Cleared(stage, history[k].event.result)
  }

  /** A route out of a stage and beyond it is taken with a clearing Result. */
  predicate ClearsOnLeaving(r: Record, after: Position, stage: Leaf)
    requires Beyond(stage).Some?
  {
    r.source == At(stage) && Rank(after) >= Beyond(stage).value ==> Marks(r, RoutedFrom(stage)) && r.event.Saved? && Cleared(stage, r.event.result)
  }

  lemma LeavingIsClear(s: State, e: Event, stage: Leaf)
    requires Inv(s) && Possible(s, e) && Next(s, e).Success? && Beyond(stage).Some?
    ensures ClearsOnLeaving(Record(s.active, e, Selected(s, e)), Next(s, e).value.active, stage)
  {
    if s.active == At(stage) {
      match e
      case Reopened => assert Next(s, e).value.active == At(DRAFT);
      case Saved(r) =>
        MeaningLands(s, stage, r);
        SettledAsMeant(s, stage, r);
        ForwardIsCleared(stage, r);
    }
  }

  lemma ForwardIsCleared(stage: Leaf, r: StepResult)
    requires Beyond(stage).Some? && BelongsTo(r, stage)
    ensures var m := MeaningOf(stage, r);
            && (m.Passes? <==> Cleared(stage, r))
            && (m.Passes? || m.Waits? || (m.Opens? && stage == SPEC_GATE) || (m.Returns? && m.to < stage))
  {
  }

  lemma ClearedKept(history: seq<Record>, r: Record, after: Position, stage: Leaf)
    requires Beyond(stage).Some? && LeftCleared(history, Rank(r.source), stage) && Shape(r, after) && ClearsOnLeaving(r, after, stage)
    ensures LeftCleared(history + [r], Rank(after), stage)
  {
    LatestAfter(history, r, RoutedFrom(stage));
    var k := Latest(history, RoutedFrom(stage));
    assert k >= 0 ==> (history + [r])[k] == history[k];
    if Rank(r.source) < stage { StagesAreNotJumped(Rank(r.source), stage); }
  }

  lemma {:induction false} ClearedInv(log: seq<Event>, stage: Leaf)
    requires Replay(log).Success? && Beyond(stage).Some?
    ensures LeftCleared(Replay(log).value.history, Rank(Replay(log).value.state.active), stage)
  {
    if log != [] {
      var n := |log| - 1;
      ClearedInv(log[..n], stage);
      ReachableInv(log[..n]);
      var before := Replay(log[..n]).value;
      StepShape(before.state, log[n]);
      LeavingIsClear(before.state, log[n], stage);
      ClearedKept(before.history, Record(before.state.active, log[n], Selected(before.state, log[n])), Replay(log).value.state.active, stage);
    }
  }

  /**
   No run gets beyond a gate over a failure nobody accepted: whenever what follows a gate, a review of
   results, the retrospective or the regression is active, the last Result that left it cleared it.
  */
  lemma NothingPassesUncleared(log: seq<Event>, stage: Leaf) returns (k: nat)
    requires Replay(log).Success? && Beyond(stage).Some? && Rank(Replay(log).value.state.active) >= Beyond(stage).value
    ensures LastSettled(Replay(log).value.history, stage, k)
    ensures Replay(log).value.history[k].event.Saved? && Cleared(stage, Replay(log).value.history[k].event.result)
  {
    ClearedInv(log, stage);
    k := Latest(Replay(log).value.history, RoutedFrom(stage));
  }

  /** And a gate passes exactly with a Result that clears it; with any other the Flow waits there, repairs or goes back. */
  lemma PassesExactlyWhenCleared(log: seq<Event>, stage: Leaf, r: StepResult)
    requires Replay(log).Success? && Replay(log).value.state.active == At(stage) && Beyond(stage).Some? && BelongsTo(r, stage)
    ensures Replay(log + [Saved(r)]).Success?
    ensures var before, after := Replay(log).value.state, Replay(log + [Saved(r)]).value.state;
            && (Rank(after.active) >= Beyond(stage).value <==> Cleared(stage, r))
            && (stage == IMPL_GATE && !Cleared(stage, r) && r != ExecutionRequired && r.meaning != GateEvidenceRefresh ==> after == before)
  {
    EveryResultLeads(log, stage, r);
    ForwardIsCleared(stage, r);
  }

  // ---------------------------------------------------------------- repairs and their reviews

  /** The last leaf that works on the findings of a review. */
  function Repairer(review: Leaf): Option<Leaf> {
    if review == QUESTIONS_REVIEW then Some(QUESTIONS_REPAIR)
    else if review == COVERAGE_REVIEW then Some(COVERAGE_REPAIR)
    else if review == IMPL_REVIEW then Some(IMPL_REPAIR)
    else if review == ACCEPTANCE_REVIEW then Some(ACCEPTANCE_DECISION)
    else None
  }

  /** Findings are settled: a repair had nothing to change, triage found nothing to repair, or the risk was accepted. */
  predicate Settles(review: Leaf, r: Record) {
    && r.settlement.Route? && r.event.Saved?
    && match r.source
       case At(leaf) =>
         || (review == QUESTIONS_REVIEW && leaf == QUESTIONS_REPAIR && r.event.result == QuestionsRepaired(false))
         || (review == COVERAGE_REVIEW && leaf == COVERAGE_REPAIR && r.event.result == CoverageRepaired(false))
         || (review == IMPL_REVIEW && leaf == IMPL_TRIAGE && r.event.result == TriageSelectedGate)
         || (review == ACCEPTANCE_REVIEW && leaf == ACCEPTANCE_DECISION && r.event.result == RiskAccepted)
       case _ => false
  }

  function LastSettling(history: seq<Record>, review: Leaf): (k: int)
    ensures -1 <= k < |history|
    ensures k >= 0 ==> Settles(review, history[k])
    ensures forall i | k < i < |history| :: !Settles(review, history[i])
  {
    if history == [] then -1
    else if Settles(review, history[|history| - 1]) then |history| - 1
    else LastSettling(history[..|history| - 1], review)
  }

  lemma SettlingAfter(history: seq<Record>, r: Record, review: Leaf)
    ensures LastSettling(history + [r], review) == if Settles(review, r) then |history| else LastSettling(history, review)
  {
    assert (history + [r])[..|history|] == history;
  }

  /** Behind the repairer the last review was clean, or its findings were settled after it. */
  predicate SettledSince(history: seq<Record>, leaf: Leaf, review: Leaf)
    requires Repairer(review).Some?
  {
    leaf > Repairer(review).value ==>
      && Latest(history, RoutedFrom(review)) >= 0
      && (Latest(history, Clean(review)) == Latest(history, RoutedFrom(review))
          || LastSettling(history, review) > Latest(history, RoutedFrom(review)))
  }

  /** Between a review and its repairer only a settling Result leads beyond. */
  predicate SettlesOnLeaving(r: Record, after: Position, review: Leaf)
    requires Repairer(review).Some?
  {
    match r.source
    case At(leaf) => review < leaf <= Repairer(review).value < Rank(after) && !after.Parked? ==> Settles(review, r)
    case _ => true
  }

  lemma RepairLeavesSettled(leaf: Leaf, r: StepResult, review: Leaf)
    requires Repairer(review).Some? && review < leaf <= Repairer(review).value && BelongsTo(r, leaf)
    ensures var m := MeaningOf(leaf, r);
            && (m.Passes? ==> r in {QuestionsRepaired(false), CoverageRepaired(false), TriageSelectedGate, RiskAccepted})
            && (m.Passes? ==> Settles(review, Record(At(leaf), Saved(r), Route(leaf, NO_EFFECTS))))
            && (m.Opens? ==> leaf < Repairer(review).value) && (m.Returns? ==> m.to <= Repairer(review).value)
            && (m.Passes? || m.Opens? || m.Returns? || m.Waits? || m.Parks?)
  {
  }

  lemma LeavingSettles(s: State, e: Event, review: Leaf)
    requires Inv(s) && Possible(s, e) && Next(s, e).Success? && Repairer(review).Some?
    ensures SettlesOnLeaving(Record(s.active, e, Selected(s, e)), Next(s, e).value.active, review)
  {
    if s.active.At? && review < s.active.leaf <= Repairer(review).value {
      match e
      case Reopened => assert Next(s, e).value.active == At(DRAFT);
      case Saved(r) =>
        MeaningLands(s, s.active.leaf, r);
        SettledAsMeant(s, s.active.leaf, r);
        RepairLeavesSettled(s.active.leaf, r, review);
    }
  }

  lemma SettlementKept(history: seq<Record>, r: Record, after: Position, review: Leaf)
    requires Repairer(review).Some? && SettledSince(history, Rank(r.source), review)
    requires Shape(r, after) && SettlesOnLeaving(r, after, review)
    requires InOrder(history, Rank(r.source))
    ensures SettledSince(history + [r], Rank(after), review)
  {
    LatestAfter(history, r, Clean(review));
    LatestAfter(history, r, RoutedFrom(review));
    SettlingAfter(history, r, review);
    if Rank(r.source) < review { StagesAreNotJumped(Rank(r.source), review); }
    if review < Rank(r.source) { assert Link(history, Rank(r.source), review); }
  }

  lemma {:induction false} SettlingInv(log: seq<Event>, review: Leaf)
    requires Replay(log).Success? && Repairer(review).Some?
    ensures SettledSince(Replay(log).value.history, Rank(Replay(log).value.state.active), review)
  {
    if log != [] {
      var n := |log| - 1;
      SettlingInv(log[..n], review);
      ReachableInv(log[..n]);
      HistoryInv(log[..n]);
      var before := Replay(log[..n]).value;
      StepShape(before.state, log[n]);
      LeavingSettles(before.state, log[n], review);
      SettlementKept(before.history, Record(before.state.active, log[n], Selected(before.state, log[n])), Replay(log).value.state.active, review);
    }
  }

  /**
   What a repair changed is always reviewed again: behind a repair, the last review of its kind was clean,
   or after that review a repair changed nothing, triage selected the gate, or the risk was accepted.
  */
  lemma RepairsAreReviewedAgain(log: seq<Event>, review: Leaf) returns (k: nat)
    requires Replay(log).Success? && Repairer(review).Some? && Rank(Replay(log).value.state.active) > Repairer(review).value
    ensures var h := Replay(log).value.history;
            && LastSettled(h, review, k)
            && (Marks(h[k], Clean(review)) || exists j :: k < j < |h| && Settles(review, h[j]))
  {
    SettlingInv(log, review);
    k := Latest(Replay(log).value.history, RoutedFrom(review));
  }

  /**
   When `report` is active, the evidence it rests on is not only settled after the last work on the sources
   and in its order: the gate, the reviews of results and of acceptance, the retrospective and the
   regression were each last left with a Result that cleared them.
  */
  lemma ReportRestsOnClearedEvidence(log: seq<Event>)
      returns (execute: nat, review: nat, impl: nat, gate: nat, retro: nat, acceptance: nat, regression: nat)
    requires Replay(log).Success? && Replay(log).value.state.active == At(REPORT)
    ensures var h := Replay(log).value.history;
            && execute < review < impl < gate < retro < acceptance < regression < |h|
            && (forall i | execute <= i < |h| :: !Marks(h[i], SourceWork))
            && h[review].event.Saved? && EvidenceCleared(h[review].event.result)
            && h[gate].event.Saved? && GateCleared(h[gate].event.result)
            && h[retro].event.Saved? && RetroCleared(h[retro].event.result)
            && h[regression].event.Saved? && RegressionCleared(h[regression].event.result)
            && (Marks(h[impl], Clean(IMPL_REVIEW)) || exists j :: impl < j < |h| && Settles(IMPL_REVIEW, h[j]))
            && (Marks(h[acceptance], Clean(ACCEPTANCE_REVIEW)) || exists j :: acceptance < j < |h| && Settles(ACCEPTANCE_REVIEW, h[j]))
  {
    hide Replay, Marks, Settles, EvidenceCleared, GateCleared, RetroCleared, RegressionCleared;
    execute, review, impl, gate, retro, acceptance, regression := ReportRestsOnFreshEvidence(log);
    var a := NothingPassesUncleared(log, TEST_RESULT_REVIEW);
    var b := NothingPassesUncleared(log, IMPL_GATE);
    var c := NothingPassesUncleared(log, RETRO);
    var d := NothingPassesUncleared(log, FINAL_REGRESSION);
    var e := RepairsAreReviewedAgain(log, IMPL_REVIEW);
    var f := RepairsAreReviewedAgain(log, ACCEPTANCE_REVIEW);
    assert a == review && b == gate && c == retro && d == regression && e == impl && f == acceptance;
  }

  // ---------------------------------------------------------------- which operation invalidated the implementation

  /** Recovering the plan: Draft was reopened, or a Spec Gate, Spec or Draft Gate repair was selected. */
  predicate RecoversPlan(r: Record) {
    match r.event
    case Reopened => true
    case Saved(result) => result in {SpecGateRepairRequired, SpecRepairDraftReturn, DraftGateRepairRequired}
  }

  /** Rewinding evidence: a repair was applied, acceptance sent one back, or stale evidence has to be produced again. */
  predicate RewindsEvidence(r: Record) {
    && r.event.Saved? && r.settlement.Route?
    && (r.event.result in {RepairApplied, AcceptanceRepairRequired, RetroEvidenceRefresh}
        || (r.event.result.ImplGate? && !GateCleared(r.event.result)))
  }

  /** The latest of the two operations in a history. */
  function LatestOperation(history: seq<Record>): SuffixOperation {
    if history == [] then NoSuffixOperation
    else
      var last := history[|history| - 1];
      if RecoversPlan(last) then PlanRecovery
      else if RewindsEvidence(last) then EvidenceRewind
      else LatestOperation(history[..|history| - 1])
  }

  /** The bookkeeping a route makes before it is followed: Tasks added or reset, and the operation recorded. */
  function Prepared(s: State, source: Leaf, r: StepResult, target: Leaf): State {
    match r
    case DraftGateRepairRequired => s.(suffix := PlanRecovery)
    case ApprovalConfirmed(_, added) => s.(tasks := s.tasks + seq(added, i => Pending))
    case TestDecision(_) => if target <= source then s.(tasks := InvalidatedTasks(s.tasks)) else s
    case RetroEvidenceRefresh => s.(suffix := EvidenceRewind)
    case ImplGate(_, _, _) | RepairApplied | AcceptanceRepairRequired => if target <= source then s.(suffix := EvidenceRewind) else s
    case _ => s
  }

  /** The source status and the tail a route keeps. */
  function ModeOf(r: StepResult): Mode {
    if r == RetroEvidenceRefresh then Mode(Invalidated, true) else CONFIRMED
  }

  lemma AppliedIsFollowed(s: State, source: Leaf, r: StepResult, target: Leaf, e: Effects)
    requires |s.leaves| == LEAVES && ApplyRoute(s, source, r, target, e).Success?
    requires r != SpecGateRepairRequired && r != SpecRepairDraftReturn && (r.ApprovalConfirmed? ==> source == APPROVAL)
    ensures ApplyRoute(s, source, r, target, e) == FollowRoute(Prepared(s, source, r, target), source, target, e, ModeOf(r))
    ensures Prepared(s, source, r, target).leaves == s.leaves
  {
    hide FollowRoute, AdmitsTasks, InvalidatedTasks;
  }

  /** What a route does to the recorded operation. */
  function SuffixAfter(s: State, source: Leaf, r: StepResult, target: Leaf): SuffixOperation {
    if r in {SpecGateRepairRequired, SpecRepairDraftReturn, DraftGateRepairRequired} then PlanRecovery
    else if r == RetroEvidenceRefresh || ((r.ImplGate? || r in {RepairApplied, AcceptanceRepairRequired}) && target <= source) then EvidenceRewind
    else s.suffix
  }

  lemma RouteSuffix(s: State, source: Leaf, r: StepResult, target: Leaf, e: Effects)
    requires |s.leaves| == LEAVES && ApplyRoute(s, source, r, target, e).Success? && (r.ApprovalConfirmed? ==> source == APPROVAL)
    ensures ApplyRoute(s, source, r, target, e).value.suffix == SuffixAfter(s, source, r, target)
  {
    hide FollowRoute, ReopenDraft, RestartSpecGateRepair, ConfirmApproval;
    if r == SpecRepairDraftReturn {
      ReopeningRecovers(s);
    } else if r == SpecGateRepairRequired {
      RestartSuffix(s);
    } else {
      OrdinarySuffix(s, source, r, target, e);
    }
  }

  lemma OrdinarySuffix(s: State, source: Leaf, r: StepResult, target: Leaf, e: Effects)
    requires |s.leaves| == LEAVES && ApplyRoute(s, source, r, target, e).Success? && (r.ApprovalConfirmed? ==> source == APPROVAL)
    requires r != SpecGateRepairRequired && r != SpecRepairDraftReturn
    ensures ApplyRoute(s, source, r, target, e).value.suffix == SuffixAfter(s, source, r, target)
  {
    hide FollowRoute, ApplyRoute;
    AppliedIsFollowed(s, source, r, target, e);
  }

  lemma RestartSuffix(s: State)
    requires |s.leaves| == LEAVES && RestartSpecGateRepair(s).Success?
    ensures RestartSpecGateRepair(s).value.suffix == PlanRecovery
  {
    hide FollowRoute;
  }

  lemma ReopeningRecovers(s: State)
    requires |s.leaves| == LEAVES && ReopenDraft(s).Success?
    ensures ReopenDraft(s).value.suffix == PlanRecovery
  {
  }

  lemma RewindingGoesBack(leaf: Leaf, r: StepResult)
    requires BelongsTo(r, leaf) && (r.ImplGate? || r in {RepairApplied, AcceptanceRepairRequired, RetroEvidenceRefresh})
    ensures var m := MeaningOf(leaf, r);
            && (m.Returns? <==> if r.ImplGate? then !GateCleared(r) && r.meaning == GateEvidenceRefresh else true)
            && (m.Returns? ==> m.to <= leaf) && (m.Passes? ==> NextStage(leaf) > leaf) && (m.Returns? || m.Passes? || m.Waits?)
            && (r.ImplGate? ==> (m.Passes? <==> GateCleared(r)))
  {
  }

  lemma StepSuffix(s: State, e: Event)
    requires Inv(s) && Possible(s, e) && Next(s, e).Success?
    ensures var r := Record(s.active, e, Selected(s, e));
            Next(s, e).value.suffix == if RecoversPlan(r) then PlanRecovery else if RewindsEvidence(r) then EvidenceRewind else s.suffix
  {
    match e
    case Reopened => ReopeningRecovers(s);
    case Saved(r) =>
      match s.active
      case At(leaf) => LeafSuffix(s, leaf, r);
      case _ => TaskSuffix(s, r);
  }

  lemma TaskSuffix(s: State, r: StepResult)
    requires Inv(s) && s.active.InTask? && Admissible(s, r) && Next(s, Saved(r)).Success?
    ensures Next(s, Saved(r)).value.suffix == s.suffix
  {
  }

  lemma LeafSuffix(s: State, leaf: Leaf, r: StepResult)
    requires Inv(s) && s.active == At(leaf) && BelongsTo(r, leaf) && Next(s, Saved(r)).Success?
    ensures var record := Record(s.active, Saved(r), Settle(s, r));
            Next(s, Saved(r)).value.suffix
              == if RecoversPlan(record) then PlanRecovery else if RewindsEvidence(record) then EvidenceRewind else s.suffix
  {
    hide AtInv, TaskInv, ApplyRoute, Settle, LeaveFor;
    SettledAsMeant(s, leaf, r);
    match Settle(s, r)
    case Route(target, effects) =>
      RouteSuffix(s, leaf, r, target, effects);
      if r.ImplGate? || r in {RepairApplied, AcceptanceRepairRequired, RetroEvidenceRefresh} { RewindingGoesBack(leaf, r); }
    case _ => OtherSuffix(s, leaf, r);
  }

  lemma OtherSuffix(s: State, leaf: Leaf, r: StepResult)
    requires |s.leaves| == LEAVES && s.active == At(leaf) && BelongsTo(r, leaf) && Next(s, Saved(r)).Success?
    requires !Settle(s, r).Route? && AsMeant(s, leaf, r)
    ensures Next(s, Saved(r)).value.suffix == s.suffix && !RecoversPlan(Record(s.active, Saved(r), Settle(s, r)))
  {
    hide Settle, LeavesAfter;
  }

  /** The operation Task admission asks for is the latest one the run has recorded. */
  lemma {:induction false} OperationIsTheLatestRecorded(log: seq<Event>)
    requires Replay(log).Success?
    ensures Replay(log).value.state.suffix == LatestOperation(Replay(log).value.history)
  {
    if log != [] {
      var n := |log| - 1;
      OperationIsTheLatestRecorded(log[..n]);
      ReachableInv(log[..n]);
      var before := Replay(log[..n]).value;
      StepSuffix(before.state, log[n]);
      var r := Record(before.state.active, log[n], Selected(before.state, log[n]));
      assert (before.history + [r])[..|before.history|] == before.history;
    }
  }

  /**
   An approval that adds Tasks is refused exactly when the implementation leaves were invalidated and the
   latest operation the run has recorded on them was not a recovery of the plan.
  */
  lemma TasksAreRefusedExactly(log: seq<Event>, withTests: bool, added: nat)
    requires Replay(log).Success? && Replay(log).value.state.active == At(APPROVAL)
    ensures var run := Replay(log).value;
            Replay(log + [Saved(ApprovalConfirmed(withTests, added))]).Success? <==>
              || added == 0
              || run.state.leaves[TEST_EXECUTE] == Pending
              || LatestOperation(run.history) == PlanRecovery
  {
    var s, e := Replay(log).value.state, Saved(ApprovalConfirmed(withTests, added));
    ReachableInv(log);
    OperationIsTheLatestRecorded(log);
    assert Possible(s, e);
    RunsExtend(log, e);
    AdmissionIs(s);
  }

  lemma AdmissionIs(s: State)
    requires |s.leaves| == LEAVES && AtInv(s, APPROVAL)
    ensures AdmitsTasks(s) <==> s.leaves[TEST_EXECUTE] == Pending || s.suffix == PlanRecovery
  {
    var i: Leaf := TEST_EXECUTE;
    assert SuffixKnown(s);
  }

  // ---------------------------------------------------------------- what happens to the statuses

  /** Every declared transition moves a leaf, and only work in progress is ever done. */
  lemma DeclaredTransitionsMove(leaf: Leaf, from: Status, to: Status)
    requires Declared(leaf, from, to)
    ensures from != to && from != Deferred && to != Deferred
    ensures to == Done ==> from == InProgress || (leaf == IMPLEMENT && from == Pending)
    ensures to == Pending ==> from == Skipped && leaf in {FINALIZE_SYNC, FINALIZE_CLEANUP}
    ensures to == Skipped ==> from != Done
  {
  }

  /** Which leaves a Result leaves closed, skips, invalidates, or does not touch, when it leads from `leaf` to `to`. */
  function StatusMeant(s: State, leaf: Leaf, r: StepResult, to: Leaf, i: Leaf): Status
    requires |s.leaves| == LEAVES
  {
    if i == to then InProgress
    else if r == SpecRepairReadyForGate then
      if i == SPEC_GATE_REPAIR then Invalidated else s.leaves[i]
    else if to <= leaf || r in {ReviewRejected, SpecGateRepairRequired} then
      if i < to then (if i == leaf then Done else s.leaves[i])
      else if r == RepairApplied && i == IMPL_REPAIR then Done
      else if r == RetroEvidenceRefresh && RETRO < i && s.leaves[i] == Pending then Pending
      else Invalidated
    else if i == leaf then Done
    else if leaf < i < to && Executable(s.leaves[i]) then Skipped
    else s.leaves[i]
  }

  /** The leaves after a route, at one leaf. */
  lemma RoutedStatus(s: State, source: Leaf, target: Leaf, e: Effects, mode: Mode, i: Leaf)
    requires |s.leaves| == LEAVES && FollowRoute(s, source, target, e, mode).Success?
    ensures FollowRoute(s, source, target, e, mode).value.leaves[i]
         == if i == target then InProgress else StatusAfter(s.leaves, source, e, mode, i)
    ensures EffectDeclared(s.leaves, source, e, mode, i)
  {
  }

  lemma ReopenedStatus(s: State, i: Leaf)
    requires |s.leaves| == LEAVES && ReopenDraft(s).Success?
    ensures ReopenDraft(s).value.leaves[i] == if i < DRAFT then s.leaves[i] else if i == DRAFT then InProgress else Invalidated
  {
  }

  /** The leaves an applied route leaves behind, at one leaf; its extra bookkeeping does not touch them. */
  lemma AppliedStatus(s: State, source: Leaf, r: StepResult, target: Leaf, e: Effects, i: Leaf)
    requires |s.leaves| == LEAVES && ApplyRoute(s, source, r, target, e).Success?
    requires r != SpecGateRepairRequired && r != SpecRepairDraftReturn && (r.ApprovalConfirmed? ==> source == APPROVAL)
    ensures ApplyRoute(s, source, r, target, e).value.leaves[i]
         == if i == target then InProgress else StatusAfter(s.leaves, source, e, ModeOf(r), i)
    ensures EffectDeclared(s.leaves, source, e, ModeOf(r), i)
  {
    hide FollowRoute, ApplyRoute, Prepared, StatusAfter, EffectDeclared;
    AppliedIsFollowed(s, source, r, target, e);
    RoutedStatus(Prepared(s, source, r, target), source, target, e, ModeOf(r), i);
  }

  /** The effects of a settlement change the statuses as meant. */
  predicate EffectsAsMeant(s: State, leaf: Leaf, r: StepResult, target: Leaf, e: Effects, i: Leaf)
    requires |s.leaves| == LEAVES
  {
    EffectDeclared(s.leaves, leaf, e, ModeOf(r), i) && i != target ==> StatusAfter(s.leaves, leaf, e, ModeOf(r), i) == StatusMeant(s, leaf, r, target, i)
  }

  lemma PlanStatusesMeant(s: State, leaf: Leaf, r: StepResult, i: Leaf)
    requires |s.leaves| == LEAVES && s.active == At(leaf) && AtInv(s, leaf) && leaf < SPEC && BelongsTo(r, leaf) && Settle(s, r).Route?
    ensures EffectsAsMeant(s, leaf, r, Settle(s, r).target, Settle(s, r).effects, i)
  {
  }

  lemma SpecStatusesMeant(s: State, leaf: Leaf, r: StepResult, i: Leaf)
    requires |s.leaves| == LEAVES && s.active == At(leaf) && AtInv(s, leaf) && SPEC <= leaf < IMPLEMENT && BelongsTo(r, leaf) && Settle(s, r).Route?
    requires r != SpecGateRepairRequired && r != SpecRepairDraftReturn
    ensures EffectsAsMeant(s, leaf, r, Settle(s, r).target, Settle(s, r).effects, i)
  {
  }

  lemma ImplStatusesMeant(s: State, leaf: Leaf, r: StepResult, i: Leaf)
    requires |s.leaves| == LEAVES && s.active == At(leaf) && AtInv(s, leaf) && IMPLEMENT <= leaf < RETRO && BelongsTo(r, leaf) && Settle(s, r).Route?
    ensures EffectsAsMeant(s, leaf, r, Settle(s, r).target, Settle(s, r).effects, i)
  {
  }

  lemma AcceptanceStatusesMeant(s: State, leaf: Leaf, r: StepResult, i: Leaf)
    requires |s.leaves| == LEAVES && s.active == At(leaf) && AtInv(s, leaf) && RETRO <= leaf && BelongsTo(r, leaf) && Settle(s, r).Route?
    ensures EffectsAsMeant(s, leaf, r, Settle(s, r).target, Settle(s, r).effects, i)
  {
  }

  lemma RestartStatus(s: State, i: Leaf)
    requires |s.leaves| == LEAVES && RestartSpecGateRepair(s).Success?
    ensures RestartSpecGateRepair(s).value.leaves[i] == StatusMeant(s, SPEC_GATE, SpecGateRepairRequired, SPEC_GATE_REPAIR, i)
  {
    RoutedStatus(s.(tasks := InvalidatedTasks(s.tasks), suffix := PlanRecovery), SPEC_GATE, SPEC_GATE_REPAIR,
                 NO_EFFECTS.(resets := From(SPEC_GATE_REPAIR)), CONFIRMED, i);
  }

  lemma RouteStatusMeant(s: State, leaf: Leaf, r: StepResult, i: Leaf)
    requires Inv(s) && s.active == At(leaf) && BelongsTo(r, leaf) && Settle(s, r).Route? && Next(s, Saved(r)).Success?
    ensures Next(s, Saved(r)).value.leaves[i] == StatusMeant(s, leaf, r, Settle(s, r).target, i)
  {
    hide AtInv, TaskInv, Settle, ApplyRoute, StatusMeant, StatusAfter, EffectDeclared, RestartSpecGateRepair, ReopenDraft;
    var target, e := Settle(s, r).target, Settle(s, r).effects;
    assert Next(s, Saved(r)) == ApplyRoute(s, leaf, r, target, e);
    SettledAsMeant(s, leaf, r);
    if r == SpecGateRepairRequired || r == SpecRepairDraftReturn {
      RecoveredStatus(s, leaf, r, i);
    } else {
      AppliedStatus(s, leaf, r, target, e, i);
      if leaf < SPEC { PlanStatusesMeant(s, leaf, r, i); }
      else if leaf < IMPLEMENT { SpecStatusesMeant(s, leaf, r, i); }
      else if leaf < RETRO { ImplStatusesMeant(s, leaf, r, i); }
      else { AcceptanceStatusesMeant(s, leaf, r, i); }
      TargetInProgress(s, leaf, r, target);
    }
  }

  lemma TargetInProgress(s: State, leaf: Leaf, r: StepResult, to: Leaf)
    requires |s.leaves| == LEAVES
    ensures StatusMeant(s, leaf, r, to, to) == InProgress
  {
  }

  lemma RecoveredStatus(s: State, leaf: Leaf, r: StepResult, i: Leaf)
    requires |s.leaves| == LEAVES && s.active == At(leaf) && BelongsTo(r, leaf) && r in {SpecGateRepairRequired, SpecRepairDraftReturn}
    requires Next(s, Saved(r)).Success?
    ensures Settle(s, r).Route? && Next(s, Saved(r)).value.leaves[i] == StatusMeant(s, leaf, r, Settle(s, r).target, i)
  {
    if r == SpecGateRepairRequired { RestartStatus(s, i); } else { ReopenedStatus(s, i); }
  }

  /**
   In every run a Result changes the statuses as it means to: what it passes over is skipped, what it goes
   back behind is invalidated, an applied repair keeps its Result, and a never attempted tail stays as it is.
  */
  lemma StatusesChangeAsMeant(log: seq<Event>, leaf: Leaf, r: StepResult, to: Leaf)
    requires Replay(log).Success? && Replay(log).value.state.active == At(leaf) && BelongsTo(r, leaf)
    requires !RefusesTasks(Replay(log).value.state, Saved(r))
    requires (MeaningOf(leaf, r).Opens? ==> leaf < FINALIZE_CLEANUP) && LeadsTo(leaf, MeaningOf(leaf, r)) == Some(to)
    ensures Replay(log + [Saved(r)]).Success?
    ensures var before, after := Replay(log).value.state, Replay(log + [Saved(r)]).value.state;
            forall i: Leaf :: after.leaves[i] == StatusMeant(before, leaf, r, to, i)
  {
    hide MeaningOf, BelongsTo, Next, StatusMeant;
    var s := Replay(log).value.state;
    assert Possible(s, Saved(r));
    ReachableInv(log);
    RunsExtend(log, Saved(r));
    EveryStepApplies(s, Saved(r));
    SettledAsMeant(s, leaf, r);
    forall i: Leaf ensures Next(s, Saved(r)).value.leaves[i] == StatusMeant(s, leaf, r, to, i) {
      RouteStatusMeant(s, leaf, r, i);
    }
  }

  // ---------------------------------------------------------------- what may be skipped

  /** Leaves that are only there for findings, repairs, Requirement tests or a decision. */
  predicate MayBeSkipped(leaf: Leaf) {
    || leaf in {QUESTIONS_TRIAGE, QUESTIONS_REPAIR, DRAFT_GATE_REPAIR, COVERAGE_TRIAGE, COVERAGE_REPAIR, SPEC_GATE_REPAIR}
    || TEST_GENERATE <= leaf <= TEST_GATE
    || leaf in {IMPL_TRIAGE, IMPL_REPAIR, ACCEPTANCE_DECISION}
  }

  predicate OnlyTheseSkipped(leaves: seq<Status>) {
    forall i: Leaf | i < |leaves| && leaves[i] == Skipped :: MayBeSkipped(i)
  }

  predicate EffectsSkipThese(e: Effects) {
    forall i: Leaf | i in e.skips || i in e.completions :: MayBeSkipped(i)
  }

  lemma RouteSkips(s: State, source: Leaf, target: Leaf, e: Effects, mode: Mode)
    requires |s.leaves| == LEAVES && FollowRoute(s, source, target, e, mode).Success?
    requires OnlyTheseSkipped(s.leaves) && EffectsSkipThese(e) && mode.sourceStatus != Skipped
    ensures OnlyTheseSkipped(FollowRoute(s, source, target, e, mode).value.leaves)
  {
    var after := FollowRoute(s, source, target, e, mode).value.leaves;
    forall i: Leaf | after[i] == Skipped ensures MayBeSkipped(i) {
      assert after == LeavesAfter(s.leaves, source, e, mode)[target := InProgress];
    }
  }

  lemma PlanSkips(s: State, leaf: Leaf, r: StepResult)
    requires |s.leaves| == LEAVES && s.active == At(leaf) && leaf < IMPLEMENT && BelongsTo(r, leaf) && Settle(s, r).Route?
    ensures EffectsSkipThese(Settle(s, r).effects)
  {
  }

  lemma ImplSkips(s: State, leaf: Leaf, r: StepResult)
    requires |s.leaves| == LEAVES && s.active == At(leaf) && IMPLEMENT <= leaf && BelongsTo(r, leaf) && Settle(s, r).Route?
    ensures EffectsSkipThese(Settle(s, r).effects)
  {
  }

  lemma RestartSkips(s: State)
    requires |s.leaves| == LEAVES && OnlyTheseSkipped(s.leaves) && RestartSpecGateRepair(s).Success?
    ensures OnlyTheseSkipped(RestartSpecGateRepair(s).value.leaves)
  {
    RouteSkips(s.(tasks := InvalidatedTasks(s.tasks), suffix := PlanRecovery), SPEC_GATE, SPEC_GATE_REPAIR,
               NO_EFFECTS.(resets := From(SPEC_GATE_REPAIR)), CONFIRMED);
  }

  lemma AppliedSkips(s: State, source: Leaf, r: StepResult, target: Leaf, e: Effects)
    requires |s.leaves| == LEAVES && ApplyRoute(s, source, r, target, e).Success? && OnlyTheseSkipped(s.leaves) && EffectsSkipThese(e)
    requires r.ApprovalConfirmed? ==> source == APPROVAL
    ensures OnlyTheseSkipped(ApplyRoute(s, source, r, target, e).value.leaves)
  {
    hide FollowRoute, ReopenDraft, RestartSpecGateRepair, ConfirmApproval, OnlyTheseSkipped, EffectsSkipThese;
    if r == SpecGateRepairRequired {
      RestartSkips(s);
    } else if r == SpecRepairDraftReturn {
      ReopeningSkips(s);
    } else {
      OrdinarySkips(s, source, r, target, e);
    }
  }

  lemma OrdinarySkips(s: State, source: Leaf, r: StepResult, target: Leaf, e: Effects)
    requires |s.leaves| == LEAVES && ApplyRoute(s, source, r, target, e).Success? && OnlyTheseSkipped(s.leaves) && EffectsSkipThese(e)
    requires r != SpecGateRepairRequired && r != SpecRepairDraftReturn && (r.ApprovalConfirmed? ==> source == APPROVAL)
    ensures OnlyTheseSkipped(ApplyRoute(s, source, r, target, e).value.leaves)
  {
    hide FollowRoute, ApplyRoute, Prepared, OnlyTheseSkipped, EffectsSkipThese;
    AppliedIsFollowed(s, source, r, target, e);
    RouteSkips(Prepared(s, source, r, target), source, target, e, ModeOf(r));
  }

  lemma ReopeningSkips(s: State)
    requires |s.leaves| == LEAVES && ReopenDraft(s).Success? && OnlyTheseSkipped(s.leaves)
    ensures OnlyTheseSkipped(ReopenDraft(s).value.leaves)
  {
  }

  lemma StepSkips(s: State, e: Event)
    requires |s.leaves| == LEAVES && Possible(s, e) && Next(s, e).Success? && OnlyTheseSkipped(s.leaves)
    ensures OnlyTheseSkipped(Next(s, e).value.leaves)
  {
    match e
    case Reopened => ReopeningSkips(s);
    case Saved(r) =>
      if s.active.At? && Settle(s, r).Route? {
        if s.active.leaf < IMPLEMENT { PlanSkips(s, s.active.leaf, r); } else { ImplSkips(s, s.active.leaf, r); }
        AppliedSkips(s, s.active.leaf, r, Settle(s, r).target, Settle(s, r).effects);
      } else {
        OtherSkips(s, r);
      }
  }

  lemma OtherSkips(s: State, r: StepResult)
    requires |s.leaves| == LEAVES && Admissible(s, r) && Apply(s, r, Settle(s, r)).Success? && OnlyTheseSkipped(s.leaves)
    requires !(s.active.At? && Settle(s, r).Route?)
    ensures OnlyTheseSkipped(Apply(s, r, Settle(s, r)).value.leaves)
  {
    hide Settle;
  }

  /** No stage of a Flow is ever skipped: in every run only leaves for findings, repairs, tests and decisions are. */
  lemma {:induction false} NoStageIsSkipped(log: seq<Event>)
    requires Replay(log).Success?
    ensures OnlyTheseSkipped(Replay(log).value.state.leaves)
  {
    if log != [] {
      var n := |log| - 1;
      NoStageIsSkipped(log[..n]);
      StepSkips(Replay(log[..n]).value.state, log[n]);
    }
  }
}
