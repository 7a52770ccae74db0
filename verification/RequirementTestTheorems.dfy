/** The promises of the Requirement-test lifecycle, for every run over any number of Requirements. */
module RequirementTestTheorems {
  import opened Wrappers
  import opened RequirementTests
  import opened RequirementTestProofs

  lemma FreshItemInv(r: Requirement, status: Status)
    requires status in {Pending, InProgress}
    ensures ItemInv(WorkItem(r.id, r.expectation, status, None, INITIAL_BUDGET, []), false)
  {
  }

  /** The initial plan: fresh items, the first one in progress. */
  predicate FreshPlan(plan: Plan, requirements: seq<Requirement>) {
    && |plan| == |requirements|
    && forall i | 0 <= i < |plan| ::
         plan[i] == WorkItem(requirements[i].id, requirements[i].expectation, if i == 0 then InProgress else Pending, None, INITIAL_BUDGET, [])
  }

  lemma InitialIsFresh(requirements: seq<Requirement>)
    ensures FreshPlan(Initialize(requirements).plan, requirements)
  {
  }

  lemma FreshShape(plan: Plan, requirements: seq<Requirement>)
    requires FreshPlan(plan, requirements)
    ensures if plan == [] then Shape(plan, Implement) else Shape(plan, ToLeaf(TestGenerate))
  {
    if plan != [] {
      assert plan[0].status == InProgress;
      assert IsFocus(plan, TestGenerate, 0);
    }
  }

  lemma FreshItems(plan: Plan, requirements: seq<Requirement>)
    requires FreshPlan(plan, requirements)
    ensures ItemsInv(plan, false)
  {
    forall i | 0 <= i < |plan| ensures ItemInv(plan[i], false) {
      FreshItemInv(requirements[i], if i == 0 then InProgress else Pending);
    }
  }

  lemma FreshIds(plan: Plan, requirements: seq<Requirement>)
    requires FreshPlan(plan, requirements)
    requires forall i, j | 0 <= i < j < |requirements| :: requirements[i].id != requirements[j].id
    ensures DistinctIds(plan)
  {
    forall i, j | 0 <= i < j < |plan| ensures plan[i].requirementId != plan[j].requirementId {
      assert requirements[i].id != requirements[j].id;
    }
  }

  lemma InvFromParts(plan: Plan, target: Target)
    requires target != ToLeaf(TestRepair) && DistinctIds(plan) && Shape(plan, target) && ItemsInv(plan, false)
    ensures Inv(State(plan, target))
  {
  }

  lemma InitialInv(requirements: seq<Requirement>)
    requires forall i, j | 0 <= i < j < |requirements| :: requirements[i].id != requirements[j].id
    ensures Inv(Initialize(requirements))
  {
    hide Initialize, Shape, ItemsInv, DistinctIds, Inv, FreshPlan;
    var plan := Initialize(requirements).plan;
    InitialIsFresh(requirements);
    FreshShape(plan, requirements);
    FreshItems(plan, requirements);
    FreshIds(plan, requirements);
    FreshTarget(requirements);
    InvFromParts(plan, Initialize(requirements).target);
  }

  lemma FreshTarget(requirements: seq<Requirement>)
    ensures Initialize(requirements).target == if Initialize(requirements).plan == [] then Implement else ToLeaf(TestGenerate)
  {
  }

  lemma InvKept(s: State, e: Event, t: State)
    requires Inv(s) && Step(s, e) == Success(t)
    ensures Inv(t)
  {
    AcceptedWasAdmitted(s, e);
    StepFollowsTable(s, e);
  }

  lemma {:induction false} ReachableInv(states: seq<State>, events: seq<Event>, requirements: seq<Requirement>, n: nat)
    requires IsRun(states, events, requirements) && n < |states|
    ensures Inv(states[n])
  {
    hide Step, Inv, Initialize;
    if n == 0 {
      InitialInv(requirements);
    } else {
      ReachableInv(states, events, requirements, n - 1);
      InvKept(states[n - 1], events[n - 1], states[n]);
    }
  }

  lemma AcceptedWasAdmitted(s: State, e: Event)
    requires Step(s, e).Success?
    ensures s.target.ToLeaf? && Admit(s.plan, s.target.leaf, e).Success?
  {
  }

  /** No check after admission can fail: neither the decision, nor applying it, nor the new plan. */
  lemma AdmittedIsNeverRefused(states: seq<State>, events: seq<Event>, requirements: seq<Requirement>, n: nat, e: Event)
    requires IsRun(states, events, requirements) && n < |states| && states[n].target.ToLeaf?
    ensures Step(states[n], e).Success? <==> Admit(states[n].plan, states[n].target.leaf, e).Success?
  {
    ReachableInv(states, events, requirements, n);
    if Admit(states[n].plan, states[n].target.leaf, e).Success? {
      StepFollowsTable(states[n], e);
    }
  }

  /** Budgets, recorded findings and bundle revisions of every Requirement stay within the stated bounds. */
  lemma BudgetsAreBounded(states: seq<State>, events: seq<Event>, requirements: seq<Requirement>, n: nat, i: nat)
    requires IsRun(states, events, requirements) && n < |states| && i < |states[n].plan|
    ensures var w := states[n].plan[i];
            && w.budget.autoSemantic <= 5 && w.budget.manualSemantic <= 5 && w.budget.tooling <= 3
            && |w.findings| == w.budget.autoSemantic + w.budget.manualSemantic
            && (forall a, b | 0 <= a < b < |w.findings| :: w.findings[a] != w.findings[b])
            && (w.bundle.Some? ==> w.bundle.value.revision <= |w.findings| + 1)
            && (w.status == Reviewed && w.bundle.Some? && states[n].target == ToLeaf(TestRepair) ==> w.bundle.value.revision <= |w.findings|)
  {
    ReachableInv(states, events, requirements, n);
    var w := states[n].plan[i];
    assert ItemInv(w, states[n].target == ToLeaf(TestRepair));
    assert FindingsConstructible(w.findings, w.requirementId);
  }

  /** Whenever a test leaf is active it works on one Requirement, and that one is found active. */
  lemma OneRequirementIsActive(states: seq<State>, events: seq<Event>, requirements: seq<Requirement>, n: nat) returns (k: nat)
    requires IsRun(states, events, requirements) && n < |states| && states[n].target.ToLeaf?
    ensures IsFocus(states[n].plan, states[n].target.leaf, k)
    ensures forall j: nat | IsFocus(states[n].plan, states[n].target.leaf, j) :: j == k
    ensures ActiveWorkItem(states[n].plan) == Success(Some(k))
  {
    ReachableInv(states, events, requirements, n);
    var plan, leaf := states[n].plan, states[n].target.leaf;
    k :| IsFocus(plan, leaf, k);
    FocusIsActive(plan, leaf, k);
    forall j: nat | IsFocus(plan, leaf, j) ensures j == k {
      FocusIsActive(plan, leaf, j);
    }
  }

  // ---------------------------------------------------------------- one step of a run

  /** The facts of an accepted step: it made the tabulated change `c` to the plan of `s`. */
  ghost predicate Stepped(s: State, e: Event, t: State, f: Facts, c: Change) {
    && f.plan == s.plan && s.target == ToLeaf(f.leaf) && f.event == e
    && Focused(f) && Fits(f) && ItemInv(f.Item(), f.leaf == TestRepair)
    && BoundToCurrentBundle(f.leaf, f.Item(), e.observation)
    && (e.observation.ObservedKind() in {StructuralRejection, SemanticRejection} ==> Rejects(f))
    && c == Table(f)
    && (c.start.Some? ==> c.start.value < |s.plan| && c.start.value != f.active && s.plan[c.start.value].status == Pending)
    && t == State(Moved(s.plan, f.active, c.item, c.start), c.target)
  }

  lemma StepOf(s: State, e: Event) returns (f: Facts, c: Change)
    requires Inv(s) && Step(s, e).Success?
    ensures Stepped(s, e, Step(s, e).value, f, c)
  {
    AcceptedWasAdmitted(s, e);
    StepFollowsTable(s, e);
    f := FactsOf(s, e);
    ReadyIsFocused(f);
    AdmittedIsBound(s, e, f);
    TableCases(f);
    c := Table(f);
  }

  /** The observation an accepted step consumes was bound to the active item's current bundle. */
  lemma AdmittedIsBound(s: State, e: Event, f: Facts)
    requires s.target.ToLeaf? && Admit(s.plan, s.target.leaf, e) == Success(f) && f.Bound()
    requires IsFocus(s.plan, s.target.leaf, f.active) && f.plan == s.plan
    ensures BoundToCurrentBundle(s.target.leaf, f.Item(), e.observation)
  {
    FocusIsActive(s.plan, s.target.leaf, f.active);
  }

  lemma RunStep(states: seq<State>, events: seq<Event>, requirements: seq<Requirement>, n: nat) returns (f: Facts, c: Change)
    requires IsRun(states, events, requirements) && n < |events|
    ensures Stepped(states[n], events[n], states[n + 1], f, c)
    ensures Inv(states[n]) && Inv(states[n + 1])
  {
    ReachableInv(states, events, requirements, n);
    ReachableInv(states, events, requirements, n + 1);
    f, c := StepOf(states[n], events[n]);
  }

  ghost predicate StepsTo(s: State, e: Event, t: State) {
    exists f, c :: Stepped(s, e, t, f, c)
  }

  /** A run, described by its tabulated changes only. */
  ghost predicate IsChain(states: seq<State>, events: seq<Event>) {
    && |states| == |events| + 1
    && forall i | 0 <= i < |events| :: StepsTo(states[i], events[i], states[i + 1])
  }

  lemma RunIsChain(states: seq<State>, events: seq<Event>, requirements: seq<Requirement>)
    requires IsRun(states, events, requirements)
    ensures IsChain(states, events)
  {
    forall i | 0 <= i < |events|
      ensures StepsTo(states[i], events[i], states[i + 1])
    {
      var f, c := RunStep(states, events, requirements, i);
    }
  }

  /** The Requirement at `k` is charged and sent to repair, or deferred because its budget is used up. */
  ghost predicate ChargedOrDeferred(before: State, after: State, k: nat, kind: BudgetKind) {
    && k < |before.plan| == |after.plan|
    && before.plan[k].requirementId == after.plan[k].requirementId
    && if before.plan[k].budget.Used(kind) < 5 then
         && after.plan[k].budget == before.plan[k].budget.Increment(kind)
         && before.plan[k].findings < after.plan[k].findings
         && |after.plan[k].findings| == |before.plan[k].findings| + 1
         && after.plan[k].status == Reviewed && after.target == ToLeaf(TestRepair)
       else
         && after.plan[k].budget == before.plan[k].budget
         && after.plan[k].findings == before.plan[k].findings
         && after.plan[k].status == Deferred
  }

  lemma RejectionIsCharged(s: State, e: Event, t: State, f: Facts, c: Change)
    requires Stepped(s, e, t, f, c) && e.observation.ObservedKind() in {StructuralRejection, SemanticRejection}
    ensures s.plan[f.active].requirementId == e.observation.Id()
    ensures ChargedOrDeferred(s, t, f.active, SemanticKind(e))
  {
    assert c == Rejection(f);
    assert c.start.Some? ==> c.start.value != f.active;
    assert t.plan[f.active] == c.item;
  }

  /** A rejection never repeats a counted finding: every one of them is charged or defers its Requirement. */
  lemma EveryRejectionIsCharged(states: seq<State>, events: seq<Event>, requirements: seq<Requirement>, n: nat) returns (k: nat)
    requires IsRun(states, events, requirements) && n < |events|
    requires events[n].observation.ObservedKind() in {StructuralRejection, SemanticRejection}
    ensures k < |states[n].plan| && states[n].plan[k].requirementId == events[n].observation.Id()
    ensures ChargedOrDeferred(states[n], states[n + 1], k, SemanticKind(events[n]))
  {
    var f, c := RunStep(states, events, requirements, n);
    RejectionIsCharged(states[n], events[n], states[n + 1], f, c);
    k := f.active;
  }

  /** The Requirement at `k` keeps its leaf and pays a tooling charge, or is deferred after three of them. */
  ghost predicate RetriedOrDeferred(before: State, after: State, k: nat) {
    && k < |before.plan| == |after.plan|
    && if before.plan[k].budget.tooling < 3 then
         after.plan == before.plan[k := before.plan[k].(budget := before.plan[k].budget.(tooling := before.plan[k].budget.tooling + 1))]
         && after.target == before.target
       else
         after.plan[k] == before.plan[k].(status := Deferred)
  }

  lemma ToolingIsCharged(s: State, e: Event, t: State, f: Facts, c: Change)
    requires Stepped(s, e, t, f, c) && e.observation.ObservedKind() == ToolingFailure
    ensures s.plan[f.active].requirementId == e.observation.Id() && RetriedOrDeferred(s, t, f.active)
  {
    hide Table, ItemInv, Focused, IsFocus, BoundToCurrentBundle;
    TabledTooling(f);
    assert c.start.Some? ==> c.start.value != f.active;
    assert t.plan[f.active] == c.item;
  }

  lemma TabledTooling(f: Facts)
    requires f.Bound() && f.event.observation.ObservedKind() == ToolingFailure
    ensures if f.Item().budget.tooling < 3 then
              Table(f) == Change(f.Item().(budget := f.Item().budget.(tooling := f.Item().budget.tooling + 1)), None, ToLeaf(f.leaf))
            else Table(f).item == f.Item().(status := Deferred)
  {
  }

  /** A tooling failure is retried at the same leaf three times; the fourth one defers its Requirement. */
  lemma EveryToolingFailureIsCharged(states: seq<State>, events: seq<Event>, requirements: seq<Requirement>, n: nat) returns (k: nat)
    requires IsRun(states, events, requirements) && n < |events| && events[n].observation.ObservedKind() == ToolingFailure
    ensures k < |states[n].plan| && states[n].plan[k].requirementId == events[n].observation.Id()
    ensures RetriedOrDeferred(states[n], states[n + 1], k)
  {
    var f, c := RunStep(states, events, requirements, n);
    ToolingIsCharged(states[n], events[n], states[n + 1], f, c);
    k := f.active;
  }

  /** `implement` is selected exactly when every Requirement is promoted or deferred. */
  lemma ImplementExactlyWhenSettled(states: seq<State>, events: seq<Event>, requirements: seq<Requirement>, n: nat)
    requires IsRun(states, events, requirements) && n < |states|
    ensures states[n].target == Implement <==> Settled(states[n].plan)
  {
    ReachableInv(states, events, requirements, n);
    OpenWorkIsNotSettled(states[n]);
  }

  lemma OpenWorkIsNotSettled(s: State)
    requires Shape(s.plan, s.target)
    ensures s.target == Implement <==> Settled(s.plan)
  {
    if s.target.ToLeaf? {
      var k: nat :| IsFocus(s.plan, s.target.leaf, k);
      assert !s.plan[k].Terminal();
    }
  }

  // ---------------------------------------------------------------- saved Results

  /**
   The decision selected from the saved Result alone is the one selected from the live plan, and the
   same Attempt goes on exactly when that decision returns to generation after a saved candidate.
  */
  ghost predicate Replays(f: Facts)
    requires f.Bound()
  {
    var live := Resolve(LiveSelection(f));
    && live.Success?
    && Settle(Save(f)) ==
       Success(if live.value.target == ToLeaf(TestGenerate) && f.event.observation.CandidateObservation?
               then SameAttempt(live.value) else Route(live.value))
  }

  lemma ReplayAgrees(f: Facts)
    requires Focused(f) && Fits(f) && Selects(f, Table(f))
    ensures Replays(f)
  {
    var live := Resolve(LiveSelection(f));
    assert live == Resolve(SavedSelection(Save(f)));
    assert Save(f).frontier == LiveSelection(f).frontier;
    if f.event.observation.CandidateObservation? {
      assert live.value.target == ToLeaf(TestGenerate) <==> f.leaf == TestGenerate && Save(f).frontier.pending != [];
    } else {
      assert Save(f).kind != CandidateSavedKind;
    }
  }

  lemma SavedResultReplays(states: seq<State>, events: seq<Event>, requirements: seq<Requirement>, n: nat, e: Event)
    requires IsRun(states, events, requirements) && n < |states| && states[n].target.ToLeaf?
    requires Admit(states[n].plan, states[n].target.leaf, e).Success?
    ensures Admit(states[n].plan, states[n].target.leaf, e).value.Bound()
    ensures Replays(Admit(states[n].plan, states[n].target.leaf, e).value)
  {
    ReachableInv(states, events, requirements, n);
    AdmittedReplays(states[n], e);
  }

  lemma AdmittedReplays(s: State, e: Event)
    requires Inv(s) && s.target.ToLeaf? && Admit(s.plan, s.target.leaf, e).Success?
    ensures FactsOf(s, e).Bound() && Replays(FactsOf(s, e))
  {
    FactsReady(s, e);
    var f := FactsOf(s, e);
    SelectsFromTable(f);
    ReadyIsFocused(f);
    ReplayAgrees(f);
  }

  // ---------------------------------------------------------------- which candidate comes next

  /** Only the status of `k` went back to `candidate_saved`, and `k` is reviewed next. */
  ghost predicate Reopens(before: State, after: State, k: nat) {
    && k < |before.plan|
    && after.plan == before.plan[k := before.plan[k].(status := CandidateSaved)]
    && after.target == ToLeaf(TestReview)
    && ActiveWorkItem(after.plan) == Success(Some(k))
  }

  ghost predicate GateMismatch(s: State, e: Event) {
    && s.target == ToLeaf(TestGate)
    && e.observation.GateObservation? && e.observation.kind != ToolingFailure
    && exists k :: 0 <= k < |s.plan| && s.plan[k].requirementId == e.observation.Id()
                   && e.observation.kind != if s.plan[k].expectation == ExpectFail then AssertionFailed else AssertionPassed
  }

  lemma MismatchReopens(s: State, e: Event, t: State, f: Facts, c: Change)
    requires Stepped(s, e, t, f, c) && GateMismatch(s, e)
    ensures s.plan[f.active].requirementId == e.observation.Id() && Reopens(s, t, f.active)
  {
    var k :| 0 <= k < |s.plan| && s.plan[k].requirementId == e.observation.Id()
             && e.observation.kind != if s.plan[k].expectation == ExpectFail then AssertionFailed else AssertionPassed;
    assert k == f.active;
    assert c.item == s.plan[k].(status := CandidateSaved);
    assert IsFocus(t.plan, TestReview, k);
    FocusIsActive(t.plan, TestReview, k);
  }

  /** A Gate mismatch reopens the very candidate it rejected, uncharged. */
  lemma GateMismatchReopensItsCandidate(states: seq<State>, events: seq<Event>, requirements: seq<Requirement>, n: nat) returns (k: nat)
    requires IsRun(states, events, requirements) && n < |events| && GateMismatch(states[n], events[n])
    ensures k < |states[n].plan| && states[n].plan[k].requirementId == events[n].observation.Id()
    ensures Reopens(states[n], states[n + 1], k)
  {
    var f, c := RunStep(states, events, requirements, n);
    MismatchReopens(states[n], events[n], states[n + 1], f, c);
    k := f.active;
  }

  lemma RepairedIsNext(s: State, e: Event, t: State, f: Facts, c: Change)
    requires Stepped(s, e, t, f, c) && Inv(t) && s.target == ToLeaf(TestRepair) && e.observation.CandidateObservation?
    ensures ActiveWorkItem(t.plan) == Success(Some(f.active)) <==> NoneStagedBefore(s.plan, f.active)
  {
    assert forall j | 0 <= j < f.active :: t.plan[j] == s.plan[j];
    assert t.plan[f.active].status == CandidateSaved;
    assert t.target == ToLeaf(TestReview);
    var focus: nat :| IsFocus(t.plan, TestReview, focus);
    FocusIsActive(t.plan, TestReview, focus);
    if focus < f.active {
      assert s.plan[focus].status == CandidateSaved;
    }
  }

  /** After a repair, the repaired candidate is reviewed next exactly when nothing staged precedes it. */
  lemma RepairedCandidateIsNextUnlessPreceded(states: seq<State>, events: seq<Event>, requirements: seq<Requirement>, n: nat) returns (k: nat)
    requires IsRun(states, events, requirements) && n < |events|
    requires states[n].target == ToLeaf(TestRepair) && events[n].observation.CandidateObservation?
    ensures k < |states[n].plan| && states[n].plan[k].requirementId == events[n].observation.Id()
    ensures ActiveWorkItem(states[n + 1].plan) == Success(Some(k)) <==>
            forall j | 0 <= j < k :: states[n].plan[j].status != CandidateSaved
  {
    var f, c := RunStep(states, events, requirements, n);
    RepairedIsNext(states[n], events[n], states[n + 1], f, c);
    k := f.active;
  }

  /** A new candidate that fits the active item is admitted, and its step is the tabulated one. */
  lemma CandidateStep(s: State, e: Event, k: nat) returns (f: Facts)
    requires Inv(s) && s.target.ToLeaf? && s.target.leaf in {TestGenerate, TestRepair} && IsFocus(s.plan, s.target.leaf, k)
    requires IsCandidate(e.observation) && e.observation.Constructible() && e.observation.Id() == s.plan[k].requirementId
    requires CandidateMatches(s.target.leaf, e.attempt, s.plan[k], e.observation.candidate)
    ensures f == Facts(s.plan, s.target.leaf, k, e, Some(e.observation.candidate))
    ensures e.observation.StructuralObservation? ==> ObservedFinding(f).Some?
    ensures Table(f).start.Some? ==> Table(f).start.value < |s.plan|
    ensures Step(s, e) == Success(State(Moved(s.plan, k, Table(f).item, Table(f).start), Table(f).target))
    ensures Inv(Step(s, e).value)
  {
    FocusIsActive(s.plan, s.target.leaf, k);
    assert Admit(s.plan, s.target.leaf, e).Success?;
    f := Admit(s.plan, s.target.leaf, e).value;
    StepFollowsTable(s, e);
  }

  lemma SecondIsPending(x: WorkItem, y: WorkItem)
    requires x.status != Pending && y.status == Pending
    ensures NextPending([x, y]) == Some(1)
  {
    var plan := [x, y];
    assert plan[1].status in {Pending};
  }

  /** The first Requirement of two is staged, and the second one started. */
  lemma FirstIsStaged(x: WorkItem, y: WorkItem, e: Event)
    requires Inv(State([x, y], ToLeaf(TestGenerate))) && x.status == InProgress && y.status == Pending
    requires e.observation.CandidateObservation? && e.observation.Constructible() && e.observation.candidate.requirementId == x.requirementId
    requires CandidateMatches(TestGenerate, e.attempt, x, e.observation.candidate)
    ensures var after := State([x.(status := CandidateSaved, bundle := Some(e.observation.candidate)), y.(status := InProgress)], ToLeaf(TestGenerate));
            Step(State([x, y], ToLeaf(TestGenerate)), e) == Success(after) && Inv(after)
  {
    var s := State([x, y], ToLeaf(TestGenerate));
    assert IsFocus(s.plan, TestGenerate, 0);
    hide Step, Inv, NextPending;
    var f := CandidateStep(s, e, 0);
    SecondIsPending(x, y);
    assert Moved(s.plan, 0, Table(f).item, Some(1)) == [Table(f).item, y.(status := InProgress)];
  }

  /** The second one's candidate is rejected on generation, charged, and sent to repair. */
  lemma SecondIsRejected(x: WorkItem, y: WorkItem, e: Event)
    requires Inv(State([x, y], ToLeaf(TestGenerate))) && x.status == CandidateSaved && y.status == InProgress
    requires e.observation.StructuralObservation? && e.observation.Constructible() && e.observation.candidate.requirementId == y.requirementId
    requires CandidateMatches(TestGenerate, e.attempt, y, e.observation.candidate)
    requires y.budget.Used(SemanticKind(e)) < SEMANTIC_LIMIT
    ensures var rejected := y.(status := Reviewed, bundle := Some(e.observation.candidate), budget := y.budget.Increment(SemanticKind(e)),
                               findings := y.findings + [Finding(y.requirementId, 1, e.observation.fingerprint)]);
            var after := State([x, rejected], ToLeaf(TestRepair));
            Step(State([x, y], ToLeaf(TestGenerate)), e) == Success(after) && Inv(after)
  {
    var s := State([x, y], ToLeaf(TestGenerate));
    assert IsFocus(s.plan, TestGenerate, 1);
    var f := CandidateStep(s, e, 1);
    assert Moved(s.plan, 1, Table(f).item, None) == [x, Table(f).item];
  }

  /** It is repaired. */
  lemma SecondIsRepaired(x: WorkItem, y: WorkItem, e: Event)
    requires Inv(State([x, y], ToLeaf(TestRepair))) && x.status == CandidateSaved && y.status == Reviewed
    requires e.observation.CandidateObservation? && e.observation.Constructible() && e.observation.candidate.requirementId == y.requirementId
    requires CandidateMatches(TestRepair, e.attempt, y, e.observation.candidate)
    ensures var after := State([x, y.(status := CandidateSaved, bundle := Some(e.observation.candidate))], ToLeaf(TestReview));
            Step(State([x, y], ToLeaf(TestRepair)), e) == Success(after) && Inv(after)
  {
    var s := State([x, y], ToLeaf(TestRepair));
    assert IsFocus(s.plan, TestRepair, 1);
    var f := CandidateStep(s, e, 1);
    assert Moved(s.plan, 1, Table(f).item, None) == [x, Table(f).item];
  }

  /** The first staged candidate is the one under review. */
  lemma FirstIsReviewed(x: WorkItem, y: WorkItem)
    requires x.status == CandidateSaved && y.status == CandidateSaved
    ensures ActiveWorkItem([x, y]) == Success(Some(0))
  {
    assert IsFocus([x, y], TestReview, 0);
    FocusIsActive([x, y], TestReview, 0);
  }

  /**
   A run in which it does not come next: the candidate of the first Requirement is staged, that of the
   second is rejected on generation and repaired, and then the first one is reviewed.
  */
  lemma RepairedCandidateMayWait() returns (states: seq<State>, events: seq<Event>, requirements: seq<Requirement>, n: nat, k: nat)
    ensures IsRun(states, events, requirements) && n < |events|
    ensures states[n].target == ToLeaf(TestRepair) && events[n].observation.CandidateObservation?
    ensures k < |states[n].plan| && states[n].plan[k].requirementId == events[n].observation.Id()
    ensures ActiveWorkItem(states[n + 1].plan) != Success(Some(k))
  {
    hide Step, Inv, ActiveWorkItem;
    var t := Attempt("t", 1);
    requirements := [Requirement("a", ExpectFail), Requirement("b", ExpectFail)];
    InitialInv(requirements);
    var x := WorkItem("a", ExpectFail, InProgress, None, INITIAL_BUDGET, []);
    var y := WorkItem("b", ExpectFail, Pending, None, INITIAL_BUDGET, []);
    assert Initialize(requirements).plan == [x, y];
    assert Initialize(requirements) == State([x, y], ToLeaf(TestGenerate));
    var stage := Event(t, true, CandidateObservation(Bundle("a", 1, None, t, "x")));
    FirstIsStaged(x, y, stage);
    var staged, started := x.(status := CandidateSaved, bundle := Some(stage.observation.candidate)), y.(status := InProgress);
    var reject := Event(t, true, StructuralObservation(Bundle("b", 1, None, t, "y"), "f"));
    SecondIsRejected(staged, started, reject);
    var rejected := started.(status := Reviewed, bundle := Some(reject.observation.candidate), budget := started.budget.Increment(SemanticKind(reject)),
                             findings := started.findings + [Finding(started.requirementId, 1, reject.observation.fingerprint)]);
    var repair := Event(t, true, CandidateObservation(Bundle("b", 2, Some(1), t, "z")));
    SecondIsRepaired(staged, rejected, repair);
    var repaired := rejected.(status := CandidateSaved, bundle := Some(repair.observation.candidate));
    FirstIsReviewed(staged, repaired);
    states := [State([x, y], ToLeaf(TestGenerate)), State([staged, started], ToLeaf(TestGenerate)),
               State([staged, rejected], ToLeaf(TestRepair)), State([staged, repaired], ToLeaf(TestReview))];
    events, n, k := [stage, reject, repair], 2, 1;
  }

  // ---------------------------------------------------------------- runs are bounded

  ghost function Rank(status: Status, repairing: bool): int {
    match status
    case Pending => 5
    case InProgress => 4
    case Reviewed => if repairing then 3 else 1
    case CandidateSaved => 2
    case _ => 0
  }

  /** Work left on one Requirement: two for every unspent charge, plus how far its status is from done. */
  ghost function Weight(w: WorkItem, repairing: bool): int {
    if w.Terminal() then 0
    else 2 * (2 * SEMANTIC_LIMIT + TOOLING_LIMIT - w.budget.autoSemantic - w.budget.manualSemantic - w.budget.tooling)
         + Rank(w.status, repairing)
  }

  ghost function Potential(plan: Plan, repairing: bool): int {
    if plan == [] then 0 else Weight(plan[0], repairing) + Potential(plan[1..], repairing)
  }

  lemma {:induction false} PotentialUpdate(plan: Plan, k: nat, w: WorkItem, repairing: bool)
    requires k < |plan|
    ensures Potential(plan[k := w], repairing) == Potential(plan, repairing) - Weight(plan[k], repairing) + Weight(w, repairing)
  {
    if k == 0 {
      assert plan[k := w][1..] == plan[1..];
    } else {
      assert plan[k := w][1..] == plan[1..][k - 1 := w];
      PotentialUpdate(plan[1..], k - 1, w, repairing);
    }
  }

  lemma {:induction false} PotentialStable(plan: Plan, before: bool, after: bool)
    requires NoneWith(plan, Reviewed)
    ensures Potential(plan, before) == Potential(plan, after)
  {
    if plan != [] {
      assert plan[0].status != Reviewed;
      assert forall i | 0 <= i < |plan[1..]| :: plan[1..][i] == plan[i + 1];
      PotentialStable(plan[1..], before, after);
    }
  }

  lemma {:induction false} PotentialNonNegative(plan: Plan, repairing: bool)
    requires ItemsInv(plan, repairing)
    ensures Potential(plan, repairing) >= 0
  {
    if plan != [] {
      assert ItemInv(plan[0], repairing);
      assert forall i | 0 <= i < |plan[1..]| :: plan[1..][i] == plan[i + 1];
      PotentialNonNegative(plan[1..], repairing);
    }
  }

  /** The two kinds of step that do not use up work. */
  ghost function Allowance(s: State, e: Event): nat {
    (if e.observation.ObservedKind() == ExternalBlocked then 1 else 0) + (if GateMismatch(s, e) then 2 else 0)
  }

  ghost predicate Unexpected(f: Facts)
    requires f.Bound()
  {
    f.leaf == TestGate && f.event.observation.GateObservation? && f.event.observation.kind != ToolingFailure && !Expected(f)
  }

  lemma MismatchIsUnexpected(s: State, e: Event, f: Facts)
    requires f.plan == s.plan && s.target == ToLeaf(f.leaf) && f.event == e && DistinctIds(f.plan) && f.Bound()
    requires f.Item().requirementId == e.observation.Id()
    ensures GateMismatch(s, e) <==> Unexpected(f)
  {
    assert s.plan[f.active].requirementId == e.observation.Id();
  }

  lemma TableDrops(f: Facts)
    requires Fits(f) && ItemInv(f.Item(), f.leaf == TestRepair)
    requires f.event.observation.ObservedKind() in {StructuralRejection, SemanticRejection} ==> ObservedFinding(f).Some?
    ensures Weight(Table(f).item, Table(f).target == ToLeaf(TestRepair))
            <= Weight(f.Item(), f.leaf == TestRepair) - 1
               + (if f.event.observation.ObservedKind() == ExternalBlocked then 1 else 0) + (if Unexpected(f) then 2 else 0)
  {
  }

  lemma StepUsesPotential(s: State, e: Event, t: State, f: Facts, c: Change)
    requires Stepped(s, e, t, f, c)
    ensures Potential(t.plan, t.target == ToLeaf(TestRepair))
            <= Potential(s.plan, s.target == ToLeaf(TestRepair)) - 1 + Allowance(s, e)
  {
    var k, before, after := f.active, f.leaf == TestRepair, t.target == ToLeaf(TestRepair);
    var done := f.Item().(status := Deferred);
    var base := s.plan[k := done];
    assert NoneWith(base, Reviewed);
    PotentialUpdate(s.plan, k, done, before);
    PotentialStable(base, before, after);
    PotentialUpdate(base, k, c.item, after);
    assert base[k := c.item] == s.plan[k := c.item];
    MismatchIsUnexpected(s, e, f);
    TableDrops(f);
    if c.start.Some? {
      var next := s.plan[k := c.item];
      PotentialUpdate(next, c.start.value, next[c.start.value].(status := InProgress), after);
    }
  }

  lemma StepUsesWork(s: State, e: Event, t: State)
    requires StepsTo(s, e, t)
    ensures Potential(t.plan, t.target == ToLeaf(TestRepair))
            <= Potential(s.plan, s.target == ToLeaf(TestRepair)) - 1 + Allowance(s, e)
  {
    var f, c :| Stepped(s, e, t, f, c);
    StepUsesPotential(s, e, t, f, c);
  }

  ghost function TotalAllowance(states: seq<State>, events: seq<Event>, n: nat): nat
    requires n <= |events| < |states|
  {
    if n == 0 then 0 else TotalAllowance(states, events, n - 1) + Allowance(states[n - 1], events[n - 1])
  }

  lemma {:induction false} PotentialAlongRun(states: seq<State>, events: seq<Event>, n: nat)
    requires IsChain(states, events) && n <= |events|
    ensures n + Potential(states[n].plan, states[n].target == ToLeaf(TestRepair))
            <= Potential(states[0].plan, states[0].target == ToLeaf(TestRepair)) + TotalAllowance(states, events, n)
  {
    hide StepsTo, Potential, Allowance;
    if n != 0 {
      ChainStep(states, events, n - 1);
      PotentialAlongRun(states, events, n - 1);
      StepUsesWork(states[n - 1], events[n - 1], states[n]);
    }
  }

  lemma {:induction false} InitialPotential(plan: Plan)
    requires forall i | 0 <= i < |plan| :: plan[i].budget == INITIAL_BUDGET && plan[i].status in {Pending, InProgress}
    ensures Potential(plan, false) <= 31 * |plan|
  {
    if plan != [] {
      assert plan[0].budget == INITIAL_BUDGET;
      InitialPotential(plan[1..]);
    }
  }

  /**
   A run over any Requirements is bounded: at most 31 steps for each of them, one more for every
   external block and two more for every uncharged Gate mismatch.
  */
  lemma RunsAreBounded(states: seq<State>, events: seq<Event>, requirements: seq<Requirement>)
    requires IsRun(states, events, requirements)
    ensures |events| <= 31 * |requirements| + TotalAllowance(states, events, |events|)
  {
    RunIsChain(states, events, requirements);
    PotentialAlongRun(states, events, |events|);
    ReachableInv(states, events, requirements, |events|);
    var last := states[|events|];
    PotentialNonNegative(last.plan, last.target == ToLeaf(TestRepair));
    InitialPotential(Initialize(requirements).plan);
  }

  // ---------------------------------------------------------------- promotion needs evidence

  ghost predicate PassedReview(e: Event, id: string, revision: nat) {
    && e.observation.StepObservation? && e.observation.kind in {ReviewPass, ReviewAdvisory}
    && e.observation.requirementId == id && e.observation.bundleRevision == Some(revision)
  }

  ghost predicate MetExpectation(e: Event, w: WorkItem) {
    && e.observation.GateObservation?
    && e.observation.kind == (if w.expectation == ExpectFail then AssertionFailed else AssertionPassed)
    && e.observation.requirementId == w.requirementId
    && w.bundle.Some? && e.observation.bundleRevision == Some(w.bundle.value.revision)
  }

  ghost predicate ReviewedBefore(events: seq<Event>, n: nat, w: WorkItem)
    requires n <= |events|
  {
    w.bundle.Some? && exists i :: 0 <= i < n && PassedReview(events[i], w.requirementId, w.bundle.value.revision)
  }

  ghost predicate PromotedBefore(events: seq<Event>, n: nat, w: WorkItem)
    requires n <= |events|
  {
    && w.bundle.Some?
    && exists i, j :: 0 <= i < j < n && PassedReview(events[i], w.requirementId, w.bundle.value.revision) && MetExpectation(events[j], w)
  }

  /** What the history so far must hold for an item in this status. */
  ghost predicate Evidenced(events: seq<Event>, n: nat, w: WorkItem, gating: bool)
    requires n <= |events|
  {
    && (w.status == Reviewed && gating ==> ReviewedBefore(events, n, w))
    && (w.status == Promoted ==> PromotedBefore(events, n, w))
  }

  lemma EvidenceGrows(events: seq<Event>, n: nat, w: WorkItem)
    requires n < |events| && Evidenced(events, n, w, false)
    ensures Evidenced(events, n + 1, w, false)
  {
  }

  lemma FocusEvidenced(events: seq<Event>, n: nat, s: State, t: State, f: Facts, c: Change)
    requires n < |events| && Stepped(s, events[n], t, f, c)
    requires Evidenced(events, n, f.Item(), s.target == ToLeaf(TestGate))
    ensures Evidenced(events, n + 1, c.item, t.target == ToLeaf(TestGate))
  {
    var e := events[n];
    if c.item.status == Promoted {
      assert MetExpectation(e, c.item);
      var i :| 0 <= i < n && PassedReview(events[i], f.Item().requirementId, f.Item().bundle.value.revision);
      assert PassedReview(events[i], c.item.requirementId, c.item.bundle.value.revision) && MetExpectation(events[n], c.item);
    } else if c.item.status == Reviewed && t.target == ToLeaf(TestGate) && f.leaf == TestReview {
      assert PassedReview(events[n], c.item.requirementId, c.item.bundle.value.revision);
    }
  }

  lemma OthersEvidenced(events: seq<Event>, n: nat, s: State, t: State, f: Facts, c: Change, k: nat)
    requires n < |events| && Stepped(s, events[n], t, f, c) && k < |s.plan| && k != f.active
    requires Evidenced(events, n, s.plan[k], s.target == ToLeaf(TestGate))
    ensures Evidenced(events, n + 1, t.plan[k], t.target == ToLeaf(TestGate))
  {
    assert s.plan[k].status != Reviewed;
    assert t.plan[k].status != Reviewed;
    if t.plan[k].status == Promoted {
      assert t.plan[k] == s.plan[k];
      EvidenceGrows(events, n, s.plan[k]);
    }
  }

  lemma EvidenceStep(events: seq<Event>, n: nat, s: State, t: State, k: nat)
    requires n < |events| && StepsTo(s, events[n], t) && k < |t.plan|
    requires k < |s.plan| ==> Evidenced(events, n, s.plan[k], s.target == ToLeaf(TestGate))
    ensures k < |s.plan| && Evidenced(events, n + 1, t.plan[k], t.target == ToLeaf(TestGate))
  {
    var f, c :| Stepped(s, events[n], t, f, c);
    if k == f.active {
      assert t.plan[k] == c.item;
      FocusEvidenced(events, n, s, t, f, c);
    } else {
      OthersEvidenced(events, n, s, t, f, c, k);
    }
  }

  lemma FreshEvidence(events: seq<Event>, w: WorkItem, gating: bool)
    requires w.status in {Pending, InProgress}
    ensures Evidenced(events, 0, w, gating)
  {
  }

  lemma ChainStep(states: seq<State>, events: seq<Event>, n: nat)
    requires IsChain(states, events) && n < |events|
    ensures StepsTo(states[n], events[n], states[n + 1])
  {
  }

  /** Evidence for item `k` after `n` steps. */
  ghost predicate EvidencedAt(states: seq<State>, events: seq<Event>, n: nat, k: nat)
    requires n <= |events| && |states| == |events| + 1
  {
    k < |states[n].plan| ==> Evidenced(events, n, states[n].plan[k], states[n].target == ToLeaf(TestGate))
  }

  lemma EvidenceAlong(states: seq<State>, events: seq<Event>, n: nat, k: nat)
    requires IsChain(states, events) && n < |events| && EvidencedAt(states, events, n, k)
    ensures EvidencedAt(states, events, n + 1, k)
  {
    ChainStep(states, events, n);
    if k < |states[n + 1].plan| {
      EvidenceStep(events, n, states[n], states[n + 1], k);
    }
  }

  lemma {:induction false} HistoryEvidence(states: seq<State>, events: seq<Event>, n: nat, k: nat)
    requires IsChain(states, events) && n <= |events|
    requires forall i | 0 <= i < |states[0].plan| :: states[0].plan[i].status in {Pending, InProgress}
    ensures EvidencedAt(states, events, n, k)
  {
    if n == 0 {
      if k < |states[0].plan| { FreshEvidence(events, states[0].plan[k], states[0].target == ToLeaf(TestGate)); }
    } else {
      HistoryEvidence(states, events, n - 1, k);
      EvidenceAlong(states, events, n - 1, k);
    }
  }

  /**
   Nothing is promoted without evidence: the promoted revision was passed by a review and after that
   met its expectation at the Gate.
  */
  lemma PromotionHasEvidence(states: seq<State>, events: seq<Event>, requirements: seq<Requirement>, n: nat, k: nat)
    requires IsRun(states, events, requirements) && n <= |events| && k < |states[n].plan|
    requires states[n].plan[k].status == Promoted
    ensures PromotedBefore(events, n, states[n].plan[k])
  {
    RunIsChain(states, events, requirements);
    HistoryEvidence(states, events, n, k);
  }
}
