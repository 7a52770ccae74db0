/** The status invariant of a Flow, and that every selected route keeps it. */
module FlowSettlementProofs {
  import opened Wrappers
  import opened FlowSettlement

  predicate Closed(s: Status) {
    s == Done || s == Skipped
  }

  predicate Behind(leaves: seq<Status>, leaf: nat)
    requires |leaves| == LEAVES
  {
    forall i: Leaf | i < leaf :: Closed(leaves[i])
  }

  /** An applied implementation repair keeps its Result until the next implementation review has run. */
  predicate Waits(leaves: seq<Status>, active: Leaf, i: Leaf)
    requires |leaves| == LEAVES
  {
    Executable(leaves[i]) || (i == IMPL_REPAIR && TEST_EXECUTE <= active <= IMPL_REVIEW && leaves[i] == Done)
  }

  predicate Ahead(leaves: seq<Status>, active: Leaf)
    requires |leaves| == LEAVES
  {
    forall i: Leaf | active < i :: Waits(leaves, active, i)
  }

  predicate TasksWait(tasks: seq<Status>, from: nat) {
    forall i | from <= i < |tasks| :: Executable(tasks[i])
  }

  predicate TasksFinished(tasks: seq<Status>, to: nat) {
    forall i | 0 <= i < |tasks| && i < to :: TaskTerminal(tasks[i])
  }

  predicate SuffixIs(leaves: seq<Status>, status: Status)
    requires |leaves| == LEAVES
  {
    forall i: Leaf | TEST_EXECUTE <= i <= IMPL_GATE :: leaves[i] == status
  }

  /** While a plan leaf is active the implementation leaves are untouched or all invalidated. */
  predicate SuffixKnown(s: State)
    requires |s.leaves| == LEAVES
  {
    && (SuffixIs(s.leaves, Pending) || SuffixIs(s.leaves, Invalidated))
    && (s.suffix == PlanRecovery ==> SuffixIs(s.leaves, Invalidated))
  }

  predicate Frontier(leaves: seq<Status>, leaf: Leaf)
    requires |leaves| == LEAVES
  {
    leaves[leaf] == InProgress && Behind(leaves, leaf) && Ahead(leaves, leaf)
  }

  predicate AtInv(s: State, leaf: Leaf)
    requires |s.leaves| == LEAVES
  {
    && Frontier(s.leaves, leaf)
    && (if leaf <= IMPLEMENT then TasksWait(s.tasks, 0) else TasksFinished(s.tasks, |s.tasks|))
    && (leaf <= IMPLEMENT ==> SuffixKnown(s))
  }

  predicate TaskInv(s: State, task: nat)
    requires |s.leaves| == LEAVES
  {
    && task < |s.tasks|
    && Behind(s.leaves, TEST_EXECUTE)
    && Ahead(s.leaves, IMPLEMENT)
    && TasksFinished(s.tasks, task)
    && s.tasks[task] == InProgress
    && TasksWait(s.tasks, task + 1)
  }

  predicate Inv(s: State) {
    && |s.leaves| == LEAVES
    && match s.active
       case At(leaf) => AtInv(s, leaf)
       case InTask(task) => TaskInv(s, task)
       case Parked => AtInv(s, ACCEPTANCE_DECISION)
       case Completed => Behind(s.leaves, LEAVES) && TasksFinished(s.tasks, |s.tasks|)
  }

  /** The outcome of a step: `target` is active in a state that keeps the invariant. */
  predicate Activates(r: Result<State>, target: Leaf) {
    && r.Success? && r.value.active == At(target)
    && |r.value.leaves| == LEAVES && AtInv(r.value, target)
  }

  lemma InitialInv()
    ensures Inv(Initial())
  {
  }

  // ---------------------------------------------------------------- arriving at a target

  lemma NoExecutable(statuses: seq<Status>)
    requires forall i | 0 <= i < |statuses| :: !Executable(statuses[i])
    ensures FirstExecutable(statuses, 0) == |statuses|
  {
  }

  lemma FirstIs(statuses: seq<Status>, k: nat)
    requires k < |statuses| && Executable(statuses[k])
    requires forall i | 0 <= i < k :: !Executable(statuses[i])
    ensures FirstExecutable(statuses, 0) == k
  {
  }

  lemma ArrivesAtLeaf(s: State, target: Leaf)
    requires |s.leaves| == LEAVES
    requires Behind(s.leaves, target) && Executable(s.leaves[target]) && Ahead(s.leaves, target)
    requires if target <= IMPLEMENT then TasksWait(s.tasks, 0) else TasksFinished(s.tasks, |s.tasks|)
    requires target <= IMPLEMENT ==> SuffixKnown(s)
    ensures Activates(Activate(s, At(target)), target)
  {
    forall i | 0 <= i < target ensures !Executable(s.leaves[i]) {
      var leaf: Leaf := i;
      assert Closed(s.leaves[leaf]);
    }
    FirstIs(s.leaves, target);
    if target > IMPLEMENT { NoExecutable(s.tasks); }
    var t := s.(leaves := s.leaves[target := InProgress], active := At(target));
    forall i: Leaf | target < i ensures Waits(t.leaves, target, i) {
      assert Waits(s.leaves, target, i);
    }
  }

  lemma ArrivesAtTask(s: State, task: nat)
    requires |s.leaves| == LEAVES
    requires Behind(s.leaves, TEST_EXECUTE) && Ahead(s.leaves, IMPLEMENT)
    requires task < |s.tasks| && TasksFinished(s.tasks, task) && TasksWait(s.tasks, task)
    ensures Activate(s, InTask(task)) == Success(s.(tasks := s.tasks[task := InProgress], active := InTask(task)))
    ensures Inv(s.(tasks := s.tasks[task := InProgress], active := InTask(task)))
  {
    forall i | 0 <= i <= IMPLEMENT ensures !Executable(s.leaves[i]) {
      var leaf: Leaf := i;
      assert Closed(s.leaves[leaf]);
    }
    FirstIs(s.tasks, task);
  }

  /** What a route has to leave behind so that its target becomes the active leaf. */
  predicate Lands(leaves: seq<Status>, target: Leaf)
    requires |leaves| == LEAVES
  {
    Behind(leaves, target) && Executable(leaves[target]) && Ahead(leaves, target)
  }

  predicate TasksFit(s: State, target: Leaf) {
    if target <= IMPLEMENT then TasksWait(s.tasks, 0) else TasksFinished(s.tasks, |s.tasks|)
  }

  lemma RouteLands(s: State, source: Leaf, target: Leaf, e: Effects, mode: Mode)
    requires |s.leaves| == LEAVES
    requires EffectsDeclared(s.leaves, source, e, mode)
    requires Lands(LeavesAfter(s.leaves, source, e, mode), target) && TasksFit(s, target)
    requires target <= IMPLEMENT ==> SuffixKnown(s.(leaves := LeavesAfter(s.leaves, source, e, mode)))
    ensures Activates(FollowRoute(s, source, target, e, mode), target)
  {
    ArrivesAtLeaf(s.(leaves := LeavesAfter(s.leaves, source, e, mode)), target);
  }

  // ---------------------------------------------------------------- the shapes of route

  /** A forward route over leaves that may all be bypassed, or over none. */
  lemma Forward(s: State, source: Leaf, target: Leaf)
    requires |s.leaves| == LEAVES && AtInv(s, source) && source < target
    requires source <= IMPL_REVIEW ==> target <= IMPL_REVIEW
    requires forall i: Leaf | source < i < target :: Bypassable(i)
    requires TasksFit(s, target)
    ensures Activates(FollowRoute(s, source, target, Contiguous(source, target), CONFIRMED), target)
  {
    var e := Contiguous(source, target);
    var after := LeavesAfter(s.leaves, source, e, CONFIRMED);
    forall i: Leaf ensures EffectDeclared(s.leaves, source, e, CONFIRMED, i) {
      if source < i { assert Waits(s.leaves, source, i); }
    }
    forall i: Leaf | i < target ensures Closed(after[i]) {
      assert after[i] == StatusAfter(s.leaves, source, e, CONFIRMED, i);
    }
    forall i: Leaf | target <= i ensures after[i] == s.leaves[i] && Waits(s.leaves, source, i) {
      assert after[i] == StatusAfter(s.leaves, source, e, CONFIRMED, i);
    }
    assert Ahead(after, target);
    RouteLands(s, source, target, e, CONFIRMED);
  }

  /** A route back to `target` that resets every leaf from there on. */
  lemma Backward(s: State, source: Leaf, target: Leaf, e: Effects)
    requires |s.leaves| == LEAVES && Frontier(s.leaves, source)
    requires e.skips == {} && e.completions == {} && e.resets == From(target)
    requires target <= source || target == source + 1
    requires TasksFit(s, target)
    ensures Activates(FollowRoute(s, source, target, e, CONFIRMED), target)
  {
    var after := LeavesAfter(s.leaves, source, e, CONFIRMED);
    forall i: Leaf ensures EffectDeclared(s.leaves, source, e, CONFIRMED, i) {
      if source < i { assert Waits(s.leaves, source, i); }
      else if i < source { assert Closed(s.leaves[i]); }
    }
    forall i: Leaf ensures after[i] == if target <= i then Invalidated else StatusAfter(s.leaves, source, e, CONFIRMED, i) {
    }
    forall i: Leaf | target < i ensures Waits(after, target, i) {
    }
    RouteLands(s, source, target, e, CONFIRMED);
  }

  /** A route to the following leaf that changes nothing else. */
  lemma Onward(s: State, source: Leaf, target: Leaf)
    requires |s.leaves| == LEAVES && AtInv(s, source) && target == source + 1
    requires source != IMPL_REVIEW
    requires TasksFit(s, target)
    ensures Activates(FollowRoute(s, source, target, NO_EFFECTS, CONFIRMED), target)
    ensures Contiguous(source, target) == NO_EFFECTS
  {
    assert Contiguous(source, target).skips == {};
    Forward(s, source, target);
  }

  /** A Review without findings closes the leaves it makes unnecessary, unless one of them keeps its Result. */
  lemma Closes(s: State, source: Leaf, target: Leaf, candidates: set<Leaf>)
    requires |s.leaves| == LEAVES && AtInv(s, source) && source < target && TEST_EXECUTE <= target
    requires candidates == Between(source + 1, target)
    requires forall i: Leaf | source < i < target :: ClosesUnexecuted(source, i)
    requires source >= IMPL_REVIEW && target >= IMPL_GATE
    ensures Activates(FollowRoute(s, source, target, Closing(s, candidates), CONFIRMED), target)
  {
    var e := Closing(s, candidates);
    var after := LeavesAfter(s.leaves, source, e, CONFIRMED);
    forall i: Leaf ensures EffectDeclared(s.leaves, source, e, CONFIRMED, i) {
    }
    forall i: Leaf | i < target ensures Closed(after[i]) {
      if source < i { assert Waits(s.leaves, source, i); }
    }
    forall i: Leaf | target <= i ensures after[i] == s.leaves[i] && Executable(after[i]) {
      assert Waits(s.leaves, source, i);
    }
    RouteLands(s, source, target, e, CONFIRMED);
  }

  /** The source keeps its Result while what consumes it is reset; a never attempted tail may stay as it is. */
  lemma Retains(s: State, source: Leaf, mode: Mode)
    requires |s.leaves| == LEAVES && AtInv(s, source)
    requires (source == IMPL_REPAIR && mode == CONFIRMED) || (source == RETRO && mode == Mode(Invalidated, true))
    ensures Activates(FollowRoute(s, source, TEST_EXECUTE, RetainingSource(source, TEST_EXECUTE).effects, mode), TEST_EXECUTE)
  {
    var e := RetainingSource(source, TEST_EXECUTE).effects;
    var after := LeavesAfter(s.leaves, source, e, mode);
    forall i: Leaf ensures EffectDeclared(s.leaves, source, e, mode, i) {
      if source < i { assert Waits(s.leaves, source, i); }
      else if i < source { assert Closed(s.leaves[i]); }
    }
    forall i: Leaf ensures i < TEST_EXECUTE ==> after[i] == s.leaves[i] && Closed(after[i]) {
    }
    forall i: Leaf | TEST_EXECUTE < i ensures Waits(after, TEST_EXECUTE, i) {
      if source < i { assert Waits(s.leaves, source, i); }
    }
    RouteLands(s, source, TEST_EXECUTE, e, mode);
  }

  lemma RepairReadyForGate(s: State)
    requires |s.leaves| == LEAVES && AtInv(s, SPEC_GATE_REPAIR)
    ensures var e := NO_EFFECTS.(resets := {SPEC_GATE, SPEC_GATE_REPAIR});
            Activates(FollowRoute(s, SPEC_GATE_REPAIR, SPEC_GATE, e, CONFIRMED), SPEC_GATE)
  {
    var e := NO_EFFECTS.(resets := {SPEC_GATE, SPEC_GATE_REPAIR});
    var after := LeavesAfter(s.leaves, SPEC_GATE_REPAIR, e, CONFIRMED);
    assert Closed(s.leaves[SPEC_GATE]);
    forall i: Leaf | SPEC_GATE_REPAIR < i ensures after[i] == s.leaves[i] && Executable(after[i]) {
      assert Waits(s.leaves, SPEC_GATE_REPAIR, i);
    }
    forall i: Leaf | i < SPEC_GATE ensures after[i] == s.leaves[i] {
    }
    assert Ahead(after, SPEC_GATE);
    assert EffectsDeclared(s.leaves, SPEC_GATE_REPAIR, e, CONFIRMED);
    RouteLands(s, SPEC_GATE_REPAIR, SPEC_GATE, e, CONFIRMED);
  }

  lemma Reopens(s: State)
    requires Inv(s) && Possible(s, Reopened)
    ensures Activates(ReopenDraft(s), DRAFT)
  {
    forall i: Leaf | DRAFT <= i ensures s.leaves[i] == Invalidated || Declared(i, s.leaves[i], Invalidated) {
      if s.active.At? {
        if s.active.leaf < i { assert Waits(s.leaves, s.active.leaf, i); }
      } else if IMPLEMENT < i { assert Waits(s.leaves, IMPLEMENT, i); }
    }
    var leaves := seq(LEAVES, i requires 0 <= i < LEAVES => if i < DRAFT then s.leaves[i] else Invalidated);
    forall i: Leaf | i < DRAFT ensures leaves[i] == s.leaves[i] && Closed(leaves[i]) {
    }
    ArrivesAtLeaf(s.(leaves := leaves, tasks := InvalidatedTasks(s.tasks), suffix := PlanRecovery), DRAFT);
  }

  // ---------------------------------------------------------------- every Result of every leaf

  /** The one selected route that may not apply: approval adds Tasks behind a suffix no plan recovery invalidated. */
  predicate RefusesTasks(s: State, e: Event)
    requires |s.leaves| == LEAVES
  {
    e.Saved? && e.result.ApprovalConfirmed? && e.result.addedTasks > 0 && !AdmitsTasks(s)
  }

  predicate Moves(r: Result<State>) {
    r.Success? && Inv(r.value)
  }

  /** A selected leaf-to-leaf route takes the Flow to its target. */
  predicate RouteApplies(s: State, leaf: Leaf, r: StepResult)
    requires |s.leaves| == LEAVES && s.active == At(leaf) && BelongsTo(r, leaf)
  {
    match Settle(s, r)
    case Route(target, e) => Activates(ApplyRoute(s, leaf, r, target, e), target)
    case _ => true
  }

  predicate Settling(s: State, leaf: Leaf, r: StepResult) {
    |s.leaves| == LEAVES && s.active == At(leaf) && AtInv(s, leaf) && BelongsTo(r, leaf)
  }

  lemma ActivatesMoves(r: Result<State>, target: Leaf)
    requires Activates(r, target)
    ensures Moves(r)
  {
  }

  lemma PlanRoutes(s: State, leaf: Leaf, r: StepResult)
    requires Settling(s, leaf, r) && leaf < SPEC
    ensures RouteApplies(s, leaf, r)
  {
    match Settle(s, r)
    case Route(target, e) =>
      if r == DraftGateRepairRequired {
        Backward(s.(suffix := PlanRecovery), leaf, target, e);
      } else if leaf < target {
        if leaf <= PREPARE_SPEC { Onward(s, leaf, target); } else { Forward(s, leaf, target); }
      } else {
        Backward(s, leaf, target, e);
      }
    case _ =>
  }

  lemma SpecRoutes(s: State, leaf: Leaf, r: StepResult)
    requires Settling(s, leaf, r) && SPEC <= leaf < SPEC_GATE_REPAIR
    ensures RouteApplies(s, leaf, r)
  {
    match Settle(s, r)
    case Route(target, e) =>
      if r == SpecGateRepairRequired {
        Backward(s.(tasks := InvalidatedTasks(s.tasks), suffix := PlanRecovery), leaf, target,
                 NO_EFFECTS.(resets := From(SPEC_GATE_REPAIR)));
      } else {
        Forward(s, leaf, target);
      }
    case _ =>
  }

  lemma ReviewRequired(s: State)
    requires |s.leaves| == LEAVES && s.active == At(SPEC_GATE_REPAIR) && AtInv(s, SPEC_GATE_REPAIR)
    ensures var e := NO_EFFECTS.(resets := From(SPEC_REVIEW));
            Activates(FollowRoute(s, SPEC_GATE_REPAIR, SPEC_REVIEW, e, CONFIRMED), SPEC_REVIEW)
  {
    Backward(s, SPEC_GATE_REPAIR, SPEC_REVIEW, NO_EFFECTS.(resets := From(SPEC_REVIEW)));
  }

  lemma SpecGateRepairRoutes(s: State, r: StepResult)
    requires Settling(s, SPEC_GATE_REPAIR, r)
    ensures RouteApplies(s, SPEC_GATE_REPAIR, r)
  {
    hide FollowRoute, Activates, AtInv, ReopenDraft;
    match r {
      case SpecRepairReadyForGate => RepairReadyForGate(s);
      case SpecRepairDraftReturn => Reopens(s);
      case SpecRepairReviewRequired => ReviewRequired(s);
      case _ =>
    }
  }

  /** Approval moves on unless it would admit Tasks it may not admit. */
  lemma ApprovalMoves(s: State, r: StepResult)
    requires Inv(s) && s.active == At(APPROVAL) && BelongsTo(r, APPROVAL)
    ensures Moves(Apply(s, r, Settle(s, r))) <==> !RefusesTasks(s, Saved(r))
    ensures RefusesTasks(s, Saved(r)) ==> Apply(s, r, Settle(s, r)).Failure?
  {
    if r.ApprovalConfirmed? {
      var target := if r.withTests then TEST_GENERATE else IMPLEMENT;
      if !RefusesTasks(s, Saved(r)) {
        var admitted := s.(tasks := s.tasks + seq(r.addedTasks, i => Pending));
        Forward(admitted, APPROVAL, target);
        ActivatesMoves(Apply(s, r, Settle(s, r)), target);
      }
    }
  }

  lemma TestRoutes(s: State, leaf: Leaf, r: StepResult)
    requires Settling(s, leaf, r) && TEST_GENERATE <= leaf <= TEST_GATE
    ensures RouteApplies(s, leaf, r)
  {
    match Settle(s, r)
    case Route(target, e) =>
      if leaf < target {
        Forward(s, leaf, target);
      } else {
        Backward(s.(tasks := InvalidatedTasks(s.tasks)), leaf, target, e);
      }
    case _ =>
  }

  /** Leaving `implement` or a Task reaches exactly the Task, or `test-execute`, the settlement selected. */
  lemma Succession(s: State, from: nat, outcome: Status)
    requires Inv(s) && from <= |s.tasks| && TaskTerminal(outcome)
    requires (s.active == At(IMPLEMENT) && from == 0) || (s.active.InTask? && from == s.active.task + 1)
    ensures match ToNextTask(s, from)
            case ToTask(k) => Moves(LeaveFor(s, outcome, InTask(k)))
            case Route(target, _) => target == TEST_EXECUTE && Activates(LeaveFor(s, outcome, At(target)), target)
            case _ => false
  {
    var t := match s.active
      case InTask(task) => s.(tasks := s.tasks[task := outcome])
      case At(leaf) => s.(leaves := s.leaves[leaf := Done])
      case _ => s;
    var k := NextTask(s.tasks, from);
    forall i: Leaf ensures (i <= IMPLEMENT ==> Closed(t.leaves[i])) && (IMPLEMENT < i ==> Executable(t.leaves[i])) {
      if IMPLEMENT < i { assert Waits(s.leaves, IMPLEMENT, i); }
    }
    if k < |s.tasks| {
      ArrivesAtTask(t, k);
    } else {
      ArrivesAtLeaf(t, TEST_EXECUTE);
    }
  }

  lemma ImplementRoutes(s: State, r: StepResult)
    requires Settling(s, IMPLEMENT, r)
    ensures RouteApplies(s, IMPLEMENT, r)
  {
    match Settle(s, r)
    case Route(target, _) => Onward(s, IMPLEMENT, target);
    case _ =>
  }

  lemma ImplRoutes(s: State, leaf: Leaf, r: StepResult)
    requires Settling(s, leaf, r) && IMPLEMENT < leaf < IMPL_GATE && leaf != IMPL_REVIEW
    ensures RouteApplies(s, leaf, r)
  {
    match Settle(s, r)
    case Route(target, e) =>
      if leaf == IMPL_REPAIR {
        Retains(s.(suffix := EvidenceRewind), leaf, CONFIRMED);
      } else {
        Forward(s, leaf, target);
      }
    case _ =>
  }

  lemma ImplReviewRoutes(s: State, r: StepResult)
    requires Settling(s, IMPL_REVIEW, r)
    ensures RouteApplies(s, IMPL_REVIEW, r)
  {
    match Settle(s, r)
    case Route(target, e) =>
      if r.ReviewRejected? {
        Backward(s, IMPL_REVIEW, target, e);
      } else {
        Closes(s, IMPL_REVIEW, target, {IMPL_TRIAGE, IMPL_REPAIR});
      }
    case _ =>
  }

  lemma ImplGateRoutes(s: State, r: StepResult)
    requires Settling(s, IMPL_GATE, r)
    ensures RouteApplies(s, IMPL_GATE, r)
  {
    match Settle(s, r)
    case Route(target, e) =>
      if target == RETRO { Forward(s, IMPL_GATE, target); } else { Backward(s.(suffix := EvidenceRewind), IMPL_GATE, target, e); }
    case _ =>
  }

  lemma AcceptanceRoutes(s: State, leaf: Leaf, r: StepResult)
    requires Settling(s, leaf, r) && RETRO <= leaf <= ACCEPTANCE_REVIEW
    ensures RouteApplies(s, leaf, r)
  {
    match Settle(s, r)
    case Route(target, e) =>
      match r {
        case AcceptancePassed => Closes(s, leaf, target, {ACCEPTANCE_DECISION});
        case RetroEvidenceRefresh => Retains(s.(suffix := EvidenceRewind), leaf, Mode(Invalidated, true));
        case AcceptanceRepairRequired => Backward(s.(suffix := EvidenceRewind), leaf, target, e);
        case _ => Onward(s, leaf, target);
      }
    case _ =>
  }

  lemma ClosingRoutes(s: State, leaf: Leaf, r: StepResult)
    requires Settling(s, leaf, r) && ACCEPTANCE_DECISION <= leaf
    ensures RouteApplies(s, leaf, r)
  {
    match Settle(s, r)
    case Route(target, _) => Onward(s, leaf, target);
    case _ =>
  }

  lemma CleanupCompletes(s: State)
    requires |s.leaves| == LEAVES && s.active == At(FINALIZE_CLEANUP) && AtInv(s, FINALIZE_CLEANUP)
    ensures Moves(Apply(s, CleanedUp, Completion))
  {
    var leaves := s.leaves[FINALIZE_CLEANUP := Done];
    forall i | 0 <= i < LEAVES ensures !Executable(leaves[i]) {
      if i < FINALIZE_CLEANUP { assert Closed(s.leaves[i as Leaf]); }
    }
    NoExecutable(leaves);
    NoExecutable(s.tasks);
  }

  lemma RoutesApply(s: State, leaf: Leaf, r: StepResult)
    requires Settling(s, leaf, r) && leaf != APPROVAL
    ensures RouteApplies(s, leaf, r)
  {
    if leaf < SPEC { PlanRoutes(s, leaf, r); }
    else if leaf < SPEC_GATE_REPAIR { SpecRoutes(s, leaf, r); }
    else if leaf == SPEC_GATE_REPAIR { SpecGateRepairRoutes(s, r); }
    else if leaf < IMPLEMENT { TestRoutes(s, leaf, r); }
    else if leaf == IMPLEMENT { ImplementRoutes(s, r); }
    else if leaf == IMPL_REVIEW { ImplReviewRoutes(s, r); }
    else if leaf < IMPL_GATE { ImplRoutes(s, leaf, r); }
    else if leaf == IMPL_GATE { ImplGateRoutes(s, r); }
    else if leaf <= ACCEPTANCE_REVIEW { AcceptanceRoutes(s, leaf, r); }
    else { ClosingRoutes(s, leaf, r); }
  }

  /** What a leaf settles besides routes and stays. */
  predicate OnlyHere(s: State, leaf: Leaf, r: StepResult)
    requires |s.leaves| == LEAVES && s.active == At(leaf) && BelongsTo(r, leaf)
  {
    match Settle(s, r)
    case ToTask(_) => leaf == IMPLEMENT && Settle(s, r) == ToNextTask(s, 0) && !r.TaskLeft?
    case Completion => leaf == FINALIZE_CLEANUP && r == CleanedUp
    case Park => leaf == ACCEPTANCE_DECISION
    case WithinTask => false
    case _ => true
  }

  lemma PlanOnlyHere(s: State, leaf: Leaf, r: StepResult)
    requires |s.leaves| == LEAVES && s.active == At(leaf) && BelongsTo(r, leaf) && leaf < SPEC
    ensures OnlyHere(s, leaf, r)
  {
  }

  lemma SpecOnlyHere(s: State, leaf: Leaf, r: StepResult)
    requires |s.leaves| == LEAVES && s.active == At(leaf) && BelongsTo(r, leaf) && SPEC <= leaf < IMPLEMENT
    ensures OnlyHere(s, leaf, r)
  {
  }

  lemma ImplOnlyHere(s: State, leaf: Leaf, r: StepResult)
    requires |s.leaves| == LEAVES && s.active == At(leaf) && BelongsTo(r, leaf) && IMPLEMENT <= leaf < RETRO
    ensures OnlyHere(s, leaf, r)
  {
  }

  lemma AcceptanceOnlyHere(s: State, leaf: Leaf, r: StepResult)
    requires |s.leaves| == LEAVES && s.active == At(leaf) && BelongsTo(r, leaf) && RETRO <= leaf
    ensures OnlyHere(s, leaf, r)
  {
  }

  lemma LeafMoves(s: State, leaf: Leaf, r: StepResult)
    requires Settling(s, leaf, r) && leaf != APPROVAL
    ensures Moves(Apply(s, r, Settle(s, r)))
  {
    if leaf < SPEC { PlanOnlyHere(s, leaf, r); }
    else if leaf < IMPLEMENT { SpecOnlyHere(s, leaf, r); }
    else if leaf < RETRO { ImplOnlyHere(s, leaf, r); }
    else { AcceptanceOnlyHere(s, leaf, r); }
    match Settle(s, r)
    case Route(target, e) =>
      RoutesApply(s, leaf, r);
      ActivatesMoves(ApplyRoute(s, leaf, r, target, e), target);
    case ToTask(_) => Succession(s, 0, Done);
    case Completion => CleanupCompletes(s);
    case _ =>
  }

  lemma TaskMoves(s: State, r: StepResult)
    requires Inv(s) && s.active.InTask? && Admissible(s, r)
    ensures Moves(Apply(s, r, Settle(s, r)))
  {
    if r.TaskLeft? {
      Succession(s, s.active.task + 1, r.outcome);
    }
  }

  /**
   Every selected settlement applies and keeps the invariant: each change of status it makes is declared
   for its leaf and the selected target is the next executable one. The only exception is an approval
   that adds Tasks behind implementation leaves no plan recovery has invalidated, and it is refused.
  */
  lemma EveryStepApplies(s: State, e: Event)
    requires Inv(s) && Possible(s, e)
    ensures Next(s, e).Success? <==> !RefusesTasks(s, e)
    ensures Next(s, e).Success? ==> Inv(Next(s, e).value)
  {
    match e
    case Reopened => Reopens(s); ActivatesMoves(Next(s, e), DRAFT);
    case Saved(r) =>
      match s.active
      case InTask(_) => TaskMoves(s, r);
      case At(leaf) =>
        if leaf == APPROVAL { ApprovalMoves(s, r); } else { LeafMoves(s, leaf, r); }
      case _ =>
  }
}
