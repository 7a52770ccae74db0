/**
 What every run of the Requirement-test lifecycle keeps: the shape of the work list for each active
 leaf, the budgets, the recorded findings and the bundle revisions. From it follow that no admitted
 observation is ever refused later on, that runs are bounded, and that saved Results replay.
*/
module RequirementTestProofs {
  import opened Wrappers
  import opened RequirementTests

  // ---------------------------------------------------------------- the invariant

  ghost predicate NoneWith(plan: Plan, status: Status) {
    forall i | 0 <= i < |plan| :: plan[i].status != status
  }

  ghost predicate Sole(plan: Plan, k: nat, status: Status) {
    && k < |plan|
    && plan[k].status == status
    && forall i | 0 <= i < |plan| && i != k :: plan[i].status != status
  }

  ghost predicate NoneStagedBefore(plan: Plan, k: nat) {
    forall j | 0 <= j < k < |plan| :: plan[j].status != CandidateSaved
  }

  /** The single Requirement an active leaf works on. */
  ghost predicate IsFocus(plan: Plan, leaf: Leaf, k: nat) {
    match leaf
    case TestGenerate => Sole(plan, k, InProgress) && NoneWith(plan, Reviewed)
    case TestReview =>
      && NoneWith(plan, InProgress) && NoneWith(plan, Reviewed)
      && k < |plan| && plan[k].status == CandidateSaved && NoneStagedBefore(plan, k)
    case TestRepair => NoneWith(plan, InProgress) && Sole(plan, k, Reviewed)
    case TestGate => NoneWith(plan, InProgress) && Sole(plan, k, Reviewed) && NoneStagedBefore(plan, k)
  }

  ghost predicate Settled(plan: Plan) {
    forall i | 0 <= i < |plan| :: plan[i].Terminal()
  }

  ghost predicate Shape(plan: Plan, target: Target) {
    if target == Implement then Settled(plan) else exists k :: IsFocus(plan, target.leaf, k)
  }

  /** The findings of an item all belong to revisions up to `limit`, one per revision. */
  ghost predicate FindingsUpTo(findings: seq<Finding>, limit: int) {
    && (forall i | 0 <= i < |findings| :: findings[i].bundleRevision <= limit)
    && forall i, j | 0 <= i < j < |findings| :: findings[i].bundleRevision != findings[j].bundleRevision
  }

  ghost predicate Revisions(w: WorkItem, repairing: bool)
    requires w.Constructible()
  {
    match w.status
    case Pending => w.findings == [] && w.budget.tooling == 0
    case InProgress => w.findings == []
    case CandidateSaved => var r := w.bundle.value.revision; FindingsUpTo(w.findings, r - 1) && r <= w.budget.Semantic() + 1
    case Reviewed =>
      var r := w.bundle.value.revision;
      if repairing then FindingsUpTo(w.findings, r) && r <= w.budget.Semantic()
      else FindingsUpTo(w.findings, r - 1) && r <= w.budget.Semantic() + 1
    case _ => w.bundle.Some? ==> w.bundle.value.revision <= w.budget.Semantic() + 1
  }

  ghost predicate ItemInv(w: WorkItem, repairing: bool) {
    && w.Constructible()
    && w.budget.autoSemantic <= SEMANTIC_LIMIT
    && w.budget.manualSemantic <= SEMANTIC_LIMIT
    && w.budget.tooling <= TOOLING_LIMIT
    && |w.findings| == w.budget.Semantic()
    && Revisions(w, repairing)
  }

  ghost predicate ItemsInv(plan: Plan, repairing: bool) {
    forall i | 0 <= i < |plan| :: ItemInv(plan[i], repairing)
  }

  ghost predicate Inv(s: State) {
    && DistinctIds(s.plan)
    && Shape(s.plan, s.target)
    && ItemsInv(s.plan, s.target == ToLeaf(TestRepair))
  }

  // ---------------------------------------------------------------- lookups

  lemma IndexOfAt(plan: Plan, k: nat)
    requires DistinctIds(plan) && k < |plan|
    ensures IndexOf(plan, plan[k].requirementId) == Some(k)
  {
  }

  lemma FocusIsActive(plan: Plan, leaf: Leaf, k: nat)
    requires IsFocus(plan, leaf, k)
    ensures ActiveWorkItem(plan) == Success(Some(k))
  {
  }

  /** Once no Requirement is generating or under review, the first staged candidate is active. */
  lemma StagedIsActive(plan: Plan)
    requires NoneWith(plan, InProgress) && NoneWith(plan, Reviewed)
    ensures ActiveWorkItem(plan) == Success(FirstWith(plan, {CandidateSaved, Reviewed}))
  {
    assert FirstWith(plan, {InProgress}).None? && FirstWith(plan, {Reviewed}).None?;
  }

  lemma StagedIsFocus(plan: Plan, k: nat)
    requires NoneWith(plan, InProgress) && NoneWith(plan, Reviewed)
    requires FirstWith(plan, {CandidateSaved, Reviewed}) == Some(k)
    ensures IsFocus(plan, TestReview, k)
  {
    assert plan[k].status == CandidateSaved;
  }

  lemma PendingHead(plan: Plan, excluded: string)
    requires forall i | 0 <= i < |plan| :: plan[i].requirementId == excluded ==> plan[i].status != Pending
    ensures Head(IdsWith(plan, excluded, {Pending})) ==
            match NextPending(plan) case None => None case Some(k) => Some(plan[k].requirementId)
  {
    if plan != [] {
      assert forall i | 0 <= i < |plan[1..]| :: plan[1..][i] == plan[i + 1];
      PendingHead(plan[1..], excluded);
    }
  }

  lemma StagedIds(plan: Plan, excluded: string)
    ensures IdsWith(plan, excluded, {CandidateSaved, Reviewed}) != [] <==>
            exists i :: 0 <= i < |plan| && plan[i].requirementId != excluded && plan[i].status in {CandidateSaved, Reviewed}
  {
    if plan != [] {
      StagedIds(plan[1..], excluded);
      assert forall i | 0 <= i < |plan[1..]| :: plan[1..][i] == plan[i + 1];
      assert forall i | 0 < i < |plan| :: plan[i] == plan[1..][i - 1];
    }
  }

  // ---------------------------------------------------------------- what one step does

  /** The plan after the focus became `w` and, when there is one, the pending item `p` was started. */
  ghost function Moved(plan: Plan, k: nat, w: WorkItem, p: Option<nat>): Plan
    requires k < |plan| && (p.Some? ==> p.value < |plan|)
  {
    var next := plan[k := w];
    if p.None? then next else next[p.value := next[p.value].(status := InProgress)]
  }

  /** An accepted step turns the focus into `w`, starts `p` if any, and moves to `target`. */
  ghost predicate Moves(s: State, e: Event, k: nat, w: WorkItem, p: Option<nat>, target: Target)
    requires k < |s.plan| && (p.Some? ==> p.value < |s.plan|)
  {
    Step(s, e) == Success(State(Moved(s.plan, k, w, p), target))
  }

  lemma ApplyMoves(plan: Plan, leaf: Leaf, k: nat, d: Decision, w: WorkItem, p: Option<nat>)
    requires DistinctIds(plan) && IsFocus(plan, leaf, k)
    requires d.disposition != External && d.requirementId == plan[k].requirementId
    requires d.semanticFinding.Some? ==> d.semanticFinding.value !in plan[k].findings
    requires w == plan[k].(status := d.nextStatus,
                           bundle := if d.candidate.Some? then d.candidate else plan[k].bundle,
                           budget := if d.budgetIncrement.Some? then plan[k].budget.Increment(d.budgetIncrement.value) else plan[k].budget,
                           findings := if d.semanticFinding.Some? then plan[k].findings + [d.semanticFinding.value] else plan[k].findings)
    requires w.Constructible()
    requires p.Some? ==> p.value < |plan| && p.value != k && plan[p.value].status == Pending && plan[p.value].Constructible()
    requires d.nextRequirementId == if p.None? then None else Some(plan[p.value].requirementId)
    ensures Apply(d, plan, leaf) == Success(Moved(plan, k, w, p))
  {
    FocusIsActive(plan, leaf, k);
    IndexOfAt(plan, k);
    var next := plan[k := w];
    assert DistinctIds(next);
    if p.Some? {
      IndexOfAt(next, p.value);
    }
  }

  // ---------------------------------------------------------------- admitted observations

  /** An admitted observation is about the focus and is bound to that item's current bundle. */
  ghost predicate Admitted(plan: Plan, leaf: Leaf, e: Event, f: Facts) {
    && f.plan == plan && f.leaf == leaf && f.event == e && f.Bound() && IsFocus(plan, leaf, f.active)
    && f.Item().requirementId == e.observation.Id()
    && Permitted(leaf, e.observation.ObservedKind()) == Some(f.Item().status)
    && e.observation.Constructible()
    && (IsCandidate(e.observation) ==> CandidateMatches(leaf, e.attempt, f.Item(), e.observation.candidate))
    && f.candidate == (if IsCandidate(e.observation) then Some(e.observation.candidate) else f.Item().bundle)
  }

  lemma AdmitsFocus(plan: Plan, leaf: Leaf, e: Event, k: nat)
    requires IsFocus(plan, leaf, k) && Admit(plan, leaf, e).Success?
    ensures Admitted(plan, leaf, e, Admit(plan, leaf, e).value)
    ensures Admit(plan, leaf, e).value.active == k
  {
    FocusIsActive(plan, leaf, k);
  }

  // ---------------------------------------------------------------- shape after a step

  lemma ItemInvStable(w: WorkItem, before: bool, after: bool)
    requires ItemInv(w, before) && w.status != Reviewed
    ensures ItemInv(w, after)
    ensures w.status == Pending ==> ItemInv(w.(status := InProgress), after)
  {
  }

  lemma ItemsMoved(plan: Plan, leaf: Leaf, k: nat, w: WorkItem, p: Option<nat>, repairing: bool)
    requires IsFocus(plan, leaf, k) && ItemsInv(plan, leaf == TestRepair)
    requires ItemInv(w, repairing)
    requires p.Some? ==> p.value < |plan| && p.value != k && plan[p.value].status == Pending
    ensures ItemsInv(Moved(plan, k, w, p), repairing)
  {
    var next := Moved(plan, k, w, p);
    forall i | 0 <= i < |next|
      ensures ItemInv(next[i], repairing)
    {
      if i != k {
        assert plan[i].status != Reviewed;
        ItemInvStable(plan[i], leaf == TestRepair, repairing);
      }
    }
  }

  lemma DistinctMoved(plan: Plan, k: nat, w: WorkItem, p: Option<nat>)
    requires DistinctIds(plan) && k < |plan| && w.requirementId == plan[k].requirementId
    requires p.Some? ==> p.value < |plan|
    ensures DistinctIds(Moved(plan, k, w, p))
  {
    var next := Moved(plan, k, w, p);
    assert forall i | 0 <= i < |plan| :: next[i].requirementId == plan[i].requirementId;
  }

  lemma ShapeStaged(plan: Plan, leaf: Leaf, k: nat, w: WorkItem)
    requires IsFocus(plan, leaf, k) && w.status !in {InProgress, Reviewed}
    ensures NoneWith(plan[k := w], InProgress) && NoneWith(plan[k := w], Reviewed)
  {
  }

  lemma ShapeStarted(plan: Plan, k: nat, w: WorkItem, p: nat)
    requires k < |plan| && NoneWith(plan[k := w], InProgress) && NoneWith(plan[k := w], Reviewed)
    requires p < |plan| && p != k && plan[p].status == Pending
    ensures IsFocus(Moved(plan, k, w, Some(p)), TestGenerate, p)
  {
    var next := plan[k := w];
    var moved := Moved(plan, k, w, Some(p));
    assert forall i | 0 <= i < |moved| && i != p :: moved[i] == next[i];
  }

  // ---------------------------------------------------------------- settling a Requirement

  /** Where the work list stands once the focus became a terminal item. */
  ghost function NextTarget(plan: Plan): Target {
    if FirstWith(plan, {CandidateSaved, Reviewed}).Some? then ToLeaf(TestReview)
    else if NextPending(plan).Some? then ToLeaf(TestGenerate) else Implement
  }

  ghost function NextStart(plan: Plan): Option<nat> {
    if FirstWith(plan, {CandidateSaved, Reviewed}).Some? then None else NextPending(plan)
  }

  lemma NextShape(plan: Plan, k: nat, w: WorkItem)
    requires k < |plan| && w.Terminal() && NoneWith(plan[k := w], InProgress) && NoneWith(plan[k := w], Reviewed)
    ensures var after := plan[k := w]; Shape(Moved(plan, k, w, NextStart(after)), NextTarget(after))
  {
    var after := plan[k := w];
    if FirstWith(after, {CandidateSaved, Reviewed}).Some? {
      StagedIsFocus(after, FirstWith(after, {CandidateSaved, Reviewed}).value);
    } else if NextPending(after).Some? {
      ShapeStarted(plan, k, w, NextPending(after).value);
    } else {
      forall i | 0 <= i < |after|
        ensures after[i].Terminal()
      {
        assert after[i].status !in {CandidateSaved, Reviewed} && after[i].status !in {Pending};
      }
    }
  }

  lemma StagedMatches(plan: Plan, k: nat, after: Plan)
    requires DistinctIds(plan) && k < |plan| == |after| && after[k].Terminal()
    requires forall i | 0 <= i < |plan| && i != k :: after[i] == plan[i]
    ensures FirstWith(after, {CandidateSaved, Reviewed}).Some? <==>
            IdsWith(plan, plan[k].requirementId, {CandidateSaved, Reviewed}) != []
  {
    var id := plan[k].requirementId;
    StagedIds(plan, id);
    match FirstWith(after, {CandidateSaved, Reviewed})
    case Some(i) =>
      assert plan[i].requirementId != id && plan[i].status in {CandidateSaved, Reviewed};
    case None =>
      forall i | 0 <= i < |plan| && plan[i].requirementId != id
        ensures plan[i].status !in {CandidateSaved, Reviewed}
      {
        assert i != k && after[i].status !in {CandidateSaved, Reviewed};
      }
  }

  lemma SamePending(plan: Plan, after: Plan, excluded: string)
    requires |plan| == |after|
    requires forall i | 0 <= i < |plan| :: plan[i].requirementId == after[i].requirementId
    requires forall i | 0 <= i < |plan| :: plan[i].status == Pending <==> after[i].status == Pending
    ensures IdsWith(plan, excluded, {Pending}) == IdsWith(after, excluded, {Pending})
  {
    if plan != [] {
      assert forall i | 0 <= i < |plan[1..]| :: plan[1..][i] == plan[i + 1] && after[1..][i] == after[i + 1];
      SamePending(plan[1..], after[1..], excluded);
    }
  }

  /** The pending head of the frontier is the item the plan itself would start next. */
  lemma PendingMatches(plan: Plan, k: nat, w: WorkItem)
    requires DistinctIds(plan) && k < |plan| && w.requirementId == plan[k].requirementId
    requires plan[k].status != Pending && w.status != Pending
    ensures Head(IdsWith(plan, plan[k].requirementId, {Pending})) ==
            match NextPending(plan[k := w]) case None => None case Some(p) => Some(plan[k := w][p].requirementId)
  {
    var after := plan[k := w];
    assert forall i | 0 <= i < |plan| :: after[i].requirementId == plan[i].requirementId;
    SamePending(plan, after, plan[k].requirementId);
    forall i | 0 <= i < |after| && after[i].requirementId == plan[k].requirementId
      ensures after[i].status != Pending
    {
      assert i == k;
    }
    PendingHead(after, plan[k].requirementId);
  }

  /** Settling the focus: live facts and saved Result select the same decision, and it applies. */
  lemma SettleFocus(f: Facts, disposition: Disposition, candidate: Option<Bundle>, w: WorkItem)
    requires DistinctIds(f.plan) && f.Bound() && IsFocus(f.plan, f.leaf, f.active)
    requires disposition in {Promote, Defer} && (candidate.Some? ==> disposition == Defer)
    requires w == f.Item().(status := if disposition == Promote then Promoted else Deferred,
                            bundle := if candidate.Some? then candidate else f.Item().bundle)
    requires w.Constructible()
    ensures var after := f.plan[f.active := w];
            TerminalDecision(LiveSelection(f), disposition, candidate)
            == TerminalDecision(SavedSelection(Save(f)), disposition, candidate)
            == Success(Terminal(LiveSelection(f), disposition, w.status, candidate, NextTarget(after) == ToLeaf(TestReview),
                                match NextPending(after) case None => None case Some(p) => Some(after[p].requirementId)))
  {
    var k := f.active;
    var after := f.plan[k := w];
    IndexOfAt(f.plan, k);
    ShapeStaged(f.plan, f.leaf, k, w);
    StagedIsActive(after);
    StagedMatches(f.plan, k, after);
    PendingMatches(f.plan, k, w);
  }

  lemma SettleApplies(f: Facts, d: Decision, w: WorkItem)
    requires DistinctIds(f.plan) && f.Bound() && IsFocus(f.plan, f.leaf, f.active)
    requires w.Terminal() && w.Constructible()
    requires w == f.Item().(status := w.status, bundle := if d.candidate.Some? then d.candidate else f.Item().bundle)
    requires d.disposition in {Promote, Defer} && d.nextStatus == w.status && d.requirementId == w.requirementId
    requires d.budgetIncrement.None? && d.semanticFinding.None?
    requires var after := f.plan[f.active := w];
             d.nextRequirementId == match NextStart(after) case None => None case Some(p) => Some(after[p].requirementId)
    requires forall i | 0 <= i < |f.plan| :: f.plan[i].Constructible()
    ensures Apply(d, f.plan, f.leaf) == Success(Moved(f.plan, f.active, w, NextStart(f.plan[f.active := w])))
  {
    ApplyMoves(f.plan, f.leaf, f.active, d, w, NextStart(f.plan[f.active := w]));
  }

  // ---------------------------------------------------------------- the transition table

  /** What one admitted observation is meant to do: the new focus item, the item started, the next leaf. */
  datatype Change = Change(item: WorkItem, start: Option<nat>, target: Target)

  ghost function Settlement(f: Facts, w: WorkItem): Change
    requires f.Bound()
  {
    var after := f.plan[f.active := w];
    Change(w, NextStart(after), NextTarget(after))
  }

  ghost function SemanticKind(e: Event): BudgetKind {
    if e.autoApprove then AutoSemantic else ManualSemantic
  }

  /** A rejection is charged and recorded, or defers the Requirement once its budget is used up. */
  ghost function Rejection(f: Facts): Change
    requires f.Bound() && ObservedFinding(f).Some?
  {
    var kind := SemanticKind(f.event);
    var item := if f.event.observation.StructuralObservation? then f.Item().(bundle := f.candidate) else f.Item();
    if item.budget.Used(kind) < SEMANTIC_LIMIT then
      Change(item.(status := Reviewed, budget := item.budget.Increment(kind), findings := item.findings + [ObservedFinding(f).value]),
             None, ToLeaf(TestRepair))
    else Settlement(f, item.(status := Deferred))
  }

  ghost function Table(f: Facts): Change
    requires f.Bound() && (f.event.observation.ObservedKind() in {StructuralRejection, SemanticRejection} ==> ObservedFinding(f).Some?)
  {
    var item := f.Item();
    match f.event.observation.ObservedKind()
    case ExternalBlocked => Change(item, None, ToLeaf(f.leaf))
    case CandidateSavedKind =>
      var start := if f.leaf == TestGenerate then NextPending(f.plan) else None;
      Change(item.(status := CandidateSaved, bundle := f.candidate), start, ToLeaf(if start.Some? then TestGenerate else TestReview))
    case ReviewPass => Change(item.(status := Reviewed), None, ToLeaf(TestGate))
    case ReviewAdvisory => Change(item.(status := Reviewed), None, ToLeaf(TestGate))
    case ToolingFailure =>
      if item.budget.tooling < TOOLING_LIMIT then Change(item.(budget := item.budget.Increment(Tooling)), None, ToLeaf(f.leaf))
      else Settlement(f, item.(status := Deferred))
    case StructuralRejection => Rejection(f)
    case SemanticRejection => Rejection(f)
    case kind =>
      if kind == (if item.expectation == ExpectFail then AssertionFailed else AssertionPassed)
      then Settlement(f, item.(status := Promoted))
      else Change(item.(status := CandidateSaved), None, ToLeaf(TestReview))
  }

  /** Facts admitted in a state that satisfies the invariant. */
  ghost predicate Ready(f: Facts) {
    && DistinctIds(f.plan)
    && ItemsInv(f.plan, f.leaf == TestRepair)
    && Admitted(f.plan, f.leaf, f.event, f)
  }

  /** Live facts and the saved Result select one decision, and applying it makes the change `c`. */
  ghost predicate Selects(f: Facts, c: Change)
    requires f.Bound()
  {
    && (c.start.Some? ==> c.start.value < |f.plan|)
    && Resolve(LiveSelection(f)).Success?
    && Resolve(LiveSelection(f)) == Resolve(SavedSelection(Save(f)))
    && Resolve(LiveSelection(f)).value.target == c.target
    && Apply(Resolve(LiveSelection(f)).value, f.plan, f.leaf) == Success(Moved(f.plan, f.active, c.item, c.start))
  }

  /** What evaluating the policy needs to know about the active item. */
  ghost predicate Focused(f: Facts) {
    && DistinctIds(f.plan)
    && f.Bound()
    && IsFocus(f.plan, f.leaf, f.active)
    && forall i | 0 <= i < |f.plan| :: f.plan[i].Constructible()
  }

  lemma SettleSelects(f: Facts, disposition: Disposition, candidate: Option<Bundle>, w: WorkItem)
    requires Focused(f)
    requires disposition in {Promote, Defer} && (candidate.Some? ==> disposition == Defer)
    requires w == f.Item().(status := if disposition == Promote then Promoted else Deferred,
                            bundle := if candidate.Some? then candidate else f.Item().bundle)
    requires w.Constructible()
    ensures var d := TerminalDecision(LiveSelection(f), disposition, candidate);
            && d == TerminalDecision(SavedSelection(Save(f)), disposition, candidate) && d.Success?
            && d.value.target == Settlement(f, w).target
            && Apply(d.value, f.plan, f.leaf) == Success(Moved(f.plan, f.active, w, Settlement(f, w).start))
  {
    SettleFocus(f, disposition, candidate, w);
    SettleApplies(f, TerminalDecision(LiveSelection(f), disposition, candidate).value, w);
  }

  /** A decision that settles nothing: it keeps or changes the focus and may start the item `p`. */
  lemma MoveSelects(f: Facts, d: Decision, c: Change)
    requires Focused(f)
    requires Resolve(LiveSelection(f)) == Resolve(SavedSelection(Save(f))) == Success(d)
    requires d.disposition != External && d.requirementId == f.Item().requirementId && d.target == c.target
    requires d.semanticFinding.Some? ==> d.semanticFinding.value !in f.Item().findings
    requires c.item == f.Item().(status := d.nextStatus,
                                 bundle := if d.candidate.Some? then d.candidate else f.Item().bundle,
                                 budget := if d.budgetIncrement.Some? then f.Item().budget.Increment(d.budgetIncrement.value) else f.Item().budget,
                                 findings := if d.semanticFinding.Some? then f.Item().findings + [d.semanticFinding.value] else f.Item().findings)
    requires c.item.Constructible()
    requires c.start.Some? ==> c.start.value < |f.plan| && c.start.value != f.active && f.plan[c.start.value].status == Pending
    requires d.nextRequirementId == if c.start.None? then None else Some(f.plan[c.start.value].requirementId)
    ensures Selects(f, c)
  {
    ApplyMoves(f.plan, f.leaf, f.active, d, c.item, c.start);
  }

  /** A decision that settles the focus as `w`. */
  lemma SettleSelectsChange(f: Facts, disposition: Disposition, candidate: Option<Bundle>, w: WorkItem)
    requires Focused(f)
    requires disposition in {Promote, Defer} && (candidate.Some? ==> disposition == Defer)
    requires w == f.Item().(status := if disposition == Promote then Promoted else Deferred,
                            bundle := if candidate.Some? then candidate else f.Item().bundle)
    requires w.Constructible()
    requires Resolve(LiveSelection(f)) == TerminalDecision(LiveSelection(f), disposition, candidate)
    requires Resolve(SavedSelection(Save(f))) == TerminalDecision(SavedSelection(Save(f)), disposition, candidate)
    ensures Selects(f, Settlement(f, w))
  {
    SettleSelects(f, disposition, candidate, w);
  }

  lemma SelectsExternal(f: Facts)
    requires Focused(f) && f.event.observation.ObservedKind() == ExternalBlocked
    requires f.Item().status != Pending
    ensures Selects(f, Table(f))
  {
    FocusIsActive(f.plan, f.leaf, f.active);
    IndexOfAt(f.plan, f.active);
    assert f.plan[f.active := f.Item()] == f.plan;
  }

  lemma SelectsSaved(f: Facts)
    requires Focused(f) && f.event.observation.ObservedKind() == CandidateSavedKind
    requires f.candidate.Some? && f.candidate.value.requirementId == f.Item().requirementId
    requires f.event.observation.CandidateObservation? && f.candidate == Some(f.event.observation.candidate)
    requires f.Item().status != Pending
    ensures Selects(f, Table(f))
  {
    PendingMatches(f.plan, f.active, f.Item());
    assert f.plan[f.active := f.Item()] == f.plan;
    MoveSelects(f, Resolve(LiveSelection(f)).value, Table(f));
  }

  lemma SelectsReviewed(f: Facts)
    requires Focused(f) && f.event.observation.ObservedKind() in {ReviewPass, ReviewAdvisory}
    requires f.Item().bundle.Some?
    ensures Selects(f, Table(f))
  {
    MoveSelects(f, Resolve(LiveSelection(f)).value, Table(f));
  }

  lemma SelectsTooling(f: Facts)
    requires Focused(f) && f.event.observation.ObservedKind() == ToolingFailure
    requires f.Item().status != Pending
    ensures Selects(f, Table(f))
  {
    if f.Item().budget.tooling < TOOLING_LIMIT {
      MoveSelects(f, Resolve(LiveSelection(f)).value, Table(f));
    } else {
      SettleSelectsChange(f, Defer, None, f.Item().(status := Deferred));
    }
  }

  ghost predicate Gates(f: Facts)
    requires f.Bound()
  {
    && f.leaf == TestGate && f.event.observation.GateObservation? && f.event.observation.Constructible()
    && f.event.observation.kind != ToolingFailure && f.Item().bundle.Some?
  }

  ghost predicate Expected(f: Facts)
    requires f.Bound()
  {
    f.event.observation.ObservedKind() == if f.Item().expectation == ExpectFail then AssertionFailed else AssertionPassed
  }

  lemma ResolvesGate(f: Facts)
    requires f.Bound() && Gates(f)
    ensures if Expected(f) then
              && Resolve(LiveSelection(f)) == TerminalDecision(LiveSelection(f), Promote, None)
              && Resolve(SavedSelection(Save(f))) == TerminalDecision(SavedSelection(Save(f)), Promote, None)
            else
              Resolve(LiveSelection(f)) == Resolve(SavedSelection(Save(f)))
              == Success(Decision(Advance, ToLeaf(TestReview), CandidateSaved, f.Item().requirementId, None, None, None, false, None, None))
  {
  }

  lemma SelectsMetGate(f: Facts)
    requires Focused(f) && Gates(f) && Expected(f)
    ensures Selects(f, Table(f))
  {
    ResolvesGate(f);
    SettleSelectsChange(f, Promote, None, f.Item().(status := Promoted));
  }

  lemma SelectsMissedGate(f: Facts)
    requires Focused(f) && Gates(f) && !Expected(f)
    ensures Selects(f, Table(f))
  {
    ResolvesGate(f);
    MoveSelects(f, Resolve(LiveSelection(f)).value, Table(f));
  }

  lemma SelectsGate(f: Facts)
    requires Focused(f) && Gates(f)
    ensures Selects(f, Table(f))
  {
    if Expected(f) { SelectsMetGate(f); } else { SelectsMissedGate(f); }
  }

  /** The operands of a rejection: its finding is new, and only a structural one brings a bundle. */
  ghost predicate Rejects(f: Facts)
    requires f.Bound()
  {
    && f.event.observation.ObservedKind() in {StructuralRejection, SemanticRejection}
    && f.candidate.Some? && f.candidate.value.requirementId == f.Item().requirementId
    && (f.event.observation.StructuralObservation? ==> f.candidate == Some(f.event.observation.candidate))
    && (f.event.observation.StepObservation? ==> f.candidate == f.Item().bundle)
    && f.event.observation.Constructible() && ObservedFinding(f).Some?
    && ObservedFinding(f).value !in f.Item().findings
  }

  lemma ResolvesRejection(f: Facts)
    requires f.Bound() && Rejects(f)
    ensures var retained := if f.event.observation.StructuralObservation? then f.candidate else None;
            if f.Item().budget.Used(SemanticKind(f.event)) < SEMANTIC_LIMIT then
              Resolve(LiveSelection(f)) == Resolve(SavedSelection(Save(f)))
              == Success(Decision(SemanticRetry, ToLeaf(TestRepair), Reviewed, f.Item().requirementId,
                                  Some(SemanticKind(f.event)), None, Some(true), false, retained, ObservedFinding(f)))
            else
              && Resolve(LiveSelection(f)) == TerminalDecision(LiveSelection(f), Defer, retained)
              && Resolve(SavedSelection(Save(f))) == TerminalDecision(SavedSelection(Save(f)), Defer, retained)
  {
  }

  lemma SelectsRejection(f: Facts)
    requires Focused(f) && Rejects(f)
    ensures Selects(f, Rejection(f))
  {
    var retained := if f.event.observation.StructuralObservation? then f.candidate else None;
    ResolvesRejection(f);
    if f.Item().budget.Used(SemanticKind(f.event)) < SEMANTIC_LIMIT {
      MoveSelects(f, Resolve(LiveSelection(f)).value, Rejection(f));
    } else {
      SettleSelectsChange(f, Defer, retained, Rejection(f).item);
    }
  }

  // ---------------------------------------------------------------- the step theorem

  lemma ReadyIsFocused(f: Facts)
    requires Ready(f)
    ensures Focused(f) && ItemInv(f.Item(), f.leaf == TestRepair)
  {
    forall i | 0 <= i < |f.plan|
      ensures f.plan[i].Constructible()
    {
      assert ItemInv(f.plan[i], f.leaf == TestRepair);
    }
  }

  /** Every recorded finding belongs to an earlier revision, so no rejection is ever a duplicate. */
  lemma FindingIsNew(f: Facts)
    requires Ready(f) && f.event.observation.ObservedKind() in {StructuralRejection, SemanticRejection}
    ensures Rejects(f)
  {
    ReadyIsFocused(f);
    var item := f.Item();
    forall i | 0 <= i < |item.findings|
      ensures item.findings[i] != ObservedFinding(f).value
    {
      assert item.findings[i].bundleRevision < ObservedFinding(f).value.bundleRevision;
    }
  }

  /** A rejection that is charged leaves one more finding, of the revision now under repair. */
  lemma KeepsRejected(w: WorkItem, bundle: Bundle, kind: BudgetKind, finding: Finding)
    requires w.Constructible() && |w.findings| == w.budget.Semantic() && kind != Tooling
    requires FindingsUpTo(w.findings, bundle.revision - 1) && bundle.revision <= w.budget.Semantic() + 1
    requires w.budget.autoSemantic <= SEMANTIC_LIMIT && w.budget.manualSemantic <= SEMANTIC_LIMIT && w.budget.tooling <= TOOLING_LIMIT
    requires w.budget.Used(kind) < SEMANTIC_LIMIT
    requires bundle.requirementId == finding.requirementId == w.requirementId && finding.bundleRevision == bundle.revision
    ensures ItemInv(w.(status := Reviewed, bundle := Some(bundle), budget := w.budget.Increment(kind), findings := w.findings + [finding]), true)
  {
    var findings := w.findings + [finding];
    assert FindingsConstructible(findings, w.requirementId);
    assert FindingsUpTo(findings, bundle.revision);
  }

  lemma KeepsRejection(f: Facts)
    requires Ready(f) && Rejects(f)
    ensures ItemInv(Rejection(f).item, Rejection(f).target == ToLeaf(TestRepair))
    ensures Rejection(f).item.requirementId == f.Item().requirementId
  {
    ReadyIsFocused(f);
    if f.Item().budget.Used(SemanticKind(f.event)) < SEMANTIC_LIMIT {
      KeepsRejected(f.Item(), f.candidate.value, SemanticKind(f.event), ObservedFinding(f).value);
      assert Rejection(f).item == f.Item().(status := Reviewed, bundle := f.candidate,
                                            budget := f.Item().budget.Increment(SemanticKind(f.event)),
                                            findings := f.Item().findings + [ObservedFinding(f).value]);
    }
  }

  lemma KeepsSaved(f: Facts)
    requires Fits(f) && ItemInv(f.Item(), f.leaf == TestRepair)
    requires f.event.observation.ObservedKind().CandidateSavedKind?
    ensures ItemInv(Table(f).item, Table(f).target == ToLeaf(TestRepair))
  {
  }

  lemma KeepsTooling(f: Facts)
    requires Fits(f) && ItemInv(f.Item(), f.leaf == TestRepair)
    requires f.event.observation.ObservedKind().ToolingFailure?
    ensures ItemInv(Table(f).item, Table(f).target == ToLeaf(TestRepair))
  {
  }

  lemma KeepsPlain(f: Facts)
    requires Fits(f) && ItemInv(f.Item(), f.leaf == TestRepair)
    requires f.event.observation.ObservedKind() !in {StructuralRejection, SemanticRejection}
    ensures ItemInv(Table(f).item, Table(f).target == ToLeaf(TestRepair))
  {
    match f.event.observation.ObservedKind()
    case CandidateSavedKind => KeepsSaved(f);
    case ToolingFailure => KeepsTooling(f);
    case _ =>
  }

  lemma KeepsItem(f: Facts)
    requires Ready(f) && (f.event.observation.ObservedKind() in {StructuralRejection, SemanticRejection} ==> Rejects(f))
    ensures ItemInv(Table(f).item, Table(f).target == ToLeaf(TestRepair))
    ensures Table(f).item.requirementId == f.Item().requirementId
  {
    ReadyIsFocused(f);
    if f.event.observation.ObservedKind() in {StructuralRejection, SemanticRejection} {
      KeepsRejection(f);
    } else {
      KeepsPlain(f);
    }
  }

  lemma SelectsFromTable(f: Facts)
    requires Ready(f) && (f.event.observation.ObservedKind() in {StructuralRejection, SemanticRejection} ==> Rejects(f))
    ensures Selects(f, Table(f))
  {
    ReadyIsFocused(f);
    match f.event.observation.ObservedKind()
    case ExternalBlocked => SelectsExternal(f);
    case CandidateSavedKind => SelectsSaved(f);
    case ReviewPass => SelectsReviewed(f);
    case ReviewAdvisory => SelectsReviewed(f);
    case ToolingFailure => SelectsTooling(f);
    case StructuralRejection => SelectsRejection(f);
    case SemanticRejection => SelectsRejection(f);
    case _ => SelectsGate(f);
  }

  /** What the delivered observation is permitted to be, for the status of the active item. */
  ghost predicate Fits(f: Facts) {
    && f.Bound()
    && f.event.observation.Constructible()
    && Permitted(f.leaf, f.event.observation.ObservedKind()) == Some(f.Item().status)
    && (IsCandidate(f.event.observation) ==> CandidateMatches(f.leaf, f.event.attempt, f.Item(), f.event.observation.candidate))
    && f.candidate == (if IsCandidate(f.event.observation) then Some(f.event.observation.candidate) else f.Item().bundle)
    && f.Item().requirementId == f.event.observation.Id()
    && f.Item().Constructible()
  }

  /** A change that does not settle the focus, by the leaf it moves to. */
  ghost predicate Continues(f: Facts, c: Change)
    requires f.Bound()
  {
    || (c.target == ToLeaf(f.leaf) && c.start.None? && c.item.status == f.Item().status)
    || (c.target == ToLeaf(TestGate) && f.leaf == TestReview && c.start.None? && c.item.status == Reviewed)
    || (c.target == ToLeaf(TestRepair) && c.start.None? && c.item.status == Reviewed)
    || (c.target == ToLeaf(TestReview) && c.start.None? && c.item.status == CandidateSaved)
    || (c.target == ToLeaf(TestGenerate) && c.item.status == CandidateSaved && c.start.Some?
        && c.start.value < |f.plan| && c.start.value != f.active && f.plan[c.start.value].status == Pending)
  }

  lemma TableCases(f: Facts)
    requires Fits(f)
    ensures f.event.observation.ObservedKind() in {StructuralRejection, SemanticRejection} ==> ObservedFinding(f).Some?
    ensures Continues(f, Table(f)) || (Table(f).item.Terminal() && Table(f) == Settlement(f, Table(f).item))
    ensures Table(f).start.Some? ==>
              Table(f).start.value < |f.plan| && Table(f).start.value != f.active && f.plan[Table(f).start.value].status == Pending
  {
  }

  lemma ShapeOf(f: Facts, c: Change)
    requires Focused(f) && Continues(f, c)
    ensures Shape(Moved(f.plan, f.active, c.item, c.start), c.target)
  {
    var k := f.active;
    var next := f.plan[k := c.item];
    if c.start.Some? {
      ShapeStaged(f.plan, f.leaf, k, c.item);
      ShapeStarted(f.plan, k, c.item, c.start.value);
    } else if c.target == ToLeaf(f.leaf) && c.item.status == f.Item().status {
      assert forall i | 0 <= i < |next| :: next[i].status == f.plan[i].status;
      assert IsFocus(next, f.leaf, k);
    } else if c.item.status == Reviewed {
      assert forall i | 0 <= i < |next| && i != k :: next[i] == f.plan[i];
      assert IsFocus(next, c.target.leaf, k);
    } else {
      ShapeStaged(f.plan, f.leaf, k, c.item);
      assert next[k].status == CandidateSaved;
      StagedIsFocus(next, FirstWith(next, {CandidateSaved, Reviewed}).value);
    }
  }

  lemma ShapeOfTable(f: Facts, c: Change)
    requires Focused(f)
    requires Continues(f, c) || (c.item.Terminal() && c == Settlement(f, c.item))
    ensures c.start.Some? ==> c.start.value < |f.plan|
    ensures Shape(Moved(f.plan, f.active, c.item, c.start), c.target)
  {
    if Continues(f, c) {
      ShapeOf(f, c);
    } else {
      ShapeStaged(f.plan, f.leaf, f.active, c.item);
      NextShape(f.plan, f.active, c.item);
    }
  }

  ghost function FactsOf(s: State, e: Event): Facts
    requires Inv(s) && s.target.ToLeaf? && Admit(s.plan, s.target.leaf, e).Success?
  {
    Admit(s.plan, s.target.leaf, e).value
  }

  lemma FactsReady(s: State, e: Event)
    requires Inv(s) && s.target.ToLeaf? && Admit(s.plan, s.target.leaf, e).Success?
    ensures Ready(FactsOf(s, e)) && FactsOf(s, e).plan == s.plan && FactsOf(s, e).leaf == s.target.leaf && FactsOf(s, e).event == e
    ensures e.observation.ObservedKind() in {StructuralRejection, SemanticRejection} ==> Rejects(FactsOf(s, e))
  {
    var k :| IsFocus(s.plan, s.target.leaf, k);
    AdmitsFocus(s.plan, s.target.leaf, e, k);
    if e.observation.ObservedKind() in {StructuralRejection, SemanticRejection} {
      FindingIsNew(FactsOf(s, e));
    }
  }

  /**
   An observation admitted in a reachable state is never refused later on: its decision satisfies the
   decision constructor, it applies to the plan, the step is the tabulated one, and the invariant holds again.
   */
  lemma StepFollowsTable(s: State, e: Event)
    requires Inv(s) && s.target.ToLeaf? && Admit(s.plan, s.target.leaf, e).Success?
    ensures var f := FactsOf(s, e);
            && Ready(f) && (e.observation.ObservedKind() in {StructuralRejection, SemanticRejection} ==> Rejects(f))
            && (Table(f).start.Some? ==> Table(f).start.value < |s.plan|)
            && Step(s, e) == Success(State(Moved(s.plan, f.active, Table(f).item, Table(f).start), Table(f).target))
            && Inv(Step(s, e).value)
  {
    var f := FactsOf(s, e);
    FactsReady(s, e);
    SelectsFromTable(f);
    KeepsItem(f);
    ReadyIsFocused(f);
    TableCases(f);
    var c := Table(f);
    ShapeOfTable(f, c);
    ItemsMoved(f.plan, f.leaf, f.active, c.item, c.start, c.target == ToLeaf(TestRepair));
    DistinctMoved(f.plan, f.active, c.item, c.start);
  }
}
