/**
 The Requirement-test lifecycle: a work list of Requirements whose tests are generated, reviewed,
 repaired and gated one at a time. `Admit` is the check a lifecycle observation has to pass,
 `Resolve` is the only policy, `Apply` carries a selected decision over to the plan.
 A thrown error is a `Failure`.
*/
module RequirementTests {
  import opened Wrappers

  const SEMANTIC_LIMIT: nat := 5
  const TOOLING_LIMIT: nat := 3

  datatype Status = Pending | InProgress | CandidateSaved | Reviewed | Promoted | Deferred
  datatype Leaf = TestGenerate | TestReview | TestRepair | TestGate
  datatype Target = ToLeaf(leaf: Leaf) | Implement
  datatype Expectation = ExpectFail | ExpectPass

  datatype Attempt = Attempt(id: string, sequence: nat)
  datatype Bundle = Bundle(requirementId: string, revision: nat, predecessor: Option<nat>, sourceAttempt: Attempt, digest: string)
  datatype Finding = Finding(requirementId: string, bundleRevision: nat, fingerprint: string)

  datatype BudgetKind = AutoSemantic | ManualSemantic | Tooling
  datatype Budget = Budget(autoSemantic: nat, manualSemantic: nat, tooling: nat) {
    function Used(kind: BudgetKind): nat {
      match kind
      case AutoSemantic => autoSemantic
      case ManualSemantic => manualSemantic
      case Tooling => tooling
    }

    function Increment(kind: BudgetKind): Budget {
      match kind
      case AutoSemantic => this.(autoSemantic := autoSemantic + 1)
      case ManualSemantic => this.(manualSemantic := manualSemantic + 1)
      case Tooling => this.(tooling := tooling + 1)
    }

    function Semantic(): nat {
      autoSemantic + manualSemantic
    }
  }

  const INITIAL_BUDGET := Budget(0, 0, 0)

  // ---------------------------------------------------------------- the plan

  predicate FindingsConstructible(findings: seq<Finding>, requirementId: string) {
    && (forall i | 0 <= i < |findings| :: findings[i].requirementId == requirementId)
    && (forall i, j | 0 <= i < j < |findings| :: findings[i] != findings[j])
  }

  datatype WorkItem = WorkItem(requirementId: string, expectation: Expectation, status: Status,
                               bundle: Option<Bundle>, budget: Budget, findings: seq<Finding>) {
    /** What the constructor of a work item accepts. */
    predicate Constructible() {
      && FindingsConstructible(findings, requirementId)
      && (status == Pending || status == InProgress ==> bundle.None?)
      && (status == CandidateSaved || status == Reviewed || status == Promoted ==> bundle.Some?)
      && (bundle.Some? ==> bundle.value.requirementId == requirementId)
    }

    predicate Terminal() {
      status in {Promoted, Deferred}
    }
  }

  type Plan = seq<WorkItem>

  predicate DistinctIds(plan: Plan) {
    forall i, j | 0 <= i < j < |plan| :: plan[i].requirementId != plan[j].requirementId
  }

  /** The least index whose status is one of `statuses`. */
  function FirstWith(plan: Plan, statuses: set<Status>): (r: Option<nat>)
    ensures r.Some? ==> r.value < |plan| && plan[r.value].status in statuses
    ensures r.Some? ==> forall j | 0 <= j < r.value :: plan[j].status !in statuses
    ensures r.None? ==> forall j | 0 <= j < |plan| :: plan[j].status !in statuses
  {
    if plan == [] then None
    else if plan[0].status in statuses then Some(0)
    else
      match FirstWith(plan[1..], statuses)
      case None => assert forall j | 1 <= j < |plan| :: plan[j] == plan[1..][j - 1]; None
      case Some(k) => assert forall j | 1 <= j < |plan| :: plan[j] == plan[1..][j - 1]; Some(k + 1)
  }

  function IndexOf(plan: Plan, id: string): (r: Option<nat>)
    ensures r.Some? ==> r.value < |plan| && plan[r.value].requirementId == id
    ensures r.None? ==> forall j | 0 <= j < |plan| :: plan[j].requirementId != id
  {
    if plan == [] then None
    else if plan[0].requirementId == id then Some(0)
    else
      match IndexOf(plan[1..], id)
      case None => assert forall j | 1 <= j < |plan| :: plan[j] == plan[1..][j - 1]; None
      case Some(k) => Some(k + 1)
  }

  predicate AtMostOne(plan: Plan, status: Status) {
    forall i, j | 0 <= i < j < |plan| :: !(plan[i].status == status && plan[j].status == status)
  }

  function WithWorkItem(plan: Plan, item: WorkItem): Result<Plan> {
    match IndexOf(plan, item.requirementId)
    case None => Failure("plan does not contain the Requirement")
    case Some(i) => if item.Constructible() then Success(plan[i := item]) else Failure("invalid work item")
  }

  /** Generation stages every Requirement first; afterwards the earliest staged candidate is the frontier. */
  function ActiveWorkItem(plan: Plan): Result<Option<nat>> {
    if !AtMostOne(plan, InProgress) then Failure("multiple generating work items")
    else
      match FirstWith(plan, {InProgress})
      case Some(g) =>
        if FirstWith(plan, {Reviewed}).Some? then Failure("cannot generate while a Requirement is under review")
        else Success(Some(g))
      case None =>
        match FirstWith(plan, {CandidateSaved, Reviewed})
        case None => Success(None)
        case Some(staged) =>
          if !AtMostOne(plan, Reviewed) then Failure("multiple reviewed work items")
          else
            match FirstWith(plan, {Reviewed})
            case Some(reviewed) => Success(Some(reviewed))
            case None => Success(Some(staged))
  }

  function NextPending(plan: Plan): Option<nat> {
    FirstWith(plan, {Pending})
  }

  // ---------------------------------------------------------------- observations and facts

  datatype Kind =
    | CandidateSavedKind | StructuralRejection
    | ReviewPass | ReviewAdvisory | SemanticRejection
    | AssertionFailed | AssertionPassed | InvalidTest | SkippedTest | MissingTest
    | ToolingFailure | ExternalBlocked

  /** What one leaf reports; `candidate` is a new bundle for the first two forms and null otherwise. */
  datatype Observation =
    | CandidateObservation(candidate: Bundle)
    | StructuralObservation(candidate: Bundle, fingerprint: string)
    | StepObservation(requirementId: string, bundleRevision: Option<nat>, digest: Option<string>,
                      sourceAttempt: Option<Attempt>, kind: Kind, semanticFingerprint: Option<string>)
    | GateObservation(requirementId: string, bundleRevision: Option<nat>, digest: Option<string>,
                      sourceAttempt: Option<Attempt>, kind: Kind)
  {
    function Id(): string {
      match this
      case CandidateObservation(c) => c.requirementId
      case StructuralObservation(c, _) => c.requirementId
      case StepObservation(id, _, _, _, _, _) => id
      case GateObservation(id, _, _, _, _) => id
    }

    function ObservedKind(): Kind {
      match this
      case CandidateObservation(_) => CandidateSavedKind
      case StructuralObservation(_, _) => StructuralRejection
      case StepObservation(_, _, _, _, k, _) => k
      case GateObservation(_, _, _, _, k) => k
    }

    function FindingFingerprint(): Option<string> {
      match this
      case StructuralObservation(_, f) => Some(f)
      case StepObservation(_, _, _, _, _, f) => f
      case _ => None
    }

    /** What the constructors of the observations accept. */
    predicate Constructible() {
      match this
      case CandidateObservation(c) => BundleConstructible(c)
      case StructuralObservation(c, _) => BundleConstructible(c)
      case StepObservation(_, rev, digest, attempt, k, f) =>
        && (digest.None? <==> attempt.None?)
        && (rev.Some? ==> rev.value >= 1)
        && k in {ReviewPass, ReviewAdvisory, SemanticRejection, ToolingFailure, ExternalBlocked}
        && (k == SemanticRejection <==> f.Some?)
      case GateObservation(_, _, _, _, k) =>
        k in {AssertionFailed, AssertionPassed, InvalidTest, SkippedTest, MissingTest, ToolingFailure}
    }
  }

  predicate BundleConstructible(b: Bundle) {
    && b.revision >= 1
    && b.predecessor == (if b.revision == 1 then None else Some(b.revision - 1))
  }

  /** The status an active work item must have for a leaf to report an observation of this kind. */
  function Permitted(leaf: Leaf, kind: Kind): Option<Status> {
    match leaf
    case TestGenerate =>
      if kind in {CandidateSavedKind, StructuralRejection, ToolingFailure, ExternalBlocked} then Some(InProgress) else None
    case TestReview =>
      if kind in {ReviewPass, ReviewAdvisory, SemanticRejection, ToolingFailure, ExternalBlocked} then Some(CandidateSaved) else None
    case TestRepair =>
      if kind in {CandidateSavedKind, StructuralRejection, ToolingFailure, ExternalBlocked} then Some(Reviewed) else None
    case TestGate =>
      if kind in {AssertionFailed, AssertionPassed, InvalidTest, SkippedTest, MissingTest, ToolingFailure}
      then Some(Reviewed) else None
  }

  /** One delivered observation together with the Attempt and policy it was made under. */
  datatype Event = Event(attempt: Attempt, autoApprove: bool, observation: Observation)

  datatype Facts = Facts(plan: Plan, leaf: Leaf, active: nat, event: Event, candidate: Option<Bundle>) {
    predicate Bound() {
      active < |plan|
    }

    function Item(): WorkItem
      requires Bound()
    {
      plan[active]
    }
  }

  function IsCandidate(o: Observation): bool {
    o.CandidateObservation? || o.StructuralObservation?
  }

  function ObservationTypeMatches(leaf: Leaf, o: Observation): bool {
    if leaf == TestGate then o.GateObservation?
    else if leaf == TestReview then o.StepObservation?
    else !o.GateObservation?
  }

  function CandidateMatches(leaf: Leaf, attempt: Attempt, item: WorkItem, c: Bundle): bool {
    && c.sourceAttempt == attempt
    && if leaf == TestGenerate then item.status == InProgress && c.revision == 1
       else item.status == Reviewed && item.bundle.Some?
            && c.revision == item.bundle.value.revision + 1
            && c.predecessor == Some(item.bundle.value.revision)
  }

  function BoundToCurrentBundle(leaf: Leaf, item: WorkItem, o: Observation): bool {
    if IsCandidate(o) then true
    else
      && o.bundleRevision == (if item.bundle.Some? then Some(item.bundle.value.revision) else None)
      && (leaf != TestGenerate ==>
            item.bundle.Some? && o.digest == Some(item.bundle.value.digest)
            && o.sourceAttempt == Some(item.bundle.value.sourceAttempt))
  }

  function Admit(plan: Plan, leaf: Leaf, e: Event): Result<Facts> {
    var o := e.observation;
    if !o.Constructible() then Failure("invalid observation")
    else
      var found :- ActiveWorkItem(plan);
      if found.None? then Failure("no active work item")
      else
        var item := plan[found.value];
        if !ObservationTypeMatches(leaf, o) then Failure("observation type does not match its leaf")
        else if o.Id() != item.requirementId then Failure("stale Requirement identity")
        else if IsCandidate(o) && !CandidateMatches(leaf, e.attempt, item, o.candidate) then Failure("stale candidate")
        else if Permitted(leaf, o.ObservedKind()) != Some(item.status) then Failure("leaf, observation and status do not match")
        else if !BoundToCurrentBundle(leaf, item, o) then Failure("not bound to the current bundle")
        else Success(Facts(plan, leaf, found.value, e, if IsCandidate(o) then Some(o.candidate) else item.bundle))
  }

  // ---------------------------------------------------------------- decisions

  datatype Disposition = Advance | SemanticRetry | ToolingRetry | Promote | Defer | External

  datatype Decision = Decision(
    disposition: Disposition, target: Target, nextStatus: Status, requirementId: string,
    budgetIncrement: Option<BudgetKind>, nextRequirementId: Option<string>, repairRequired: Option<bool>,
    acceptanceHandoff: bool, candidate: Option<Bundle>, semanticFinding: Option<Finding>)
  {
    /** What the constructor of a decision accepts. */
    predicate Constructible() {
      && nextStatus != Pending
      && ((budgetIncrement.Some? && budgetIncrement.value != Tooling) <==> semanticFinding.Some?)
      && repairRequired == RepairMode()
      && (acceptanceHandoff <==> disposition == Defer)
      && (candidate.Some? ==> CarriesCandidate())
      && (target == ToLeaf(TestGenerate) && disposition == Advance && nextStatus == CandidateSaved ==> candidate.Some?)
    }

    function RepairMode(): Option<bool> {
      if target == ToLeaf(TestRepair) then Some(true)
      else if target == ToLeaf(TestGate) && disposition == Advance && nextStatus == Reviewed then Some(false)
      else None
    }

    predicate CarriesCandidate() {
      || (disposition == Advance && nextStatus == CandidateSaved)
      || (disposition == SemanticRetry && target == ToLeaf(TestRepair))
      || disposition == Defer
    }

    /** A staged candidate moves the frontier without ending the generator's Attempt. */
    predicate ContinuesSourceAttempt() {
      && disposition == Advance
      && target == ToLeaf(TestGenerate)
      && nextStatus == CandidateSaved
      && nextRequirementId.Some?
      && candidate.Some?
    }
  }

  /** Heads of the staged and pending work other than the active Requirement, in plan order. */
  datatype Frontier = Frontier(staged: seq<string>, pending: seq<string>)

  function IdsWith(plan: Plan, excluded: string, statuses: set<Status>): seq<string> {
    if plan == [] then []
    else
      (if plan[0].requirementId != excluded && plan[0].status in statuses then [plan[0].requirementId] else [])
      + IdsWith(plan[1..], excluded, statuses)
  }

  function FrontierOf(plan: Plan, activeId: string): Frontier {
    Frontier(IdsWith(plan, activeId, {CandidateSaved, Reviewed}), IdsWith(plan, activeId, {Pending}))
  }

  /** The operands of the policy; `facts` is absent when they were read back from a saved Result. */
  datatype Selection = Selection(
    facts: Option<Facts>, leaf: Leaf, kind: Kind, requirementId: string, status: Status, budget: Budget,
    autoApprove: bool, findings: seq<Finding>, candidate: Option<Bundle>, semanticFinding: Option<Finding>,
    frontier: Frontier, expectation: Option<Expectation>)

  function Seal(d: Decision): Result<Decision> {
    if d.Constructible() then Success(d) else Failure("decision fields do not match")
  }

  function Head(ids: seq<string>): Option<string> {
    if ids == [] then None else Some(ids[0])
  }

  /** Where a settled Requirement leaves the work list: staged first, then pending, else done. */
  function TerminalDecision(s: Selection, disposition: Disposition, candidate: Option<Bundle>): Result<Decision>
    requires s.facts.Some? ==> s.facts.value.Bound()
  {
    var nextStatus := if disposition == Promote then Promoted else Deferred;
    if s.facts.None? then
      Seal(Terminal(s, disposition, nextStatus, candidate, s.frontier.staged != [], Head(s.frontier.pending)))
    else
      var f := s.facts.value;
      var item := f.Item().(status := nextStatus, bundle := if candidate.Some? then candidate else f.Item().bundle);
      var after :- WithWorkItem(f.plan, item);
      var staged :- ActiveWorkItem(after);
      var pending := match NextPending(after) case None => None case Some(k) => Some(after[k].requirementId);
      Seal(Terminal(s, disposition, nextStatus, candidate, staged.Some?, pending))
  }

  function Terminal(s: Selection, disposition: Disposition, nextStatus: Status, candidate: Option<Bundle>,
                    staged: bool, pending: Option<string>): Decision {
    Decision(disposition,
             if staged then ToLeaf(TestReview) else if pending.Some? then ToLeaf(TestGenerate) else Implement,
             nextStatus, s.requirementId, None, if staged then None else pending, None,
             disposition == Defer, candidate, None)
  }

  /** The sole policy for live facts and for saved-Result selection. */
  function Resolve(s: Selection): Result<Decision>
    requires s.facts.Some? ==> s.facts.value.Bound()
  {
    var repair := if s.leaf == TestRepair then Some(true) else None;
    var base := Decision(Advance, ToLeaf(s.leaf), s.status, s.requirementId, None, None, None, false, None, None);
    match s.kind
    case ExternalBlocked => Seal(base.(disposition := External, repairRequired := repair))
    case CandidateSavedKind =>
      var next := if s.leaf == TestGenerate then Head(s.frontier.pending) else None;
      Seal(base.(target := if next.None? then ToLeaf(TestReview) else ToLeaf(TestGenerate),
                 nextStatus := CandidateSaved, nextRequirementId := next, candidate := s.candidate))
    case ReviewPass => Seal(base.(target := ToLeaf(TestGate), nextStatus := Reviewed, repairRequired := Some(false)))
    case ReviewAdvisory => Seal(base.(target := ToLeaf(TestGate), nextStatus := Reviewed, repairRequired := Some(false)))
    case ToolingFailure =>
      if s.budget.tooling < TOOLING_LIMIT then
        Seal(base.(disposition := ToolingRetry, budgetIncrement := Some(Tooling), repairRequired := repair))
      else TerminalDecision(s, Defer, None)
    case StructuralRejection => ResolveRejection(s)
    case SemanticRejection => if s.semanticFinding.None? then Failure("semantic selection requires its finding") else ResolveRejection(s)
    case _ =>
      if s.leaf != TestGate then Failure("no selection")
      else
        var expected := if s.expectation == Some(ExpectFail) then AssertionFailed else AssertionPassed;
        if s.kind == expected then TerminalDecision(s, Promote, None)
        else Seal(base.(target := ToLeaf(TestReview), nextStatus := CandidateSaved))
  }

  function ResolveRejection(s: Selection): Result<Decision>
    requires s.facts.Some? ==> s.facts.value.Bound()
  {
    var duplicate := s.semanticFinding.Some? && s.semanticFinding.value in s.findings;
    var kind := if s.autoApprove then AutoSemantic else ManualSemantic;
    var retained := if s.kind == StructuralRejection then s.candidate else None;
    if duplicate || s.budget.Used(kind) < SEMANTIC_LIMIT then
      Seal(Decision(SemanticRetry, ToLeaf(TestRepair), Reviewed, s.requirementId,
                    if duplicate then None else Some(kind), None, Some(true), false, retained,
                    if duplicate then None else s.semanticFinding))
    else TerminalDecision(s, Defer, retained)
  }

  /** The selection made from live facts. */
  function LiveSelection(f: Facts): Selection
    requires f.Bound()
  {
    var item := f.Item();
    Selection(Some(f), f.leaf, f.event.observation.ObservedKind(), item.requirementId, item.status, item.budget,
              f.event.autoApprove, item.findings, f.candidate, ObservedFinding(f),
              FrontierOf(f.plan, item.requirementId), Some(item.expectation))
  }

  function ObservedFinding(f: Facts): Option<Finding>
    requires f.Bound()
  {
    match f.event.observation.FindingFingerprint()
    case None => None
    case Some(fp) =>
      var revision := if f.candidate.Some? then f.candidate.value.revision else 0;
      Some(Finding(f.Item().requirementId, revision, fp))
  }

  /** The operands a Step saves in its Result: they never contain the plan itself. */
  datatype SavedResult = SavedResult(
    leaf: Leaf, kind: Kind, requirementId: string, status: Status, budget: Budget, autoApprove: bool,
    findings: seq<Finding>, candidate: Option<Bundle>, semanticFinding: Option<Finding>,
    frontier: Frontier, expectation: Option<Expectation>)

  function Save(f: Facts): SavedResult
    requires f.Bound()
  {
    var item := f.Item();
    var o := f.event.observation;
    SavedResult(f.leaf, o.ObservedKind(), item.requirementId, item.status, item.budget, f.event.autoApprove,
                item.findings, if IsCandidate(o) then Some(o.candidate) else None, ObservedFinding(f),
                FrontierOf(f.plan, item.requirementId), if f.leaf == TestGate then Some(item.expectation) else None)
  }

  function SavedSelection(r: SavedResult): Selection {
    Selection(None, r.leaf, r.kind, r.requirementId, r.status, r.budget, r.autoApprove, r.findings,
              r.candidate, r.semanticFinding, r.frontier, r.expectation)
  }

  /** How a saved Result settles: the same Attempt goes on, or a route leaves the leaf. */
  datatype Settlement = SameAttempt(decision: Decision) | Route(decision: Decision)

  function Settle(r: SavedResult): Result<Settlement> {
    var decision :- Resolve(SavedSelection(r));
    if r.leaf == TestGenerate && r.kind == CandidateSavedKind && r.frontier.pending != [] then
      if decision.ContinuesSourceAttempt() then Success(SameAttempt(decision))
      else Failure("execution checkpoint requires its generator continuation")
    else Success(Route(decision))
  }

  // ---------------------------------------------------------------- applying a decision

  function Apply(d: Decision, plan: Plan, leaf: Leaf): Result<Plan> {
    var active :- ActiveWorkItem(plan);
    var found := IndexOf(plan, d.requirementId);
    if found.None? || active.None? || plan[active.value].requirementId != d.requirementId then
      Failure("decision does not match the active work item")
    else
      var current := plan[found.value];
      if d.disposition == External then
        if d.target == ToLeaf(leaf) && d.nextStatus == current.status && d.budgetIncrement.None?
           && d.semanticFinding.None? && d.nextRequirementId.None? && d.candidate.None?
        then Success(plan)
        else Failure("external block must preserve its active work item")
      else if d.semanticFinding.Some? && d.semanticFinding.value in current.findings then
        Failure("cannot consume an already counted semantic finding")
      else
        var item := current.(
          status := d.nextStatus,
          bundle := if d.candidate.Some? then d.candidate else current.bundle,
          budget := if d.budgetIncrement.Some? then current.budget.Increment(d.budgetIncrement.value) else current.budget,
          findings := if d.semanticFinding.Some? then current.findings + [d.semanticFinding.value] else current.findings);
        var next :- WithWorkItem(plan, item);
        if d.nextRequirementId.None? then Success(next)
        else
          match IndexOf(next, d.nextRequirementId.value)
          case None => Failure("next Requirement is not pending")
          case Some(p) =>
            if next[p].status != Pending then Failure("next Requirement is not pending")
            else WithWorkItem(next, next[p].(status := InProgress))
  }

  // ---------------------------------------------------------------- runs

  datatype State = State(plan: Plan, target: Target)

  datatype Requirement = Requirement(id: string, expectation: Expectation)

  function Initialize(requirements: seq<Requirement>): State {
    var plan := seq(|requirements|, i requires 0 <= i < |requirements| =>
      WorkItem(requirements[i].id, requirements[i].expectation, if i == 0 then InProgress else Pending, None, INITIAL_BUDGET, []));
    State(plan, if requirements == [] then Implement else ToLeaf(TestGenerate))
  }

  /** The decision for an observation delivered to the active leaf, or the error that refuses it. */
  function Decide(s: State, e: Event): Result<Decision> {
    if s.target == Implement then Failure("the test lifecycle is over")
    else
      var facts :- Admit(s.plan, s.target.leaf, e);
      Resolve(LiveSelection(facts))
  }

  function Step(s: State, e: Event): Result<State> {
    var decision :- Decide(s, e);
    var plan :- Apply(decision, s.plan, s.target.leaf);
    Success(State(plan, decision.target))
  }

  ghost predicate IsRun(states: seq<State>, events: seq<Event>, requirements: seq<Requirement>) {
    && |states| == |events| + 1
    && (forall i, j | 0 <= i < j < |requirements| :: requirements[i].id != requirements[j].id)
    && states[0] == Initialize(requirements)
    && forall i | 0 <= i < |events| :: Step(states[i], events[i]) == Success(states[i + 1])
  }
}
