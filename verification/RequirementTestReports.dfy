/**
 What a leaf of the Requirement-test lifecycle may report: written out from the current bundle and
 Attempt of the Requirement it works on, these reports and no others make a step.
*/
module RequirementTestReports {
  import opened Wrappers
  import opened RequirementTests
  import opened RequirementTestProofs
  import opened RequirementTestTheorems

  // ---------------------------------------------------------------- the reports

  /** A first bundle of this Requirement, or the one that succeeds `previous`, made in this Attempt. */
  function NewBundle(w: WorkItem, attempt: Attempt, digest: string): Bundle {
    match w.bundle
    case None => Bundle(w.requirementId, 1, None, attempt, digest)
    case Some(previous) => Bundle(w.requirementId, previous.revision + 1, Some(previous.revision), attempt, digest)
  }

  predicate IsNewBundle(w: WorkItem, attempt: Attempt, b: Bundle) {
    b == NewBundle(w, attempt, b.digest)
  }

  /** A new candidate, or one that its author's structural check rejects. */
  predicate ReportsCandidate(w: WorkItem, attempt: Attempt, o: Observation) {
    match o
    case CandidateObservation(b) => IsNewBundle(w, attempt, b)
    case StructuralObservation(b, _) => IsNewBundle(w, attempt, b)
    case _ => false
  }

  /** A failure to work at all, on a Requirement that has no bundle yet. */
  predicate ReportsTroubleWithoutBundle(w: WorkItem, o: Observation) {
    && o.StepObservation? && o.requirementId == w.requirementId && o.bundleRevision == None
    && (o.digest == None <==> o.sourceAttempt == None)
    && o.kind in {ToolingFailure, ExternalBlocked} && o.semanticFingerprint == None
  }

  /** A step report on the current bundle of the Requirement, named by revision, digest and source Attempt. */
  predicate OnCurrentBundle(w: WorkItem, o: Observation) {
    && o.StepObservation? && w.bundle.Some?
    && o == StepObservation(w.requirementId, Some(w.bundle.value.revision), Some(w.bundle.value.digest),
                            Some(w.bundle.value.sourceAttempt), o.kind, o.semanticFingerprint)
  }

  predicate ReportsTrouble(w: WorkItem, o: Observation) {
    OnCurrentBundle(w, o) && o.kind in {ToolingFailure, ExternalBlocked} && o.semanticFingerprint == None
  }

  predicate ReportsReview(w: WorkItem, o: Observation) {
    && OnCurrentBundle(w, o)
    && (o.kind in {ReviewPass, ReviewAdvisory} ==> o.semanticFingerprint == None)
    && (o.kind !in {ReviewPass, ReviewAdvisory} ==> o.kind == SemanticRejection && o.semanticFingerprint.Some?)
  }

  predicate ReportsGate(w: WorkItem, o: Observation) {
    && o.GateObservation? && w.bundle.Some?
    && o == GateObservation(w.requirementId, Some(w.bundle.value.revision), Some(w.bundle.value.digest),
                            Some(w.bundle.value.sourceAttempt), o.kind)
    && o.kind in {AssertionFailed, AssertionPassed, InvalidTest, SkippedTest, MissingTest, ToolingFailure}
  }

  /** All a leaf can report about the Requirement it works on. */
  predicate Reports(leaf: Leaf, w: WorkItem, attempt: Attempt, o: Observation) {
    match leaf
    case TestGenerate => ReportsCandidate(w, attempt, o) || ReportsTroubleWithoutBundle(w, o)
    case TestReview => ReportsReview(w, o) || ReportsTrouble(w, o)
    case TestRepair => ReportsCandidate(w, attempt, o) || ReportsTrouble(w, o)
    case TestGate => ReportsGate(w, o)
  }

  // ---------------------------------------------------------------- bundles are well formed in every run

  ghost predicate BundlesFormed(plan: Plan) {
    forall i | 0 <= i < |plan| && plan[i].bundle.Some? :: BundleConstructible(plan[i].bundle.value)
  }

  lemma ItemFormed(f: Facts)
    requires Fits(f) && (f.event.observation.ObservedKind() in {StructuralRejection, SemanticRejection} ==> ObservedFinding(f).Some?)
    requires f.Item().bundle.Some? ==> BundleConstructible(f.Item().bundle.value)
    ensures Table(f).item.bundle.Some? ==> BundleConstructible(Table(f).item.bundle.value)
  {
  }

  lemma FormedStep(s: State, e: Event, t: State)
    requires StepsTo(s, e, t) && BundlesFormed(s.plan)
    ensures BundlesFormed(t.plan)
  {
    var f, c :| Stepped(s, e, t, f, c);
    ItemFormed(f);
    forall i | 0 <= i < |t.plan| && t.plan[i].bundle.Some? ensures BundleConstructible(t.plan[i].bundle.value) {
      if i != f.active { assert t.plan[i].bundle == s.plan[i].bundle; } else { assert t.plan[i] == c.item; }
    }
  }

  lemma {:induction false} FormedAlong(states: seq<State>, events: seq<Event>, n: nat)
    requires IsChain(states, events) && n <= |events| && BundlesFormed(states[0].plan)
    ensures BundlesFormed(states[n].plan)
  {
    hide StepsTo, BundlesFormed;
    if n > 0 {
      FormedAlong(states, events, n - 1);
      ChainStep(states, events, n - 1);
      FormedStep(states[n - 1], events[n - 1], states[n]);
    }
  }

  lemma BundlesAreFormed(states: seq<State>, events: seq<Event>, requirements: seq<Requirement>, n: nat)
    requires IsRun(states, events, requirements) && n < |states|
    ensures BundlesFormed(states[n].plan)
  {
    RunIsChain(states, events, requirements);
    InitialIsFresh(requirements);
    FormedAlong(states, events, n);
  }

  // ---------------------------------------------------------------- admission is exactly that

  /** The item a leaf works on, with the status and bundle that go with the leaf. */
  predicate WorkedOn(leaf: Leaf, w: WorkItem) {
    match leaf
    case TestGenerate => w.status == InProgress && w.bundle.None?
    case TestReview => w.status == CandidateSaved && w.bundle.Some? && BundleConstructible(w.bundle.value)
    case TestRepair => w.status == Reviewed && w.bundle.Some? && BundleConstructible(w.bundle.value)
    case TestGate => w.status == Reviewed && w.bundle.Some? && BundleConstructible(w.bundle.value)
  }

  /** The checks of admission, for the item that is active. */
  predicate Passes(leaf: Leaf, w: WorkItem, e: Event) {
    var o := e.observation;
    && o.Constructible() && ObservationTypeMatches(leaf, o) && o.Id() == w.requirementId
    && (IsCandidate(o) ==> CandidateMatches(leaf, e.attempt, w, o.candidate))
    && Permitted(leaf, o.ObservedKind()) == Some(w.status) && BoundToCurrentBundle(leaf, w, o)
  }

  lemma PassesIffReports(leaf: Leaf, w: WorkItem, e: Event)
    requires WorkedOn(leaf, w) && w.Constructible()
    ensures Passes(leaf, w, e) <==> Reports(leaf, w, e.attempt, e.observation)
  {
    match leaf
    case TestGenerate => GeneratePasses(w, e);
    case TestReview => ReviewPasses(w, e);
    case TestRepair => RepairPasses(w, e);
    case TestGate => GatePasses(w, e);
  }

  lemma GeneratePasses(w: WorkItem, e: Event)
    requires WorkedOn(TestGenerate, w)
    ensures Passes(TestGenerate, w, e) <==> Reports(TestGenerate, w, e.attempt, e.observation)
  {
  }

  lemma ReviewPasses(w: WorkItem, e: Event)
    requires WorkedOn(TestReview, w)
    ensures Passes(TestReview, w, e) <==> Reports(TestReview, w, e.attempt, e.observation)
  {
  }

  lemma RepairPasses(w: WorkItem, e: Event)
    requires WorkedOn(TestRepair, w) && w.Constructible()
    ensures Passes(TestRepair, w, e) <==> Reports(TestRepair, w, e.attempt, e.observation)
  {
  }

  lemma GatePasses(w: WorkItem, e: Event)
    requires WorkedOn(TestGate, w)
    ensures Passes(TestGate, w, e) <==> Reports(TestGate, w, e.attempt, e.observation)
  {
  }

  lemma AdmitsIffPasses(plan: Plan, leaf: Leaf, k: nat, e: Event)
    requires IsFocus(plan, leaf, k)
    ensures Admit(plan, leaf, e).Success? <==> Passes(leaf, plan[k], e)
  {
    FocusIsActive(plan, leaf, k);
  }

  lemma FocusIsWorkedOn(plan: Plan, leaf: Leaf, k: nat)
    requires IsFocus(plan, leaf, k) && plan[k].Constructible() && BundlesFormed(plan)
    ensures WorkedOn(leaf, plan[k])
  {
  }

  /**
   In every reachable state exactly what the active leaf can report about its Requirement makes a step:
   nothing of it is refused, and another kind, revision, digest or source Attempt always is.
  */
  lemma ReportsMakeSteps(states: seq<State>, events: seq<Event>, requirements: seq<Requirement>, n: nat, e: Event) returns (k: nat)
    requires IsRun(states, events, requirements) && n < |states| && states[n].target.ToLeaf?
    ensures ActiveWorkItem(states[n].plan) == Success(Some(k)) && k < |states[n].plan|
    ensures Step(states[n], e).Success? <==> Reports(states[n].target.leaf, states[n].plan[k], e.attempt, e.observation)
  {
    hide Step, Reports, WorkedOn, Passes, ActiveWorkItem, BundlesFormed;
    var s := states[n];
    k := OneRequirementIsActive(states, events, requirements, n);
    ReachableInv(states, events, requirements, n);
    BundlesAreFormed(states, events, requirements, n);
    assert k < |s.plan|;
    assert ItemInv(s.plan[k], s.target == ToLeaf(TestRepair));
    FocusIsWorkedOn(s.plan, s.target.leaf, k);
    PassesIffReports(s.target.leaf, s.plan[k], e);
    AdmitsIffPasses(s.plan, s.target.leaf, k, e);
    AdmittedIsNeverRefused(states, events, requirements, n, e);
  }
}
