/**
 Settling the published result of a Task Gate. Every durable effect is a mutation of its own; after each
 one the facts are read again and the next effect is selected from what is missing. The evaluated facts
 are those of one Attempt and stay fixed; only the recorded effects grow.
*/
module GateSettlement {
  import opened Wrappers

  datatype GateResult = Pass | Fail | Recovered
  datatype Category = Semantic | Local | Tooling
  datatype Disposition = PassGate | Recovery | Repair | Retry | Defer | Blocked | ExternalBlocked | Nonblocking
  datatype MetricOperation = Increment | Reset
  datatype StepUpdate = InProgressUpdate | DoneUpdate

  /**
   What the classification of a Task Gate reads. `category` counts only for a failed result;
   `classificationConflict` says that a tooling failure was recorded although the result says otherwise.
  */
  datatype Facts = Facts(result: GateResult, category: Category, integrityFailure: bool, repairEvidence: bool, finalRound: bool,
                         allRecurring: bool, sameEvidence: bool, retryExhausted: bool, nonblocking: bool, classificationConflict: bool) {
    /** A correction can be due only for a failed result. */
    predicate Valid() {
      classificationConflict ==> result == Fail
    }
  }

  datatype Decision = Decision(disposition: Disposition, metric: Option<MetricOperation>, updates: seq<StepUpdate>)

  function Stop(disposition: Disposition): Decision {
    Decision(disposition, None, [InProgressUpdate])
  }

  /** A strict stop, or the nonblocking handoff where that is enabled. */
  function OrNonblocking(f: Facts, disposition: Disposition): Decision {
    Stop(if f.nonblocking then Nonblocking else disposition)
  }

  /** The Gate policy for Task scope. */
  function Classify(f: Facts): Decision {
    if f.integrityFailure then Stop(Blocked)
    else if f.result == Pass then Decision(PassGate, Some(Reset), [DoneUpdate])
    else if f.result == Recovered then Decision(Recovery, None, [])
    else if f.category == Tooling then OrNonblocking(f, ExternalBlocked)
    else if f.category == Local then OrNonblocking(f, Blocked)
    else if f.repairEvidence && !f.finalRound then Stop(Repair)
    else if f.finalRound && f.repairEvidence then OrNonblocking(f, Defer)
    else if f.finalRound && f.allRecurring then OrNonblocking(f, Defer)
    else if f.sameEvidence then OrNonblocking(f, Blocked)
    else if !f.retryExhausted then Decision(Retry, Some(Increment), [InProgressUpdate])
    else if !f.finalRound then Stop(Blocked)
    else OrNonblocking(f, Defer)
  }

  // ---------------------------------------------------------------- what a result may select

  /** Intact facts of a failed evaluation whose failure lies in the work itself. */
  predicate SemanticFailure(f: Facts) {
    f.result == Fail && f.category == Semantic && !f.integrityFailure
  }

  /** What stands against trying the same work again: a repair is due, or the same evidence would come back. */
  predicate RepeatIsPointless(f: Facts) {
    f.repairEvidence || f.sameEvidence || (f.finalRound && f.allRecurring)
  }

  /** The last round ends: its repair was used up, or its observations keep coming back, or its retries are used up. */
  predicate FinalRoundEnds(f: Facts) {
    f.finalRound && (f.repairEvidence || f.allRecurring || (!f.sameEvidence && f.retryExhausted))
  }

  /** The same evidence came back after a repair that did not change it, and nothing else settles the failure. */
  predicate NoProgress(f: Facts) {
    f.sameEvidence && !(f.repairEvidence && !f.finalRound) && !FinalRoundEnds(f)
  }

  /** A failure that is not the work's own may be handed off; so may one the last round ends or that makes no progress. */
  predicate MayHandOff(f: Facts) {
    && f.result == Fail && !f.integrityFailure
    && (f.category != Semantic || FinalRoundEnds(f) || NoProgress(f))
  }

  /** By result and evidence, exactly when each disposition is selected. */
  lemma DispositionByEvidence(f: Facts)
    ensures var d := Classify(f).disposition;
            && (d == PassGate <==> f.result == Pass && !f.integrityFailure)
            && (d == Recovery <==> f.result == Recovered && !f.integrityFailure)
            && (d == Repair <==> SemanticFailure(f) && f.repairEvidence && !f.finalRound)
            && (d == Retry <==> SemanticFailure(f) && !RepeatIsPointless(f) && !f.retryExhausted)
            && (d == Defer <==> SemanticFailure(f) && FinalRoundEnds(f) && !f.nonblocking)
            && (d == ExternalBlocked <==> f.result == Fail && !f.integrityFailure && f.category == Tooling && !f.nonblocking)
            && (d == Nonblocking <==> MayHandOff(f) && f.nonblocking)
            && (d == Blocked <==>
                  || f.integrityFailure
                  || (MayHandOff(f) && !f.nonblocking && (f.category == Local || (f.category == Semantic && NoProgress(f))))
                  || (SemanticFailure(f) && !RepeatIsPointless(f) && f.retryExhausted && !f.finalRound))
  {
  }

  /** Only a pass resets the retries and finishes the step, only a retry is counted, and only a recovery leaves the step alone. */
  lemma EffectsByDisposition(f: Facts)
    ensures var d := Classify(f);
            && (d.metric == Some(Reset) <==> d.disposition == PassGate)
            && (d.metric == Some(Increment) <==> d.disposition == Retry)
            && (d.updates == [DoneUpdate] <==> d.disposition == PassGate)
            && (d.updates == [] <==> d.disposition == Recovery)
            && (d.updates == [InProgressUpdate] <==> d.disposition !in {PassGate, Recovery})
  {
  }

  // ---------------------------------------------------------------- durable effects

  datatype Effect = CorrectClassification | RecordClassification | RecordMetric(operation: MetricOperation) | AppendIssueLog | FinishStep

  type Ledger = seq<Effect>

  /** Progress as it is read back from the recorded effects. */
  datatype Progress = Progress(classificationRecorded: bool, correctionRequired: bool, metricOperations: set<MetricOperation>, issueLogRecorded: bool)

  function ProgressOf(f: Facts, ledger: Ledger): Progress {
    Progress(f.result != Fail || RecordClassification in ledger,
             f.classificationConflict && CorrectClassification !in ledger,
             (set op: MetricOperation | RecordMetric(op) in ledger),
             AppendIssueLog in ledger)
  }

  predicate HasMetric(p: Progress, metric: Option<MetricOperation>) {
    metric.Some? && metric.value in p.metricOperations
  }

  /** Facts are read only while the Gate is the current, unfinished step of its Attempt. */
  predicate Current(ledger: Ledger) {
    FinishStep !in ledger
  }

  /** The effect one iteration of the coordinator selects; `None` ends it. */
  function NextEffect(f: Facts, ledger: Ledger): Option<Effect> {
    if !Current(ledger) then None
    else
      var p, d := ProgressOf(f, ledger), Classify(f);
      if p.correctionRequired then Some(CorrectClassification)
      else if f.result == Fail && !p.classificationRecorded then Some(RecordClassification)
      else if d.metric.Some? && !HasMetric(p, d.metric) then Some(RecordMetric(d.metric.value))
      else if f.result != Recovered && !p.issueLogRecorded then Some(AppendIssueLog)
      else if d.updates != [] && d.updates[0] == DoneUpdate then Some(FinishStep)
      else None
  }

  /** The store's own check of an effect before it is recorded. */
  predicate Admits(f: Facts, ledger: Ledger, e: Effect) {
    var p, d := ProgressOf(f, ledger), Classify(f);
    var classified := f.result != Fail || p.classificationRecorded;
    var measured := d.metric.None? || HasMetric(p, d.metric);
    match e
    case CorrectClassification => p.correctionRequired && (f.result == Fail ==> !p.classificationRecorded) && p.metricOperations == {} && !p.issueLogRecorded
    case RecordClassification => !p.correctionRequired && f.result == Fail && !p.classificationRecorded && p.metricOperations == {} && !p.issueLogRecorded
    case RecordMetric(op) => classified && d.metric == Some(op) && !HasMetric(p, d.metric) && p.metricOperations == {} && !p.issueLogRecorded
    case AppendIssueLog => classified && measured && !p.issueLogRecorded
    case FinishStep => classified && measured && p.issueLogRecorded && Current(ledger) && DoneUpdate in d.updates
  }

  /** All effects a result requires, in order. */
  function Required(f: Facts): Ledger {
    var d := Classify(f);
    (if f.classificationConflict then [CorrectClassification] else [])
    + (if f.result == Fail then [RecordClassification] else [])
    + (if d.metric.Some? then [RecordMetric(d.metric.value)] else [])
    + (if f.result != Recovered then [AppendIssueLog] else [])
    + (if d.updates == [DoneUpdate] then [FinishStep] else [])
  }

  predicate Distinct(ledger: Ledger) {
    forall i, j | 0 <= i < j < |ledger| :: ledger[i] != ledger[j]
  }

  lemma RequiredIsDistinct(f: Facts)
    ensures Distinct(Required(f))
  {
  }

  lemma InPrefix(s: Ledger, k: nat)
    requires Distinct(s) && k <= |s|
    ensures forall i | 0 <= i < |s| :: s[i] in s[..k] <==> i < k
    ensures forall e | e !in s :: e !in s[..k]
  {
  }

  /** The required effects, written out by result. */
  lemma RequiredByResult(f: Facts)
    requires f.Valid()
    ensures f.result == Pass ==>
              Required(f) == if f.integrityFailure then [AppendIssueLog] else [RecordMetric(Reset), AppendIssueLog, FinishStep]
    ensures f.result == Recovered ==> Required(f) == []
    ensures f.result == Fail ==>
              && Classify(f).metric in {None, Some(Increment)} && Classify(f).updates == [InProgressUpdate]
              && Required(f) == (if f.classificationConflict then [CorrectClassification] else [])
                 + (if Classify(f).metric.Some? then [RecordClassification, RecordMetric(Increment), AppendIssueLog]
                    else [RecordClassification, AppendIssueLog])
  {
  }

  /** With the first effects recorded, exactly the next required one is selected, and the store admits it. */
  lemma NextIsRequired(f: Facts, k: nat)
    requires f.Valid() && k <= |Required(f)|
    ensures NextEffect(f, Required(f)[..k]) == if k < |Required(f)| then Some(Required(f)[k]) else None
    ensures k < |Required(f)| ==> Admits(f, Required(f)[..k], Required(f)[k])
  {
    RequiredIsDistinct(f);
    RequiredByResult(f);
    InPrefix(Required(f), k);
    var r, p := Required(f), ProgressOf(f, Required(f)[..k]);
    assert Reset in p.metricOperations <==> RecordMetric(Reset) in r[..k];
    assert Increment in p.metricOperations <==> RecordMetric(Increment) in r[..k];
    if f.result == Fail {
      FailIsOrdered(f, k);
    } else if f.result == Pass && !f.integrityFailure {
      assert r[0] == RecordMetric(Reset) && r[1] == AppendIssueLog && r[2] == FinishStep && |r| == 3;
    } else if f.result == Pass {
      assert r[0] == AppendIssueLog && |r| == 1 && FinishStep !in r;
    } else {
      assert FinishStep !in r;
    }
  }

  /** What is recorded of a failure after the first `k` required effects. */
  lemma FailureProgress(f: Facts, k: nat)
    requires f.Valid() && k <= |Required(f)| && f.result == Fail
    ensures var r, p, c := Required(f), ProgressOf(f, Required(f)[..k]), if f.classificationConflict then 1 else 0;
            && |r| == c + (if Classify(f).metric.Some? then 3 else 2)
            && (c == 1 ==> r[0] == CorrectClassification) && r[c] == RecordClassification && r[|r| - 1] == AppendIssueLog
            && (Classify(f).metric.Some? ==> Classify(f).metric == Some(Increment) && r[c + 1] == RecordMetric(Increment))
            && (p.correctionRequired <==> c == 1 && k == 0) && (p.classificationRecorded <==> k > c)
            && p.metricOperations == (if Classify(f).metric.Some? && k > c + 1 then {Increment} else {})
            && (p.issueLogRecorded <==> k == |r|) && Current(r[..k]) && Classify(f).updates == [InProgressUpdate]
  {
    RequiredIsDistinct(f);
    RequiredByResult(f);
    InPrefix(Required(f), k);
    var r, p, c := Required(f), ProgressOf(f, Required(f)[..k]), if f.classificationConflict then 1 else 0;
    assert r[c] == RecordClassification && r[|r| - 1] == AppendIssueLog && FinishStep !in r;
    assert Reset in p.metricOperations <==> RecordMetric(Reset) in r[..k];
    assert Increment in p.metricOperations <==> RecordMetric(Increment) in r[..k];
    if f.classificationConflict { assert r[0] == CorrectClassification; } else { assert CorrectClassification !in r; }
    if Classify(f).metric.Some? { assert r[c + 1] == RecordMetric(Increment); } else { assert RecordMetric(Increment) !in r; }
  }

  lemma FailIsOrdered(f: Facts, k: nat)
    requires f.Valid() && k <= |Required(f)| && f.result == Fail
    ensures NextEffect(f, Required(f)[..k]) == if k < |Required(f)| then Some(Required(f)[k]) else None
    ensures k < |Required(f)| ==> Admits(f, Required(f)[..k], Required(f)[k])
  {
    hide Required, ProgressOf, Classify;
    FailureProgress(f, k);
  }

  /**
   The store admits the next required effect and no other. Only of a recovered result, which requires
   none, it would admit an issue log.
  */
  lemma OnlyTheNextIsAdmitted(f: Facts, k: nat, e: Effect)
    requires f.Valid() && k <= |Required(f)|
    ensures Admits(f, Required(f)[..k], e) <==>
            || (k < |Required(f)| && e == Required(f)[k])
            || (f.result == Recovered && e == AppendIssueLog)
  {
    if f.result == Fail { OnlyTheNextOfAFailure(f, k, e); } else { OnlyTheNextOtherwise(f, k, e); }
  }

  lemma OnlyTheNextOtherwise(f: Facts, k: nat, e: Effect)
    requires f.Valid() && k <= |Required(f)| && f.result != Fail
    ensures Admits(f, Required(f)[..k], e) <==>
            || (k < |Required(f)| && e == Required(f)[k])
            || (f.result == Recovered && e == AppendIssueLog)
  {
    RequiredIsDistinct(f);
    RequiredByResult(f);
    InPrefix(Required(f), k);
    var r, p := Required(f), ProgressOf(f, Required(f)[..k]);
    assert Reset in p.metricOperations <==> RecordMetric(Reset) in r[..k];
    assert Increment in p.metricOperations <==> RecordMetric(Increment) in r[..k];
    if f.result == Pass && !f.integrityFailure {
      assert r[0] == RecordMetric(Reset) && r[1] == AppendIssueLog && r[2] == FinishStep && |r| == 3;
    } else if f.result == Pass {
      assert r[0] == AppendIssueLog && |r| == 1;
    }
  }

  lemma OnlyTheNextOfAFailure(f: Facts, k: nat, e: Effect)
    requires f.Valid() && k <= |Required(f)| && f.result == Fail
    ensures Admits(f, Required(f)[..k], e) <==> k < |Required(f)| && e == Required(f)[k]
  {
    hide Required, ProgressOf, Classify;
    FailureProgress(f, k);
  }

  // ---------------------------------------------------------------- reconciliation and admission

  /** A failed result counts as classified once recorded; every other result stays unclassified while its Attempt is current. */
  predicate Unclassified(f: Facts, ledger: Ledger) {
    !(f.result == Fail && ProgressOf(f, ledger).classificationRecorded)
  }

  predicate RequiresReconciliation(f: Facts, ledger: Ledger) {
    var p, d := ProgressOf(f, ledger), Classify(f);
    || p.correctionRequired
    || (f.result == Fail && !p.classificationRecorded)
    || (d.metric.Some? && !HasMetric(p, d.metric))
    || (f.result != Recovered && !p.issueLogRecorded)
    || DoneUpdate in d.updates
  }

  /** Whether publication recovery is selected for a current Gate with a published result. */
  predicate Reconciles(f: Facts, ledger: Ledger) {
    !f.integrityFailure && (Unclassified(f, ledger) || RequiresReconciliation(f, ledger))
  }

  /**
   For a current Gate with intact facts, reconciliation is selected exactly while a required effect is
   missing, with one exception: a recovered result requires none and is selected for reconciliation all the same.
  */
  lemma ReconcilesWhileMissing(f: Facts, k: nat)
    requires f.Valid() && k <= |Required(f)| && Current(Required(f)[..k])
    ensures Reconciles(f, Required(f)[..k]) <==> !f.integrityFailure && (k < |Required(f)| || f.result == Recovered)
  {
    NextIsRequired(f, k);
    RequiredByResult(f);
    RequiredIsDistinct(f);
    InPrefix(Required(f), k);
    if f.result == Pass && !f.integrityFailure {
      assert Required(f)[2] == FinishStep;
    }
  }

  /**
   For a result that passed or failed, the only ones a Task Gate evaluator publishes: reconciliation is
   selected while a required effect is missing and never afterwards.
  */
  lemma ReconcilesExactlyWhileMissing(f: Facts, k: nat)
    requires f.Valid() && k <= |Required(f)| && Current(Required(f)[..k]) && f.result != Recovered && !f.integrityFailure
    ensures Reconciles(f, Required(f)[..k]) <==> k < |Required(f)|
    ensures EvaluationAdmission(f, true, Required(f)[..k])
         == if k < |Required(f)| then Reconcile else Transition(Classify(f))
  {
    ReconcilesWhileMissing(f, k);
  }

  /**
   The facts admit a recovered result by type, although no Task Gate evaluator publishes one. It requires
   no effect and would be selected for reconciliation all the same, again and again.
  */
  lemma RecoveredIsReconciledForever() returns (f: Facts)
    ensures f.Valid() && Required(f) == [] && Reconciles(f, Required(f))
  {
    f := Facts(Recovered, Semantic, false, false, false, false, false, false, false, false);
  }

  datatype Admission = Evaluate | Reconcile | Transition(decision: Decision)

  /** The one decision the Gate command and its provider-call guard share. */
  function EvaluationAdmission(f: Facts, published: bool, ledger: Ledger): Admission {
    if !published then Evaluate
    else if Reconciles(f, ledger) then Reconcile
    else Transition(Classify(f))
  }

  /** Evaluation is admitted exactly while no result is published, whatever the facts and however far the settlement. */
  lemma OnlyTheUnpublishedIsEvaluated(f: Facts, published: bool, ledger: Ledger)
    ensures EvaluationAdmission(f, published, ledger) == Evaluate <==> !published
  {
  }

  // ---------------------------------------------------------------- runs of one Attempt

  /** What is durable of one Gate Attempt. */
  datatype Durable = Durable(published: bool, evaluations: nat, ledger: Ledger)

  /** The command is called, or the post-lifecycle step runs and is interrupted after some effects. */
  datatype Operation = CallGate | Settle(steps: nat)

  function Settled(f: Facts, ledger: Ledger, steps: nat): Ledger
    decreases steps
  {
    if steps == 0 || NextEffect(f, ledger).None? then ledger
    else Settled(f, ledger + [NextEffect(f, ledger).value], steps - 1)
  }

  function After(f: Facts, d: Durable, op: Operation): Durable {
    match op
    case CallGate =>
      if Current(d.ledger) && EvaluationAdmission(f, d.published, d.ledger) == Evaluate then
        Durable(true, d.evaluations + 1, d.ledger)
      else d
    case Settle(steps) => if d.published then d.(ledger := Settled(f, d.ledger, steps)) else d
  }

  function Run(f: Facts, ops: seq<Operation>): Durable {
    if ops == [] then Durable(false, 0, [])
    else After(f, Run(f, ops[..|ops| - 1]), ops[|ops| - 1])
  }

  lemma {:induction false} SettledIsPrefix(f: Facts, k: nat, steps: nat)
    requires f.Valid() && k <= |Required(f)|
    ensures Settled(f, Required(f)[..k], steps)
         == Required(f)[..if k + steps <= |Required(f)| then k + steps else |Required(f)|]
    decreases steps
  {
    NextIsRequired(f, k);
    if steps > 0 && k < |Required(f)| {
      NextPrefix(Required(f), k);
      SettledIsPrefix(f, k + 1, steps - 1);
    }
  }

  lemma NextPrefix(s: Ledger, k: nat)
    requires k < |s|
    ensures s[..k] + [s[k]] == s[..k + 1]
  {
  }

  /** How many effects the settlement runs since publication could have applied. */
  function Steps(f: Facts, ops: seq<Operation>): nat {
    if ops == [] then 0
    else
      var n := |ops| - 1;
      Steps(f, ops[..n]) + if ops[n].Settle? && Run(f, ops[..n]).published then ops[n].steps else 0
  }

  /**
   However often the post-lifecycle step is interrupted and repeated, what it has recorded is a prefix of
   the required effects, as long as the steps it was given: each effect once, in order, none invented,
   none lost. That the Gate is evaluated at most once is how publication is modelled: an evaluation
   publishes its result, and a published result admits no other.
  */
  lemma {:induction false} EffectsAreAppliedOnceInOrder(f: Facts, ops: seq<Operation>)
    requires f.Valid()
    ensures var d, n := Run(f, ops), Steps(f, ops);
            && d.ledger == Required(f)[..if n <= |Required(f)| then n else |Required(f)|]
            && d.evaluations == (if d.published then 1 else 0)
            && (CallGate in ops <==> d.published)
    decreases |ops|
  {
    if ops != [] {
      var n := |ops| - 1;
      var before := Run(f, ops[..n]);
      EffectsAreAppliedOnceInOrder(f, ops[..n]);
      assert ops == ops[..n] + [ops[n]];
      if ops[n].Settle? && before.published {
        SettledIsPrefix(f, |before.ledger|, ops[n].steps);
      }
      if !before.published { UnpublishedIsEmpty(f, ops[..n]); }
    } else {
      assert Required(f)[..0] == [];
    }
  }

  lemma {:induction false} UnpublishedIsEmpty(f: Facts, ops: seq<Operation>)
    requires !Run(f, ops).published
    ensures Run(f, ops).ledger == [] && Steps(f, ops) == 0
    decreases |ops|
  {
    if ops != [] { UnpublishedIsEmpty(f, ops[..|ops| - 1]); }
  }

  // ---------------------------------------------------------------- the Attempts of one Gate

  /** What one Attempt observes; whether the retries are used up is not observed but counted. */
  datatype Observation = Observation(result: GateResult, category: Category, integrityFailure: bool, repairEvidence: bool, finalRound: bool,
                                     allRecurring: bool, sameEvidence: bool, nonblocking: bool, classificationConflict: bool) {
    predicate Valid() {
      classificationConflict ==> result == Fail
    }

    function With(retryExhausted: bool): Facts {
      Facts(result, category, integrityFailure, repairEvidence, finalRound, allRecurring, sameEvidence, retryExhausted, nonblocking,
            classificationConflict)
    }
  }

  function Increments(ledger: Ledger): nat {
    if ledger == [] then 0
    else Increments(ledger[..|ledger| - 1]) + if ledger[|ledger| - 1] == RecordMetric(Increment) then 1 else 0
  }

  /** The retries that stand recorded after an Attempt was settled: a reset clears them. */
  function UsedAfter(used: nat, ledger: Ledger): nat {
    if RecordMetric(Reset) in ledger then 0 else used + Increments(ledger)
  }

  function FactsOf(o: Observation, used: nat, limit: nat): Facts {
    o.With(used >= limit)
  }

  /** The retries recorded by these Attempts, each settled to its end. */
  function Used(attempts: seq<Observation>, limit: nat): nat {
    if attempts == [] then 0
    else
      var n := |attempts| - 1;
      var used := Used(attempts[..n], limit);
      UsedAfter(used, Required(FactsOf(attempts[n], used, limit)))
  }

  lemma {:induction false} NoIncrement(ledger: Ledger)
    requires RecordMetric(Increment) !in ledger
    ensures Increments(ledger) == 0
  {
    if ledger != [] { NoIncrement(ledger[..|ledger| - 1]); }
  }

  lemma {:induction false} OneIncrement(ledger: Ledger)
    requires RecordMetric(Increment) in ledger && Distinct(ledger)
    ensures Increments(ledger) == 1
  {
    var n := |ledger| - 1;
    assert ledger == ledger[..n] + [ledger[n]];
    if ledger[n] == RecordMetric(Increment) { NoIncrement(ledger[..n]); } else { OneIncrement(ledger[..n]); }
  }

  lemma IncrementsRequired(f: Facts)
    ensures Increments(Required(f)) == if Classify(f).disposition == Retry then 1 else 0
    ensures RecordMetric(Reset) in Required(f) <==> Classify(f).disposition == PassGate
  {
    EffectsByDisposition(f);
    RequiredIsDistinct(f);
    assert RecordMetric(Increment) in Required(f) <==> Classify(f).metric == Some(Increment);
    if Classify(f).metric == Some(Increment) { OneIncrement(Required(f)); } else { NoIncrement(Required(f)); }
  }

  /**
   One more Attempt: an ordinary fresh semantic failure adds exactly one retry below the limit and none at
   it, a pass starts over, and nothing else is counted.
  */
  lemma OneMoreAttempt(attempts: seq<Observation>, o: Observation, limit: nat)
    ensures var used := Used(attempts, limit);
            var ordinary := o.result == Fail && o.category == Semantic && !o.integrityFailure && !o.repairEvidence && !o.sameEvidence
                            && !(o.finalRound && o.allRecurring);
            Used(attempts + [o], limit) ==
            if o.result == Pass && !o.integrityFailure then 0
            else if ordinary && used < limit then used + 1
            else used
  {
    var f := FactsOf(o, Used(attempts, limit), limit);
    assert (attempts + [o])[..|attempts|] == attempts;
    IncrementsRequired(f);
    DispositionByEvidence(f);
  }

  /** However many Attempts there are and whatever they observe, the recorded retries never exceed the limit. */
  lemma {:induction false} RetriesNeverExceedTheLimit(attempts: seq<Observation>, limit: nat)
    ensures Used(attempts, limit) <= limit
  {
    if attempts != [] {
      hide UsedAfter, FactsOf, Required;
      var n := |attempts| - 1;
      RetriesNeverExceedTheLimit(attempts[..n], limit);
      OneMoreAttempt(attempts[..n], attempts[n], limit);
      assert attempts == attempts[..n] + [attempts[n]];
    }
  }

  /** Used up, a semantic failure without other evidence ends the last round and stops any other. */
  lemma ExhaustedFailuresEnd(attempts: seq<Observation>, o: Observation, limit: nat)
    requires Used(attempts, limit) == limit && SemanticFailure(o.With(true)) && !RepeatIsPointless(o.With(true))
    ensures var f := FactsOf(o, Used(attempts, limit), limit);
            Classify(f).disposition == if !o.finalRound then Blocked else if o.nonblocking then Nonblocking else Defer
  {
    DispositionByEvidence(FactsOf(o, Used(attempts, limit), limit));
  }

  // ---------------------------------------------------------------- the coordinator

  /** The durable side: an effect is recorded only if the store's check admits it. */
  class Store {
    const facts: Facts
    var ledger: Ledger

    constructor (facts: Facts, ledger: Ledger)
      ensures this.facts == facts && this.ledger == ledger
    {
      this.facts := facts;
      this.ledger := ledger;
    }

    method Record(e: Effect) returns (r: Result<Ledger>)
      modifies this
      ensures r.Success? <==> Admits(facts, old(ledger), e)
      ensures ledger == if r.Success? then old(ledger) + [e] else old(ledger)
    {
      if !Admits(facts, ledger, e) { return Failure("Task Gate settlement effect is already complete or does not match its decision"); }
      ledger := ledger + [e];
      return Success(ledger);
    }

    /**
     Applies the missing effects one by one, reading the facts again after each. Resumed on any recorded
     prefix, it is never refused and continues exactly where the last run stopped; `steps` is where an
     interruption cuts it off.
    */
    method Apply(steps: nat) returns (refused: bool)
      requires facts.Valid() && ledger <= Required(facts)
      modifies this
      ensures !refused && ledger == Settled(facts, old(ledger), steps) && ledger <= Required(facts)
      ensures steps >= |Required(facts)| ==> ledger == Required(facts)
    {
      refused := false;
      hide Required, Classify;
      ghost var required := Required(facts);
      var left: nat := steps;
      assert ledger == required[..|ledger|];
      SettledIsPrefix(facts, |ledger|, steps);
      while left > 0
        invariant left <= steps && |ledger| <= |required| && ledger == required[..|ledger|]
        invariant |ledger| + left == |old(ledger)| + steps
      {
        NextIsRequired(facts, |ledger|);
        var e := NextEffect(facts, ledger);
        if e.None? { return; }
        var r := Record(e.value);
        if r.Failure? { assert false; }
        left := left - 1;
      }
    }
  }
}
