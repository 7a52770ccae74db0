/** The identity of a selected Gate action: scalar bindings and digests of the facts and of the selected plan. */
module GateIdentity {
  import opened Wrappers
  import opened CanonicalJson
  import opened CanonicalJsonProofs

  type Digest = Text -> string

  /** The facts a Gate decision is taken from; `others` holds the properties the identity does not repeat. */
  datatype Facts = Facts(runId: Text, specId: Text, taskId: Option<Text>, stepId: Text, attemptId: Text, sequence: Text,
                         catalogFingerprint: Text, others: Json)

  /** What `gatePlan` selects; `detail` holds what the disposition says besides its operation. */
  datatype Plan = Plan(operation: Text, detail: Json, phaseDefinition: Json, updates: Json, taskLifecycle: Json,
                       repairConnector: Json, recoveryEffect: Json, nonblockingHandoff: Json, retryMetric: Json)

  datatype Identity = Identity(runId: Text, specId: Text, taskId: Option<Text>, stepId: Text, attemptId: Text, sequence: Text,
                               catalogFingerprint: Text, factsFingerprint: string, selectedFingerprint: string, operation: Text) {
    predicate Matches(other: Identity) {
      && runId == other.runId && specId == other.specId && taskId == other.taskId && stepId == other.stepId
      && attemptId == other.attemptId && sequence == other.sequence
      && catalogFingerprint == other.catalogFingerprint
      && factsFingerprint == other.factsFingerprint
      && selectedFingerprint == other.selectedFingerprint
      && operation == other.operation
    }
  }

  function OrNull(t: Option<Text>): Json {
    if t.Some? then String(t.value) else Null
  }

  /** An object with these property names, pairwise distinct, and these values. */
  function Record(keys: seq<Text>, values: seq<Json>): (v: Json)
    requires |keys| == |values|
    ensures v.Object? && |v.entries| == |keys|
    ensures forall i | 0 <= i < |keys| :: v.entries[i] == Entry(keys[i], values[i])
  {
    Object(seq(|keys|, i requires 0 <= i < |keys| => Entry(keys[i], values[i])))
  }

  /** The property names under which the facts and the plan are written. */
  datatype Layout = Layout(facts: seq<Text>, plan: seq<Text>) {
    predicate Valid() {
      |facts| == 8 && DistinctTexts(facts) && |plan| == 9 && DistinctTexts(plan)
    }
  }

  function FactValues(f: Facts): seq<Json> {
    [String(f.runId), String(f.specId), OrNull(f.taskId), String(f.stepId), String(f.attemptId), Number(f.sequence),
     String(f.catalogFingerprint), f.others]
  }

  function PlanValues(p: Plan): seq<Json> {
    [String(p.operation), p.detail, p.phaseDefinition, p.updates, p.taskLifecycle, p.repairConnector, p.recoveryEffect,
     p.nonblockingHandoff, p.retryMetric]
  }

  function FactsJson(layout: Layout, f: Facts): Json
    requires layout.Valid()
  {
    Record(layout.facts, FactValues(f))
  }

  function PlanJson(layout: Layout, p: Plan): Json
    requires layout.Valid()
  {
    Record(layout.plan, PlanValues(p))
  }

  function IdentityOf(digest: Digest, layout: Layout, f: Facts, p: Plan): Identity
    requires layout.Valid()
  {
    Identity(f.runId, f.specId, f.taskId, f.stepId, f.attemptId, f.sequence, f.catalogFingerprint,
             digest(StableGateJson(FactsJson(layout, f))), digest(StableGateJson(PlanJson(layout, p))), p.operation)
  }

  ghost predicate CollisionFree(digest: Digest) {
    forall s, t :: digest(s) == digest(t) ==> s == t
  }

  predicate DistinctTexts(keys: seq<Text>) {
    forall i, j | 0 <= i < j < |keys| :: keys[i] != keys[j]
  }

  predicate AllWellFormed(values: seq<Json>) {
    forall i | 0 <= i < |values| :: WellFormed(values[i])
  }

  predicate AllSame(v: seq<Json>, w: seq<Json>)
    requires |v| == |w|
  {
    forall i | 0 <= i < |v| :: Same(v[i], w[i])
  }

  lemma RecordsSame(keys: seq<Text>, v: seq<Json>, w: seq<Json>)
    requires |keys| == |v| == |w| && DistinctTexts(keys)
    ensures Same(Record(keys, v), Record(keys, w)) <==> AllSame(v, w)
    ensures AllWellFormed(v) ==> WellFormed(Record(keys, v))
  {
    var a, b := Record(keys, v).entries, Record(keys, w).entries;
    forall i | 0 <= i < |keys|
      ensures HasKey(b, a[i].key) && b[IndexOf(b, a[i].key)].value == w[i] && a[i].value == v[i] && HasKey(a, b[i].key)
    {
      assert b[i].key == keys[i] && a[i].key == keys[i];
      assert IndexOf(b, keys[i]) == i;
    }
  }

  predicate Serializable(f: Facts, p: Plan) {
    AllWellFormed(FactValues(f)) && AllWellFormed(PlanValues(p))
  }

  /** Facts agree: equal bindings, and the rest equal up to property order. */
  predicate FactsAgree(f: Facts, g: Facts) {
    f.(others := Null) == g.(others := Null) && Same(f.others, g.others)
  }

  /** Plans agree: the same operation, and every part equal up to property order. */
  predicate PlansAgree(p: Plan, q: Plan) {
    && p.operation == q.operation && Same(p.detail, q.detail) && Same(p.phaseDefinition, q.phaseDefinition)
    && Same(p.updates, q.updates) && Same(p.taskLifecycle, q.taskLifecycle) && Same(p.repairConnector, q.repairConnector)
    && Same(p.recoveryEffect, q.recoveryEffect) && Same(p.nonblockingHandoff, q.nonblockingHandoff)
    && Same(p.retryMetric, q.retryMetric)
  }

  lemma FactsSame(f: Facts, g: Facts)
    ensures AllSame(FactValues(f), FactValues(g)) <==> FactsAgree(f, g)
  {
    var v, w := FactValues(f), FactValues(g);
    if AllSame(v, w) {
      assert Same(v[0], w[0]) && Same(v[1], w[1]) && Same(v[2], w[2]) && Same(v[3], w[3]);
      assert Same(v[4], w[4]) && Same(v[5], w[5]) && Same(v[6], w[6]) && Same(v[7], w[7]);
    }
  }

  lemma PlansSame(p: Plan, q: Plan)
    ensures AllSame(PlanValues(p), PlanValues(q)) <==> PlansAgree(p, q)
  {
    var v, w := PlanValues(p), PlanValues(q);
    if AllSame(v, w) {
      assert Same(v[0], w[0]) && Same(v[1], w[1]) && Same(v[2], w[2]) && Same(v[3], w[3]) && Same(v[4], w[4]);
      assert Same(v[5], w[5]) && Same(v[6], w[6]) && Same(v[7], w[7]) && Same(v[8], w[8]);
    }
  }

  lemma FactsTextIff(layout: Layout, f: Facts, g: Facts)
    requires layout.Valid() && AllWellFormed(FactValues(f)) && AllWellFormed(FactValues(g))
    ensures StableGateJson(FactsJson(layout, f)) == StableGateJson(FactsJson(layout, g)) <==> FactsAgree(f, g)
  {
    RecordsSame(layout.facts, FactValues(f), FactValues(g));
    RecordsSame(layout.facts, FactValues(g), FactValues(f));
    SameTextIffSame(FactsJson(layout, f), FactsJson(layout, g));
    FactsSame(f, g);
  }

  lemma PlanTextIff(layout: Layout, p: Plan, q: Plan)
    requires layout.Valid() && AllWellFormed(PlanValues(p)) && AllWellFormed(PlanValues(q))
    ensures StableGateJson(PlanJson(layout, p)) == StableGateJson(PlanJson(layout, q)) <==> PlansAgree(p, q)
  {
    RecordsSame(layout.plan, PlanValues(p), PlanValues(q));
    RecordsSame(layout.plan, PlanValues(q), PlanValues(p));
    SameTextIffSame(PlanJson(layout, p), PlanJson(layout, q));
    PlansSame(p, q);
  }

  /** With a collision-free digest two Gate actions match exactly when their facts and their selected plans agree. */
  lemma ActionsMatchIffFactsAndPlanAgree(digest: Digest, layout: Layout, f: Facts, p: Plan, g: Facts, q: Plan)
    requires layout.Valid() && CollisionFree(digest) && Serializable(f, p) && Serializable(g, q)
    ensures IdentityOf(digest, layout, f, p).Matches(IdentityOf(digest, layout, g, q)) <==> FactsAgree(f, g) && PlansAgree(p, q)
  {
    FactsTextIff(layout, f, g);
    PlanTextIff(layout, p, q);
  }
}
