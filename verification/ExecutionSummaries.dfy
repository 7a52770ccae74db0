/** Selecting execution items by node and summarizing them, over the node tree of a Flow Version. */
module ExecutionSummaries {
  import opened Wrappers
  import opened QueryTree
  import opened QueryTreeAgreement
  import opened QueryTreeValidation

  datatype ItemKind = StepAttempt | AgentInvocation | ProviderAttempt | ProcessCall | OutboxAttempt

  /** `true`, `false` or `null` in a recorded provider attempt. */
  datatype ProviderStart = ConfirmedStart | NotStarted | UnknownStart

  /** What a summary reads of an item; `usage` holds the values of its measurement, field by field. */
  datatype Item = Item(nodeId: Id, attemptId: string, kind: ItemKind, providerStarted: ProviderStart,
                       usage: Option<map<string, int>>, durationMs: Option<int>, cacheHit: bool)

  datatype Target = Target(nodeId: Id, includeDescendants: bool, attemptId: Option<string>)

  // ---------------------------------------------------------------- the summary of a list of items

  /** A subset of the items, as the source filters them. */
  datatype Filter =
    | OfKind(kind: ItemKind) | CacheHits | Started(start: ProviderStart) | Measured(field: string) | Timed(kind: ItemKind)

  predicate Keeps(f: Filter, i: Item) {
    match f
    case OfKind(kind) => i.kind == kind
    case CacheHits => i.kind == AgentInvocation && i.cacheHit
    case Started(start) => i.kind == ProviderAttempt && i.providerStarted == start
    case Measured(field) => i.kind == ProviderAttempt && i.usage.Some? && field in i.usage.value
    case Timed(kind) => i.kind == kind && i.durationMs.Some?
  }

  function Kept(f: Filter, items: seq<Item>): (r: seq<Item>)
    ensures forall i | i in r :: Keeps(f, i)
  {
    if items == [] then []
    else (if Keeps(f, items[0]) then [items[0]] else []) + Kept(f, items[1..])
  }

  /** What is added up over a subset: measured values of a field, or durations. */
  function Amount(f: Filter, i: Item): int
    requires Keeps(f, i)
  {
    match f
    case Measured(field) => i.usage.value[field]
    case Timed(_) => i.durationMs.value
    case _ => 1
  }

  function Sum(f: Filter, items: seq<Item>): int
    requires forall i | i in items :: Keeps(f, i)
  {
    if items == [] then 0 else Amount(f, items[0]) + Sum(f, items[1..])
  }

  function Count(f: Filter, items: seq<Item>): nat {
    |Kept(f, items)|
  }

  function Total(f: Filter, items: seq<Item>): int {
    Sum(f, Kept(f, items))
  }

  datatype Usage = Usage(knownTotal: int, measuredSubjects: nat, eligibleSubjects: nat, unknownSubjects: int)
  datatype Duration = Duration(knownTotalMs: int, measuredSubjects: nat, eligibleSubjects: nat)
  datatype Counts = Counts(stepAttempts: nat, invocations: nat, providerAttempts: nat, managedCalls: nat, outboxAttempts: nat,
                           cacheHits: nat, confirmed: nat, notStarted: nat, unknown: nat)
  datatype Summary = Summary(counts: Counts, usage: map<string, Usage>, logical: Duration, process: Duration)

  /** How many items a filter keeps, and what they amount to, under every filter. */
  type Counting = Filter -> nat
  type Totalling = Filter -> int

  function DurationOf(kind: ItemKind, count: Counting, total: Totalling): Duration {
    Duration(total(Timed(kind)), count(Timed(kind)), count(OfKind(kind)))
  }

  function UsageOf(field: string, count: Counting, total: Totalling): Usage {
    Usage(total(Measured(field)), count(Measured(field)), count(OfKind(ProviderAttempt)),
          count(OfKind(ProviderAttempt)) - count(Measured(field)))
  }

  function CountsOf(count: Counting): Counts {
    Counts(count(OfKind(StepAttempt)), count(OfKind(AgentInvocation)), count(OfKind(ProviderAttempt)),
           count(OfKind(ProcessCall)), count(OfKind(OutboxAttempt)), count(CacheHits),
           count(Started(ConfirmedStart)), count(Started(NotStarted)), count(Started(UnknownStart)))
  }

  function SummaryOf(fields: set<string>, count: Counting, total: Totalling): Summary {
    Summary(CountsOf(count), map field | field in fields :: UsageOf(field, count, total),
            DurationOf(AgentInvocation, count, total), DurationOf(ProcessCall, count, total))
  }

  function Summarize(fields: set<string>, items: seq<Item>): Summary {
    SummaryOf(fields, (f: Filter) => Count(f, items), (f: Filter) => Total(f, items))
  }

  lemma KeptStep(f: Filter, items: seq<Item>)
    requires items != []
    ensures Count(f, items) == (if Keeps(f, items[0]) then 1 else 0) + Count(f, items[1..])
  {
  }

  /** Starts partition the provider attempts, and so do measured and unknown subjects of every field. */
  lemma {:induction false} ProvidersArePartitioned(items: seq<Item>, field: string)
    ensures Count(Started(ConfirmedStart), items) + Count(Started(NotStarted), items) + Count(Started(UnknownStart), items)
         == Count(OfKind(ProviderAttempt), items)
    ensures Count(Measured(field), items) <= Count(OfKind(ProviderAttempt), items)
  {
    if items != [] {
      ProvidersArePartitioned(items[1..], field);
      KeptStep(Started(ConfirmedStart), items);
      KeptStep(Started(NotStarted), items);
      KeptStep(Started(UnknownStart), items);
      KeptStep(OfKind(ProviderAttempt), items);
      KeptStep(Measured(field), items);
    }
  }

  lemma SummaryIsPartitioned(fields: set<string>, items: seq<Item>, field: string)
    requires field in fields
    ensures var s := Summarize(fields, items);
            && s.counts.confirmed + s.counts.notStarted + s.counts.unknown == s.counts.providerAttempts
            && s.usage[field].measuredSubjects + s.usage[field].unknownSubjects == s.counts.providerAttempts
            && s.usage[field].unknownSubjects >= 0
            && s.usage[field].eligibleSubjects == s.counts.providerAttempts
  {
    ProvidersArePartitioned(items, field);
  }

  // ---------------------------------------------------------------- selecting items

  predicate Selects(nodes: set<Id>, attemptId: Option<string>, i: Item) {
    i.nodeId in nodes && (attemptId.None? || i.attemptId == attemptId.value)
  }

  function Selected(items: seq<Item>, nodes: set<Id>, attemptId: Option<string>): seq<Item> {
    if items == [] then []
    else (if Selects(nodes, attemptId, items[0]) then [items[0]] else []) + Selected(items[1..], nodes, attemptId)
  }

  /** Selecting keeps exactly the items of the nodes and, if one is named, of the Attempt, as often and in the order they stand. */
  lemma {:induction false} SelectedExactly(items: seq<Item>, nodes: set<Id>, attemptId: Option<string>)
    ensures forall i: Item ::
              multiset(Selected(items, nodes, attemptId))[i] ==
              if i.nodeId in nodes && (attemptId == None || attemptId == Some(i.attemptId)) then multiset(items)[i] else 0
  {
    if items != [] {
      SelectedExactly(items[1..], nodes, attemptId);
      assert items == [items[0]] + items[1..];
    }
  }

  lemma {:induction false} SelectedAppends(a: seq<Item>, b: seq<Item>, nodes: set<Id>, attemptId: Option<string>)
    ensures Selected(a + b, nodes, attemptId) == Selected(a, nodes, attemptId) + Selected(b, nodes, attemptId)
  {
    if a == [] {
      assert a + b == b;
    } else {
      hide Selected;
      SelectedAppends(a[1..], b, nodes, attemptId);
      SelectedCons(a[0], a[1..], nodes, attemptId);
      SelectedCons(a[0], a[1..] + b, nodes, attemptId);
      assert a == [a[0]] + a[1..] && a + b == [a[0]] + (a[1..] + b);
      assert Selected(a + b, nodes, attemptId) == Selected(a, nodes, attemptId) + Selected(b, nodes, attemptId);
    }
  }

  lemma SelectedCons(i: Item, rest: seq<Item>, nodes: set<Id>, attemptId: Option<string>)
    ensures Selected([i] + rest, nodes, attemptId)
         == (if Selects(nodes, attemptId, i) then [i] else []) + Selected(rest, nodes, attemptId)
  {
    assert ([i] + rest)[1..] == rest;
  }

  /** The identities of a node and of everything below it. */
  function WithDescendants(t: Tree): set<Id> {
    set id | id in Ids(t)
  }

  function NodesOf(t: Tree, includeDescendants: bool): set<Id> {
    if includeDescendants then WithDescendants(t) else {t.id}
  }

  /** The identities at and below the children from `i` on. */
  function Below(t: Tree, i: nat): set<Id>
    requires i <= |t.steps|
  {
    set id | id in IdsFrom(t, i)
  }

  /** Adds the identities below `t`, child by child. */
  method Visit(t: Tree, nodes: set<Id>) returns (more: set<Id>)
    ensures more == nodes + Below(t, 0)
    decreases t
  {
    more := nodes;
    var i := 0;
    while i < |t.steps|
      invariant 0 <= i <= |t.steps|
      invariant more + Below(t, i) == nodes + Below(t, 0)
    {
      var child := t.steps[i];
      assert IdsFrom(t, i) == [child.id] + IdsFrom(child, 0) + IdsFrom(t, i + 1);
      more := more + {child.id};
      more := Visit(child, more);
      i := i + 1;
    }
  }

  method TargetNodes(node: Tree, includeDescendants: bool) returns (nodes: set<Id>)
    ensures nodes == NodesOf(node, includeDescendants)
  {
    nodes := {node.id};
    if includeDescendants { nodes := Visit(node, nodes); }
  }

  // ---------------------------------------------------------------- what the figures are

  lemma {:induction false} KeptAppends(f: Filter, a: seq<Item>, b: seq<Item>)
    ensures Kept(f, a + b) == Kept(f, a) + Kept(f, b)
  {
    if a == [] {
      assert a + b == b;
    } else {
      hide Kept;
      KeptAppends(f, a[1..], b);
      KeptCons(f, a[0], a[1..]);
      KeptCons(f, a[0], a[1..] + b);
      assert a == [a[0]] + a[1..] && a + b == [a[0]] + (a[1..] + b);
      assert Kept(f, a + b) == Kept(f, a) + Kept(f, b);
    }
  }

  lemma KeptCons(f: Filter, i: Item, rest: seq<Item>)
    ensures Kept(f, [i] + rest) == (if Keeps(f, i) then [i] else []) + Kept(f, rest)
  {
    assert ([i] + rest)[1..] == rest;
  }

  lemma {:induction false} SumAppends(f: Filter, a: seq<Item>, b: seq<Item>)
    requires (forall i | i in a :: Keeps(f, i)) && (forall i | i in b :: Keeps(f, i))
    ensures Sum(f, a + b) == Sum(f, a) + Sum(f, b)
  {
    if a == [] {
      assert a + b == b;
    } else {
      SumAppends(f, a[1..], b);
      assert (a + b)[1..] == a[1..] + b;
    }
  }

  /** The summary of two lists together is the sum of their summaries. */
  lemma SummaryOfBoth(fields: set<string>, a: seq<Item>, b: seq<Item>)
    ensures Summarize(fields, a + b) == Plus(Summarize(fields, a), Summarize(fields, b))
  {
    var x := a + b;
    var cx, ca, cb := (f: Filter) => Count(f, x), (f: Filter) => Count(f, a), (f: Filter) => Count(f, b);
    var tx, ta, tb := (f: Filter) => Total(f, x), (f: Filter) => Total(f, a), (f: Filter) => Total(f, b);
    forall f: Filter ensures cx(f) == ca(f) + cb(f) && tx(f) == ta(f) + tb(f) {
      KeptAppends(f, a, b);
      SumAppends(f, Kept(f, a), Kept(f, b));
    }
    SummaryAdds(fields, cx, ca, cb, tx, ta, tb);
  }

  function One(condition: bool): nat {
    if condition then 1 else 0
  }

  /** What a measurement recorded for a field, if anything. */
  function Recorded(i: Item, field: string): Option<int> {
    if i.usage.Some? && field in i.usage.value then Some(i.usage.value[field]) else None
  }

  function OrZero(value: Option<int>): int {
    if value.Some? then value.value else 0
  }

  function CountsOfOne(i: Item): Counts {
    var provider := i.kind == ProviderAttempt;
    Counts(One(i.kind == StepAttempt), One(i.kind == AgentInvocation), One(provider), One(i.kind == ProcessCall),
           One(i.kind == OutboxAttempt), One(i.kind == AgentInvocation && i.cacheHit),
           One(provider && i.providerStarted == ConfirmedStart), One(provider && i.providerStarted == NotStarted),
           One(provider && i.providerStarted == UnknownStart))
  }

  function UsageOfOne(i: Item, field: string): Usage {
    if i.kind != ProviderAttempt then Usage(0, 0, 0, 0)
    else Usage(OrZero(Recorded(i, field)), One(Recorded(i, field).Some?), 1, One(Recorded(i, field).None?))
  }

  function DurationOfOne(i: Item, kind: ItemKind): Duration {
    if i.kind == kind then Duration(OrZero(i.durationMs), One(i.durationMs.Some?), 1) else Duration(0, 0, 0)
  }

  /**
   The summary of one item, figure by figure. With the summary of two lists this fixes every figure of
   every summary: a count of kinds, hits and starts, or a total of recorded values and durations.
  */
  lemma SummaryOfOne(fields: set<string>, i: Item)
    ensures var s := Summarize(fields, [i]);
            && s.counts == CountsOfOne(i)
            && s.usage.Keys == fields && (forall field | field in fields :: s.usage[field] == UsageOfOne(i, field))
            && s.logical == DurationOfOne(i, AgentInvocation) && s.process == DurationOfOne(i, ProcessCall)
  {
    hide CountsOf, UsageOf, DurationOf, CountsOfOne, UsageOfOne, DurationOfOne, Count, Total;
    CountedOfOne(i);
    forall field | field in fields
      ensures UsageOf(field, (f: Filter) => Count(f, [i]), (f: Filter) => Total(f, [i])) == UsageOfOne(i, field)
    {
      MeasuredOfOne(i, field);
    }
    TimedOfOne(i, AgentInvocation);
    TimedOfOne(i, ProcessCall);
  }

  lemma MeasuredOfOne(i: Item, field: string)
    ensures UsageOf(field, (f: Filter) => Count(f, [i]), (f: Filter) => Total(f, [i])) == UsageOfOne(i, field)
  {
    FigureOfOne(OfKind(ProviderAttempt), i);
    FigureOfOne(Measured(field), i);
  }

  lemma CountedOfOne(i: Item)
    ensures CountsOf((f: Filter) => Count(f, [i])) == CountsOfOne(i)
  {
    forall kind: ItemKind ensures Count(OfKind(kind), [i]) == One(i.kind == kind) { FigureOfOne(OfKind(kind), i); }
    forall start: ProviderStart ensures Count(Started(start), [i]) == One(i.kind == ProviderAttempt && i.providerStarted == start) {
      FigureOfOne(Started(start), i);
    }
    FigureOfOne(CacheHits, i);
  }

  lemma TimedOfOne(i: Item, kind: ItemKind)
    ensures DurationOf(kind, (f: Filter) => Count(f, [i]), (f: Filter) => Total(f, [i])) == DurationOfOne(i, kind)
  {
    FigureOfOne(OfKind(kind), i);
    FigureOfOne(Timed(kind), i);
  }

  lemma FigureOfOne(f: Filter, i: Item)
    ensures Count(f, [i]) == One(Keeps(f, i)) && Total(f, [i]) == if Keeps(f, i) then Amount(f, i) else 0
  {
    assert [i][1..] == [];
    assert Kept(f, [i]) == if Keeps(f, i) then [i] else [];
    if Keeps(f, i) { assert Sum(f, [i]) == Amount(f, i); }
  }

  lemma SummaryOfNone(fields: set<string>)
    ensures var s := Summarize(fields, []);
            && s.counts == Counts(0, 0, 0, 0, 0, 0, 0, 0, 0)
            && s.usage.Keys == fields && (forall field | field in fields :: s.usage[field] == Usage(0, 0, 0, 0))
            && s.logical == Duration(0, 0, 0) && s.process == Duration(0, 0, 0)
  {
  }

  // ---------------------------------------------------------------- conservation

  function CountsPlus(a: Counts, b: Counts): Counts {
    Counts(a.stepAttempts + b.stepAttempts, a.invocations + b.invocations, a.providerAttempts + b.providerAttempts,
           a.managedCalls + b.managedCalls, a.outboxAttempts + b.outboxAttempts, a.cacheHits + b.cacheHits,
           a.confirmed + b.confirmed, a.notStarted + b.notStarted, a.unknown + b.unknown)
  }

  function Plus(a: Summary, b: Summary): Summary
    requires a.usage.Keys == b.usage.Keys
  {
    Summary(CountsPlus(a.counts, b.counts), map field | field in a.usage :: UsagePlus(a.usage[field], b.usage[field]),
            DurationPlus(a.logical, b.logical), DurationPlus(a.process, b.process))
  }

  function UsagePlus(a: Usage, b: Usage): Usage {
    Usage(a.knownTotal + b.knownTotal, a.measuredSubjects + b.measuredSubjects, a.eligibleSubjects + b.eligibleSubjects,
          a.unknownSubjects + b.unknownSubjects)
  }

  function DurationPlus(a: Duration, b: Duration): Duration {
    Duration(a.knownTotalMs + b.knownTotalMs, a.measuredSubjects + b.measuredSubjects, a.eligibleSubjects + b.eligibleSubjects)
  }

  /** Over disjoint node sets every count and every total adds up. */
  lemma {:induction false} DisjointAddUp(f: Filter, items: seq<Item>, a: set<Id>, b: set<Id>, attemptId: Option<string>)
    requires a !! b
    ensures Count(f, Selected(items, a + b, attemptId)) == Count(f, Selected(items, a, attemptId)) + Count(f, Selected(items, b, attemptId))
    ensures Total(f, Selected(items, a + b, attemptId)) == Total(f, Selected(items, a, attemptId)) + Total(f, Selected(items, b, attemptId))
  {
    if items != [] {
      DisjointAddUp(f, items[1..], a, b, attemptId);
      SelectedStep(f, items, a, attemptId);
      SelectedStep(f, items, b, attemptId);
      SelectedStep(f, items, a + b, attemptId);
    }
  }

  lemma SelectedStep(f: Filter, items: seq<Item>, nodes: set<Id>, attemptId: Option<string>)
    requires items != []
    ensures var counted := Selects(nodes, attemptId, items[0]) && Keeps(f, items[0]);
            && Count(f, Selected(items, nodes, attemptId))
            == (if counted then 1 else 0) + Count(f, Selected(items[1..], nodes, attemptId))
            && Total(f, Selected(items, nodes, attemptId))
            == (if counted then Amount(f, items[0]) else 0) + Total(f, Selected(items[1..], nodes, attemptId))
  {
    var rest := Selected(items[1..], nodes, attemptId);
    if Selects(nodes, attemptId, items[0]) {
      var all := Selected(items, nodes, attemptId);
      assert all == [items[0]] + rest && all[1..] == rest;
      if Keeps(f, items[0]) { assert Kept(f, all)[1..] == Kept(f, rest); } else { assert Kept(f, all) == Kept(f, rest); }
    } else {
      assert Selected(items, nodes, attemptId) == rest;
    }
  }

  /** Figures that add up under every filter give summaries that add up. */
  lemma SummaryAdds(fields: set<string>, cx: Counting, ca: Counting, cb: Counting, tx: Totalling, ta: Totalling, tb: Totalling)
    requires forall f :: cx(f) == ca(f) + cb(f)
    requires forall f :: tx(f) == ta(f) + tb(f)
    ensures SummaryOf(fields, cx, tx) == Plus(SummaryOf(fields, ca, ta), SummaryOf(fields, cb, tb))
  {
    var sum := Plus(SummaryOf(fields, ca, ta), SummaryOf(fields, cb, tb));
    assert SummaryOf(fields, cx, tx).usage == sum.usage;
  }

  lemma SummariesAddUp(fields: set<string>, items: seq<Item>, a: set<Id>, b: set<Id>, attemptId: Option<string>)
    requires a !! b
    ensures Summarize(fields, Selected(items, a + b, attemptId))
         == Plus(Summarize(fields, Selected(items, a, attemptId)), Summarize(fields, Selected(items, b, attemptId)))
  {
    var x, y, z := Selected(items, a + b, attemptId), Selected(items, a, attemptId), Selected(items, b, attemptId);
    var cx, cy, cz := (f: Filter) => Count(f, x), (f: Filter) => Count(f, y), (f: Filter) => Count(f, z);
    var tx, ty, tz := (f: Filter) => Total(f, x), (f: Filter) => Total(f, y), (f: Filter) => Total(f, z);
    forall f: Filter ensures cx(f) == cy(f) + cz(f) && tx(f) == ty(f) + tz(f) {
      DisjointAddUp(f, items, a, b, attemptId);
    }
    SummaryAdds(fields, cx, cy, cz, tx, ty, tz);
  }

  /** The summaries of the children from `i` on, each with its descendants, added up. */
  function ChildSummaries(fields: set<string>, items: seq<Item>, t: Tree, i: nat, attemptId: Option<string>): (s: Summary)
    requires i <= |t.steps|
    ensures s.usage.Keys == fields
    decreases |t.steps| - i
  {
    if i == |t.steps| then Summarize(fields, [])
    else Plus(Summarize(fields, Selected(items, WithDescendants(t.steps[i]), attemptId)), ChildSummaries(fields, items, t, i + 1, attemptId))
  }

  lemma {:induction false} NothingSelected(items: seq<Item>, attemptId: Option<string>)
    ensures Selected(items, {}, attemptId) == []
  {
    if items != [] { NothingSelected(items[1..], attemptId); }
  }

  lemma {:induction false} ChildrenAddUp(fields: set<string>, items: seq<Item>, t: Tree, i: nat, attemptId: Option<string>)
    requires i <= |t.steps| && QueryTree.DistinctIds(IdsFrom(t, i))
    ensures Summarize(fields, Selected(items, Below(t, i), attemptId)) == ChildSummaries(fields, items, t, i, attemptId)
    decreases |t.steps| - i
  {
    if i == |t.steps| {
      assert Below(t, i) == {};
      NothingSelected(items, attemptId);
    } else {
      Parts(Ids(t.steps[i]), IdsFrom(t, i + 1));
      ChildrenAddUp(fields, items, t, i + 1, attemptId);
      var a, b := WithDescendants(t.steps[i]), Below(t, i + 1);
      assert Below(t, i) == a + b;
      SummariesAddUp(fields, items, a, b, attemptId);
    }
  }

  /**
   The summary of a node with its descendants is that of the node alone plus those of its children with
   their descendants: nothing is counted twice and nothing is lost.
  */
  lemma SummaryIsConserved(fields: set<string>, items: seq<Item>, t: Tree, attemptId: Option<string>)
    requires QueryTree.DistinctIds(Ids(t))
    ensures Summarize(fields, Selected(items, NodesOf(t, true), attemptId))
         == Plus(Summarize(fields, Selected(items, NodesOf(t, false), attemptId)), ChildSummaries(fields, items, t, 0, attemptId))
  {
    Parts([t.id], IdsFrom(t, 0));
    var below := Below(t, 0);
    assert t.id in [t.id];
    assert WithDescendants(t) == {t.id} + below;
    SummariesAddUp(fields, items, {t.id}, below, attemptId);
    ChildrenAddUp(fields, items, t, 0, attemptId);
  }
}
