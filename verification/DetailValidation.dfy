/** The response check of returned detail entities, and that it accepts what the closure returns. */
module DetailValidation {
  import opened Wrappers
  import opened DetailClosure
  import QueryTreeValidation

  type Checks = QueryTreeValidation.Validation

  /** Entities under their identity alone, whatever their group. */
  type ById = m: map<Id, Entity> | forall id | id in m :: m[id].id == id

  predicate Returned(groups: Groups, e: Entity) {
    exists g: Group :: e in groups.Of(g)
  }

  predicate Mentions(e: Entity, id: Id) {
    exists g: Group :: id in e.Ids(g)
  }

  /** A chain of `n` identities leads from a root to `id` through returned entities. */
  ghost predicate Chained(groups: Groups, roots: seq<Ref>, id: Id, n: nat)
    decreases n
  {
    if n == 0 then exists r | r in roots :: r.id == id
    else exists e: Entity :: Returned(groups, e) && Mentions(e, id) && Chained(groups, roots, e.id, n - 1)
  }

  ghost predicate Connected(groups: Groups, roots: seq<Ref>, id: Id) {
    exists n: nat :: Chained(groups, roots, id, n)
  }

  ghost predicate DependenciesListed(groups: Groups, e: Entity) {
    forall d | DependsOn(e, d) :: groups.Lists(d)
  }

  ghost predicate AllListed(groups: Groups) {
    forall e | Returned(groups, e) :: DependenciesListed(groups, e)
  }

  predicate RootsListed(groups: Groups, roots: seq<Ref>) {
    forall r | r in roots :: groups.Lists(r)
  }

  ghost predicate AllConnected(groups: Groups, roots: seq<Ref>) {
    forall e | Returned(groups, e) :: Connected(groups, roots, e.id)
  }

  /** What the check accepts: identities unique over all groups, references resolved, nothing returned in vain. */
  ghost predicate Accepted(groups: Groups, roots: seq<Ref>) {
    ListedOnce(groups) && AllListed(groups) && RootsListed(groups, roots) && AllConnected(groups, roots)
  }

  // ---------------------------------------------------------------- collecting the entities

  /** The returned entities, group after group. */
  function Listing(groups: Groups): seq<Entity> {
    groups.evaluations + groups.findings + groups.repairs
  }

  function Offset(groups: Groups, g: Group): nat {
    match g
    case Evaluations => 0
    case Findings => |groups.evaluations|
    case Repairs => |groups.evaluations| + |groups.findings|
  }

  lemma Position(groups: Groups, g: Group, i: nat)
    requires i < |groups.Of(g)|
    ensures Offset(groups, g) + i < |Listing(groups)| && Listing(groups)[Offset(groups, g) + i] == groups.Of(g)[i]
  {
  }

  lemma PositionOf(groups: Groups, k: nat) returns (g: Group, i: nat)
    requires k < |Listing(groups)|
    ensures i < |groups.Of(g)| && k == Offset(groups, g) + i && groups.Of(g)[i] == Listing(groups)[k]
  {
    if k < |groups.evaluations| {
      g, i := Evaluations, k;
    } else if k < |groups.evaluations| + |groups.findings| {
      g, i := Findings, k - |groups.evaluations|;
    } else {
      g, i := Repairs, k - |groups.evaluations| - |groups.findings|;
    }
  }

  predicate DistinctEntities(es: seq<Entity>) {
    forall i, j | 0 <= i < j < |es| :: es[i].id != es[j].id
  }

  lemma OnceIffDistinct(groups: Groups)
    ensures ListedOnce(groups) <==> DistinctEntities(Listing(groups))
  {
    var es := Listing(groups);
    if ListedOnce(groups) {
      forall k, l | 0 <= k < l < |es| ensures es[k].id != es[l].id {
        var g, i := PositionOf(groups, k);
        var h, j := PositionOf(groups, l);
        assert groups.Of(g)[i].id != groups.Of(h)[j].id;
      }
    }
    if DistinctEntities(es) {
      forall g: Group, h: Group, i, j | 0 <= i < |groups.Of(g)| && 0 <= j < |groups.Of(h)| && (g != h || i < j)
        ensures groups.Of(g)[i].id != groups.Of(h)[j].id
      {
        Position(groups, g, i);
        Position(groups, h, j);
        assert Offset(groups, g) + i != Offset(groups, h) + j;
      }
    }
  }

  lemma ReturnedIffListing(groups: Groups, e: Entity)
    ensures Returned(groups, e) <==> e in Listing(groups)
  {
    if e in Listing(groups) {
      var k :| 0 <= k < |Listing(groups)| && Listing(groups)[k] == e;
      var g, i := PositionOf(groups, k);
    }
    if Returned(groups, e) {
      var g: Group :| e in groups.Of(g);
      var i :| 0 <= i < |groups.Of(g)| && groups.Of(g)[i] == e;
      Position(groups, g, i);
    }
  }

  method CheckDependencies(checks: Checks, groups: Groups, e: Entity)
    modifies checks
    ensures |old(checks.errors)| <= |checks.errors|
    ensures |checks.errors| == |old(checks.errors)| <==> DependenciesListed(groups, e)
  {
    var deps := Dependencies(e);
    var i := 0;
    while i < |deps|
      invariant 0 <= i <= |deps|
      invariant |old(checks.errors)| <= |checks.errors|
      invariant |checks.errors| == |old(checks.errors)| <==> forall k | 0 <= k < i :: groups.Lists(deps[k])
    {
      checks.Check(groups.Lists(deps[i]), "dependencies");
      i := i + 1;
    }
    assert DependenciesListed(groups, e) <==> forall k | 0 <= k < |deps| :: groups.Lists(deps[k]) by {
      forall d | DependsOn(e, d) ensures exists k | 0 <= k < |deps| :: deps[k] == d {
        assert d in deps;
      }
    }
  }

  /** What has been collected: exactly the first `i` listed entities; on a repeated identity the last one stays. */
  predicate Collected(es: seq<Entity>, i: nat, all: ById)
    requires i <= |es|
  {
    && (forall k | 0 <= k < i :: es[k].id in all)
    && (forall id | id in all :: exists k | 0 <= k < i :: es[k] == all[id])
  }

  method Collect(checks: Checks, groups: Groups, es: seq<Entity>) returns (all: ById)
    modifies checks
    ensures Collected(es, |es|, all)
    ensures |old(checks.errors)| <= |checks.errors|
    ensures |checks.errors| == |old(checks.errors)| <==> FineUpTo(groups, es, |es|)
  {
    all := map[];
    var i := 0;
    while i < |es|
      invariant 0 <= i <= |es|
      invariant Collected(es, i, all)
      invariant |old(checks.errors)| <= |checks.errors|
      invariant |checks.errors| == |old(checks.errors)| <==> FineUpTo(groups, es, i)
    {
      FineStep(groups, es, i, all);
      all := CollectOne(checks, groups, es[i], all);
      i := i + 1;
    }
  }

  method CollectOne(checks: Checks, groups: Groups, e: Entity, all: ById) returns (more: ById)
    modifies checks
    ensures more == all[e.id := e]
    ensures |old(checks.errors)| <= |checks.errors|
    ensures |checks.errors| == |old(checks.errors)| <==> e.id !in all && DependenciesListed(groups, e)
  {
    checks.Check(e.id !in all, "entities");
    more := all[e.id := e];
    CheckDependencies(checks, groups, e);
  }

  /** No identity twice among the first `i` entities, and all their dependencies listed. */
  ghost predicate FineUpTo(groups: Groups, es: seq<Entity>, i: nat)
    requires i <= |es|
  {
    DistinctEntities(es[..i]) && forall k | 0 <= k < i :: DependenciesListed(groups, es[k])
  }

  lemma FineStep(groups: Groups, es: seq<Entity>, i: nat, all: ById)
    requires i < |es| && Collected(es, i, all)
    ensures FineUpTo(groups, es, i + 1) <==> FineUpTo(groups, es, i) && es[i].id !in all && DependenciesListed(groups, es[i])
    ensures Collected(es, i + 1, all[es[i].id := es[i]])
  {
    DistinctStep(es, i, all);
  }

  lemma DistinctStep(es: seq<Entity>, i: nat, all: ById)
    requires i < |es| && Collected(es, i, all)
    ensures DistinctEntities(es[..i + 1]) <==> DistinctEntities(es[..i]) && es[i].id !in all
  {
    assert es[..i + 1] == es[..i] + [es[i]];
    if es[i].id in all {
      var k :| 0 <= k < i && es[k] == all[es[i].id];
      assert es[..i + 1][k].id == es[..i + 1][i].id;
    }
    if DistinctEntities(es[..i + 1]) {
      forall k, l | 0 <= k < l < i ensures es[..i][k].id != es[..i][l].id {
        assert es[..i + 1][k].id != es[..i + 1][l].id;
      }
    }
  }

  // ---------------------------------------------------------------- the traversal

  function MentionedIds(e: Entity): (ids: seq<Id>)
    ensures forall id :: id in ids <==> Mentions(e, id)
  {
    assert forall id :: Mentions(e, id) <==> id in e.Ids(Evaluations) || id in e.Ids(Findings) || id in e.Ids(Repairs);
    e.evaluationIds + e.findingIds + e.repairIds
  }

  function RootIds(roots: seq<Ref>): (ids: seq<Id>)
    ensures forall id :: id in ids <==> exists r | r in roots :: r.id == id
  {
    if roots == [] then []
    else
      assert roots == [roots[0]] + roots[1..];
      [roots[0].id] + RootIds(roots[1..])
  }

  predicate Known(all: ById, reached: set<Id>, pending: seq<Id>, id: Id) {
    id in all ==> id in reached || id in pending
  }

  /** The search so far: all that was met is connected, and what it mentions is met or unknown. */
  ghost predicate Searched(groups: Groups, roots: seq<Ref>, all: ById, reached: set<Id>, pending: seq<Id>) {
    && reached <= all.Keys
    && (forall id | id in reached || id in pending :: Connected(groups, roots, id))
    && (forall id | id in RootIds(roots) :: Known(all, reached, pending, id))
    && (forall p, id | p in reached && Mentions(all[p], id) :: Known(all, reached, pending, id))
  }

  lemma Begins(groups: Groups, roots: seq<Ref>, all: ById)
    ensures Searched(groups, roots, all, {}, RootIds(roots))
  {
    forall id | id in RootIds(roots) ensures Connected(groups, roots, id) {
      assert Chained(groups, roots, id, 0);
    }
  }

  /** Popping an identity that is reached already, or of no returned entity. */
  lemma Passes(groups: Groups, roots: seq<Ref>, all: ById, reached: set<Id>, rest: seq<Id>, id: Id)
    requires Searched(groups, roots, all, reached, rest + [id]) && (id in reached || id !in all)
    ensures Searched(groups, roots, all, reached, rest)
  {
    forall x | Known(all, reached, rest + [id], x) ensures Known(all, reached, rest, x) {
    }
  }

  lemma Reaches(groups: Groups, roots: seq<Ref>, all: ById, reached: set<Id>, rest: seq<Id>, id: Id)
    requires Searched(groups, roots, all, reached, rest + [id]) && id in all && Returned(groups, all[id])
    ensures Searched(groups, roots, all, reached + {id}, rest + MentionedIds(all[id]))
  {
    var e := all[id];
    assert Connected(groups, roots, id) by { assert id in rest + [id]; }
    var n: nat :| Chained(groups, roots, id, n);
    forall x | Mentions(e, x) ensures Connected(groups, roots, x) {
      assert Chained(groups, roots, x, n + 1);
    }
    forall x | Known(all, reached, rest + [id], x) ensures Known(all, reached + {id}, rest + MentionedIds(e), x) {
    }
  }

  predicate MentionsWithin(e: Entity, known: set<Id>, s: set<Id>) {
    forall id | id in known && Mentions(e, id) :: id in s
  }

  /** Of the known identities, the roots are in `s`, and what is mentioned by entities of `s`. */
  ghost predicate SealedIds(groups: Groups, roots: seq<Ref>, known: set<Id>, s: set<Id>) {
    && (forall r | r in roots && r.id in known :: r.id in s)
    && (forall e | Returned(groups, e) && e.id in s :: MentionsWithin(e, known, s))
  }

  lemma {:induction false} SealedIdsCover(groups: Groups, roots: seq<Ref>, known: set<Id>, s: set<Id>, id: Id, n: nat)
    requires SealedIds(groups, roots, known, s) && Chained(groups, roots, id, n) && id in known
    requires forall e | Returned(groups, e) :: e.id in known
    ensures id in s
    decreases n
  {
    if n > 0 {
      var e: Entity :| Returned(groups, e) && Mentions(e, id) && Chained(groups, roots, e.id, n - 1);
      SealedIdsCover(groups, roots, known, s, e.id, n - 1);
      assert MentionsWithin(e, known, s);
    }
  }

  /** The search ends with every connected identity of a returned entity. */
  lemma Exhausted(groups: Groups, roots: seq<Ref>, all: ById, reached: set<Id>, id: Id)
    requires Searched(groups, roots, all, reached, []) && Connected(groups, roots, id) && id in all
    requires forall e | Returned(groups, e) :: e.id in all && all[e.id] == e
    ensures id in reached
  {
    forall r | r in roots && r.id in all.Keys ensures r.id in reached {
      assert Known(all, reached, [], r.id);
    }
    forall e | Returned(groups, e) && e.id in reached ensures MentionsWithin(e, all.Keys, reached) {
      forall x | x in all.Keys && Mentions(e, x) ensures x in reached {
        assert Known(all, reached, [], x);
      }
    }
    var n: nat :| Chained(groups, roots, id, n);
    SealedIdsCover(groups, roots, all.Keys, reached, id, n);
  }

  method Search(groups: Groups, roots: seq<Ref>, all: ById) returns (reached: set<Id>)
    requires forall id | id in all :: Returned(groups, all[id])
    ensures Searched(groups, roots, all, reached, [])
  {
    var pending := RootIds(roots);
    reached := {};
    Begins(groups, roots, all);
    while pending != []
      invariant Searched(groups, roots, all, reached, pending)
      decreases all.Keys - reached, |pending|
    {
      var last := |pending| - 1;
      var id, rest := pending[last], pending[..last];
      assert pending == rest + [id];
      if id in reached || id !in all {
        Passes(groups, roots, all, reached, rest, id);
        pending := rest;
      } else {
        Reaches(groups, roots, all, reached, rest, id);
        pending := rest + MentionedIds(all[id]);
        reached := reached + {id};
      }
    }
  }

  lemma ReachedAll(groups: Groups, roots: seq<Ref>, all: ById, reached: set<Id>)
    requires Searched(groups, roots, all, reached, [])
    requires Collected(Listing(groups), |Listing(groups)|, all) && ListedOnce(groups)
    ensures |reached| == |all.Keys| <==> AllConnected(groups, roots)
  {
    OnceIffDistinct(groups);
    var es := Listing(groups);
    forall e | Returned(groups, e) ensures e.id in all && all[e.id] == e {
      ReturnedIffListing(groups, e);
      var k :| 0 <= k < |es| && es[k] == e;
      var l :| 0 <= l < |es| && es[l] == all[e.id];
      assert k == l;
    }
    if |reached| == |all.Keys| {
      QueryTreeValidation.FullSubset(reached, all.Keys);
    }
    if AllConnected(groups, roots) {
      forall id | id in all ensures id in reached {
        var l :| 0 <= l < |es| && es[l] == all[id];
        ReturnedIffListing(groups, all[id]);
        assert Connected(groups, roots, id);
        Exhausted(groups, roots, all, reached, id);
      }
      assert reached == all.Keys;
    }
  }

  lemma FineIffOnceAndListed(groups: Groups)
    ensures FineUpTo(groups, Listing(groups), |Listing(groups)|) <==> ListedOnce(groups) && AllListed(groups)
  {
    var es := Listing(groups);
    OnceIffDistinct(groups);
    assert es[..|es|] == es;
    if AllListed(groups) {
      forall k | 0 <= k < |es| ensures DependenciesListed(groups, es[k]) {
        ReturnedIffListing(groups, es[k]);
      }
    }
    if FineUpTo(groups, es, |es|) {
      forall e | Returned(groups, e) ensures DependenciesListed(groups, e) {
        ReturnedIffListing(groups, e);
        var k :| 0 <= k < |es| && es[k] == e;
      }
    }
  }

  /** Adds no error exactly if the entities are accepted for these direct references. */
  method CheckEntities(checks: Checks, groups: Groups, roots: seq<Ref>)
    modifies checks
    ensures |old(checks.errors)| <= |checks.errors|
    ensures |checks.errors| == |old(checks.errors)| <==> Accepted(groups, roots)
  {
    var all := Collect(checks, groups, Listing(groups));
    OnceIffDistinct(groups);
    FineIffOnceAndListed(groups);
    forall id | id in all ensures Returned(groups, all[id]) {
      ReturnedIffListing(groups, all[id]);
    }
    CheckRoots(checks, groups, roots);
    var reached := Search(groups, roots, all);
    if ListedOnce(groups) { ReachedAll(groups, roots, all, reached); }
    checks.Check(|reached| == |all.Keys|, "entities");
  }

  method CheckRoots(checks: Checks, groups: Groups, roots: seq<Ref>)
    modifies checks
    ensures |old(checks.errors)| <= |checks.errors|
    ensures |checks.errors| == |old(checks.errors)| <==> RootsListed(groups, roots)
  {
    var i := 0;
    while i < |roots|
      invariant 0 <= i <= |roots|
      invariant |old(checks.errors)| <= |checks.errors|
      invariant |checks.errors| == |old(checks.errors)| <==> forall k | 0 <= k < i :: groups.Lists(roots[k])
    {
      checks.Check(groups.Lists(roots[i]), "detailRefs");
      i := i + 1;
    }
  }

  // ---------------------------------------------------------------- agreement with the closure

  lemma {:induction false} PathsShow(index: Index, roots: seq<Ref>, groups: Groups, r: Ref, n: nat)
    requires Exact(index, roots, groups) && ReachesIn(index, roots, r, n)
    ensures Chained(groups, roots, r.id, n)
    decreases n
  {
    if n > 0 {
      var p: Ref :| p in index && DependsOn(index[p], r) && ReachesIn(index, roots, p, n - 1);
      PathsShow(index, roots, groups, p, n - 1);
      assert DetailClosure.Reaches(index, roots, p);
      assert groups.Lists(p);
      var i :| 0 <= i < |groups.Of(p.group)| && groups.Of(p.group)[i].id == p.id;
      var e := groups.Of(p.group)[i];
      assert e in groups.Of(p.group) && e == index[p];
      assert Returned(groups, e) && Mentions(e, r.id) && Chained(groups, roots, e.id, n - 1);
    }
  }

  lemma ExactIsAccepted(index: Index, roots: seq<Ref>, groups: Groups)
    requires Exact(index, roots, groups) && ListedOnce(groups)
    ensures Accepted(groups, roots)
  {
    RootsReach(index, roots);
    forall r | r in roots ensures groups.Lists(r) {
      var k :| 0 <= k < |roots| && roots[k] == r;
      assert DetailClosure.Reaches(index, roots, roots[k]);
    }
    forall e | Returned(groups, e) ensures DependenciesListed(groups, e) && Connected(groups, roots, e.id) {
      var g: Group :| e in groups.Of(g);
      var r := Ref(g, e.id);
      var i :| 0 <= i < |groups.Of(g)| && groups.Of(g)[i] == e;
      assert groups.Lists(r);
      assert DetailClosure.Reaches(index, roots, r);
      var n: nat :| ReachesIn(index, roots, r, n);
      PathsShow(index, roots, groups, r, n);
      forall d | DependsOn(e, d) ensures groups.Lists(d) {
        assert ReachesIn(index, roots, d, n + 1);
        assert DetailClosure.Reaches(index, roots, d);
      }
    }
  }

  /** Accepted entities list, group by group, everything that is reachable from their roots. */
  lemma {:induction false} AcceptedCovers(index: Index, roots: seq<Ref>, groups: Groups, r: Ref, n: nat)
    requires AllListed(groups) && RootsListed(groups, roots) && ReachesIn(index, roots, r, n)
    requires forall g: Group, e | e in groups.Of(g) :: Ref(g, e.id) in index && index[Ref(g, e.id)] == e
    ensures groups.Lists(r)
    decreases n
  {
    if n > 0 {
      var p: Ref :| p in index && DependsOn(index[p], r) && ReachesIn(index, roots, p, n - 1);
      AcceptedCovers(index, roots, groups, p, n - 1);
      var i :| 0 <= i < |groups.Of(p.group)| && groups.Of(p.group)[i].id == p.id;
      var e := groups.Of(p.group)[i];
      assert e in groups.Of(p.group);
      assert Returned(groups, e) && DependenciesListed(groups, e);
    }
  }

  /**
   Both algorithms run together: the response check accepts whatever the closure returns, and there is
   something to accept exactly when nothing dangles.
  */
  method CloseAndCheck(index: QueryDetailIndex, roots: seq<Ref>) returns (r: Result<Groups>, accepted: bool)
    requires index.Valid() && AllMinted(roots)
    ensures accepted <==> r.Success?
    ensures accepted <==> NothingDangles(index.entities, roots)
    ensures accepted ==> Exact(index.entities, roots, r.value)
  {
    r := index.ClosureFor(roots);
    accepted := false;
    if r.Success? {
      var checks := new QueryTreeValidation.Validation();
      CheckEntities(checks, r.value, roots);
      accepted := |checks.errors| == 0;
      ExactIsAccepted(index.entities, roots, r.value);
    }
  }

  /** Every listed entity is the indexed one of a reachable reference. */
  ghost predicate Entered(index: Index, roots: seq<Ref>, result: Groups) {
    && (forall r: Ref | result.Lists(r) :: DetailClosure.Reaches(index, roots, r))
    && (forall g: Group, e | e in result.Of(g) :: Ref(g, e.id) in index && index[Ref(g, e.id)] == e)
  }

  /** Of the entities one could return, the response check accepts the exact closure and nothing less. */
  lemma AgreesWithClosure(index: Index, roots: seq<Ref>, groups: Groups)
    requires ListedOnce(groups) && Entered(index, roots, groups)
    ensures Accepted(groups, roots) <==> Exact(index, roots, groups)
  {
    if Exact(index, roots, groups) { ExactIsAccepted(index, roots, groups); }
    if Accepted(groups, roots) {
      forall r | DetailClosure.Reaches(index, roots, r) ensures groups.Lists(r) {
        var n: nat :| ReachesIn(index, roots, r, n);
        AcceptedCovers(index, roots, groups, r, n);
      }
    }
  }
}
