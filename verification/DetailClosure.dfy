/**
 The detail closure of an activities page: `ClosureFor` follows detail references breadth first and
 remembers visited details by identity alone. The separate check of a response is in DetailValidation.
*/
module DetailClosure {
  import opened Wrappers

  type Id = string
  datatype Group = Evaluations | Findings | Repairs
  datatype Ref = Ref(group: Group, id: Id)

  datatype Entity = Entity(id: Id, evaluationIds: seq<Id>, findingIds: seq<Id>, repairIds: seq<Id>) {
    function Ids(group: Group): seq<Id> {
      match group
      case Evaluations => evaluationIds
      case Findings => findingIds
      case Repairs => repairIds
    }
  }

  function RefsTo(group: Group, ids: seq<Id>): (r: seq<Ref>)
    ensures forall x :: x in r <==> x.group == group && x.id in ids
  {
    if ids == [] then []
    else
      assert ids == [ids[0]] + ids[1..];
      [Ref(group, ids[0])] + RefsTo(group, ids[1..])
  }

  predicate DependsOn(e: Entity, d: Ref) {
    d.id in e.Ids(d.group)
  }

  /** The references of an entity, group by group. */
  function Dependencies(e: Entity): (r: seq<Ref>)
    ensures forall x :: x in r <==> DependsOn(e, x)
  {
    RefsTo(Evaluations, e.evaluationIds) + RefsTo(Findings, e.findingIds) + RefsTo(Repairs, e.repairIds)
  }

  /** What an identity starts with: the kind of its entity. Entities of a kind are kept in one group. */
  function Prefix(group: Group): Id {
    match group
    case Evaluations => "evaluation:"
    case Findings => "finding:"
    case Repairs => "repair:"
  }

  /** The identity an entity of this group is constructed with. */
  function EntityId(group: Group, digest: string): (id: Id)
    ensures Minted(Ref(group, id))
  {
    Prefix(group) + digest
  }

  function EntityIds(group: Group, digests: seq<string>): (ids: seq<Id>)
    ensures |ids| == |digests| && forall i | 0 <= i < |ids| :: ids[i] == EntityId(group, digests[i])
  {
    seq(|digests|, i requires 0 <= i < |digests| => EntityId(group, digests[i]))
  }

  /** What a producer's projection constructs: an entity and the entities it is linked to, by their digests. */
  datatype Produced = Produced(group: Group, digest: string, evaluations: seq<string>, findings: seq<string>, repairs: seq<string>)

  function Construct(p: Produced): (e: Entity)
    ensures Minted(Ref(p.group, e.id)) && RefersToMinted(e)
  {
    Entity(EntityId(p.group, p.digest), EntityIds(Evaluations, p.evaluations), EntityIds(Findings, p.findings),
           EntityIds(Repairs, p.repairs))
  }

  /** A reference to an identity as the entity constructor makes it. */
  predicate Minted(r: Ref) {
    Prefix(r.group) <= r.id
  }

  predicate AllMinted(refs: seq<Ref>) {
    forall r | r in refs :: Minted(r)
  }

  /** The entities of an index refer to identities of entities. */
  predicate RefersToMinted(e: Entity) {
    AllMinted(Dependencies(e))
  }

  /** The indexed details, each under its group and identity. */
  type Index = m: map<Ref, Entity> | forall r | r in m :: m[r].id == r.id

  /** Everything indexed, and everything it refers to, carries the prefix of its group. */
  predicate IndexMinted(index: Index) {
    forall r | r in index :: Minted(r) && RefersToMinted(index[r])
  }

  datatype Groups = Groups(evaluations: seq<Entity>, findings: seq<Entity>, repairs: seq<Entity>) {
    function Of(group: Group): seq<Entity> {
      match group
      case Evaluations => evaluations
      case Findings => findings
      case Repairs => repairs
    }

    function Push(group: Group, e: Entity): (r: Groups)
      ensures r.Of(group) == Of(group) + [e]
      ensures forall g | g != group :: r.Of(g) == Of(g)
    {
      match group
      case Evaluations => this.(evaluations := evaluations + [e])
      case Findings => this.(findings := findings + [e])
      case Repairs => this.(repairs := repairs + [e])
    }

    predicate Lists(r: Ref) {
      exists i | 0 <= i < |Of(r.group)| :: Of(r.group)[i].id == r.id
    }
  }

  /** A chain of `n` references leads from a root to `r`. */
  ghost predicate ReachesIn(index: Index, roots: seq<Ref>, r: Ref, n: nat)
    decreases n
  {
    if n == 0 then r in roots
    else exists p: Ref :: p in index && DependsOn(index[p], r) && ReachesIn(index, roots, p, n - 1)
  }

  ghost predicate Reaches(index: Index, roots: seq<Ref>, r: Ref) {
    exists n: nat :: ReachesIn(index, roots, r, n)
  }

  /** Every reachable reference resolves. */
  ghost predicate NothingDangles(index: Index, roots: seq<Ref>) {
    forall r: Ref | Reaches(index, roots, r) :: r in index
  }

  /** No identity is reachable in two groups. */
  ghost predicate Unambiguous(index: Index, roots: seq<Ref>) {
    forall r: Ref, s: Ref | Reaches(index, roots, r) && Reaches(index, roots, s) && r.id == s.id :: r.group == s.group
  }

  predicate AllIn(index: Index, listed: seq<Ref>) {
    forall k | 0 <= k < |listed| :: listed[k] in index
  }

  /** The groups after pushing these references in order. */
  function Built(index: Index, listed: seq<Ref>): Groups
    requires AllIn(index, listed)
  {
    if listed == [] then Groups([], [], [])
    else
      var last := listed[|listed| - 1];
      Built(index, listed[..|listed| - 1]).Push(last.group, index[last])
  }

  predicate DistinctIds(listed: seq<Ref>) {
    forall i, j | 0 <= i < j < |listed| :: listed[i].id != listed[j].id
  }

  /** No identity is listed twice, in one group or in two. */
  predicate ListedOnce(result: Groups) {
    && (forall g: Group, i, j | 0 <= i < j < |result.Of(g)| :: result.Of(g)[i].id != result.Of(g)[j].id)
    && (forall g: Group, h: Group, i, j | g != h && 0 <= i < |result.Of(g)| && 0 <= j < |result.Of(h)| ::
          result.Of(g)[i].id != result.Of(h)[j].id)
  }

  /** The result lists exactly the entities of the reachable references. */
  ghost predicate Exact(index: Index, roots: seq<Ref>, result: Groups) {
    && (forall r: Ref :: result.Lists(r) <==> Reaches(index, roots, r))
    && (forall g: Group, e | e in result.Of(g) :: Ref(g, e.id) in index && index[Ref(g, e.id)] == e)
  }

  /** The prefix of an identity tells its group. */
  lemma PrefixesTellGroups(r: Ref, s: Ref)
    requires Minted(r) && Minted(s) && r.id == s.id
    ensures r.group == s.group
  {
    assert r.id[0] == Prefix(r.group)[0] && s.id[0] == Prefix(s.group)[0];
  }

  lemma {:induction false} ReachableIsMinted(index: Index, roots: seq<Ref>, r: Ref, n: nat)
    requires IndexMinted(index) && AllMinted(roots) && ReachesIn(index, roots, r, n)
    ensures Minted(r)
    decreases n
  {
    if n > 0 {
      var p: Ref :| p in index && DependsOn(index[p], r) && ReachesIn(index, roots, p, n - 1);
      assert r in Dependencies(index[p]);
    }
  }

  /** So no identity is reachable in two groups, and following identities alone loses nothing. */
  lemma MintedIsUnambiguous(index: Index, roots: seq<Ref>)
    requires IndexMinted(index) && AllMinted(roots)
    ensures Unambiguous(index, roots)
  {
    forall r: Ref, s: Ref | Reaches(index, roots, r) && Reaches(index, roots, s) && r.id == s.id
      ensures r.group == s.group
    {
      var n: nat :| ReachesIn(index, roots, r, n);
      var k: nat :| ReachesIn(index, roots, s, k);
      ReachableIsMinted(index, roots, r, n);
      ReachableIsMinted(index, roots, s, k);
      PrefixesTellGroups(r, s);
    }
  }

  // ---------------------------------------------------------------- the closure

  function IdsOf(index: Index): set<Id> {
    set r | r in index :: r.id
  }

  predicate VisitedAre(visited: set<Id>, listed: seq<Ref>) {
    && (forall k | 0 <= k < |listed| :: listed[k].id in visited)
    && (forall id | id in visited :: exists k | 0 <= k < |listed| :: listed[k].id == id)
  }

  /** Everything met so far is reachable. */
  ghost predicate Sound(index: Index, roots: seq<Ref>, refs: seq<Ref>) {
    forall k | 0 <= k < |refs| :: Reaches(index, roots, refs[k])
  }

  predicate Handled(r: Ref, visited: set<Id>, queue: seq<Ref>) {
    r.id in visited || r in queue
  }

  /** The roots and the dependencies of what is listed are visited, by identity, or still queued. */
  ghost predicate Followed(index: Index, roots: seq<Ref>, listed: seq<Ref>, visited: set<Id>, queue: seq<Ref>)
    requires AllIn(index, listed)
  {
    && (forall r | r in roots :: Handled(r, visited, queue))
    && (forall k, d | 0 <= k < |listed| && DependsOn(index[listed[k]], d) :: Handled(d, visited, queue))
  }

  lemma RootsReach(index: Index, roots: seq<Ref>)
    ensures Sound(index, roots, roots)
  {
    forall k | 0 <= k < |roots| ensures Reaches(index, roots, roots[k]) {
      assert ReachesIn(index, roots, roots[k], 0);
    }
  }

  lemma DependenciesReach(index: Index, roots: seq<Ref>, r: Ref)
    requires r in index && Reaches(index, roots, r)
    ensures Sound(index, roots, Dependencies(index[r]))
  {
    var n: nat :| ReachesIn(index, roots, r, n);
    var deps := Dependencies(index[r]);
    forall k | 0 <= k < |deps| ensures Reaches(index, roots, deps[k]) {
      assert ReachesIn(index, roots, deps[k], n + 1);
    }
  }

  lemma {:induction false} BuiltLists(index: Index, listed: seq<Ref>)
    requires AllIn(index, listed)
    ensures forall r :: Built(index, listed).Lists(r) <==> r in listed
    ensures forall g: Group, e | e in Built(index, listed).Of(g) :: Ref(g, e.id) in listed && index[Ref(g, e.id)] == e
    ensures DistinctIds(listed) ==> ListedOnce(Built(index, listed))
  {
    if listed != [] {
      var n := |listed| - 1;
      var last, before := listed[n], Built(index, listed[..n]);
      BuiltLists(index, listed[..n]);
      assert listed == listed[..n] + [last];
      PushLists(before, last.group, index[last]);
      if DistinctIds(listed) {
        forall r | before.Lists(r) ensures r.id != last.id {
          var k :| 0 <= k < n && listed[k] == r;
        }
        PushOnce(before, last.group, index[last]);
      }
    }
  }

  lemma PushLists(groups: Groups, group: Group, e: Entity)
    ensures forall r :: groups.Push(group, e).Lists(r) <==> groups.Lists(r) || r == Ref(group, e.id)
  {
    var after := groups.Push(group, e);
    forall r ensures after.Lists(r) <==> groups.Lists(r) || r == Ref(group, e.id) {
      if groups.Lists(r) {
        var i :| 0 <= i < |groups.Of(r.group)| && groups.Of(r.group)[i].id == r.id;
        assert after.Of(r.group)[i].id == r.id;
      }
      if r == Ref(group, e.id) { assert after.Of(group)[|groups.Of(group)|].id == r.id; }
    }
  }

  lemma PushOnce(groups: Groups, group: Group, e: Entity)
    requires ListedOnce(groups) && forall r | groups.Lists(r) :: r.id != e.id
    ensures ListedOnce(groups.Push(group, e))
  {
    var after := groups.Push(group, e);
    forall g: Group, i | 0 <= i < |groups.Of(g)| ensures groups.Of(g)[i].id != e.id {
      assert groups.Lists(Ref(g, groups.Of(g)[i].id));
    }
    forall g: Group, i, j | 0 <= i < j < |after.Of(g)| ensures after.Of(g)[i].id != after.Of(g)[j].id {
      assert after.Of(g)[i] == groups.Of(g)[i];
    }
    forall g: Group, h: Group, i, j | g != h && 0 <= i < |after.Of(g)| && 0 <= j < |after.Of(h)|
      ensures after.Of(g)[i].id != after.Of(h)[j].id
    {
      assert i < |groups.Of(g)| ==> after.Of(g)[i] == groups.Of(g)[i];
      assert j < |groups.Of(h)| ==> after.Of(h)[j] == groups.Of(h)[j];
    }
  }

  lemma VisitedIsListed(index: Index, roots: seq<Ref>, listed: seq<Ref>, visited: set<Id>, r: Ref)
    requires VisitedAre(visited, listed) && Sound(index, roots, listed) && Unambiguous(index, roots)
    requires r.id in visited && Reaches(index, roots, r)
    ensures r in listed
  {
    var j :| 0 <= j < |listed| && listed[j].id == r.id;
    assert Reaches(index, roots, listed[j]);
    assert listed[j].group == r.group;
  }

  ghost predicate DependenciesWithin(e: Entity, s: set<Ref>) {
    forall d | DependsOn(e, d) :: d in s
  }

  /** Every root is in the set, and with a reference its entity's dependencies. */
  ghost predicate Sealed(index: Index, roots: seq<Ref>, s: set<Ref>) {
    && (forall r | r in roots :: r in s)
    && (forall p | p in s && p in index :: DependenciesWithin(index[p], s))
  }

  lemma {:induction false} SealedCovers(index: Index, roots: seq<Ref>, s: set<Ref>, r: Ref, n: nat)
    requires Sealed(index, roots, s) && ReachesIn(index, roots, r, n)
    ensures r in s
    decreases n
  {
    if n > 0 {
      var p: Ref :| p in index && DependsOn(index[p], r) && ReachesIn(index, roots, p, n - 1);
      SealedCovers(index, roots, s, p, n - 1);
      assert DependenciesWithin(index[p], s);
    }
  }

  /** When nothing is queued any more and no identity is shared, what is listed is sealed. */
  lemma NothingLeft(index: Index, roots: seq<Ref>, listed: seq<Ref>, visited: set<Id>)
    requires AllIn(index, listed) && Followed(index, roots, listed, visited, []) && VisitedAre(visited, listed)
    requires Sound(index, roots, listed) && Unambiguous(index, roots)
    ensures Sealed(index, roots, set x | x in listed)
  {
    RootsReach(index, roots);
    forall r | r in roots ensures r in listed {
      assert Handled(r, visited, []);
      var k :| 0 <= k < |roots| && roots[k] == r;
      VisitedIsListed(index, roots, listed, visited, r);
    }
    forall k, d | 0 <= k < |listed| && DependsOn(index[listed[k]], d) ensures d in listed {
      assert Handled(d, visited, []);
      DependenciesReach(index, roots, listed[k]);
      var deps := Dependencies(index[listed[k]]);
      var j :| 0 <= j < |deps| && deps[j] == d;
      VisitedIsListed(index, roots, listed, visited, d);
    }
  }

  lemma Finished(index: Index, roots: seq<Ref>, listed: seq<Ref>, visited: set<Id>)
    requires AllIn(index, listed) && Followed(index, roots, listed, visited, []) && VisitedAre(visited, listed)
    requires Sound(index, roots, listed) && DistinctIds(listed) && Unambiguous(index, roots)
    ensures ListedOnce(Built(index, listed)) && Exact(index, roots, Built(index, listed))
    ensures NothingDangles(index, roots)
  {
    BuiltLists(index, listed);
    NothingLeft(index, roots, listed, visited);
    forall r | Reaches(index, roots, r) ensures r in listed {
      var n: nat :| ReachesIn(index, roots, r, n);
      SealedCovers(index, roots, (set x | x in listed), r, n);
    }
  }

  /** The breadth-first search so far. */
  ghost predicate Closing(index: Index, roots: seq<Ref>, result: Groups, visited: set<Id>, listed: seq<Ref>, queue: seq<Ref>) {
    && AllIn(index, listed) && result == Built(index, listed)
    && visited <= IdsOf(index) && VisitedAre(visited, listed) && DistinctIds(listed)
    && Sound(index, roots, listed) && Sound(index, roots, queue)
    && Followed(index, roots, listed, visited, queue)
  }

  lemma Skips(index: Index, roots: seq<Ref>, result: Groups, visited: set<Id>, listed: seq<Ref>, queue: seq<Ref>)
    requires Closing(index, roots, result, visited, listed, queue) && queue != [] && queue[0].id in visited
    ensures Closing(index, roots, result, visited, listed, queue[1..])
  {
    HandledStill(queue, visited, visited, queue[1..]);
  }

  /** The first queued reference may leave the queue once its identity is visited. */
  lemma HandledStill(queue: seq<Ref>, visited: set<Id>, later: set<Id>, rest: seq<Ref>)
    requires queue != [] && queue[0].id in later && visited <= later && forall x | x in queue[1..] :: x in rest
    ensures forall r | Handled(r, visited, queue) :: Handled(r, later, rest)
  {
    assert queue == [queue[0]] + queue[1..];
  }

  lemma Pushes(index: Index, roots: seq<Ref>, result: Groups, visited: set<Id>, listed: seq<Ref>, queue: seq<Ref>)
    requires Closing(index, roots, result, visited, listed, queue)
    requires queue != [] && queue[0].id !in visited && queue[0] in index
    ensures var ref := queue[0];
            Closing(index, roots, result.Push(ref.group, index[ref]), visited + {ref.id}, listed + [ref],
                    queue[1..] + Dependencies(index[ref]))
  {
    var ref := queue[0];
    var later, rest := visited + {ref.id}, queue[1..] + Dependencies(index[ref]);
    assert Reaches(index, roots, ref);
    DependenciesReach(index, roots, ref);
    HandledStill(queue, visited, later, rest);
    assert (listed + [ref])[..|listed|] == listed;
    VisitedGrows(visited, listed, ref);
    FollowedGrows(index, roots, listed, visited, queue, ref, later, rest);
  }

  lemma VisitedGrows(visited: set<Id>, listed: seq<Ref>, ref: Ref)
    requires VisitedAre(visited, listed) && DistinctIds(listed) && ref.id !in visited
    ensures VisitedAre(visited + {ref.id}, listed + [ref]) && DistinctIds(listed + [ref])
  {
    var after := listed + [ref];
    forall id | id in visited + {ref.id} ensures exists k | 0 <= k < |after| :: after[k].id == id {
      if id == ref.id { assert after[|listed|].id == id; }
      else {
        var k :| 0 <= k < |listed| && listed[k].id == id;
        assert after[k].id == id;
      }
    }
  }

  lemma FollowedGrows(index: Index, roots: seq<Ref>, listed: seq<Ref>, visited: set<Id>, queue: seq<Ref>, ref: Ref,
                      later: set<Id>, rest: seq<Ref>)
    requires AllIn(index, listed) && ref in index && Followed(index, roots, listed, visited, queue)
    requires forall r | Handled(r, visited, queue) :: Handled(r, later, rest)
    requires forall d | DependsOn(index[ref], d) :: d in rest
    ensures Followed(index, roots, listed + [ref], later, rest)
  {
  }

  class QueryDetailIndex {
    var entities: Index

    predicate Valid()
      reads this
    {
      IndexMinted(entities)
    }

    constructor ()
      ensures Valid() && entities == map[]
    {
      entities := map[];
    }

    /** Indexes a projected entity; refused if its identity already stands for another one. */
    method Add(p: Produced) returns (r: Result<Entity>)
      requires Valid()
      modifies this
      ensures Valid()
      ensures var e := Construct(p);
              var ref := Ref(p.group, e.id);
              if ref in old(entities) && old(entities)[ref] != e then r == Failure("AMBIGUOUS_REFERENCE") && entities == old(entities)
              else r == Success(e) && entities == old(entities)[ref := e]
    {
      var e := Construct(p);
      var ref := Ref(p.group, e.id);
      if ref in entities && entities[ref] != e { return Failure("AMBIGUOUS_REFERENCE"); }
      entities := entities[ref := e];
      return Success(e);
    }

    /**
     Fails if and only if a reachable reference dangles, and names one that does; otherwise lists exactly
     the entities of the reachable references, each once.
    */
    method ClosureFor(roots: seq<Ref>) returns (r: Result<Groups>)
      requires Valid() && AllMinted(roots)
      ensures r.Success? <==> NothingDangles(entities, roots)
      ensures r.Success? ==> Exact(entities, roots, r.value) && ListedOnce(r.value)
      ensures r.Failure? ==> exists d: Ref :: Reaches(entities, roots, d) && d !in entities && d.id == r.error
    {
      var queue := roots;
      var result := Groups([], [], []);
      var visited: set<Id> := {};
      ghost var listed: seq<Ref> := [];
      RootsReach(entities, roots);
      while queue != []
        invariant Closing(entities, roots, result, visited, listed, queue)
        decreases IdsOf(entities) - visited, |queue|
      {
        var ref := queue[0];
        if ref.id in visited {
          Skips(entities, roots, result, visited, listed, queue);
          queue := queue[1..];
        } else {
          if ref !in entities {
            assert Reaches(entities, roots, ref);
            return Failure(ref.id);
          }
          Pushes(entities, roots, result, visited, listed, queue);
          assert ref.id in IdsOf(entities);
          result := result.Push(ref.group, entities[ref]);
          visited := visited + {ref.id};
          queue := queue[1..] + Dependencies(entities[ref]);
          listed := listed + [ref];
        }
      }
      MintedIsUnambiguous(entities, roots);
      Finished(entities, roots, listed, visited);
      return Success(result);
    }
  }
}
