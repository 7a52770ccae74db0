/** The response validation of a metadata structure, and that it accepts exactly the valid structures. */
module QueryTreeValidation {
  import opened Wrappers
  import opened QueryTree

  // ---------------------------------------------------------------- facts about trees of nodes

  /** The nodes from `id` up to the root. */
  function Chain(m: Nodes, root: Id, id: Id, n: nat): (c: seq<Node>)
    requires Climbs(m, root, id, n)
    ensures |c| == n + 1 && c[0] == m[id]
    decreases n
  {
    [m[id]] + if n == 0 then [] else Chain(m, root, m[id].parentId.value, n - 1)
  }

  function FindFirst(nodes: seq<Node>, wanted: Wanted): Option<Id> {
    if nodes == [] then None
    else if Is(nodes[0], wanted) then Some(nodes[0].id)
    else FindFirst(nodes[1..], wanted)
  }

  lemma {:induction false} FirstInChainIsNearest(m: Nodes, root: Id, id: Id, n: nat, wanted: Wanted)
    requires Climbs(m, root, id, n) && forall k | k in m :: m[k].id == k
    ensures FindFirst(Chain(m, root, id, n), wanted) == Nearest(m, root, id, n, wanted)
    decreases n
  {
    var c := Chain(m, root, id, n);
    if n > 0 {
      FirstInChainIsNearest(m, root, m[id].parentId.value, n - 1, wanted);
      assert c[1..] == Chain(m, root, m[id].parentId.value, n - 1);
    } else {
      assert c[1..] == [];
    }
  }

  lemma {:induction false} ClimbIsUnique(m: Nodes, root: Id, id: Id, n: nat, k: nat)
    requires Climbs(m, root, id, n) && Climbs(m, root, id, k)
    ensures n == k
    decreases n
  {
    if n > 0 && k > 0 { ClimbIsUnique(m, root, m[id].parentId.value, n - 1, k - 1); }
  }

  /** In a tree every parent chain ends at the root. */
  lemma TreeClimbs(m: Nodes, root: Id, id: Id) returns (n: nat)
    requires IsTree(m, root) && id in m && forall k | k in m :: m[k].id == k
    ensures Climbs(m, root, id, n)
  {
    ghost var s := set k | k in m && exists n: nat :: Climbs(m, root, k, n);
    assert Climbs(m, root, root, 0);
    forall k, child | k in s && k in m && child in m[k].childIds ensures child in s {
      var d: nat :| Climbs(m, root, k, d);
      assert ChildrenResolve(m, m[k]);
      assert Climbs(m, root, child, d + 1);
    }
    assert ChildClosed(m, s);
    assert id in s;
    n :| Climbs(m, root, id, n);
  }

  /** In a tree every node but the root is listed by one node, its parent. */
  lemma TreeParent(m: Nodes, root: Id, id: Id)
    requires IsTree(m, root) && id in m && id != root && forall k | k in m :: m[k].id == k
    ensures m[id].parentId.Some? && m[id].parentId.value in m && id in m[m[id].parentId.value].childIds
    ensures forall p | p in m && id in m[p].childIds :: m[id].parentId == Some(p)
  {
    forall p | p in m && id in m[p].childIds ensures m[id].parentId == Some(p) {
      assert ChildrenResolve(m, m[p]);
    }
    if forall p | p in m :: id !in m[p].childIds {
      var s := m.Keys - {id};
      assert ChildClosed(m, s);
      assert false;
    }
  }

  // ---------------------------------------------------------------- sizes of sets

  lemma {:induction false} SizeIffDistinct(ids: seq<Id>)
    ensures |(set id | id in ids)| <= |ids|
    ensures |(set id | id in ids)| == |ids| <==> DistinctIds(ids)
  {
    if ids != [] {
      var n := |ids| - 1;
      var rest, last := ids[..n], ids[n];
      SizeIffDistinct(rest);
      var s := set id | id in rest;
      assert ids == rest + [last];
      assert (set id | id in ids) == s + {last};
      if last in rest {
        var i :| 0 <= i < n && rest[i] == last;
        assert s + {last} == s && ids[i] == ids[n];
      } else {
        assert |s + {last}| == |s| + 1;
        assert forall i | 0 <= i < n :: ids[i] == rest[i] && rest[i] in rest;
      }
    } else {
      assert (set id | id in ids) == {};
    }
  }

  lemma {:induction false} FullSubset<T>(s: set<T>, t: set<T>)
    requires s <= t && |s| == |t|
    ensures s == t
    decreases |s|
  {
    if s != t {
      var x :| x in t && x !in s;
      SubsetSize(s, t - {x});
    }
  }

  lemma {:induction false} SubsetSize<T>(s: set<T>, t: set<T>)
    requires s <= t
    ensures |s| <= |t|
    decreases |s|
  {
    if s != {} {
      var x :| x in s;
      SubsetSize(s - {x}, t - {x});
    }
  }

  predicate SameMembers(actual: seq<Id>, expected: seq<Id>) {
    (forall id | id in actual :: id in expected) && (forall id | id in expected :: id in actual)
  }

  lemma SetsOfMembers(actual: seq<Id>, expected: seq<Id>)
    ensures (set v | v in actual) == (set v | v in expected) <==> SameMembers(actual, expected)
  {
    var a, e := set v | v in actual, set v | v in expected;
    if a == e {
      forall id | id in actual ensures id in expected { assert id in a; }
      forall id | id in expected ensures id in actual { assert id in e; }
    }
  }

  lemma ByIdStep(nodes: seq<Node>)
    requires nodes != []
    ensures var n := |nodes| - 1;
            && ById(nodes) == ById(nodes[..n])[nodes[n].id := nodes[n]]
            && IdsOf(nodes) == IdsOf(nodes[..n]) + [nodes[n].id]
  {
    IdsOfInit(nodes);
  }

  lemma IdsOfInit(nodes: seq<Node>)
    requires nodes != []
    ensures IdsOf(nodes) == IdsOf(nodes[..|nodes| - 1]) + [nodes[|nodes| - 1].id]
  {
    var a, b := IdsOf(nodes), IdsOf(nodes[..|nodes| - 1]) + [nodes[|nodes| - 1].id];
    forall i | 0 <= i < |a| ensures a[i] == b[i] {
    }
  }

  lemma {:induction false} ByIdKeys(nodes: seq<Node>)
    ensures forall id :: id in ById(nodes) <==> id in IdsOf(nodes)
    ensures Keyed(ById(nodes))
  {
    if nodes != [] {
      ByIdStep(nodes);
      ByIdKeys(nodes[..|nodes| - 1]);
    }
  }

  lemma {:induction false} ByIdMember(nodes: seq<Node>, id: Id)
    requires id in ById(nodes)
    ensures ById(nodes)[id] in nodes && ById(nodes)[id].id == id
  {
    ByIdStep(nodes);
    if id != nodes[|nodes| - 1].id { ByIdMember(nodes[..|nodes| - 1], id); }
  }

  lemma ByIdSize(nodes: seq<Node>)
    ensures |ById(nodes)| == |nodes| <==> DistinctIds(IdsOf(nodes))
  {
    SizeIffDistinct(IdsOf(nodes));
    ByIdKeys(nodes);
    SizeOfMap(ById(nodes), set id | id in IdsOf(nodes));
  }

  lemma SizeOfMap(m: Nodes, keys: set<Id>)
    requires forall id :: id in m <==> id in keys
    ensures |m| == |keys|
  {
    assert m.Keys == keys;
    assert |m| == |m.Keys|;
  }

  // ---------------------------------------------------------------- the map of unique nodes

  lemma Parts(a: seq<Id>, b: seq<Id>)
    requires DistinctIds(a + b)
    ensures DistinctIds(a) && DistinctIds(b)
    ensures forall x | x in a :: x !in b
  {
    assert forall i | 0 <= i < |a| :: (a + b)[i] == a[i];
    assert forall i | 0 <= i < |b| :: (a + b)[|a| + i] == b[i];
  }

  lemma {:induction false} MapHolds(nodes: seq<Node>, i: nat)
    requires DistinctIds(IdsOf(nodes)) && i < |nodes|
    ensures nodes[i].id in ById(nodes) && ById(nodes)[nodes[i].id] == nodes[i]
  {
    var last := |nodes| - 1;
    ByIdStep(nodes);
    if i < last {
      Parts(IdsOf(nodes[..last]), [nodes[last].id]);
      MapHolds(nodes[..last], i);
      assert IdsOf(nodes[..last])[i] != nodes[last].id by { assert IdsOf(nodes[..last])[i] in IdsOf(nodes[..last]); }
    }
  }

  // ---------------------------------------------------------------- the traversal

  function PendingIds(pending: seq<Node>): set<Id> {
    set n | n in pending :: n.id
  }

  /** Nodes of the map, each under its own identity. */
  predicate Keyed(m: Nodes) {
    forall id | id in m :: m[id].id == id
  }

  predicate FromMap(m: Nodes, pending: seq<Node>) {
    forall n | n in pending :: n.id in m && m[n.id] == n
  }

  /** What has been found out so far is closed: a visited node's children are visited or pending. */
  predicate Followed(m: Nodes, visited: set<Id>, pending: set<Id>) {
    forall id | id in visited && id in m :: ChildrenResolve(m, m[id]) && ChildrenIn(m[id], visited + pending)
  }

  predicate ChildrenIn(node: Node, found: set<Id>) {
    forall c | c in node.childIds :: c in found
  }

  ghost predicate OnlyReachable(m: Nodes, root: Id, found: set<Id>) {
    forall s: set<Id> | root in s && ChildClosed(m, s) :: found <= s
  }

  /** In a tree what is found, the root apart, was found through its visited parent. */
  predicate ParentVisited(m: Nodes, root: Id, visited: set<Id>, id: Id) {
    id in m && id != root ==> m[id].parentId.Some? && m[id].parentId.value in visited
  }

  predicate FoundThroughParents(m: Nodes, root: Id, visited: set<Id>, pending: set<Id>) {
    visited !! pending && forall id | id in visited + pending :: ParentVisited(m, root, visited, id)
  }

  ghost predicate AllResolve(m: Nodes) {
    forall id | id in m :: ChildrenResolve(m, m[id])
  }

  /** The nodes the children of a node resolve to, in order. */
  function Resolved(m: Nodes, ids: seq<Id>): (r: seq<Node>)
    ensures forall n :: n in r <==> exists i | 0 <= i < |ids| :: ids[i] in m && m[ids[i]] == n
  {
    if ids == [] then []
    else
      var k := |ids| - 1;
      assert ids == ids[..k] + [ids[k]];
      Resolved(m, ids[..k]) + if ids[k] in m then [m[ids[k]]] else []
  }

  predicate FoundOnce(m: Nodes, root: Id, visited: set<Id>, pending: seq<Node>) {
    DistinctIds(IdsOf(pending)) && FoundThroughParents(m, root, visited, PendingIds(pending))
  }

  /** The traversal so far; `clean` says that it has found no error. */
  ghost predicate Traversed(m: Nodes, root: Id, visited: set<Id>, pending: seq<Node>, clean: bool) {
    && visited <= m.Keys && FromMap(m, pending)
    && root in visited + PendingIds(pending)
    && OnlyReachable(m, root, visited + PendingIds(pending))
    && (clean ==> Followed(m, visited, PendingIds(pending)))
    && (AllResolve(m) ==> clean && FoundOnce(m, root, visited, pending))
  }

  class Validation {
    var errors: seq<string>

    constructor ()
      ensures errors == []
    {
      errors := [];
    }

    method Check(condition: bool, path: string)
      modifies this
      ensures errors == old(errors) + if condition then [] else [path]
    {
      if !condition { errors := errors + [path]; }
    }

    method Unique(values: seq<Id>, path: string)
      modifies this
      ensures errors == old(errors) + if DistinctIds(values) then [] else [path]
    {
      SizeIffDistinct(values);
      var s := set v | v in values;
      Check(|s| == |values|, path);
    }

    method CheckSameIds(actual: seq<Id>, expected: seq<Id>, path: string)
      modifies this
      ensures |old(errors)| <= |errors|
      ensures |errors| == |old(errors)| <==> SameIds(actual, expected)
    {
      Unique(actual, path);
      var a := set v | v in actual;
      var e := set v | v in expected;
      if |a| == |e| && a <= e { FullSubset(a, e); }
      assert |a| == |e| && a <= e <==> a == e;
      assert a == e <==> SameMembers(actual, expected) by { SetsOfMembers(actual, expected); }
      Check(|a| == |e| && a <= e, path);
    }

    method PushChildren(m: Nodes, node: Node, pending: seq<Node>) returns (pushed: seq<Node>)
      requires Keyed(m)
      modifies this
      ensures |old(errors)| <= |errors|
      ensures |errors| == |old(errors)| <==> forall id | id in node.childIds :: id in m && m[id].parentId == Some(node.id)
      ensures pushed == pending + Resolved(m, node.childIds)
    {
      pushed := pending;
      var i := 0;
      assert node.childIds[..0] == [];
      while i < |node.childIds|
        invariant 0 <= i <= |node.childIds|
        invariant |old(errors)| <= |errors|
        invariant |errors| == |old(errors)| <==> forall k | 0 <= k < i :: node.childIds[k] in m && m[node.childIds[k]].parentId == Some(node.id)
        invariant pushed == pending + Resolved(m, node.childIds[..i])
      {
        var id := node.childIds[i];
        Check(id in m && m[id].parentId == Some(node.id), "childIds");
        if id in m { pushed := pushed + [m[id]]; }
        assert node.childIds[..i + 1][..i] == node.childIds[..i];
        i := i + 1;
      }
      assert node.childIds[..i] == node.childIds;
    }

    /** Follows children from the root; below a Flow root it adds no error exactly if they form one connected tree. */
    method Traverse(m: Nodes, root: Id)
      requires Keyed(m)
      modifies this
      ensures |old(errors)| <= |errors|
      ensures RootIsFlow(m, root) ==> (|errors| == |old(errors)| <==> IsTree(m, root))
    {
      ghost var rooted := RootIsFlow(m, root);
      var visited: set<Id> := {};
      var pending := if root in m then [m[root]] else [];
      if rooted { Starts(m, root); }
      while pending != []
        invariant |old(errors)| <= |errors|
        invariant visited <= m.Keys && FromMap(m, pending)
        invariant rooted ==> Traversed(m, root, visited, pending, |errors| == |old(errors)|)
        decreases m.Keys - visited, |pending|
      {
        var last := |pending| - 1;
        var node, rest := pending[last], pending[..last];
        assert pending == rest + [node];
        if node.id in visited {
          if rooted { Revisits(m, root, visited, rest, node, |errors| == |old(errors)|); }
          Check(false, "cycle");
          pending := rest;
        } else {
          ghost var clean := |errors| == |old(errors)|;
          Unique(node.childIds, "childIds");
          var pushed := PushChildren(m, node, rest);
          if rooted { Visits(m, root, visited, rest, node, pushed, clean, |errors| == |old(errors)|); }
          visited := visited + {node.id};
          pending := pushed;
        }
      }
      if rooted { AtTheEnd(m, root, visited, |errors| == |old(errors)|); }
      Check(|visited| == |m.Keys|, "connected");
    }

    /** The nodes from `node` up, as far as parents are known and none is met twice. */
    method Ancestors(m: Nodes, node: Node, ghost root: Id, ghost n: nat) returns (ancestors: seq<Node>)
      requires Keyed(m) && node.id in m && m[node.id] == node
      ensures RootIsFlow(m, root) && Climbs(m, root, node.id, n) ==> ancestors == Chain(m, root, node.id, n)
    {
      ancestors := [];
      var seen: set<Id> := {};
      var ancestor := Some(node);
      ghost var rising := RootIsFlow(m, root) && Climbs(m, root, node.id, n);
      ghost var c := if rising then Chain(m, root, node.id, n) else [];
      if rising { ChainHolds(m, root, node.id, n); }
      while ancestor.Some? && ancestor.value.id !in seen
        invariant seen <= m.Keys
        invariant ancestor.Some? ==> ancestor.value.id in m && m[ancestor.value.id] == ancestor.value
        invariant rising ==> Rises(c, ancestors, seen, ancestor)
        decreases m.Keys - seen
      {
        if rising { Climbing(m, c, ancestors, seen, ancestor.value); }
        seen := seen + {ancestor.value.id};
        ancestors := ancestors + [ancestor.value];
        var parentId := ancestor.value.parentId;
        ancestor := if parentId.None? || parentId.value !in m then None else Some(m[parentId.value]);
      }
      if rising && ancestor.Some? { Climbing(m, c, ancestors, seen, ancestor.value); }
    }

    /** Adds no error exactly if the nodes form one tree and the identity lists match them. */
    method CheckShape(v: Metadata)
      modifies this
      ensures |old(errors)| <= |errors|
      ensures |errors| == |old(errors)| <==> ValidShape(v)
    {
      var m := ById(v.nodes);
      ByIdSize(v.nodes);
      ByIdKeys(v.nodes);
      Check(|m| == |v.nodes|, "nodes");
      Check(RootIsFlow(m, v.rootNodeId), "rootNodeId");
      Check(|Select(v.nodes, Flows)| == 1, "nodes");
      CheckSameIds(v.stepIds, Select(v.nodes, Steps), "stepIds");
      CheckSameIds(v.taskIds, Select(v.nodes, Tasks), "taskIds");
      CheckSameIds(v.phaseIds, Select(v.nodes, Phases), "phaseIds");
      Check(v.phaseId in m, "phaseId");
      Traverse(m, v.rootNodeId);
    }

    /** For a node of a tree, adds no error exactly if it says what its nearest ancestors say. */
    method CheckNode(m: Nodes, node: Node, ghost root: Id, ghost n: nat)
      requires Keyed(m) && node.id in m
      modifies this
      ensures |old(errors)| <= |errors|
      ensures m[node.id] == node && RootIsFlow(m, root) && Climbs(m, root, node.id, n) ==>
                (|errors| == |old(errors)| <==> Inherits(m, root, node))
    {
      Check(RoleMatches(node), "role");
      var ancestors := Ancestors(m, m[node.id], root, n);
      Check(node.taskId == FindFirst(ancestors, Tasks), "taskId");
      Check(node.phaseId == FindFirst(ancestors, Phases), "phaseId");
      if m[node.id] == node && RootIsFlow(m, root) && Climbs(m, root, node.id, n) { InheritsIff(m, root, node, n, ancestors); }
    }

    method CheckNodeAt(v: Metadata, m: Nodes, i: nat, ghost sound: bool)
      requires i < |v.nodes| && m == ById(v.nodes) && (sound ==> ValidShape(v))
      modifies this
      ensures |old(errors)| <= |errors|
      ensures sound ==> (|errors| == |old(errors)| <==> Inherits(m, v.rootNodeId, v.nodes[i]))
    {
      ghost var n: nat := 0;
      if sound { n := NodeClimbs(v, i); }
      ByIdKeys(v.nodes);
      assert IdsOf(v.nodes)[i] in IdsOf(v.nodes);
      CheckNode(m, v.nodes[i], v.rootNodeId, n);
    }

    /** Accepts exactly the valid structures: no error is added if and only if the structure is valid. */
    method CheckMetadata(v: Metadata)
      modifies this
      ensures |old(errors)| <= |errors|
      ensures |errors| == |old(errors)| <==> Valid(v)
    {
      CheckShape(v);
      CheckNodes(v, |errors| == |old(errors)|);
      ValidIff(v);
    }

    method CheckNodes(v: Metadata, ghost sound: bool)
      requires sound ==> ValidShape(v)
      modifies this
      ensures |old(errors)| <= |errors|
      ensures sound ==> (|errors| == |old(errors)| <==> InheritUpTo(ById(v.nodes), v.rootNodeId, v.nodes, |v.nodes|))
    {
      var m := ById(v.nodes);
      var i := 0;
      while i < |v.nodes|
        invariant 0 <= i <= |v.nodes|
        invariant |old(errors)| <= |errors|
        invariant sound ==> (|errors| == |old(errors)| <==> InheritUpTo(m, v.rootNodeId, v.nodes, i))
      {
        CheckNodeAt(v, m, i, sound);
        i := i + 1;
      }
    }
  }

  ghost predicate InheritUpTo(m: Nodes, root: Id, nodes: seq<Node>, i: nat)
    requires i <= |nodes|
  {
    forall k | 0 <= k < i :: Inherits(m, root, nodes[k])
  }

  lemma ValidIff(v: Metadata)
    ensures Valid(v) <==> ValidShape(v) && InheritUpTo(ById(v.nodes), v.rootNodeId, v.nodes, |v.nodes|)
  {
  }

  ghost predicate ValidShape(v: Metadata) {
    var m := ById(v.nodes);
    && DistinctIds(IdsOf(v.nodes))
    && |Select(v.nodes, Flows)| == 1
    && SameIds(v.stepIds, Select(v.nodes, Steps))
    && SameIds(v.taskIds, Select(v.nodes, Tasks))
    && SameIds(v.phaseIds, Select(v.nodes, Phases))
    && v.phaseId in m
    && IsTree(m, v.rootNodeId)
  }

  /** In a well-shaped structure every listed node is the one the map holds, and climbs to the root. */
  lemma NodeClimbs(v: Metadata, i: nat) returns (n: nat)
    requires ValidShape(v) && i < |v.nodes|
    ensures v.nodes[i].id in ById(v.nodes) && ById(v.nodes)[v.nodes[i].id] == v.nodes[i]
    ensures Climbs(ById(v.nodes), v.rootNodeId, v.nodes[i].id, n)
  {
    MapHolds(v.nodes, i);
    ByIdKeys(v.nodes);
    n := TreeClimbs(ById(v.nodes), v.rootNodeId, v.nodes[i].id);
  }

  lemma InheritsIff(m: Nodes, root: Id, node: Node, n: nat, ancestors: seq<Node>)
    requires Keyed(m) && Climbs(m, root, node.id, n) && ancestors == Chain(m, root, node.id, n)
    ensures Inherits(m, root, node) <==>
              RoleMatches(node) && node.taskId == FindFirst(ancestors, Tasks) && node.phaseId == FindFirst(ancestors, Phases)
  {
    FirstInChainIsNearest(m, root, node.id, n, Tasks);
    FirstInChainIsNearest(m, root, node.id, n, Phases);
    forall k: nat | Climbs(m, root, node.id, k) ensures k == n {
      ClimbIsUnique(m, root, node.id, n, k);
    }
  }

  /** A parent chain, written out: each node is followed by its parent, the last has none, none occurs twice. */
  predicate IsChain(m: Nodes, c: seq<Node>) {
    Linked(m, c) && DistinctIds(IdsOf(c))
  }

  predicate Linked(m: Nodes, c: seq<Node>) {
    && c != [] && c[|c| - 1].parentId == None
    && forall j | 0 <= j < |c| - 1 :: c[j].parentId.Some? && c[j].parentId.value in m && c[j + 1] == m[c[j].parentId.value]
  }

  lemma {:induction false} ChainClimbs(m: Nodes, root: Id, id: Id, n: nat, j: nat)
    requires Keyed(m) && Climbs(m, root, id, n) && j <= n
    ensures Climbs(m, root, Chain(m, root, id, n)[j].id, n - j)
    decreases n
  {
    if j > 0 {
      ChainClimbs(m, root, m[id].parentId.value, n - 1, j - 1);
      assert Chain(m, root, id, n)[j] == Chain(m, root, m[id].parentId.value, n - 1)[j - 1];
    }
  }

  lemma {:induction false} ChainLinked(m: Nodes, root: Id, id: Id, n: nat)
    requires RootIsFlow(m, root) && Climbs(m, root, id, n)
    ensures Linked(m, Chain(m, root, id, n))
    decreases n
  {
    if n > 0 {
      var parent := m[id].parentId.value;
      ChainLinked(m, root, parent, n - 1);
      assert Chain(m, root, id, n) == [m[id]] + Chain(m, root, parent, n - 1);
    }
  }

  lemma ChainHolds(m: Nodes, root: Id, id: Id, n: nat)
    requires Keyed(m) && RootIsFlow(m, root) && Climbs(m, root, id, n)
    ensures IsChain(m, Chain(m, root, id, n))
  {
    ChainLinked(m, root, id, n);
    var c := Chain(m, root, id, n);
    forall i, j | 0 <= i < j < |c| ensures c[i].id != c[j].id {
      ChainsDiffer(m, root, id, n, i, j);
    }
  }

  lemma ChainsDiffer(m: Nodes, root: Id, id: Id, n: nat, i: nat, j: nat)
    requires Keyed(m) && Climbs(m, root, id, n) && i < j <= n
    ensures Chain(m, root, id, n)[i].id != Chain(m, root, id, n)[j].id
  {
    var c := Chain(m, root, id, n);
    var a, b := c[i].id, c[j].id;
    assert Climbs(m, root, a, n - i) by { ChainClimbs(m, root, id, n, i); }
    assert Climbs(m, root, b, n - j) by { ChainClimbs(m, root, id, n, j); }
    DifferentClimbs(m, root, a, n - i, b, n - j);
  }

  lemma DifferentClimbs(m: Nodes, root: Id, a: Id, n: nat, b: Id, k: nat)
    requires Climbs(m, root, a, n) && Climbs(m, root, b, k) && n != k
    ensures a != b
  {
    if a == b { ClimbIsUnique(m, root, a, n, k); }
  }

  /** The climb so far along a chain. */
  predicate Rises(c: seq<Node>, ancestors: seq<Node>, seen: set<Id>, ancestor: Option<Node>) {
    && ancestors <= c && seen == PendingIds(ancestors)
    && ancestor == if |ancestors| < |c| then Some(c[|ancestors|]) else None
  }

  lemma Climbing(m: Nodes, c: seq<Node>, ancestors: seq<Node>, seen: set<Id>, a: Node)
    requires IsChain(m, c) && Rises(c, ancestors, seen, Some(a))
    ensures a.id !in seen
    ensures var parent := if a.parentId.None? || a.parentId.value !in m then None else Some(m[a.parentId.value]);
            Rises(c, ancestors + [a], seen + {a.id}, parent)
  {
    var k := |ancestors|;
    assert IdsOf(c)[k] == a.id;
    forall n | n in ancestors ensures n.id != a.id {
      var j :| 0 <= j < k && ancestors[j] == n;
      assert IdsOf(c)[j] == n.id;
    }
    assert PendingIds(ancestors + [a]) == PendingIds(ancestors) + {a.id};
  }

  lemma PopFacts(pending: seq<Node>)
    requires pending != []
    ensures PendingIds(pending) == PendingIds(pending[..|pending| - 1]) + {pending[|pending| - 1].id}
    ensures DistinctIds(IdsOf(pending)) ==> pending[|pending| - 1].id !in PendingIds(pending[..|pending| - 1])
    ensures DistinctIds(IdsOf(pending)) ==> DistinctIds(IdsOf(pending[..|pending| - 1]))
  {
    var last := |pending| - 1;
    assert pending == pending[..last] + [pending[last]];
    if DistinctIds(IdsOf(pending)) {
      forall n | n in pending[..last] ensures n.id != pending[last].id {
        var i :| 0 <= i < last && pending[i] == n;
        assert IdsOf(pending)[i] != IdsOf(pending)[last];
      }
      forall i, j | 0 <= i < j < last ensures IdsOf(pending[..last])[i] != IdsOf(pending[..last])[j] {
        assert IdsOf(pending)[i] != IdsOf(pending)[j];
      }
    }
  }

  lemma AtTheEnd(m: Nodes, root: Id, visited: set<Id>, clean: bool)
    requires Traversed(m, root, visited, [], clean) && RootIsFlow(m, root)
    ensures clean && |visited| == |m.Keys| <==> IsTree(m, root)
  {
    assert PendingIds([]) == {};
    if clean && |visited| == |m.Keys| { FullSubset(visited, m.Keys); }
    if IsTree(m, root) {
      assert AllResolve(m);
      assert ChildClosed(m, visited);
      assert visited == m.Keys;
    }
  }

  lemma {:induction false} ResolvedIds(m: Nodes, ids: seq<Id>)
    requires Keyed(m)
    ensures forall id :: id in PendingIds(Resolved(m, ids)) <==> id in ids && id in m
    ensures DistinctIds(ids) ==> DistinctIds(IdsOf(Resolved(m, ids)))
  {
    if ids != [] {
      var k := |ids| - 1;
      ResolvedIds(m, ids[..k]);
      assert ids == ids[..k] + [ids[k]];
      if ids[k] in m {
        if DistinctIds(ids) {
          assert forall i | 0 <= i < k :: ids[i] == ids[..k][i];
          assert ids[k] !in ids[..k];
        }
        JoinIds(Resolved(m, ids[..k]), [m[ids[k]]]);
        assert PendingIds([m[ids[k]]]) == {ids[k]};
      } else {
        assert Resolved(m, ids) == Resolved(m, ids[..k]);
        assert DistinctIds(ids) ==> DistinctIds(ids[..k]);
      }
    }
  }

  lemma JoinIds(a: seq<Node>, b: seq<Node>)
    ensures PendingIds(a + b) == PendingIds(a) + PendingIds(b)
    ensures DistinctIds(IdsOf(a)) && DistinctIds(IdsOf(b)) && PendingIds(a) !! PendingIds(b) ==> DistinctIds(IdsOf(a + b))
  {
    assert IdsOf(a + b) == IdsOf(a) + IdsOf(b);
    forall i | 0 <= i < |a| ensures IdsOf(a)[i] in PendingIds(a) {
      assert a[i] in a;
    }
    forall i | 0 <= i < |b| ensures IdsOf(b)[i] in PendingIds(b) {
      assert b[i] in b;
    }
  }

  lemma ReachesKids(m: Nodes, root: Id, found: set<Id>, id: Id, kids: set<Id>)
    requires OnlyReachable(m, root, found) && id in found && id in m && forall k | k in kids :: k in m[id].childIds
    ensures OnlyReachable(m, root, found + kids)
  {
    forall s: set<Id> | root in s && ChildClosed(m, s) ensures found + kids <= s {
      assert found <= s;
    }
  }

  lemma FollowsKids(m: Nodes, visited: set<Id>, pending: set<Id>, id: Id, kids: set<Id>)
    requires Followed(m, visited, pending + {id}) && id in m && ChildrenResolve(m, m[id]) && ChildrenIn(m[id], kids)
    ensures Followed(m, visited + {id}, pending + kids)
  {
    forall k | k in visited + {id} && k in m
      ensures ChildrenResolve(m, m[k]) && ChildrenIn(m[k], visited + {id} + (pending + kids))
    {
    }
  }

  lemma FindsKidsOnce(m: Nodes, root: Id, visited: set<Id>, pending: set<Id>, id: Id, kids: set<Id>)
    requires RootIsFlow(m, root) && id !in visited && id in m && id !in pending
    requires FoundThroughParents(m, root, visited, pending + {id})
    requires forall k | k in kids :: k in m && m[k].parentId == Some(id)
    ensures kids !! visited + pending + {id}
    ensures FoundThroughParents(m, root, visited + {id}, pending + kids)
  {
    forall k | k in kids ensures k !in visited + pending + {id} {
      assert k in visited + (pending + {id}) ==> ParentVisited(m, root, visited, k);
    }
    forall k | k in visited + {id} + (pending + kids) ensures ParentVisited(m, root, visited + {id}, k) {
      assert k in visited + (pending + {id}) ==> ParentVisited(m, root, visited, k);
    }
  }

  /** One step down: `node`, on top of `rest`, becomes visited and its children pending. */
  lemma PushFacts(m: Nodes, root: Id, visited: set<Id>, rest: seq<Node>, node: Node, pushed: seq<Node>)
    requires Keyed(m) && node.id in m && m[node.id] == node && FromMap(m, rest) && RootIsFlow(m, root)
    requires pushed == rest + Resolved(m, node.childIds)
    requires node.id !in visited
    ensures FromMap(m, pushed) && PendingIds(rest) <= PendingIds(pushed)
    ensures OnlyReachable(m, root, visited + PendingIds(rest) + {node.id}) ==>
              OnlyReachable(m, root, visited + {node.id} + PendingIds(pushed))
    ensures Followed(m, visited, PendingIds(rest) + {node.id}) && ChildrenResolve(m, node) ==>
              Followed(m, visited + {node.id}, PendingIds(pushed))
    ensures AllResolve(m) && FoundOnce(m, root, visited, rest + [node]) ==> FoundOnce(m, root, visited + {node.id}, pushed)
  {
    var kids := Resolved(m, node.childIds);
    ResolvedIds(m, node.childIds);
    JoinIds(rest, kids);
    if OnlyReachable(m, root, visited + PendingIds(rest) + {node.id}) {
      ReachesKids(m, root, visited + PendingIds(rest) + {node.id}, node.id, PendingIds(kids));
      assert visited + PendingIds(rest) + {node.id} + PendingIds(kids) == visited + {node.id} + PendingIds(pushed);
    }
    if Followed(m, visited, PendingIds(rest) + {node.id}) && ChildrenResolve(m, node) {
      FollowsKids(m, visited, PendingIds(rest), node.id, PendingIds(kids));
    }
    if AllResolve(m) && FoundOnce(m, root, visited, rest + [node]) {
      PopFacts(rest + [node]);
      assert (rest + [node])[..|rest|] == rest;
      assert ChildrenResolve(m, node);
      FindsKidsOnce(m, root, visited, PendingIds(rest), node.id, PendingIds(kids));
    }
  }

  lemma Starts(m: Nodes, root: Id)
    requires Keyed(m) && RootIsFlow(m, root)
    ensures Traversed(m, root, {}, [m[root]], true)
  {
    assert PendingIds([m[root]]) == {root};
  }

  /** A node met again; in a tree that does not happen. */
  lemma Revisits(m: Nodes, root: Id, visited: set<Id>, rest: seq<Node>, node: Node, clean: bool)
    requires Traversed(m, root, visited, rest + [node], clean) && node.id in visited
    ensures Traversed(m, root, visited, rest, false)
  {
    JoinIds(rest, [node]);
    assert PendingIds([node]) == {node.id};
    assert visited + PendingIds(rest + [node]) == visited + PendingIds(rest);
  }

  lemma Visits(m: Nodes, root: Id, visited: set<Id>, rest: seq<Node>, node: Node, pushed: seq<Node>, clean: bool, stillClean: bool)
    requires Keyed(m) && RootIsFlow(m, root)
    requires Traversed(m, root, visited, rest + [node], clean) && node.id !in visited
    requires pushed == rest + Resolved(m, node.childIds)
    requires stillClean <==> clean && ChildrenResolve(m, node)
    ensures Traversed(m, root, visited + {node.id}, pushed, stillClean)
    ensures node.id in m
  {
    JoinIds(rest, [node]);
    assert PendingIds([node]) == {node.id};
    assert node in rest + [node];
    forall n | n in rest ensures n.id in m && m[n.id] == n {
      assert n in rest + [node];
    }
    PushFacts(m, root, visited, rest, node, pushed);
    assert visited + PendingIds(rest + [node]) == visited + PendingIds(rest) + {node.id};
  }
}
