/** Producer and validation agree: what the projector flattens is valid, and what is valid is one rooted tree. */
module QueryTreeAgreement {
  import opened Wrappers
  import opened QueryTree
  import opened QueryTreeValidation

  /** The identities of a state tree, in pre-order. */
  function Ids(t: Tree): seq<Id>
    decreases t, |t.steps| + 1
  {
    [t.id] + IdsFrom(t, 0)
  }

  function IdsFrom(t: Tree, i: nat): seq<Id>
    requires i <= |t.steps|
    decreases t, |t.steps| - i
  {
    if i == |t.steps| then [] else Ids(t.steps[i]) + IdsFrom(t, i + 1)
  }

  predicate FlowFree(t: Tree) {
    t.kind != FlowKind && forall i | 0 <= i < |t.steps| :: FlowFree(t.steps[i])
  }

  /** A saved state: unique identities, and the root is its only Flow node. */
  predicate SavedState(t: Tree) {
    DistinctIds(Ids(t)) && t.kind == FlowKind && forall i | 0 <= i < |t.steps| :: FlowFree(t.steps[i])
  }

  /** The structure the projector returns for a state tree. */
  function Project(t: Tree, phaseId: Id): Metadata {
    var nodes := Flatten(t, None, None, None, t.id);
    Metadata(t.id, phaseId, Select(nodes, Steps), Select(nodes, Tasks), Select(nodes, Phases), nodes)
  }

  // ---------------------------------------------------------------- the flattened list

  lemma {:induction false} FlattenedIds(t: Tree, parentId: Option<Id>, phaseId: Option<Id>, taskId: Option<Id>, rootId: Id)
    ensures IdsOf(Flatten(t, parentId, phaseId, taskId, rootId)) == Ids(t)
    decreases t, |t.steps| + 1
  {
    var view := View(t, parentId, phaseId, taskId, rootId);
    FlattenedIdsFrom(t, 0, view.phaseId, view.taskId, rootId);
    assert IdsOf(Flatten(t, parentId, phaseId, taskId, rootId))
        == [t.id] + IdsOf(FlattenFrom(t, 0, view.phaseId, view.taskId, rootId));
  }

  lemma {:induction false} FlattenedIdsFrom(t: Tree, i: nat, phaseId: Option<Id>, taskId: Option<Id>, rootId: Id)
    requires i <= |t.steps|
    ensures IdsOf(FlattenFrom(t, i, phaseId, taskId, rootId)) == IdsFrom(t, i)
    decreases t, |t.steps| - i
  {
    if i < |t.steps| {
      FlattenedIds(t.steps[i], Some(t.id), phaseId, taskId, rootId);
      FlattenedIdsFrom(t, i + 1, phaseId, taskId, rootId);
      assert IdsOf(FlattenFrom(t, i, phaseId, taskId, rootId))
          == IdsOf(Flatten(t.steps[i], Some(t.id), phaseId, taskId, rootId)) + IdsOf(FlattenFrom(t, i + 1, phaseId, taskId, rootId));
    }
  }

  lemma {:induction false} ChildPart(t: Tree, j: nat, i: nat, phaseId: Option<Id>, taskId: Option<Id>, rootId: Id)
    requires j <= i < |t.steps|
    ensures forall n | n in Flatten(t.steps[i], Some(t.id), phaseId, taskId, rootId) :: n in FlattenFrom(t, j, phaseId, taskId, rootId)
    decreases i - j
  {
    if j < i { ChildPart(t, j + 1, i, phaseId, taskId, rootId); }
  }

  lemma {:induction false} PartOfChild(t: Tree, j: nat, phaseId: Option<Id>, taskId: Option<Id>, rootId: Id, n: Node) returns (i: nat)
    requires j <= |t.steps| && n in FlattenFrom(t, j, phaseId, taskId, rootId)
    ensures i < |t.steps| && n in Flatten(t.steps[i], Some(t.id), phaseId, taskId, rootId)
    decreases |t.steps| - j
  {
    if n in Flatten(t.steps[j], Some(t.id), phaseId, taskId, rootId) {
      i := j;
    } else {
      i := PartOfChild(t, j + 1, phaseId, taskId, rootId, n);
    }
  }

  // ---------------------------------------------------------------- identities of children

  lemma {:induction false} ChildIdIn(t: Tree, j: nat, i: nat)
    requires j <= i < |t.steps|
    ensures t.steps[i].id in IdsFrom(t, j)
    decreases i - j
  {
    if j < i { ChildIdIn(t, j + 1, i); } else { assert t.steps[i].id in Ids(t.steps[i]); }
  }

  lemma {:induction false} ChildrenDistinct(t: Tree, j: nat)
    requires j <= |t.steps| && DistinctIds(IdsFrom(t, j))
    ensures forall i, k | j <= i < k < |t.steps| :: t.steps[i].id != t.steps[k].id
    ensures forall i | j <= i < |t.steps| :: DistinctIds(Ids(t.steps[i]))
    decreases |t.steps| - j
  {
    if j < |t.steps| {
      Parts(Ids(t.steps[j]), IdsFrom(t, j + 1));
      ChildrenDistinct(t, j + 1);
      forall k | j < k < |t.steps| ensures t.steps[j].id != t.steps[k].id {
        ChildIdIn(t, j + 1, k);
        assert t.steps[j].id in Ids(t.steps[j]);
      }
    }
  }

  // ---------------------------------------------------------------- a flattened tree inside the map

  /** The map holds the views of the whole tree. */
  predicate Embedded(m: Nodes, t: Tree, parentId: Option<Id>, phaseId: Option<Id>, taskId: Option<Id>, rootId: Id) {
    forall n | n in Flatten(t, parentId, phaseId, taskId, rootId) :: n.id in m && m[n.id] == n
  }

  lemma ChildEmbedded(m: Nodes, t: Tree, i: nat, parentId: Option<Id>, phaseId: Option<Id>, taskId: Option<Id>, rootId: Id)
    requires Embedded(m, t, parentId, phaseId, taskId, rootId) && i < |t.steps|
    ensures var view := View(t, parentId, phaseId, taskId, rootId);
            && t.id in m && m[t.id] == view
            && Embedded(m, t.steps[i], Some(t.id), view.phaseId, view.taskId, rootId)
            && t.steps[i].id in m && m[t.steps[i].id] == View(t.steps[i], Some(t.id), view.phaseId, view.taskId, rootId)
  {
    var view := View(t, parentId, phaseId, taskId, rootId);
    assert view in Flatten(t, parentId, phaseId, taskId, rootId);
    ChildPart(t, 0, i, view.phaseId, view.taskId, rootId);
    var c := View(t.steps[i], Some(t.id), view.phaseId, view.taskId, rootId);
    assert c in Flatten(t.steps[i], Some(t.id), view.phaseId, view.taskId, rootId);
  }

  lemma {:induction false} ViewsResolve(m: Nodes, t: Tree, parentId: Option<Id>, phaseId: Option<Id>, taskId: Option<Id>, rootId: Id, n: Node)
    requires Embedded(m, t, parentId, phaseId, taskId, rootId) && DistinctIds(Ids(t))
    requires n in Flatten(t, parentId, phaseId, taskId, rootId)
    ensures ChildrenResolve(m, n)
    decreases t
  {
    var view := View(t, parentId, phaseId, taskId, rootId);
    Parts([t.id], IdsFrom(t, 0));
    ChildrenDistinct(t, 0);
    if n == view {
      forall i | 0 <= i < |t.steps| ensures t.steps[i].id in m && m[t.steps[i].id].parentId == Some(t.id) {
        ChildEmbedded(m, t, i, parentId, phaseId, taskId, rootId);
      }
    } else {
      var i := PartOfChild(t, 0, view.phaseId, view.taskId, rootId, n);
      ChildEmbedded(m, t, i, parentId, phaseId, taskId, rootId);
      ViewsResolve(m, t.steps[i], Some(t.id), view.phaseId, view.taskId, rootId, n);
    }
  }

  lemma {:induction false} ClosedSetCovers(m: Nodes, t: Tree, parentId: Option<Id>, phaseId: Option<Id>, taskId: Option<Id>, rootId: Id,
                                           s: set<Id>, n: Node)
    requires Embedded(m, t, parentId, phaseId, taskId, rootId) && ChildClosed(m, s) && t.id in s
    requires n in Flatten(t, parentId, phaseId, taskId, rootId)
    ensures n.id in s
    decreases t
  {
    var view := View(t, parentId, phaseId, taskId, rootId);
    if n != view {
      var i := PartOfChild(t, 0, view.phaseId, view.taskId, rootId, n);
      ChildEmbedded(m, t, i, parentId, phaseId, taskId, rootId);
      assert m[t.id].childIds[i] == t.steps[i].id;
      ClosedSetCovers(m, t.steps[i], Some(t.id), view.phaseId, view.taskId, rootId, s, n);
    }
  }

  /** What was handed down to a node is what its parent's chain says. */
  ghost predicate HandedDown(m: Nodes, root: Id, id: Id, phaseId: Option<Id>, taskId: Option<Id>, n: nat) {
    && Climbs(m, root, id, n)
    && taskId == Nearest(m, root, id, n, Tasks)
    && phaseId == Nearest(m, root, id, n, Phases)
  }

  lemma {:induction false} ViewsInherit(m: Nodes, t: Tree, parentId: Option<Id>, phaseId: Option<Id>, taskId: Option<Id>, rootId: Id,
                                        n: nat, node: Node) returns (k: nat)
    requires Embedded(m, t, parentId, phaseId, taskId, rootId)
    requires if n == 0 then t.id == rootId && parentId.None? && phaseId.None? && taskId.None?
             else t.id != rootId && parentId.Some? && HandedDown(m, rootId, parentId.value, phaseId, taskId, n - 1)
    requires rootId in m && m[rootId].parentId == None
    requires node in Flatten(t, parentId, phaseId, taskId, rootId)
    ensures RoleMatches(node) && HandedDown(m, rootId, node.id, node.phaseId, node.taskId, k)
    decreases t
  {
    var view := View(t, parentId, phaseId, taskId, rootId);
    assert view in Flatten(t, parentId, phaseId, taskId, rootId);
    assert m[t.id] == view;
    assert Climbs(m, rootId, t.id, n);
    assert HandedDown(m, rootId, t.id, view.phaseId, view.taskId, n);
    if node == view {
      k := n;
    } else {
      var i := PartOfChild(t, 0, view.phaseId, view.taskId, rootId, node);
      ChildEmbedded(m, t, i, parentId, phaseId, taskId, rootId);
      k := ViewsInherit(m, t.steps[i], Some(t.id), view.phaseId, view.taskId, rootId, n + 1, node);
    }
  }

  // ---------------------------------------------------------------- selections

  lemma SelectStep(nodes: seq<Node>, wanted: Wanted)
    requires nodes != []
    ensures Select(nodes, wanted) == (if Is(nodes[0], wanted) then [nodes[0].id] else []) + Select(nodes[1..], wanted)
    ensures IdsOf(nodes) == [nodes[0].id] + IdsOf(nodes[1..])
  {
  }

  lemma {:induction false} SelectedAreDistinct(nodes: seq<Node>, wanted: Wanted)
    requires DistinctIds(IdsOf(nodes))
    ensures DistinctIds(Select(nodes, wanted))
    ensures forall id | id in Select(nodes, wanted) :: id in IdsOf(nodes)
  {
    if nodes != [] {
      SelectStep(nodes, wanted);
      var id, ids, rest := nodes[0].id, IdsOf(nodes[1..]), Select(nodes[1..], wanted);
      Parts([id], ids);
      SelectedAreDistinct(nodes[1..], wanted);
      assert id in [id];
      if Is(nodes[0], wanted) { Prefixed(id, rest, ids); } else { assert Select(nodes, wanted) == rest; }
    }
  }

  lemma Prefixed(id: Id, rest: seq<Id>, ids: seq<Id>)
    requires DistinctIds(rest) && id !in ids && forall x | x in rest :: x in ids
    ensures DistinctIds([id] + rest) && forall x | x in [id] + rest :: x in [id] + ids
  {
    assert forall j | 0 <= j < |rest| :: rest[j] in rest;
  }

  lemma {:induction false} FlowFreeViews(t: Tree, parentId: Option<Id>, phaseId: Option<Id>, taskId: Option<Id>, rootId: Id, n: Node)
    requires FlowFree(t) && n in Flatten(t, parentId, phaseId, taskId, rootId)
    ensures n.kind != FlowKind
    decreases t
  {
    var view := View(t, parentId, phaseId, taskId, rootId);
    if n != view {
      var i := PartOfChild(t, 0, view.phaseId, view.taskId, rootId, n);
      FlowFreeViews(t.steps[i], Some(t.id), view.phaseId, view.taskId, rootId, n);
    }
  }

  lemma OneFlow(t: Tree)
    requires SavedState(t)
    ensures |Select(Flatten(t, None, None, None, t.id), Flows)| == 1
  {
    var nodes := Flatten(t, None, None, None, t.id);
    var view := View(t, None, None, None, t.id);
    assert nodes[0] == view && nodes[1..] == FlattenFrom(t, 0, view.phaseId, view.taskId, t.id);
    var rest := Select(nodes[1..], Flows);
    if rest != [] {
      assert rest[0] in rest;
      var n :| n in nodes[1..] && Is(n, Flows) && n.id == rest[0];
      var i := PartOfChild(t, 0, view.phaseId, view.taskId, t.id, n);
      FlowFreeViews(t.steps[i], Some(t.id), view.phaseId, view.taskId, t.id, n);
    }
  }

  // ---------------------------------------------------------------- agreement

  lemma MapHoldsNodes(nodes: seq<Node>)
    requires DistinctIds(IdsOf(nodes))
    ensures forall n | n in nodes :: n.id in ById(nodes) && ById(nodes)[n.id] == n
  {
    forall n | n in nodes ensures n.id in ById(nodes) && ById(nodes)[n.id] == n {
      var i :| 0 <= i < |nodes| && nodes[i] == n;
      MapHolds(nodes, i);
    }
  }

  lemma ProjectedIsTree(t: Tree)
    requires SavedState(t)
    ensures IsTree(ById(Flatten(t, None, None, None, t.id)), t.id)
  {
    var nodes := Flatten(t, None, None, None, t.id);
    var m := ById(nodes);
    FlattenedIds(t, None, None, None, t.id);
    MapHoldsNodes(nodes);
    ByIdKeys(nodes);
    assert Embedded(m, t, None, None, None, t.id);
    assert nodes[0] == View(t, None, None, None, t.id) && nodes[0] in nodes;
    forall id | id in m ensures ChildrenResolve(m, m[id]) {
      ByIdMember(nodes, id);
      ViewsResolve(m, t, None, None, None, t.id, m[id]);
    }
    forall s: set<Id> | t.id in s && ChildClosed(m, s) ensures m.Keys <= s {
      forall id | id in m ensures id in s {
        ByIdMember(nodes, id);
        ClosedSetCovers(m, t, None, None, None, t.id, s, m[id]);
      }
    }
  }

  /** Flattening a saved state gives a valid structure: the inherited Task and phase are the nearest ancestors. */
  lemma ProjectedIsValid(t: Tree, phaseId: Id)
    requires SavedState(t) && phaseId in Ids(t)
    ensures Valid(Project(t, phaseId))
  {
    var nodes := Flatten(t, None, None, None, t.id);
    var m := ById(nodes);
    FlattenedIds(t, None, None, None, t.id);
    MapHoldsNodes(nodes);
    ProjectedIsTree(t);
    OneFlow(t);
    SelectedAreDistinct(nodes, Steps);
    SelectedAreDistinct(nodes, Tasks);
    SelectedAreDistinct(nodes, Phases);
    forall i | 0 <= i < |nodes| ensures Inherits(m, t.id, nodes[i]) {
      assert nodes[i] in nodes && Embedded(m, t, None, None, None, t.id);
      var k := ViewsInherit(m, t, None, None, None, t.id, 0, nodes[i]);
      forall n: nat | Climbs(m, t.id, nodes[i].id, n) ensures n == k {
        ClimbIsUnique(m, t.id, nodes[i].id, n, k);
      }
    }
    assert phaseId in m by {
      var i :| 0 <= i < |Ids(t)| && Ids(t)[i] == phaseId;
      assert nodes[i].id == phaseId;
    }
  }

  /** Whatever the projector produces passes the validation. */
  method ValidateProjection(t: Tree, phaseId: Id) returns (errors: seq<string>)
    requires SavedState(t) && phaseId in Ids(t)
    ensures errors == []
  {
    var structure := new Structure(t);
    var nodes := structure.nodes;
    var validation := new Validation();
    ProjectedIsValid(t, phaseId);
    validation.CheckMetadata(Metadata(structure.rootNodeId, phaseId, Select(nodes, Steps), Select(nodes, Tasks), Select(nodes, Phases), nodes));
    errors := validation.errors;
  }

  /** Whatever passes the validation is one rooted tree: every node but the root is listed exactly under its parent, and its chain ends at the root. */
  method AcceptedIsOneTree(v: Metadata) returns (accepted: bool)
    ensures accepted ==> forall i | 0 <= i < |v.nodes| :: RootedUnder(v, v.nodes[i])
    ensures accepted <==> Valid(v)
  {
    var validation := new Validation();
    validation.CheckMetadata(v);
    accepted := validation.errors == [];
    if accepted {
      forall i | 0 <= i < |v.nodes| ensures RootedUnder(v, v.nodes[i]) {
        ValidIsRooted(v, i);
      }
    }
  }

  ghost predicate RootedUnder(v: Metadata, node: Node) {
    && (exists n: nat :: Climbs(ById(v.nodes), v.rootNodeId, node.id, n))
    && (node.id != v.rootNodeId ==>
          && node.parentId.Some?
          && forall j | 0 <= j < |v.nodes| :: node.id in v.nodes[j].childIds <==> v.nodes[j].id == node.parentId.value)
  }

  lemma ValidIsRooted(v: Metadata, i: nat)
    requires Valid(v) && i < |v.nodes|
    ensures RootedUnder(v, v.nodes[i])
  {
    var m, node := ById(v.nodes), v.nodes[i];
    ByIdKeys(v.nodes);
    var n := NodeClimbs(v, i);
    if node.id != v.rootNodeId {
      TreeParent(m, v.rootNodeId, node.id);
      forall j | 0 <= j < |v.nodes|
        ensures node.id in v.nodes[j].childIds <==> v.nodes[j].id == node.parentId.value
      {
        var k := NodeClimbs(v, j);
      }
    }
  }

  // ---------------------------------------------------------------- what is shown of each node

  /** `x` is a node of the tree, below `xParent`. */
  predicate Contains(t: Tree, parentId: Option<Id>, x: Tree, xParent: Option<Id>)
    decreases t
  {
    || (x == t && xParent == parentId)
    || exists i | 0 <= i < |t.steps| :: Contains(t.steps[i], Some(t.id), x, xParent)
  }

  /** A Step directly below the root is a phase, another one is a Step if it has none below it, and a group otherwise or when undefined. */
  predicate Shows(n: Node, x: Tree, xParent: Option<Id>, rootId: Id) {
    && n.id == x.id && n.kind == x.kind && n.parentId == xParent
    && |n.childIds| == |x.steps| && (forall i | 0 <= i < |x.steps| :: n.childIds[i] == x.steps[i].id)
    && (x.kind == FlowKind ==> n.role == FlowRole)
    && (x.kind == TaskKind ==> n.role == TaskRole)
    && (x.kind == StepKind ==>
          && (n.role == PhaseRole <==> x.defined && xParent == Some(rootId))
          && (n.role == StepRole <==> x.defined && xParent != Some(rootId) && x.steps == [])
          && (n.role == GroupRole <==> !x.defined || (xParent != Some(rootId) && x.steps != [])))
  }

  lemma {:induction false} EveryNodeIsShown(t: Tree, parentId: Option<Id>, phaseId: Option<Id>, taskId: Option<Id>, rootId: Id,
                                            x: Tree, xParent: Option<Id>) returns (n: Node)
    requires Contains(t, parentId, x, xParent)
    ensures n in Flatten(t, parentId, phaseId, taskId, rootId) && Shows(n, x, xParent, rootId)
    decreases t
  {
    var view := View(t, parentId, phaseId, taskId, rootId);
    if x == t && xParent == parentId {
      n := view;
    } else {
      var i :| 0 <= i < |t.steps| && Contains(t.steps[i], Some(t.id), x, xParent);
      n := EveryNodeIsShown(t.steps[i], Some(t.id), view.phaseId, view.taskId, rootId, x, xParent);
      ChildPart(t, 0, i, view.phaseId, view.taskId, rootId);
    }
  }

  /** Every node of a saved state is shown once, with its kind, parent, children and role. */
  lemma NodesAreShownAsSaved(t: Tree, x: Tree, xParent: Option<Id>) returns (n: Node)
    requires SavedState(t) && Contains(t, None, x, xParent)
    ensures n in Flatten(t, None, None, None, t.id) && Shows(n, x, xParent, t.id)
    ensures forall m | m in Flatten(t, None, None, None, t.id) && m.id == x.id :: m == n
  {
    n := EveryNodeIsShown(t, None, None, None, t.id, x, xParent);
    FlattenedIds(t, None, None, None, t.id);
    MapHoldsNodes(Flatten(t, None, None, None, t.id));
  }
}
