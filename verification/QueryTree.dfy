/**
 The node structure of a metadata response. `Structure.Walk` flattens a state tree in pre-order and
 hands phase and Task down; `Validation` is the separately written check of a response: it follows
 `childIds` down from the root and `parentId` up from every node.
*/
module QueryTree {
  import opened Wrappers

  type Id = string
  datatype Kind = FlowKind | TaskKind | StepKind
  datatype Role = FlowRole | TaskRole | PhaseRole | GroupRole | StepRole

  /** A saved state node; `defined` says whether the Definition knows a Step of this name. */
  datatype Tree = Tree(id: Id, kind: Kind, defined: bool, steps: seq<Tree>)

  datatype Node = Node(id: Id, kind: Kind, role: Role, parentId: Option<Id>, childIds: seq<Id>,
                       phaseId: Option<Id>, taskId: Option<Id>)

  // ---------------------------------------------------------------- producer

  function RoleOf(t: Tree, parentId: Option<Id>, rootId: Id): Role {
    match t.kind
    case FlowKind => FlowRole
    case TaskKind => TaskRole
    case StepKind =>
      if !t.defined then GroupRole
      else if parentId == Some(rootId) then PhaseRole
      else if t.steps != [] then GroupRole
      else StepRole
  }

  function View(t: Tree, parentId: Option<Id>, phaseId: Option<Id>, taskId: Option<Id>, rootId: Id): Node {
    var role := RoleOf(t, parentId, rootId);
    Node(t.id, t.kind, role, parentId, seq(|t.steps|, i requires 0 <= i < |t.steps| => t.steps[i].id),
         if role == PhaseRole then Some(t.id) else phaseId,
         if t.kind == TaskKind then Some(t.id) else taskId)
  }

  /** The pre-order list of views of a tree. */
  function Flatten(t: Tree, parentId: Option<Id>, phaseId: Option<Id>, taskId: Option<Id>, rootId: Id): seq<Node>
    decreases t, |t.steps| + 1
  {
    var view := View(t, parentId, phaseId, taskId, rootId);
    [view] + FlattenFrom(t, 0, view.phaseId, view.taskId, rootId)
  }

  function FlattenFrom(t: Tree, i: nat, phaseId: Option<Id>, taskId: Option<Id>, rootId: Id): seq<Node>
    requires i <= |t.steps|
    decreases t, |t.steps| - i
  {
    if i == |t.steps| then []
    else Flatten(t.steps[i], Some(t.id), phaseId, taskId, rootId) + FlattenFrom(t, i + 1, phaseId, taskId, rootId)
  }

  class Structure {
    var nodes: seq<Node>
    const rootNodeId: Id

    constructor (root: Tree)
      ensures nodes == Flatten(root, None, None, None, root.id) && rootNodeId == root.id
    {
      nodes := [];
      rootNodeId := root.id;
      new;
      Walk(root, None, None, None);
    }

    method Walk(t: Tree, parentId: Option<Id>, inheritedPhaseId: Option<Id>, taskId: Option<Id>)
      modifies this
      ensures nodes == old(nodes) + Flatten(t, parentId, inheritedPhaseId, taskId, rootNodeId)
      decreases t
    {
      var view := View(t, parentId, inheritedPhaseId, taskId, rootNodeId);
      nodes := nodes + [view];
      var i := 0;
      while i < |t.steps|
        invariant 0 <= i <= |t.steps|
        invariant nodes + FlattenFrom(t, i, view.phaseId, view.taskId, rootNodeId)
               == old(nodes) + Flatten(t, parentId, inheritedPhaseId, taskId, rootNodeId)
      {
        Walk(t.steps[i], Some(t.id), view.phaseId, view.taskId);
        i := i + 1;
      }
    }
  }

  // ---------------------------------------------------------------- what a valid structure is

  type Nodes = map<Id, Node>

  predicate DistinctIds(ids: seq<Id>) {
    forall i, j | 0 <= i < j < |ids| :: ids[i] != ids[j]
  }

  function IdsOf(nodes: seq<Node>): (ids: seq<Id>)
    ensures |ids| == |nodes| && forall i | 0 <= i < |nodes| :: ids[i] == nodes[i].id
  {
    seq(|nodes|, i requires 0 <= i < |nodes| => nodes[i].id)
  }

  datatype Wanted = Flows | Tasks | Steps | Phases

  predicate Is(n: Node, wanted: Wanted) {
    match wanted
    case Flows => n.kind == FlowKind
    case Tasks => n.kind == TaskKind
    case Steps => n.kind == StepKind
    case Phases => n.role == PhaseRole
  }

  /** The identities of the nodes of one kind or role, in list order. */
  function Select(nodes: seq<Node>, wanted: Wanted): (ids: seq<Id>)
    ensures forall id :: id in ids <==> exists n :: n in nodes && Is(n, wanted) && n.id == id
  {
    if nodes == [] then []
    else
      assert nodes == [nodes[0]] + nodes[1..];
      (if Is(nodes[0], wanted) then [nodes[0].id] else []) + Select(nodes[1..], wanted)
  }

  /** Later nodes win, as in `new Map(entries)`. */
  function ById(nodes: seq<Node>): Nodes {
    if nodes == [] then map[]
    else ById(nodes[..|nodes| - 1])[nodes[|nodes| - 1].id := nodes[|nodes| - 1]]
  }

  predicate ChildrenResolve(m: Nodes, node: Node) {
    && DistinctIds(node.childIds)
    && forall id | id in node.childIds :: id in m && m[id].parentId == Some(node.id)
  }

  predicate ChildClosed(m: Nodes, s: set<Id>) {
    forall id, child | id in s && id in m && child in m[id].childIds :: child in s
  }

  /** Following children from the root reaches every node: no smaller set is closed under it. */
  ghost predicate Connected(m: Nodes, root: Id) {
    forall s: set<Id> | root in s && ChildClosed(m, s) :: m.Keys <= s
  }

  predicate RootIsFlow(m: Nodes, root: Id) {
    root in m && m[root].kind == FlowKind && m[root].parentId == None
  }

  ghost predicate IsTree(m: Nodes, root: Id) {
    && RootIsFlow(m, root)
    && (forall id | id in m :: ChildrenResolve(m, m[id]))
    && Connected(m, root)
  }

  /** The parent chain of a node ends at the root after exactly `n` steps. */
  predicate Climbs(m: Nodes, root: Id, id: Id, n: nat)
    decreases n
  {
    && id in m
    && if n == 0 then id == root
       else id != root && m[id].parentId.Some? && Climbs(m, root, m[id].parentId.value, n - 1)
  }

  /** The nearest node at or above `id` that is a Task, or a phase. */
  function Nearest(m: Nodes, root: Id, id: Id, n: nat, wanted: Wanted): Option<Id>
    requires Climbs(m, root, id, n)
    decreases n
  {
    if Is(m[id], wanted) then Some(id)
    else if n == 0 then None
    else Nearest(m, root, m[id].parentId.value, n - 1, wanted)
  }

  predicate RoleMatches(n: Node) {
    match n.kind
    case StepKind => n.role in {PhaseRole, GroupRole, StepRole}
    case TaskKind => n.role == TaskRole
    case FlowKind => n.role == FlowRole
  }

  /** Every node says what its nearest ancestors say. */
  ghost predicate Inherits(m: Nodes, root: Id, node: Node) {
    && RoleMatches(node)
    && (forall n: nat | Climbs(m, root, node.id, n) ::
          node.taskId == Nearest(m, root, node.id, n, Tasks) && node.phaseId == Nearest(m, root, node.id, n, Phases))
  }

  datatype Metadata = Metadata(rootNodeId: Id, phaseId: Id, stepIds: seq<Id>, taskIds: seq<Id>, phaseIds: seq<Id>, nodes: seq<Node>)

  predicate SameIds(actual: seq<Id>, expected: seq<Id>) {
    DistinctIds(actual) && (forall id | id in actual :: id in expected) && (forall id | id in expected :: id in actual)
  }

  ghost predicate Valid(v: Metadata) {
    var m := ById(v.nodes);
    && DistinctIds(IdsOf(v.nodes))
    && |Select(v.nodes, Flows)| == 1
    && SameIds(v.stepIds, Select(v.nodes, Steps))
    && SameIds(v.taskIds, Select(v.nodes, Tasks))
    && SameIds(v.phaseIds, Select(v.nodes, Phases))
    && v.phaseId in m
    && IsTree(m, v.rootNodeId)
    && forall i | 0 <= i < |v.nodes| :: Inherits(m, v.rootNodeId, v.nodes[i])
  }
}
