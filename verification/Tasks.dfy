/** The task graph in compressed sparse row form, what makes it well formed, and the task
    registry. */
module Tasks {
  import opened Collections

  const MAX_NODES: nat := 256
  const PHASES: nat := 4
  const INPUT: nat := 0

  /** A task id; phases are numbered Input, Simulation, PostSimulation, Output. */
  datatype TaskNode = TaskNode(id: nat, phaseId: nat, dependencyOffset: nat, childCount: nat, parentCount: nat)

  datatype PhaseRange = PhaseRange(begin: nat, count: nat)

  datatype TaskGraph = TaskGraph(
    nodes: seq<TaskNode>,
    childTaskIds: seq<nat>,
    phaseRanges: seq<PhaseRange>,
    taskIdToNodeIndex: seq<nat>)

  predicate IsTask(g: TaskGraph, id: nat) {
    && id < |g.taskIdToNodeIndex|
    && g.taskIdToNodeIndex[id] < |g.nodes|
    && g.nodes[g.taskIdToNodeIndex[id]].id == id
  }

  function GetNode(g: TaskGraph, id: nat): TaskNode
    requires IsTask(g, id)
  {
    g.nodes[g.taskIdToNodeIndex[id]]
  }

  /** An edge is the `slot`-th entry in the child list of task `parent`. */
  datatype Edge = Edge(parent: nat, slot: nat)

  predicate IsEdge(g: TaskGraph, e: Edge) {
    && IsTask(g, e.parent)
    && e.slot < GetNode(g, e.parent).childCount
    && GetNode(g, e.parent).dependencyOffset + e.slot < |g.childTaskIds|
  }

  function ChildOf(g: TaskGraph, e: Edge): nat
    requires IsEdge(g, e)
  {
    g.childTaskIds[GetNode(g, e.parent).dependencyOffset + e.slot]
  }

  function AllEdges(g: TaskGraph): set<Edge> {
    set p, j | 0 <= p < |g.taskIdToNodeIndex| && 0 <= j < |g.childTaskIds| && IsEdge(g, Edge(p, j)) :: Edge(p, j)
  }

  /** The edges that lead into task `c`. */
  function Incoming(g: TaskGraph, c: nat): set<Edge> {
    set e | e in AllEdges(g) && IsEdge(g, e) && ChildOf(g, e) == c
  }

  lemma EdgesComplete(g: TaskGraph, e: Edge)
    requires IsEdge(g, e)
    ensures e in AllEdges(g) && e in Incoming(g, ChildOf(g, e))
  {
  }

  ghost predicate HasEdge(g: TaskGraph, p: nat, c: nat) {
    exists e :: e in Incoming(g, c) && e.parent == p
  }

  /** A walk along the edges, from parent to child. */
  ghost predicate IsWalk(g: TaskGraph, walk: seq<nat>) {
    forall i {:trigger walk[i]} :: 0 < i < |walk| ==> HasEdge(g, walk[i - 1], walk[i])
  }

  ghost predicate Acyclic(g: TaskGraph) {
    forall walk: seq<nat> {:trigger IsWalk(g, walk)} :: IsWalk(g, walk) && |walk| > 1 ==> walk[0] != walk[|walk| - 1]
  }

  /** What the design asks of a graph before it may be run. */
  ghost predicate WellFormed(g: TaskGraph) {
    && |g.taskIdToNodeIndex| == MAX_NODES
    && |g.nodes| <= MAX_NODES
    && |g.phaseRanges| == PHASES
    && (forall n {:trigger g.nodes[n]} :: 0 <= n < |g.nodes| ==>
          && g.nodes[n].id < MAX_NODES && g.taskIdToNodeIndex[g.nodes[n].id] == n
          && g.nodes[n].phaseId < PHASES
          && g.nodes[n].dependencyOffset + g.nodes[n].childCount <= |g.childTaskIds|
          && g.nodes[n].parentCount == |Incoming(g, g.nodes[n].id)|)
    && (forall k, n {:trigger g.phaseRanges[k], g.nodes[n]} :: 0 <= k < PHASES && 0 <= n < |g.nodes| ==>
          (g.phaseRanges[k].begin <= n < g.phaseRanges[k].begin + g.phaseRanges[k].count <==> g.nodes[n].phaseId == k))
    && (forall k {:trigger g.phaseRanges[k]} :: 0 <= k < PHASES ==>
          g.phaseRanges[k].begin + g.phaseRanges[k].count <= |g.nodes|)
    && (forall e :: e in AllEdges(g) ==>
          IsEdge(g, e) && IsTask(g, ChildOf(g, e)) &&
          GetNode(g, e.parent).phaseId <= GetNode(g, ChildOf(g, e)).phaseId)
    && Acyclic(g)
  }

  predicate InPhase(g: TaskGraph, id: nat, k: nat) {
    IsTask(g, id) && GetNode(g, id).phaseId == k
  }

  // ---- every nonempty set of tasks has a member without a parent in the set ----

  lemma LongerWalk(g: TaskGraph, p: nat, walk: seq<nat>)
    requires IsWalk(g, walk) && |walk| >= 1 && HasEdge(g, p, walk[0])
    ensures IsWalk(g, [p] + walk)
  {
    hide HasEdge;
  }

  lemma NoParentOnWalk(g: TaskGraph, p: nat, walk: seq<nat>)
    requires Acyclic(g) && IsWalk(g, walk) && |walk| >= 1 && HasEdge(g, p, walk[0])
    ensures p !in walk
  {
    hide HasEdge;
    LongerWalk(g, p, walk);
    forall k | 0 <= k < |walk| ensures walk[k] != p {
      var cycle := ([p] + walk)[..k + 2];
      assert IsWalk(g, cycle);
      assert cycle[|cycle| - 1] == walk[k];
    }
  }

  lemma {:induction false} ClimbToMinimal(g: TaskGraph, pending: set<nat>, walk: seq<nat>) returns (m: nat)
    requires Acyclic(g) && IsWalk(g, walk) && |walk| >= 1 && Distinct(walk)
    requires forall x :: x in walk ==> x in pending
    ensures m in pending && forall p :: p in pending ==> !HasEdge(g, p, m)
    decreases |pending| - |walk|
  {
    hide HasEdge, IsWalk, Acyclic;
    if p :| p in pending && HasEdge(g, p, walk[0]) {
      NoParentOnWalk(g, p, walk);
      LongerWalk(g, p, walk);
      DistinctFits([p] + walk, pending);
      m := ClimbToMinimal(g, pending, [p] + walk);
    } else {
      m := walk[0];
    }
  }

  /** The argument behind progress: among unfinished tasks, one waits for none of the others. */
  lemma MinimalTask(g: TaskGraph, pending: set<nat>) returns (m: nat)
    requires Acyclic(g) && pending != {}
    ensures m in pending && forall p :: p in pending ==> !HasEdge(g, p, m)
  {
    var x :| x in pending;
    assert IsWalk(g, [x]);
    m := ClimbToMinimal(g, pending, [x]);
  }

  // ---- the registry ----

  /** A task function; `None` is the null pointer. */
  datatype TaskFunction = None | Function(name: nat)

  class TaskRegistry {
    var registry: seq<TaskFunction>

    ghost predicate Valid()
      reads this
    {
      |registry| == MAX_NODES
    }

    constructor ()
      ensures Valid() && forall id :: 0 <= id < MAX_NODES ==> registry[id] == None
    {
      registry := seq(MAX_NODES, _ => None);
    }

    method Register(id: nat, function_: TaskFunction) returns (ok: bool)
      requires Valid()
      modifies this
      ensures Valid()
      ensures ok <==> id < 256
      ensures registry == if ok then old(registry)[id := function_] else old(registry)
      ensures forall other :: Resolve(other) == if ok && other == id then function_ else old(Resolve(other))
    {
      if id >= MAX_NODES {
        return false;
      }
      registry := registry[id := function_];
      return true;
    }

    function Resolve(id: nat): (f: TaskFunction)
      requires Valid()
      reads this
      ensures f == if id < 256 then registry[id] else None
    {
      if id >= MAX_NODES then None else registry[id]
    }

    predicate IsRegistered(id: nat)
      requires Valid()
      reads this
    {
      Resolve(id) != None
    }

    /** Validation succeeds exactly when every node's function can be resolved, and then every id
        that the run will index with is within the fixed arrays. */
    method Validate(g: TaskGraph) returns (ok: bool)
      requires Valid()
      ensures ok <==> forall n :: 0 <= n < |g.nodes| ==> g.nodes[n].id < 256 && registry[g.nodes[n].id] != None
      ensures ok <==> forall n :: 0 <= n < |g.nodes| ==> Resolve(g.nodes[n].id) != None
    {
      var i := 0;
      while i < |g.nodes|
        invariant 0 <= i <= |g.nodes|
        invariant forall n :: 0 <= n < i ==> Resolve(g.nodes[n].id) != None
      {
        if !IsRegistered(g.nodes[i].id) {
          return false;
        }
        i := i + 1;
      }
      return true;
    }
  }
}
