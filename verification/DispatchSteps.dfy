/** As long as nothing goes wrong, every step of the scheduler keeps its invariant; and what going
    wrong amounts to. */
module DispatchSteps {
  import opened Collections
  import opened Tasks
  import opened Dispatch

  // ---- what the invariant says at hand ----

  lemma NodeOfId(g: TaskGraph, n: nat)
    requires WellFormed(g) && n < |g.nodes|
    ensures IsTask(g, g.nodes[n].id) && g.nodes[n].id < MAX_NODES && GetNode(g, g.nodes[n].id) == g.nodes[n]
    ensures g.taskIdToNodeIndex[g.nodes[n].id] == n
  {
  }

  lemma NodeEdges(g: TaskGraph, id: nat, slot: nat)
    requires WellFormed(g) && IsTask(g, id) && slot < GetNode(g, id).childCount
    ensures IsEdge(g, Edge(id, slot)) && Edge(id, slot) in AllEdges(g) && IsTask(g, ChildOf(g, Edge(id, slot)))
    ensures Edge(id, slot) in Incoming(g, ChildOf(g, Edge(id, slot)))
    ensures GetNode(g, id).phaseId <= GetNode(g, ChildOf(g, Edge(id, slot))).phaseId
  {
    EdgesComplete(g, Edge(id, slot));
  }

  lemma GraphFits(g: TaskGraph)
    requires WellFormed(g)
    ensures IndicesFit(g)
  {
    forall n | 0 <= n < |g.nodes|
      ensures IsTask(g, g.nodes[n].id) && g.nodes[n].dependencyOffset + g.nodes[n].childCount <= |g.childTaskIds|
      ensures forall j :: g.nodes[n].dependencyOffset <= j < g.nodes[n].dependencyOffset + g.nodes[n].childCount ==>
                IsTask(g, g.childTaskIds[j])
    {
      NodeOfId(g, n);
      forall j | g.nodes[n].dependencyOffset <= j < g.nodes[n].dependencyOffset + g.nodes[n].childCount
        ensures IsTask(g, g.childTaskIds[j])
      {
        NodeEdges(g, g.nodes[n].id, j - g.nodes[n].dependencyOffset);
      }
    }
  }

  lemma InvFits(g: TaskGraph, s: State)
    requires Inv(g, s)
    ensures Shape(g, s) && IndicesFit(g) && MainFits(g, s) && |g.taskIdToNodeIndex| == MAX_NODES
  {
    GraphFits(g);
    hide WellFormed, HandsOk, QueueOk, ChosenOk, LogOk;
  }

  lemma WorkerOfInv(g: TaskGraph, s: State, w: nat)
    requires Inv(g, s) && w < |s.workers|
    ensures WorkerCanStep(g, s, w) && WorkerOk(g, s, w)
  {
    InvFits(g, s);
    hide WellFormed, IndicesFit, ChosenOk, LogOk, MainOk;
  }

  lemma QueueOfInv(g: TaskGraph, s: State)
    requires Inv(g, s)
    ensures Distinct(s.queue)
    ensures forall i {:trigger s.queue[i]} :: 0 <= i < |s.queue| ==>
      s.queue[i] < |s.status| && s.status[s.queue[i]] == Queued
  {
  }

  predicate UnderWay(st: Status) {
    !st.Pending? && !st.Done?
  }

  /** A task under way belongs to the current phase, and the main thread is inside ExecutePhase. */
  lemma UnderWayInPhase(g: TaskGraph, s: State, id: nat)
    requires Inv(g, s) && id < |s.status| && UnderWay(s.status[id])
    ensures !s.main.Outside? && !s.main.Building? && InPhase(g, id, s.phase) && s.remaining[id] == 0
  {
    hide AllEdges, EdgeDone, WellFormed, CountersOk, LogOk, ChosenOk, SeededUpTo;
    assert StatusOk(g, s, id);
  }

  lemma CarrierInPhase(g: TaskGraph, s: State, w: nat)
    requires Inv(g, s) && w < |s.workers| && Carries(s.workers[w])
    ensures var id := s.workers[w].id;
      id < |s.status| && UnderWay(s.status[id]) && InPhase(g, id, s.phase) && s.remaining[id] == 0
    ensures !s.main.Outside? && !s.main.Building?
  {
    hide AllEdges, EdgeDone, WellFormed, CountersOk, LogOk, ChosenOk, MainOk, QueueOk;
    assert WorkerOk(g, s, w);
    UnderWayInPhase(g, s, s.workers[w].id);
  }

  /** A task not in the queue yet finds room there. */
  lemma RoomFor(g: TaskGraph, s: State, id: nat)
    requires Inv(g, s) && id < |s.status| && s.status[id] != Queued
    ensures |s.queue| < MAX_NODES && id !in s.queue
  {
    hide Inv;
    QueueOfInv(g, s);
    assert |s.status| == MAX_NODES by { InvFits(g, s); }
    assert id !in s.queue;
    DistinctFits(s.queue + [id], UpTo(MAX_NODES));
  }

  // ---- histories that look the same to the counters ----

  ghost predicate Alike(g: TaskGraph, status: seq<Status>, status': seq<Status>) {
    && |status'| == |status|
    && (forall id {:trigger status[id]} {:trigger status'[id]} :: 0 <= id < |status| ==>
          (status'[id].Pending? <==> status[id].Pending?) && (status'[id].Done? <==> status[id].Done?) &&
          (status'[id].Picked? <==> status[id].Picked?))
    && (forall e {:trigger EdgeDone(status, e)} {:trigger EdgeDone(status', e)} :: e in AllEdges(g) ==>
          (EdgeDone(status', e) <==> EdgeDone(status, e)))
  }

  lemma SameUnprocessed(g: TaskGraph, status: seq<Status>, status': seq<Status>, c: nat)
    requires forall e {:trigger EdgeDone(status, e)} {:trigger EdgeDone(status', e)} :: e in AllEdges(g) ==>
               (EdgeDone(status', e) <==> EdgeDone(status, e))
    ensures Unprocessed(g, status', c) == Unprocessed(g, status, c)
  {
    hide EdgeDone, AllEdges;
  }

  lemma AlikeKeepsPhase(g: TaskGraph, s: State, s': State, n: nat)
    requires |s.remaining| == |s.status| && PhaseUnderWay(g, s, n) && Alike(g, s.status, s'.status)
    requires s'.phase == s.phase && s'.remaining == s.remaining
    ensures PhaseUnderWay(g, s', n)
  {
    hide AllEdges, EdgeDone;
    forall c ensures Unprocessed(g, s'.status, c) == Unprocessed(g, s.status, c) {
      SameUnprocessed(g, s.status, s'.status, c);
    }
  }

  /** What the main thread relies on, carried over a step of a worker. */
  lemma CarryMain(g: TaskGraph, s: State, s': State)
    requires Shape(g, s) && MainOk(g, s) && !s.main.Outside? && !s.main.Building?
    requires s'.phase == s.phase && s'.main == s.main && |s'.remaining| == |s'.status| == MAX_NODES
    requires forall n: nat {:trigger PhaseUnderWay(g, s', n)} :: PhaseUnderWay(g, s, n) ==> PhaseUnderWay(g, s', n)
    requires forall id: nat {:trigger PickedIs(s', id)} :: PickedIs(s, id) ==> PickedIs(s', id)
    ensures Shape(g, s') && MainOk(g, s')
  {
    assert s.phase < |g.phaseRanges|;
    hide WellFormed, PhaseUnderWay, PickedIs;
    var begin := g.phaseRanges[s.phase].begin;
    if s.main.Seeding? {
      assert PhaseUnderWay(g, s', begin + s.main.node);
    } else if s.main.SeedEnqueuing? || s.main.SeedCounting? {
      assert PhaseUnderWay(g, s', begin + s.main.node + 1);
    } else {
      assert PhaseUnderWay(g, s', |g.nodes|);
    }
  }

  /** A step within a phase that leaves the main thread where it is. */
  lemma AlikeKeepsMain(g: TaskGraph, s: State, s': State)
    requires Shape(g, s) && MainOk(g, s) && Alike(g, s.status, s'.status)
    requires s'.phase == s.phase && s'.main == s.main && s'.remaining == s.remaining
    requires !s.main.Outside? && !s.main.Building?
    ensures Shape(g, s') && MainOk(g, s')
  {
    assert |s'.status| == |s.status|;
    assert forall x {:trigger s'.status[x]} :: 0 <= x < |s.status| ==> (s'.status[x].Picked? <==> s.status[x].Picked?);
    hide AllEdges, EdgeDone, WellFormed, PhaseUnderWay, Alike, PickedIs;
    forall n: nat | PhaseUnderWay(g, s, n) ensures PhaseUnderWay(g, s', n) {
      AlikeKeepsPhase(g, s, s', n);
    }
    forall id: nat | PickedIs(s, id) ensures PickedIs(s', id) {
      PickedKept(s, s', id);
    }
    CarryMain(g, s, s');
  }

  lemma PickedKept(s: State, s': State, id: nat)
    requires |s'.status| == |s.status| && PickedIs(s, id)
    requires forall x {:trigger s'.status[x]} :: 0 <= x < |s.status| ==> (s'.status[x].Picked? <==> s.status[x].Picked?)
    ensures PickedIs(s', id)
  {
    assert s'.status[id].Picked?;
  }

  /** A step that only moves a pc, or the main thread on from its sleep. */
  lemma SameKeepsMain(g: TaskGraph, s: State, s': State)
    requires Shape(g, s) && MainOk(g, s)
    requires s'.phase == s.phase && s'.remaining == s.remaining && s'.status == s.status
    requires s'.log == s.log && s'.queue == s.queue
    requires s'.main == s.main || (s.main.Asleep? && s'.main.WaitCompare?)
    requires NobodyCarries(s) ==> NobodyCarries(s')
    ensures Shape(g, s') && MainOk(g, s')
  {
    hide AllEdges, EdgeDone, WellFormed, NobodyCarries;
  }

  lemma LogKept(g: TaskGraph, s: State, s': State)
    requires LogOk(g, s) && s'.log == s.log && |s'.status| == |s.status|
    requires forall id {:trigger s'.status[id]} {:trigger s.status[id]} :: 0 <= id < |s.status| ==>
               (Executed(s'.status[id]) <==> Executed(s.status[id]))
    ensures LogOk(g, s')
  {
    hide ParentsFirst, PhasesInOrder;
  }

  lemma ChosenKept(s: State, s': State)
    requires ChosenOk(s) && s'.chosen == s.chosen && |s'.status| == |s.status|
    requires forall id {:trigger s'.status[id]} {:trigger s.status[id]} :: 0 <= id < |s.status| ==>
               (s'.status[id].Pending? <==> s.status[id].Pending?)
    ensures ChosenOk(s')
  {
  }

  /** The task that is chosen now was not chosen before. */
  lemma ChooseOne(s: State, s': State, id: nat)
    requires ChosenOk(s) && s'.chosen == s.chosen + [id] && |s'.status| == |s.status| && id < |s.status|
    requires s.status[id].Pending? && !s'.status[id].Pending?
    requires forall x {:trigger s'.status[x]} {:trigger s.status[x]} :: 0 <= x < |s.status| && x != id ==>
               (s'.status[x].Pending? <==> s.status[x].Pending?)
    ensures ChosenOk(s')
  {
  }

  // ---- worker steps ----

  lemma DequeueKeepsInv(g: TaskGraph, s: State, w: nat)
    requires Inv(g, s) && w < |s.workers| && s.workers[w].Looking? && s.queue != []
    ensures WorkerCanStep(g, s, w) && Inv(g, WorkerNext(g, s, w))
  {
    hide AllEdges, WellFormed, MainOk, LogOk, ChosenOk, Incoming, IndicesFit;
    WorkerOfInv(g, s, w);
    var id := s.queue[0];
    var s' := WorkerNext(g, s, w);
    UnderWayInPhase(g, s, id);
    forall u | 0 <= u < |s'.workers| ensures WorkerOk(g, s', u) { assert WorkerOk(g, s, u); }
    forall x | 0 <= x < |s'.status| ensures StatusOk(g, s', x) { assert StatusOk(g, s, x); }
    assert Alike(g, s.status, s'.status);
    AlikeKeepsMain(g, s, s');
    LogKept(g, s, s');
    ChosenKept(s, s');
  }

  lemma ParentsExecuted(g: TaskGraph, s: State, id: nat, e: Edge)
    requires Inv(g, s) && IsTask(g, id) && id < |s.status| && s.remaining[id] == 0 && CountersOk(g, s)
      && e in Incoming(g, id)
    ensures e.parent in s.log
  {
    hide AllEdges, WellFormed, MainOk;
    assert Unprocessed(g, s.status, id) == {};
    assert e !in Unprocessed(g, s.status, id);
  }

  /** The appended task comes after its parents and in a phase no earlier than the others'. */
  lemma AppendKeepsLog(g: TaskGraph, log: seq<nat>, id: nat)
    requires Distinct(log) && ParentsFirst(g, log) && PhasesInOrder(g, log) && id !in log && IsTask(g, id)
    requires forall e :: e in Incoming(g, id) ==> e.parent in log
    requires forall i :: 0 <= i < |log| ==> GetNode(g, log[i]).phaseId <= GetNode(g, id).phaseId
    ensures Distinct(log + [id]) && ParentsFirst(g, log + [id]) && PhasesInOrder(g, log + [id])
  {
    hide AllEdges, Incoming;
    var longer := log + [id];
    forall i, e | 0 <= i < |longer| && e in Incoming(g, longer[i]) ensures e.parent in longer[..i] {
      assert longer[..i] == log[..i];
    }
  }

  lemma LogBelongsToPhase(g: TaskGraph, s: State, i: nat)
    requires Inv(g, s) && i < |s.log| && PhaseOk(g, s, s.phase, s.phase)
    ensures IsTask(g, s.log[i]) && GetNode(g, s.log[i]).phaseId <= s.phase
  {
    hide AllEdges, WellFormed, MainOk, CountersOk;
  }

  lemma UnderWayFacts(g: TaskGraph, s: State)
    requires Inv(g, s) && !s.main.Outside? && !s.main.Building?
    ensures PhaseOk(g, s, s.phase, s.phase) && CountersOk(g, s) && ReadyOk(g, s)
  {
    hide WellFormed, HandsOk, QueueOk, ChosenOk, LogOk, PhaseOk, CountersOk, ReadyOk, SeededUpTo;
  }

  lemma ExecuteKeepsLog(g: TaskGraph, s: State, w: nat)
    requires Inv(g, s) && w < |s.workers| && s.workers[w].Executing?
    ensures WorkerCanStep(g, s, w) && LogOk(g, WorkerNext(g, s, w))
  {
    hide AllEdges, WellFormed, MainOk, ParentsFirst, PhasesInOrder, CountersOk, ChosenOk, ReadyOk, PhaseOk, Incoming,
      IndicesFit;
    WorkerOfInv(g, s, w);
    CarrierInPhase(g, s, w);
    UnderWayFacts(g, s);
    var id := s.workers[w].id;
    forall e | e in Incoming(g, id) ensures e.parent in s.log { ParentsExecuted(g, s, id, e); }
    forall i | 0 <= i < |s.log| ensures IsTask(g, s.log[i]) && GetNode(g, s.log[i]).phaseId <= GetNode(g, id).phaseId {
      LogBelongsToPhase(g, s, i);
    }
    AppendKeepsLog(g, s.log, id);
  }

  lemma ExecuteKeepsInv(g: TaskGraph, s: State, w: nat)
    requires Inv(g, s) && w < |s.workers| && s.workers[w].Executing?
    ensures WorkerCanStep(g, s, w) && Inv(g, WorkerNext(g, s, w))
  {
    hide AllEdges, WellFormed, MainOk, LogOk, ChosenOk, Incoming, IndicesFit;
    ExecuteKeepsLog(g, s, w);
    WorkerOfInv(g, s, w);
    CarrierInPhase(g, s, w);
    var s' := WorkerNext(g, s, w);
    ExecuteKeepsHands(g, s, w);
    assert Alike(g, s.status, s'.status);
    hide HandsOk, QueueOk;
    AlikeKeepsMain(g, s, s');
    ChosenKept(s, s');
  }

  lemma ExecuteKeepsHands(g: TaskGraph, s: State, w: nat)
    requires Inv(g, s) && WorkerCanStep(g, s, w) && s.workers[w].Executing?
    ensures HandsOk(g, WorkerNext(g, s, w)) && QueueOk(g, WorkerNext(g, s, w))
  {
    hide AllEdges, WellFormed, MainOk, LogOk, ChosenOk, Incoming, IndicesFit;
    var s' := WorkerNext(g, s, w);
    assert WorkerOk(g, s, w);
    forall u | 0 <= u < |s'.workers| ensures WorkerOk(g, s', u) { assert WorkerOk(g, s, u); }
    forall x | 0 <= x < |s'.status| ensures StatusOk(g, s', x) { assert StatusOk(g, s, x); }
  }

  /** The load of the phase, the increment of the active counter and the two steps of the signal
      change no task's life. */
  lemma QuietKeepsInv(g: TaskGraph, s: State, w: nat)
    requires Inv(g, s) && w < |s.workers|
    requires s.workers[w].LoadPhase? || s.workers[w].Counting? || s.workers[w].EpochAdd? || s.workers[w].Notify?
    ensures WorkerCanStep(g, s, w) && Inv(g, WorkerNext(g, s, w))
  {
    hide AllEdges, WellFormed, MainOk, LogOk, ChosenOk, Incoming, IndicesFit;
    WorkerOfInv(g, s, w);
    var s' := WorkerNext(g, s, w);
    forall u | 0 <= u < |s'.workers| ensures WorkerOk(g, s', u) { assert WorkerOk(g, s, u); }
    forall x | 0 <= x < |s'.status| ensures StatusOk(g, s', x) { assert StatusOk(g, s, x); }
    SameKeepsMain(g, s, s');
    LogKept(g, s, s');
    ChosenKept(s, s');
  }

  lemma EnqueueKeepsInv(g: TaskGraph, s: State, w: nat)
    requires Inv(g, s) && w < |s.workers| && s.workers[w].Enqueuing?
    ensures WorkerCanStep(g, s, w) && Inv(g, WorkerNext(g, s, w)) && |s.queue| < MAX_NODES
  {
    hide AllEdges, WellFormed, MainOk, LogOk, ChosenOk, Incoming, IndicesFit;
    WorkerOfInv(g, s, w);
    var child := s.workers[w].child;
    RoomFor(g, s, child);
    CarrierInPhase(g, s, w);
    var s' := WorkerNext(g, s, w);
    forall u | 0 <= u < |s'.workers| ensures WorkerOk(g, s', u) { assert WorkerOk(g, s, u); }
    forall x | 0 <= x < |s'.status| ensures StatusOk(g, s', x) { assert StatusOk(g, s, x); }
    assert Alike(g, s.status, s'.status);
    AlikeKeepsMain(g, s, s');
    LogKept(g, s, s');
    ChosenKept(s, s');
  }

  // ---- releasing a child ----

  /** What the worker and the graph say about the edge that the next release step processes. */
  lemma ReleaseFacts(g: TaskGraph, s: State, w: nat) returns (e: Edge, child: nat)
    requires Inv(g, s) && w < |s.workers| && s.workers[w].Releasing? && WorkerFits(g, s.workers[w])
    requires s.workers[w].next < GetNode(g, s.workers[w].id).childCount
    ensures e == Edge(s.workers[w].id, s.workers[w].next) && e in AllEdges(g) && IsEdge(g, e) && child == ChildOf(g, e)
    ensures IsTask(g, child) && child < |s.status| && e in Incoming(g, child) && e in Unprocessed(g, s.status, child)
    ensures e.parent < |s.status| && s.status[e.parent] == Running(w, e.slot) && s.workers[w].phase == s.phase
    ensures s.remaining[child] == |Unprocessed(g, s.status, child)| > 0
    ensures s.status[child].Pending? && GetNode(g, child).phaseId >= s.phase && child != e.parent
    ensures !s.main.Outside? && !s.main.Building?
  {
    hide WellFormed, LogOk, ChosenOk, QueueOk, MainOk, AllEdges, PhaseOk;
    assert WorkerOk(g, s, w);
    e := Edge(s.workers[w].id, s.workers[w].next);
    CarrierInPhase(g, s, w);
    InvFits(g, s);
    NodeEdges(g, e.parent, e.slot);
    child := ChildOf(g, e);
    UnderWayFacts(g, s);
    assert e in Unprocessed(g, s.status, child);
  }

  lemma ReleaseCounters(g: TaskGraph, s: State, s': State, e: Edge)
    requires |s.remaining| == |s.status| == |s'.remaining| == |s'.status| && CountersOk(g, s)
    requires IsEdge(g, e) && e in Incoming(g, ChildOf(g, e)) && ChildOf(g, e) < |s.status| && IsTask(g, ChildOf(g, e))
    requires !EdgeDone(s.status, e) && EdgeDone(s'.status, e)
    requires forall x :: x in AllEdges(g) && x != e ==> (EdgeDone(s'.status, x) <==> EdgeDone(s.status, x))
    requires s'.remaining == s.remaining[ChildOf(g, e) := Decrement(s.remaining[ChildOf(g, e)])]
    ensures CountersOk(g, s')
  {
    hide AllEdges, EdgeDone, IsTask;
    forall c | 0 <= c < |s'.remaining| && IsTask(g, c) ensures s'.remaining[c] == |Unprocessed(g, s'.status, c)| {
      var before, after := Unprocessed(g, s.status, c), Unprocessed(g, s'.status, c);
      assert s.remaining[c] == |before|;
      if c == ChildOf(g, e) {
        assert after == before - {e};
      } else {
        assert after == before;
      }
    }
  }

  /** The step of a worker that has a child left to release. */
  lemma ReleaseIs(g: TaskGraph, s: State, w: nat, e: Edge, child: nat)
    requires WorkerCanStep(g, s, w) && s.workers[w].Releasing? && e == Edge(s.workers[w].id, s.workers[w].next)
    requires s.workers[w].next < GetNode(g, s.workers[w].id).childCount && IsEdge(g, e) && child == ChildOf(g, e)
    requires e.parent < |s.status| && child < |s.status| && IsTask(g, child)
    ensures var s' := WorkerNext(g, s, w); var phase := s.workers[w].phase;
      var chosen := s.remaining[child] == 1 && GetNode(g, child).phaseId == phase;
      && |s'.workers| == |s.workers|
      && s' == s.(remaining := s.remaining[child := Decrement(s.remaining[child])],
                  status := if chosen then s.status[e.parent := Running(w, e.slot + 1)][child := Due(w)]
                    else s.status[e.parent := Running(w, e.slot + 1)],
                  chosen := if chosen then s.chosen + [child] else s.chosen,
                  workers := s.workers[w := if chosen then Enqueuing(e.parent, phase, e.slot, child)
                    else Releasing(e.parent, phase, e.slot + 1)])
  {
    hide IndicesFit;
  }

  ghost predicate ReleaseStep(g: TaskGraph, s: State, s': State, w: nat, e: Edge, child: nat, chosen: bool) {
    && |s.status| == |s.remaining| == MAX_NODES && e.parent < |s.status| && child < |s.status| && w < |s.workers|
      && e.parent != child
    && s' == s.(remaining := s.remaining[child := Decrement(s.remaining[child])],
                status := if chosen then s.status[e.parent := Running(w, e.slot + 1)][child := Due(w)]
                  else s.status[e.parent := Running(w, e.slot + 1)],
                chosen := if chosen then s.chosen + [child] else s.chosen,
                workers := s.workers[w := if chosen then Enqueuing(e.parent, s.phase, e.slot, child)
                  else Releasing(e.parent, s.phase, e.slot + 1)])
    && s.status[e.parent] == Running(w, e.slot) && s.status[child].Pending?
    && s.workers[w] == Releasing(e.parent, s.phase, e.slot)
    && IsTask(g, e.parent) && IsTask(g, child) && e.slot < GetNode(g, e.parent).childCount
      && GetNode(g, child).phaseId >= s.phase
    && 0 < s.remaining[child]
    && (chosen <==> s.remaining[child] == 1 && GetNode(g, child).phaseId == s.phase)
  }

  lemma ReleaseKeepsHands(g: TaskGraph, s: State, s': State, w: nat, e: Edge, child: nat, chosen: bool)
    requires ReleaseStep(g, s, s', w, e, child, chosen)
    requires HandsOk(g, s) && QueueOk(g, s) && ChosenOk(s) && LogOk(g, s)
    ensures HandsOk(g, s') && QueueOk(g, s') && ChosenOk(s') && LogOk(g, s')
  {
    hide GetNode, LogOk, ChosenOk;
    forall u | 0 <= u < |s'.workers| ensures WorkerOk(g, s', u) { assert WorkerOk(g, s, u); }
    forall x | 0 <= x < |s'.status| ensures StatusOk(g, s', x) { assert StatusOk(g, s, x); }
    LogKept(g, s, s');
    if chosen { ChooseOne(s, s', child); } else { ChosenKept(s, s'); }
  }

  lemma ReleaseKeepsPhase(g: TaskGraph, s: State, s': State, w: nat, e: Edge, child: nat, chosen: bool, n: nat)
    requires ReleaseStep(g, s, s', w, e, child, chosen) && CountersOk(g, s')
    requires PhaseUnderWay(g, s, n)
    ensures PhaseUnderWay(g, s', n)
  {
    hide CountersOk;
  }

  lemma ReleaseEdges(g: TaskGraph, s: State, s': State, w: nat, e: Edge, child: nat, chosen: bool)
    requires ReleaseStep(g, s, s', w, e, child, chosen)
    ensures !EdgeDone(s.status, e) && EdgeDone(s'.status, e)
    ensures forall x :: x != e ==> (EdgeDone(s'.status, x) <==> EdgeDone(s.status, x))
  {
    hide GetNode, IsTask;
  }

  lemma ReleaseKeepsMain(g: TaskGraph, s: State, s': State, w: nat, e: Edge, child: nat, chosen: bool)
    requires Shape(g, s) && MainOk(g, s) && ReleaseStep(g, s, s', w, e, child, chosen)
    requires IsEdge(g, e) && e in Incoming(g, child) && child == ChildOf(g, e)
    requires !s.main.Outside? && !s.main.Building?
    ensures Shape(g, s') && MainOk(g, s')
  {
    hide AllEdges, WellFormed, PhaseUnderWay, Incoming, EdgeDone, GetNode;
    ReleaseEdges(g, s, s', w, e, child, chosen);
    assert CountersOk(g, s) by { PhaseHasCounters(g, s); }
    hide CountersOk;
    ReleaseCounters(g, s, s', e);
    forall n: nat | PhaseUnderWay(g, s, n) ensures PhaseUnderWay(g, s', n) {
      ReleaseKeepsPhase(g, s, s', w, e, child, chosen, n);
    }
    hide PickedIs;
    forall id: nat | PickedIs(s, id) ensures PickedIs(s', id) {
      PickedKept(s, s', id);
    }
    CarryMain(g, s, s');
  }

  lemma PhaseHasCounters(g: TaskGraph, s: State)
    requires Shape(g, s) && MainOk(g, s) && !s.main.Outside? && !s.main.Building?
    ensures CountersOk(g, s)
  {
    hide WellFormed, CountersOk, PhaseOk, ReadyOk, SeededUpTo;
  }

  lemma ReleaseKeepsInv(g: TaskGraph, s: State, w: nat)
    requires Inv(g, s) && WorkerCanStep(g, s, w) && s.workers[w].Releasing?
    requires s.workers[w].next < GetNode(g, s.workers[w].id).childCount
    ensures Inv(g, WorkerNext(g, s, w))
  {
    var e, child := ReleaseFacts(g, s, w);
    ReleaseIs(g, s, w, e, child);
    hide AllEdges, WellFormed, HandsOk, QueueOk, LogOk, ChosenOk, MainOk, Incoming, IndicesFit, Unprocessed, WorkerNext;
    var chosen := s.remaining[child] == 1 && GetNode(g, child).phaseId == s.phase;
    var s' := WorkerNext(g, s, w);
    assert ReleaseStep(g, s, s', w, e, child, chosen);
    hide ReleaseStep, WorkerCanStep;
    ReleaseKeepsHands(g, s, s', w, e, child, chosen);
    ReleaseKeepsMain(g, s, s', w, e, child, chosen);
  }

  lemma SubtractKeepsInv(g: TaskGraph, s: State, w: nat)
    requires Inv(g, s) && WorkerCanStep(g, s, w) && s.workers[w].Releasing?
    requires s.workers[w].next == GetNode(g, s.workers[w].id).childCount
    ensures Inv(g, WorkerNext(g, s, w))
  {
    hide AllEdges, WellFormed, LogOk, ChosenOk, MainOk, Incoming, IndicesFit;
    assert WorkerOk(g, s, w);
    CarrierInPhase(g, s, w);
    var s' := WorkerNext(g, s, w);
    forall u | 0 <= u < |s'.workers| ensures WorkerOk(g, s', u) { assert WorkerOk(g, s, u); }
    forall x | 0 <= x < |s'.status| ensures StatusOk(g, s', x) { assert StatusOk(g, s, x); }
    LogKept(g, s, s');
    ChosenKept(s, s');
    SubtractKeepsMain(g, s, w);
  }

  lemma SubtractKeepsPhase(g: TaskGraph, s: State, s': State, w: nat, id: nat, n: nat)
    requires |s.remaining| == |s.status| && PhaseUnderWay(g, s, n) && id < |s.status| && IsTask(g, id)
    requires s.status[id] == Running(w, GetNode(g, id).childCount) && GetNode(g, id).phaseId == s.phase
    requires s'.status == s.status[id := Done] && s'.phase == s.phase && s'.remaining == s.remaining
    ensures PhaseUnderWay(g, s', n)
  {
    forall e | e in AllEdges(g) ensures EdgeDone(s'.status, e) <==> EdgeDone(s.status, e) {
    }
    forall c ensures Unprocessed(g, s'.status, c) == Unprocessed(g, s.status, c) {
      SameUnprocessed(g, s.status, s'.status, c);
    }
    hide AllEdges, Unprocessed;
  }

  lemma SubtractKeepsMain(g: TaskGraph, s: State, w: nat)
    requires Inv(g, s) && WorkerCanStep(g, s, w) && s.workers[w].Releasing?
    requires s.workers[w].next == GetNode(g, s.workers[w].id).childCount
    ensures var s' := WorkerNext(g, s, w); Shape(g, s') && MainOk(g, s')
  {
    hide AllEdges, WellFormed, LogOk, QueueOk, ChosenOk, PhaseUnderWay, Incoming, IndicesFit;
    assert WorkerOk(g, s, w);
    var id := s.workers[w].id;
    CarrierInPhase(g, s, w);
    var s' := WorkerNext(g, s, w);
    forall n: nat | PhaseUnderWay(g, s, n) ensures PhaseUnderWay(g, s', n) {
      SubtractKeepsPhase(g, s, s', w, id, n);
    }
    hide PickedIs;
    forall x: nat | PickedIs(s, x) ensures PickedIs(s', x) {
      PickedKept(s, s', x);
    }
    CarryMain(g, s, s');
  }

  /** Every step of every worker keeps the invariant, whatever the main thread is doing. */
  lemma WorkerNextKeepsInv(g: TaskGraph, s: State, w: nat)
    requires Inv(g, s) && w < |s.workers|
    ensures WorkerCanStep(g, s, w) && Inv(g, WorkerNext(g, s, w))
  {
    hide Inv;
    WorkerOfInv(g, s, w);
    hide WorkerCanStep, WorkerOk;
    match s.workers[w]
    case Looking => if s.queue != [] { DequeueKeepsInv(g, s, w); }
    case Executing(_) => ExecuteKeepsInv(g, s, w);
    case Releasing(id, _, next) =>
      assert WorkerFits(g, s.workers[w]) by { WorkerOfInv(g, s, w); WorkerFitsOf(g, s, w); }
      if next < GetNode(g, id).childCount { ReleaseKeepsInv(g, s, w); } else { SubtractKeepsInv(g, s, w); }
    case Enqueuing(_, _, _, _) => EnqueueKeepsInv(g, s, w);
    case _ => QuietKeepsInv(g, s, w);
  }

  lemma WorkerFitsOf(g: TaskGraph, s: State, w: nat)
    requires WorkerCanStep(g, s, w)
    ensures w < |s.workers| && WorkerFits(g, s.workers[w])
  {
  }

  // ---- main steps ----

  /** A step of the main thread that changes no task's life keeps what the workers rely on. */
  lemma MainMoveKeepsInv(g: TaskGraph, s: State, s': State)
    requires Inv(g, s) && !s.main.SeedEnqueuing?
    requires s' == s.(main := s'.main, remaining := s'.remaining, active := s'.active) && |s'.remaining| == MAX_NODES
    requires MainOk(g, s')
    ensures Inv(g, s')
  {
    hide AllEdges, WellFormed, LogOk, MainOk, ChosenOk;
    forall u | 0 <= u < |s'.workers| ensures WorkerOk(g, s', u) { assert WorkerOk(g, s, u); }
    forall x | 0 <= x < |s'.status| ensures StatusOk(g, s', x) { assert StatusOk(g, s, x); }
    LogKept(g, s, s');
    ChosenKept(s, s');
  }

  lemma BuildKeepsInv(g: TaskGraph, s: State)
    requires Inv(g, s) && s.main.Building?
    ensures MainFits(g, s) && Inv(g, MainNext(g, s))
  {
    InvFits(g, s);
    if s.main.node < |g.nodes| { BuildOneKeepsInv(g, s); } else { EndBuildKeepsInv(g, s); }
  }

  lemma BuildOneKeepsInv(g: TaskGraph, s: State)
    requires Inv(g, s) && s.main.Building? && MainFits(g, s) && s.main.node < |g.nodes|
    ensures Inv(g, MainNext(g, s))
  {
    hide LogOk, QueueOk, HandsOk, ChosenOk, Acyclic, IndicesFit, AllEdges, Incoming, Unprocessed;
    assert forall m :: 0 <= m < s.main.node ==> g.nodes[m].id != g.nodes[s.main.node].id;
    MainMoveKeepsInv(g, s, MainNext(g, s));
  }

  lemma EndBuildKeepsInv(g: TaskGraph, s: State)
    requires Inv(g, s) && s.main.Building? && MainFits(g, s) && s.main.node == |g.nodes|
    ensures Inv(g, MainNext(g, s))
  {
    hide LogOk, QueueOk, HandsOk, ChosenOk, Acyclic, IndicesFit, AllEdges, Incoming, Unprocessed;
    BuiltCounters(g, s);
    forall id | 0 <= id < |s.status| && InPhase(g, id, s.phase)
      ensures g.taskIdToNodeIndex[id] >= g.phaseRanges[s.phase].begin { }
    MainMoveKeepsInv(g, s, MainNext(g, s));
  }

  lemma BuiltCounters(g: TaskGraph, s: State)
    requires Shape(g, s) && AllPending(s.status)
    requires forall m :: 0 <= m < |g.nodes| ==> s.remaining[g.nodes[m].id] == g.nodes[m].parentCount
    ensures CountersOk(g, s)
  {
    hide AllEdges, Incoming, Acyclic;
    forall c | 0 <= c < |s.remaining| && IsTask(g, c) ensures s.remaining[c] == |Unprocessed(g, s.status, c)| {
      assert Unprocessed(g, s.status, c) == Incoming(g, c);
      assert g.nodes[g.taskIdToNodeIndex[c]].id == c;
    }
  }

  /** The seed loop's load, where no worker has been quicker. */
  lemma SeedLoadKeepsInv(g: TaskGraph, s: State)
    requires Inv(g, s) && s.main.Seeding? && MainFits(g, s) && !Reseeds(g, s)
    ensures Inv(g, MainNext(g, s))
  {
    hide AllEdges, Acyclic, Incoming, LogOk, QueueOk, HandsOk, Unprocessed, ChosenOk, IndicesFit;
    var s' := MainNext(g, s);
    var range := g.phaseRanges[s.phase];
    if s.main.node < range.count {
      var n := range.begin + s.main.node;
      NodeOfId(g, n);
      var id := g.nodes[n].id;
      assert InPhase(g, id, s.phase) && id == SeedId(g, s, s.main.node);
      forall x | 0 <= x < |s.status| && InPhase(g, x, s.phase) && g.taskIdToNodeIndex[x] == n ensures x == id { }
      if s.remaining[id] == 0 {
        PickKeepsInv(g, s, s', id, n);
      } else {
        assert SeededUpTo(g, s', n + 1);
        MainMoveKeepsInv(g, s, s');
      }
    } else {
      forall x | 0 <= x < |s.status| && InPhase(g, x, s.phase)
        ensures g.taskIdToNodeIndex[x] < range.begin + range.count { }
      MainMoveKeepsInv(g, s, s');
    }
  }

  lemma PickKeepsInv(g: TaskGraph, s: State, s': State, id: nat, n: nat)
    requires Inv(g, s) && s.main.Seeding? && s.main.node < g.phaseRanges[s.phase].count
    requires n == g.phaseRanges[s.phase].begin + s.main.node && n < |g.nodes| && id == g.nodes[n].id
    requires InPhase(g, id, s.phase) && id < |s.status| && s.remaining[id] == 0 && s.status[id].Pending?
    requires forall x :: 0 <= x < |s.status| && InPhase(g, x, s.phase) && g.taskIdToNodeIndex[x] == n ==> x == id
    requires s' == Mark(s.(main := SeedEnqueuing(s.main.node), chosen := s.chosen + [id]), id, Picked)
    ensures Inv(g, s')
  {
    PickKeepsHands(g, s, s', id);
    PickKeepsPhase(g, s, s', id, n);
    hide AllEdges, WellFormed, LogOk, ChosenOk, HandsOk, QueueOk, PhaseUnderWay, PickedIs, Incoming;
    LogKept(g, s, s');
    ChooseOne(s, s', id);
  }

  lemma PickKeepsHands(g: TaskGraph, s: State, s': State, id: nat)
    requires Inv(g, s) && s.main.Seeding? && IsTask(g, id) && id < |s.status| && s.status[id].Pending?
    requires s' == Mark(s.(main := SeedEnqueuing(s.main.node), chosen := s.chosen + [id]), id, Picked)
    ensures HandsOk(g, s') && QueueOk(g, s') && PickedIs(s', id)
  {
    hide AllEdges, WellFormed, LogOk, MainOk, ChosenOk;
    forall u | 0 <= u < |s'.workers| ensures WorkerOk(g, s', u) { assert WorkerOk(g, s, u); }
    forall x | 0 <= x < |s'.status| ensures StatusOk(g, s', x) { assert StatusOk(g, s, x); }
    forall x | 0 <= x < |s'.status| && s'.status[x] == Picked ensures x == id { assert StatusOk(g, s, x); }
  }

  lemma PickKeepsPhase(g: TaskGraph, s: State, s': State, id: nat, n: nat)
    requires Inv(g, s) && s.main.Seeding?
    requires n == g.phaseRanges[s.phase].begin + s.main.node
    requires InPhase(g, id, s.phase) && id < |s.status| && s.remaining[id] == 0 && s.status[id].Pending?
    requires forall x :: 0 <= x < |s.status| && InPhase(g, x, s.phase) && g.taskIdToNodeIndex[x] == n ==> x == id
    requires s' == Mark(s.(main := SeedEnqueuing(s.main.node), chosen := s.chosen + [id]), id, Picked)
    ensures PhaseUnderWay(g, s', n + 1)
  {
    hide AllEdges, WellFormed, LogOk, ChosenOk, HandsOk, QueueOk, Incoming;
    forall c ensures Unprocessed(g, s'.status, c) == Unprocessed(g, s.status, c) {
      SameUnprocessed(g, s.status, s'.status, c);
    }
    hide Unprocessed;
  }

  lemma SeedEnqueueKeepsInv(g: TaskGraph, s: State)
    requires Inv(g, s) && s.main.SeedEnqueuing? && MainFits(g, s)
    ensures Inv(g, MainNext(g, s)) && |s.queue| < MAX_NODES
  {
    var id := SeedId(g, s, s.main.node);
    assert id < |s.status| && s.status[id] == Picked && PickedIs(s, id);
    RoomFor(g, s, id);
    var s' := MainNext(g, s);
    SeedEnqueueKeepsHands(g, s, s', id);
    hide AllEdges, WellFormed, LogOk, ChosenOk, HandsOk, QueueOk, Incoming, PickedIs, IndicesFit, PhaseUnderWay;
    LogKept(g, s, s');
    ChosenKept(s, s');
    var n := g.phaseRanges[s.phase].begin + s.main.node + 1;
    assert PhaseUnderWay(g, s, n);
    PickedPhase(g, s, s', n, id);
  }

  lemma PickedPhase(g: TaskGraph, s: State, s': State, n: nat, id: nat)
    requires |s.remaining| == |s.status| && PhaseUnderWay(g, s, n) && id < |s.status| && s.status[id] == Picked
    requires s'.phase == s.phase && s'.remaining == s.remaining && s'.status == s.status[id := Queued]
    ensures PhaseUnderWay(g, s', n)
  {
    forall c ensures Unprocessed(g, s'.status, c) == Unprocessed(g, s.status, c) {
      SameUnprocessed(g, s.status, s'.status, c);
    }
    hide AllEdges, Unprocessed, Incoming;
  }

  lemma SeedEnqueueKeepsHands(g: TaskGraph, s: State, s': State, id: nat)
    requires Inv(g, s) && s.main.SeedEnqueuing? && id < |s.status| && PickedIs(s, id) && id !in s.queue
    requires s' == Mark(s.(main := SeedCounting(s.main.node), queue := s.queue + [id]), id, Queued)
    ensures HandsOk(g, s') && QueueOk(g, s')
  {
    hide AllEdges, WellFormed, LogOk, MainOk, ChosenOk;
    assert StatusOk(g, s, id);
    forall u | 0 <= u < |s'.workers| ensures WorkerOk(g, s', u) { assert WorkerOk(g, s, u); }
    forall x | 0 <= x < |s'.status| ensures StatusOk(g, s', x) { assert StatusOk(g, s, x); }
  }

  // ---- the barrier ----

  lemma GraphIsAcyclic(g: TaskGraph)
    requires WellFormed(g)
    ensures Acyclic(g)
  {
  }

  function Unfinished(g: TaskGraph, s: State): set<nat> {
    set id | 0 <= id < |s.status| && InPhase(g, id, s.phase) && !s.status[id].Done?
  }

  lemma IncomingIsEdge(g: TaskGraph, c: nat, e: Edge)
    requires WellFormed(g) && e in Incoming(g, c)
    ensures IsEdge(g, e) && IsTask(g, e.parent) && e.parent < MAX_NODES && ChildOf(g, e) == c && IsTask(g, c)
    ensures GetNode(g, e.parent).phaseId <= GetNode(g, c).phaseId
    ensures HasEdge(g, e.parent, c)
  {
  }

  predicate InWait(main: MainPc) {
    main.WaitLoad? || main.WaitEpoch? || main.WaitRecheck? || main.WaitCompare? || main.Asleep?
  }

  /** With nothing queued and nothing in hand, a task of the phase that is not done is pending. */
  lemma NothingUnderWay(g: TaskGraph, s: State)
    requires Inv(g, s) && NobodyCarries(s) && s.queue == [] && !s.main.SeedEnqueuing?
    ensures forall id {:trigger s.status[id]} :: 0 <= id < |s.status| ==> !UnderWay(s.status[id])
  {
    hide AllEdges, WellFormed, LogOk, ChosenOk, MainOk;
    forall id | 0 <= id < |s.status| ensures !UnderWay(s.status[id]) {
      assert StatusOk(g, s, id);
    }
  }

  lemma WaitsForUnfinished(g: TaskGraph, s: State, m: nat) returns (p: nat)
    requires Inv(g, s) && NobodyCarries(s) && s.queue == [] && InWait(s.main)
    requires m in Unfinished(g, s)
    ensures p in Unfinished(g, s) && HasEdge(g, p, m)
  {
    hide AllEdges, WellFormed, LogOk, QueueOk, HandsOk, ChosenOk;
    NothingUnderWay(g, s);
    assert g.taskIdToNodeIndex[m] < |g.nodes| && s.remaining[m] > 0;
    assert Unprocessed(g, s.status, m) != {};
    var e :| e in Unprocessed(g, s.status, m);
    p := e.parent;
    IncomingIsEdge(g, m, e);
  }

  /** With nothing queued and nothing in hand after seeding, every task of the phase is done: a
      minimal unfinished one would have all its parents done, and so would have been chosen. */
  lemma BarrierIsComplete(g: TaskGraph, s: State)
    requires Inv(g, s) && NobodyCarries(s) && s.queue == [] && InWait(s.main)
    ensures PhaseOk(g, s, s.phase + 1, s.phase)
  {
    InvFits(g, s);
    UnderWayFacts(g, s);
    if Unfinished(g, s) != {} {
      GraphIsAcyclic(g);
      hide AllEdges, WellFormed, Acyclic, HasEdge, CountersOk, Inv, PhaseOk, ReadyOk;
      var m := MinimalTask(g, Unfinished(g, s));
      var p := WaitsForUnfinished(g, s, m);
      assert false;
    }
    hide AllEdges, WellFormed, CountersOk, Inv, ReadyOk;
    assert forall id :: 0 <= id < |s.status| && InPhase(g, id, s.phase) ==>
      s.status[id].Done? || id in Unfinished(g, s);
  }

  /** A step of the wait; the main thread leaves only when nobody has a task in hand and, the
      counter being zero, nothing is queued. */
  lemma WaitKeepsInv(g: TaskGraph, s: State)
    requires Inv(g, s) && MainFits(g, s) && InWait(s.main) && !LeavesEarly(s)
    requires s.active == 0 ==> s.queue == []
    ensures Inv(g, MainNext(g, s))
  {
    hide AllEdges, WellFormed, LogOk, QueueOk, HandsOk, Incoming, ChosenOk, IndicesFit;
    if (s.main.WaitLoad? || s.main.WaitRecheck?) && s.active == 0 {
      BarrierIsComplete(g, s);
    }
    MainMoveKeepsInv(g, s, MainNext(g, s));
  }

  /** As long as the step neither reseeds nor leaves early, every step of the main thread keeps the
      invariant. */
  lemma MainNextKeepsInv(g: TaskGraph, s: State)
    requires Inv(g, s) && MainFits(g, s) && !Reseeds(g, s) && !LeavesEarly(s)
    requires s.active == 0 && InWait(s.main) ==> s.queue == []
    ensures Inv(g, MainNext(g, s))
  {
    hide Inv, MainFits, Reseeds, LeavesEarly;
    if s.main.Building? { BuildKeepsInv(g, s); }
    else if s.main.Seeding? { SeedLoadKeepsInv(g, s); }
    else if s.main.SeedEnqueuing? { SeedEnqueueKeepsInv(g, s); }
    else if s.main.SeedCounting? { SeedCountKeepsInv(g, s); }
    else if InWait(s.main) { WaitKeepsInv(g, s); }
  }

  lemma SeedCountKeepsInv(g: TaskGraph, s: State)
    requires Inv(g, s) && MainFits(g, s) && s.main.SeedCounting?
    ensures Inv(g, MainNext(g, s))
  {
    assert s.phase < |g.phaseRanges|;
    hide AllEdges, WellFormed, LogOk, QueueOk, HandsOk, Incoming, ChosenOk, IndicesFit, PhaseUnderWay;
    var n := g.phaseRanges[s.phase].begin + s.main.node + 1;
    assert PhaseUnderWay(g, s, n);
    SamePhase(g, s, MainNext(g, s), n);
    MainMoveKeepsInv(g, s, MainNext(g, s));
  }

  lemma SamePhase(g: TaskGraph, s: State, s': State, n: nat)
    requires |s.remaining| == |s.status| && PhaseUnderWay(g, s, n)
    requires s'.phase == s.phase && s'.remaining == s.remaining && s'.status == s.status
    ensures PhaseUnderWay(g, s', n)
  {
  }

  /** ExecutePhase may be called for Input at any time the main thread is outside, also after a tick
      that was broken off, and for the phase that comes next. */
  lemma BeginPhaseKeepsInv(g: TaskGraph, s: State, k: nat)
    requires Inv(g, s) && s.main.Outside? && k < PHASES && (k == INPUT || k == s.main.next)
    ensures Inv(g, BeginPhase(s, k))
  {
    hide AllEdges, Acyclic, Incoming, CountersOk;
    NothingUnderWay(g, s);
    var s' := BeginPhase(s, k);
    forall u | 0 <= u < |s'.workers| ensures WorkerOk(g, s', u) { assert WorkerOk(g, s, u); }
    forall x | 0 <= x < |s'.status| ensures StatusOk(g, s', x) { assert StatusOk(g, s, x); }
    if k != INPUT {
      SameCounters(g, s, s');
      LogKept(g, s, s');
      ChosenKept(s, s');
    }
  }

  lemma SameCounters(g: TaskGraph, s: State, s': State)
    requires |s.remaining| == |s.status| && CountersOk(g, s) && s'.remaining == s.remaining && s'.status == s.status
    ensures CountersOk(g, s')
  {
  }

  lemma InitInv(g: TaskGraph, s: State)
    requires Init(g, s) && WellFormed(g)
    ensures Inv(g, s)
  {
    hide WellFormed, IndicesFit;
    forall w | 0 <= w < |s.workers| ensures WorkerOk(g, s, w) { assert s.workers[w] == Looking; }
    forall id | 0 <= id < |s.status| ensures StatusOk(g, s, id) { assert s.status[id].Pending?; }
  }

  // ---- when something goes wrong ----

  /** What a tick promises at every moment: no task is chosen twice, and the main thread comes back
      from a phase only when every task of the phases so far is done. */
  ghost predicate Promise(g: TaskGraph, s: State) {
    && Distinct(s.chosen)
    && (s.main.Outside? ==>
          forall id {:trigger s.status[id]} ::
            0 <= id < |s.status| && IsTask(g, id) && GetNode(g, id).phaseId < s.main.next ==>
              s.status[id].Done?)
  }

  lemma InvPromises(g: TaskGraph, s: State)
    requires Inv(g, s)
    ensures Promise(g, s)
  {
    hide WellFormed, HandsOk, QueueOk, LogOk, CountersOk, ReadyOk;
  }

  /** A step that reseeds chooses a task twice. */
  lemma ReseedBreaksPromise(g: TaskGraph, s: State)
    requires Inv(g, s) && MainFits(g, s) && Reseeds(g, s)
    ensures !Promise(g, MainNext(g, s))
  {
    hide WellFormed, HandsOk, QueueOk, LogOk, MainOk;
    var id := SeedId(g, s, s.main.node);
    var i :| 0 <= i < |s.chosen| && s.chosen[i] == id;
    var chosen := MainNext(g, s).chosen;
    assert chosen[i] == chosen[|chosen| - 1];
  }

  /** A step that leaves early comes back while a task of the phase is not done. */
  lemma LeavingEarlyBreaksPromise(g: TaskGraph, s: State)
    requires Inv(g, s) && MainFits(g, s) && LeavesEarly(s)
    ensures !Promise(g, MainNext(g, s))
  {
    hide WellFormed, HandsOk, QueueOk, LogOk, MainOk, ChosenOk, IndicesFit;
    var w :| 0 <= w < |s.workers| && Carries(s.workers[w]);
    CarrierInPhase(g, s, w);
  }
}
