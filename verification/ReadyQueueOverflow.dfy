/** What the assertions on the result of Enqueue rest on: on a graph with an edge inside a phase, the
    seed loop can choose a task again, and with as many tasks as the queue has slots, one of them
    stalled in a worker's hands, there is no slot left for it. */
module ReadyQueueOverflow {
  import M = Mpmc
  import opened Tasks
  import opened Dispatch
  import opened DispatchSteps
  import opened DispatchRuns
  import DispatchCounterexamples
  import opened ReadyQueue

  /** As many tasks as fit, all in the first phase; the last one waits for task 1. */
  function Full(): TaskGraph {
    TaskGraph(
      seq(MAX_NODES, n requires 0 <= n < MAX_NODES => FullNode(n)), [MAX_NODES - 1],
      [PhaseRange(0, MAX_NODES), PhaseRange(MAX_NODES, 0), PhaseRange(MAX_NODES, 0), PhaseRange(MAX_NODES, 0)],
      seq(MAX_NODES, n requires 0 <= n < MAX_NODES => n))
  }

  function FullNode(n: nat): TaskNode {
    TaskNode(n, 0, if n <= 1 then 0 else 1, if n == 1 then 1 else 0, if n == MAX_NODES - 1 then 1 else 0)
  }

  lemma FullNodes()
    ensures var g := Full();
      && |g.nodes| == |g.taskIdToNodeIndex| == MAX_NODES && |g.phaseRanges| == PHASES
      && forall n {:trigger g.nodes[n]} {:trigger g.taskIdToNodeIndex[n]} :: 0 <= n < MAX_NODES ==>
        g.nodes[n] == FullNode(n) && g.taskIdToNodeIndex[n] == n
  {
  }

  lemma FullTasks()
    ensures forall id: nat :: IsTask(Full(), id) <==> id < MAX_NODES
    ensures forall id: nat :: id < MAX_NODES ==> GetNode(Full(), id) == FullNode(id)
  {
    FullNodes();
  }

  lemma FullEdges()
    ensures AllEdges(Full()) == {Edge(1, 0)}
    ensures forall e, c :: e in Incoming(Full(), c) <==> e == Edge(1, 0) && c == MAX_NODES - 1
  {
    FullTasks();
    var g := Full();
    assert g.childTaskIds == [MAX_NODES - 1] && |g.taskIdToNodeIndex| == MAX_NODES;
    hide Full, IsTask;
    forall e ensures IsEdge(g, e) <==> e == Edge(1, 0) { }
    assert forall e :: e in AllEdges(g) <==> IsEdge(g, e);
  }

  lemma FullIsWellFormed()
    ensures WellFormed(Full()) && IndicesFit(Full())
  {
    FullNodes();
    FullTasks();
    FullEdges();
    var g := Full();
    assert g.phaseRanges[0] == PhaseRange(0, MAX_NODES) && forall k :: 1 <= k < PHASES ==>
      g.phaseRanges[k] == PhaseRange(MAX_NODES, 0);
    assert g.childTaskIds == [MAX_NODES - 1];
    hide Full, AllEdges, Incoming, IsTask, Acyclic;
    DispatchCounterexamples.StarIsAcyclic(g, 1);
    forall n | 0 <= n < |g.nodes| ensures g.nodes[n].parentCount == |Incoming(g, g.nodes[n].id)| {
      assert Incoming(g, n) == if n == MAX_NODES - 1 then {Edge(1, 0)} else {};
    }
    GraphFits(g);
  }

  // ---- runs of the system, one move after the other ----

  ghost predicate Steps(g: TaskGraph, states: seq<System>, moves: seq<SystemMove>) {
    |states| == |moves| + 1 && forall i {:trigger moves[i]} :: 0 <= i < |moves| ==>
      StepsTo(g, states[i], moves[i], states[i + 1]) && InOrder(states[i].d, MoveOf(moves[i]))
  }

  ghost predicate RunsTo(g: TaskGraph, c: System, r: System) {
    exists states, moves {:trigger Steps(g, states, moves)} :: Steps(g, states, moves) && states[0] == c
      && states[|moves|] == r
  }

  lemma Here(g: TaskGraph, c: System)
    ensures RunsTo(g, c, c)
  {
    assert Steps(g, [c], []) && [c][0] == c;
  }

  lemma OneMore(g: TaskGraph, c: System, r: System, m: SystemMove, r': System)
    requires RunsTo(g, c, r) && StepsTo(g, r, m, r') && InOrder(r.d, MoveOf(m))
    ensures RunsTo(g, c, r')
  {
    hide StepsTo, InOrder;
    var states, moves :| Steps(g, states, moves) && states[0] == c && states[|moves|] == r;
    var states', moves' := states + [r'], moves + [m];
    forall i | 0 <= i < |moves'| ensures StepsTo(g, states'[i], moves'[i], states'[i + 1])
      && InOrder(states'[i].d, MoveOf(moves'[i]))
    {
      if i < |moves| { assert moves'[i] == moves[i]; }
    }
    assert states'[0] == c && states'[|moves'|] == r' && Steps(g, states', moves');
  }

  /** The system in a run on `Full` with two workers: the first `tail` positions went to the tasks of those
      numbers, and all counters are zero but the last, which is `waiting`. */
  ghost predicate At(c: System, main: MainPc, workers: seq<WorkerPc>, threads: seq<M.Pc<nat>>, head: nat, tail: nat,
      waiting: nat)
  {
    && c.d.main == main && c.d.phase == 0 && c.d.workers == workers && |workers| == 2 && c.d.queue == []
    && |c.d.remaining| == |c.d.status| == MAX_NODES && c.d.remaining[MAX_NODES - 1] == waiting
    && (forall id :: 0 <= id < MAX_NODES - 1 ==> c.d.remaining[id] == 0)
    && M.Inv(MAX_NODES, c.q) && c.q.threads == threads && |threads| == 3
    && c.q.head == head && c.q.ring.tail == tail == |c.q.ring.items|
      && (forall p :: 0 <= p < tail ==> c.q.ring.items[p] == p)
    && !c.rejected
  }

  /** A move of the main thread, and of a worker. */
  lemma MainMove(s: System, c: System, how: How) returns (c': System)
    requires RunsTo(Full(), s, c) && Shaped(c) && M.Inv(MAX_NODES, c.q) && MainFits(Full(), c.d)
    ensures CanGo(Full(), c, |c.d.workers|) && c' == MainStep(Full(), c, how) && RunsTo(Full(), s, c')
  {
    hide M.Inv, Full, MainStep;
    QueueMoves(c, |c.d.workers|, ActionOf(how));
    c' := MainStep(Full(), c, how);
    OneMore(Full(), s, c, MainGoes(how), c');
  }

  lemma WorkerMove(s: System, c: System, w: nat, how: How) returns (c': System)
    requires RunsTo(Full(), s, c) && Shaped(c) && M.Inv(MAX_NODES, c.q) && MainFits(Full(), c.d)
    requires w < |c.d.workers| && (c.q.threads[w].Idle? ==> WorkerCanStep(Full(), c.d, w))
    ensures CanGo(Full(), c, w) && c' == WorkerStep(Full(), c, w, how) && RunsTo(Full(), s, c')
  {
    hide M.Inv, Full, WorkerStep;
    QueueMoves(c, w, ActionOf(how));
    c' := WorkerStep(Full(), c, w, how);
    OneMore(Full(), s, c, WorkerGoes(w, how), c');
  }

  // ---- one thread alone on the queue ----

  /** Its Enqueue finds a slot not used before. */
  lemma EnqueueLooks(q: M.Queue<nat>, t: nat, item: nat) returns (q1: M.Queue<nat>, q2: M.Queue<nat>)
    requires M.Inv(MAX_NODES, q) && t < |q.threads| && q.threads[t] == M.EnqueueLoadTail(item)
      && q.ring.tail < MAX_NODES
    ensures M.CanStep(MAX_NODES, q, t) && q1 == M.Next(MAX_NODES, q, t, M.Step(0)) && M.Inv(MAX_NODES, q1)
    ensures q1 == M.Goto(q, t, M.EnqueueLoadSequence(item, q.ring.tail))
    ensures M.CanStep(MAX_NODES, q1, t) && q2 == M.Next(MAX_NODES, q1, t, M.Step(0)) && M.Inv(MAX_NODES, q2)
    ensures q2 == M.Goto(q, t, M.EnqueueCas(item, q.ring.tail))
  {
    hide M.Inv;
    M.NextExtends(MAX_NODES, q, t, M.Step(0));
    q1 := M.Next(MAX_NODES, q, t, M.Step(0));
    M.NextExtends(MAX_NODES, q1, t, M.Step(0));
    M.EnqueueVerdict(MAX_NODES, q1, q.ring.tail);
    q2 := M.Next(MAX_NODES, q1, t, M.Step(0));
  }

  /** And fills it. */
  lemma EnqueueFills(q: M.Queue<nat>, t: nat, item: nat) returns (q3: M.Queue<nat>, q4: M.Queue<nat>, q5: M.Queue<nat>)
    requires M.Inv(MAX_NODES, q) && t < |q.threads| && q.threads[t] == M.EnqueueCas(item, q.ring.tail)
    ensures M.CanStep(MAX_NODES, q, t) && q3 == M.Next(MAX_NODES, q, t, M.Step(0)) && M.Inv(MAX_NODES, q3)
    ensures q3.threads == q.threads[t := M.EnqueueWrite(item, q.ring.tail)] && OneMoreItem(q, q3, item)
    ensures M.CanStep(MAX_NODES, q3, t) && q4 == M.Next(MAX_NODES, q3, t, M.Step(0)) && M.Inv(MAX_NODES, q4)
    ensures q4.threads == q.threads[t := M.EnqueuePublish(item, q.ring.tail)] && OneMoreItem(q, q4, item)
    ensures M.CanStep(MAX_NODES, q4, t) && q5 == M.Next(MAX_NODES, q4, t, M.Step(0)) && M.Inv(MAX_NODES, q5)
    ensures q5.threads == q.threads[t := M.Idle(M.Enqueued)] && OneMoreItem(q, q5, item)
  {
    hide M.Inv;
    M.NextExtends(MAX_NODES, q, t, M.Step(0));
    q3 := M.Next(MAX_NODES, q, t, M.Step(0));
    M.NextExtends(MAX_NODES, q3, t, M.Step(0));
    q4 := M.Next(MAX_NODES, q3, t, M.Step(0));
    M.NextExtends(MAX_NODES, q4, t, M.Step(0));
    q5 := M.Next(MAX_NODES, q4, t, M.Step(0));
  }

  /** One more item, and nothing else that matters here. */
  predicate OneMoreItem(q: M.Queue<nat>, q': M.Queue<nat>, item: nat) {
    && q'.head == q.head && q'.ring.tail == q.ring.tail + 1 && q'.ring.items == q.ring.items + [item]
  }

  // ---- the main thread's enqueue ----

  /** Steps of the main thread in a queue operation: one that wins nothing, the one that wins, the last. */
  lemma MainLooks(s: System, c: System, q': M.Queue<nat>) returns (c': System)
    requires RunsTo(Full(), s, c) && Shaped(c) && M.Inv(MAX_NODES, c.q) && MainFits(Full(), c.d) && |c.d.workers| == 2
    requires M.CanStep(MAX_NODES, c.q, 2) && q' == M.Next(MAX_NODES, c.q, 2, M.Step(0)) && !c.q.threads[2].Idle?
    requires q'.head == c.q.head && q'.ring.tail == c.q.ring.tail && |q'.threads| == 3 && !q'.threads[2].Idle?
    ensures c' == c.(q := q') && RunsTo(Full(), s, c')
  {
    hide M.Inv, Full, M.Next, M.CanStep, MainFits;
    c' := MainMove(s, c, Go(0));
  }

  lemma MainWins(s: System, c: System, q': M.Queue<nat>, id: nat) returns (c': System)
    requires RunsTo(Full(), s, c) && Shaped(c) && M.Inv(MAX_NODES, c.q) && MainFits(Full(), c.d) && |c.d.workers| == 2
    requires M.CanStep(MAX_NODES, c.q, 2) && q' == M.Next(MAX_NODES, c.q, 2, M.Step(0)) && !c.q.threads[2].Idle?
    requires OneMoreItem(c.q, q', id) && id < |c.d.status| && |q'.threads| == 3 && !q'.threads[2].Idle?
    ensures c' == c.(d := Mark(c.d, id, Queued), q := q') && RunsTo(Full(), s, c')
  {
    hide M.Inv, Full, M.Next, M.CanStep, MainFits;
    c' := MainMove(s, c, Go(0));
  }

  lemma MainEnqueued(s: System, c: System, q': M.Queue<nat>) returns (c': System)
    requires RunsTo(Full(), s, c) && Shaped(c) && M.Inv(MAX_NODES, c.q) && MainFits(Full(), c.d) && |c.d.workers| == 2
    requires M.CanStep(MAX_NODES, c.q, 2) && q' == M.Next(MAX_NODES, c.q, 2, M.Step(0)) && !c.q.threads[2].Idle?
    requires q'.head == c.q.head && q'.ring.tail == c.q.ring.tail && |q'.threads| == 3
      && q'.threads[2] == M.Idle(M.Enqueued)
    requires c.d.main.SeedEnqueuing?
    ensures c' == c.(d := c.d.(main := SeedCounting(c.d.main.node)), q := q') && RunsTo(Full(), s, c')
  {
    hide M.Inv, Full, M.Next, M.CanStep, MainFits;
    c' := MainMove(s, c, Go(0));
  }

  lemma MainCalls(s: System, c: System) returns (c': System)
    requires RunsTo(Full(), s, c) && Shaped(c) && M.Inv(MAX_NODES, c.q) && MainFits(Full(), c.d) && |c.d.workers| == 2
    requires c.d.main.SeedEnqueuing? && c.q.threads[2].Idle?
    ensures c' == c.(q := M.Goto(c.q, 2, M.EnqueueLoadTail(SeedId(Full(), c.d, c.d.main.node))))
      && M.Inv(MAX_NODES, c'.q) && RunsTo(Full(), s, c')
  {
    QueueMoves(c, 2, M.CallEnqueue(SeedId(Full(), c.d, c.d.main.node)));
    hide M.Inv, Full, MainFits, M.CanStep;
    c' := MainMove(s, c, Go(0));
  }

  lemma FitsAt(c: System, main: MainPc, workers: seq<WorkerPc>, threads: seq<M.Pc<nat>>, head: nat, tail: nat,
      waiting: nat)
    requires At(c, main, workers, threads, head, tail, waiting)
    requires match main
      case Building(n) => n <= MAX_NODES
      case Seeding(i) => i <= MAX_NODES
      case SeedEnqueuing(i) => i < MAX_NODES
      case SeedCounting(i) => i < MAX_NODES
      case _ => true
    ensures Shaped(c) && MainFits(Full(), c.d) && M.Inv(MAX_NODES, c.q)
    ensures forall i: nat :: i < MAX_NODES ==> SeedId(Full(), c.d, i) == i
  {
    FullIsWellFormed();
    FullNodes();
    assert Full().phaseRanges[0] == PhaseRange(0, MAX_NODES);
    assert |c.q.ring.items| == c.q.ring.tail && c.q.head <= c.q.ring.tail;
    hide Full, IndicesFit, WellFormed, M.Inv;
  }

  /** Its whole Enqueue. */
  lemma MainEnqueues(s: System, c: System, id: nat) returns (c': System)
    requires RunsTo(Full(), s, c) && Shaped(c) && M.Inv(MAX_NODES, c.q) && MainFits(Full(), c.d) && |c.d.workers| == 2
    requires c.d.main.SeedEnqueuing? && c.q.threads[2].Idle? && c.q.ring.tail < MAX_NODES
    requires SeedId(Full(), c.d, c.d.main.node) == id < |c.d.status|
    ensures RunsTo(Full(), s, c') && M.Inv(MAX_NODES, c'.q) && OneMoreItem(c.q, c'.q, id)
    ensures c'.q.threads == c.q.threads[2 := M.Idle(M.Enqueued)]
    ensures c' == c.(q := c'.q, d := Mark(c.d, id, Queued).(main := SeedCounting(c.d.main.node)))
  {
    hide M.Inv, Full, IndicesFit, M.Next, M.CanStep, RunsTo, SeedId;
    var c1 := MainCalls(s, c);
    var q1, q2 := EnqueueLooks(c1.q, 2, id);
    var q3, q4, q5 := EnqueueFills(q2, 2, id);
    var c2 := MainLooks(s, c1, q1);
    var c3 := MainLooks(s, c2, q2);
    var c4 := MainWins(s, c3, q3, id);
    var c5 := MainLooks(s, c4, q4);
    c' := MainEnqueued(s, c5, q5);
  }

  lemma EnqueuesNext(s: System, c: System, i: nat, workers: seq<WorkerPc>, threads: seq<M.Pc<nat>>, head: nat,
      waiting: nat) returns (c': System)
    requires RunsTo(Full(), s, c) && At(c, SeedEnqueuing(i), workers, threads, head, i, waiting) && i < MAX_NODES
      && threads[2].Idle?
    ensures RunsTo(Full(), s, c') && At(c', SeedCounting(i), workers, threads[2 := M.Idle(M.Enqueued)], head, i + 1,
      waiting)
  {
    FitsAt(c, SeedEnqueuing(i), workers, threads, head, i, waiting);
    hide M.Inv, Full, IndicesFit, RunsTo, MainFits;
    c' := MainEnqueues(s, c, i);
  }

  // ---- the main thread builds and seeds ----

  lemma MainOwnMove(s: System, c: System) returns (c': System)
    requires RunsTo(Full(), s, c) && Shaped(c) && M.Inv(MAX_NODES, c.q) && MainFits(Full(), c.d)
    requires c.q.threads[|c.d.workers|].Idle? && !c.d.main.SeedEnqueuing?
    ensures c' == c.(d := MainNext(Full(), c.d)) && RunsTo(Full(), s, c')
  {
    hide M.Inv, Full, MainFits, MainNext;
    c' := MainMove(s, c, Go(0));
  }

  ghost predicate BuildingAt(c: System, n: nat, workers: seq<WorkerPc>, threads: seq<M.Pc<nat>>) {
    && c.d.main == Building(n) && n <= MAX_NODES && c.d.phase == 0 && c.d.workers == workers && |workers| == 2
      && c.d.queue == []
    && |c.d.remaining| == |c.d.status| == MAX_NODES
    && (forall id :: 0 <= id < n ==> c.d.remaining[id] == if id == MAX_NODES - 1 then 1 else 0)
    && M.Inv(MAX_NODES, c.q) && c.q.threads == threads && |threads| == 3
    && c.q.head == 0 && c.q.ring.tail == 0 == |c.q.ring.items| && !c.rejected
  }

  lemma {:induction false} Builds(s: System, c: System, n: nat, workers: seq<WorkerPc>, threads: seq<M.Pc<nat>>)
      returns (c': System)
    requires RunsTo(Full(), s, c) && BuildingAt(c, n, workers, threads) && threads[2].Idle?
    ensures RunsTo(Full(), s, c') && At(c', Seeding(0), workers, threads, 0, 0, 1)
    decreases MAX_NODES - n
  {
    FullIsWellFormed();
    FullNodes();
    hide M.Inv, Full, IndicesFit, WellFormed, RunsTo;
    var r := MainOwnMove(s, c);
    if n < MAX_NODES {
      c' := Builds(s, r, n + 1, workers, threads);
    } else {
      c' := r;
    }
  }

  /** One round of the seed loop up to the last task. */
  lemma SeedsOne(s: System, c: System, i: nat, workers: seq<WorkerPc>, threads: seq<M.Pc<nat>>, head: nat,
      waiting: nat) returns (c': System)
    requires RunsTo(Full(), s, c) && At(c, Seeding(i), workers, threads, head, i, waiting) && i < MAX_NODES - 1
      && threads[2].Idle?
    ensures RunsTo(Full(), s, c') && At(c', Seeding(i + 1), workers, threads[2 := M.Idle(M.Enqueued)], head, i + 1,
      waiting)
  {
    FitsAt(c, Seeding(i), workers, threads, head, i, waiting);
    assert Full().phaseRanges[0].count == MAX_NODES;
    hide M.Inv, Full, IndicesFit, RunsTo;
    var c1 := MainOwnMove(s, c);
    var c2 := EnqueuesNext(s, c1, i, workers, threads, head, waiting);
    FitsAt(c2, SeedCounting(i), workers, threads[2 := M.Idle(M.Enqueued)], head, i + 1, waiting);
    c' := MainOwnMove(s, c2);
  }

  lemma {:induction false} SeedsAllButOne(s: System, c: System, i: nat, workers: seq<WorkerPc>,
      threads: seq<M.Pc<nat>>) returns (c': System)
    requires RunsTo(Full(), s, c) && At(c, Seeding(i), workers, threads, 0, i, 1) && 0 < i < MAX_NODES
      && threads[2] == M.Idle(M.Enqueued)
    ensures RunsTo(Full(), s, c') && At(c', Seeding(MAX_NODES - 1), workers, threads, 0, MAX_NODES - 1, 1)
    decreases MAX_NODES - i
  {
    hide At, RunsTo;
    assert |threads| == 3 by { AtThreads(c, Seeding(i), workers, threads, 0, i, 1); }
    if i == MAX_NODES - 1 {
      c' := c;
    } else {
      var r := SeedsOne(s, c, i, workers, threads, 0, 1);
      assert threads[2 := M.Idle(M.Enqueued)] == threads;
      c' := SeedsAllButOne(s, r, i + 1, workers, threads);
    }
  }

  lemma AtThreads(c: System, main: MainPc, workers: seq<WorkerPc>, threads: seq<M.Pc<nat>>, head: nat, tail: nat,
      waiting: nat)
    requires At(c, main, workers, threads, head, tail, waiting)
    ensures |threads| == 3 && |workers| == 2
  {
  }

  // ---- a worker's queue operations ----

  /** A step of worker `w` in a queue operation: one that wins nothing and does not end it. */
  lemma WorkerLooks(s: System, c: System, w: nat, q': M.Queue<nat>) returns (c': System)
    requires RunsTo(Full(), s, c) && Shaped(c) && M.Inv(MAX_NODES, c.q) && MainFits(Full(), c.d) && w < |c.d.workers|
    requires M.CanStep(MAX_NODES, c.q, w) && q' == M.Next(MAX_NODES, c.q, w, M.Step(0)) && !c.q.threads[w].Idle?
    requires q'.head == c.q.head && q'.ring.tail == c.q.ring.tail && |q'.threads| == |c.q.threads|
      && !q'.threads[w].Idle?
    ensures c' == c.(q := q') && RunsTo(Full(), s, c')
  {
    hide M.Inv, Full, M.Next, M.CanStep, MainFits, WorkerCanStep;
    c' := WorkerMove(s, c, w, Go(0));
  }

  lemma WorkerTakes(s: System, c: System, w: nat, q': M.Queue<nat>) returns (c': System)
    requires RunsTo(Full(), s, c) && Shaped(c) && M.Inv(MAX_NODES, c.q) && MainFits(Full(), c.d) && w < |c.d.workers|
    requires M.CanStep(MAX_NODES, c.q, w) && q' == M.Next(MAX_NODES, c.q, w, M.Step(0)) && !c.q.threads[w].Idle?
    requires q'.head == c.q.head + 1 && c.q.head < |c.q.ring.items| && c.q.ring.items[c.q.head] < |c.d.status|
    requires |q'.threads| == |c.q.threads| && !q'.threads[w].Idle?
    ensures c' == c.(d := Mark(c.d, c.q.ring.items[c.q.head], Status.Taken(w)), q := q') && RunsTo(Full(), s, c')
  {
    hide M.Inv, Full, M.Next, M.CanStep, MainFits, WorkerCanStep;
    c' := WorkerMove(s, c, w, Go(0));
  }

  lemma WorkerWins(s: System, c: System, w: nat, q': M.Queue<nat>, id: nat) returns (c': System)
    requires RunsTo(Full(), s, c) && Shaped(c) && M.Inv(MAX_NODES, c.q) && MainFits(Full(), c.d) && w < |c.d.workers|
    requires M.CanStep(MAX_NODES, c.q, w) && q' == M.Next(MAX_NODES, c.q, w, M.Step(0)) && !c.q.threads[w].Idle?
    requires OneMoreItem(c.q, q', id) && id < |c.d.status| && |q'.threads| == |c.q.threads| && !q'.threads[w].Idle?
    ensures c' == c.(d := Mark(c.d, id, Queued), q := q') && RunsTo(Full(), s, c')
  {
    hide M.Inv, Full, M.Next, M.CanStep, MainFits, WorkerCanStep;
    c' := WorkerMove(s, c, w, Go(0));
  }

  /** The step that ends it. */
  lemma WorkerDone(s: System, c: System, w: nat, q': M.Queue<nat>) returns (c': System)
    requires RunsTo(Full(), s, c) && Shaped(c) && M.Inv(MAX_NODES, c.q) && MainFits(Full(), c.d) && w < |c.d.workers|
    requires M.CanStep(MAX_NODES, c.q, w) && q' == M.Next(MAX_NODES, c.q, w, M.Step(0)) && !c.q.threads[w].Idle?
    requires q'.head == c.q.head && q'.ring.tail == c.q.ring.tail && |q'.threads| == |c.q.threads|
      && q'.threads[w].Idle?
    requires if c.d.workers[w].Looking? then q'.threads[w].last.Dequeued?
             else c.d.workers[w].Enqueuing? && q'.threads[w].last.Enqueued?
    ensures RunsTo(Full(), s, c')
    ensures c' == c.(q := q', d := Hand(c.d, w,
      if c.d.workers[w].Looking? then Executing(q'.threads[w].last.value)
      else Counting(c.d.workers[w].id, c.d.workers[w].phase, c.d.workers[w].next)))
  {
    hide M.Inv, Full, M.Next, M.CanStep, MainFits, WorkerCanStep;
    c' := WorkerMove(s, c, w, Go(0));
  }

  /** The call. */
  lemma WorkerCalls(s: System, c: System, w: nat) returns (c': System)
    requires RunsTo(Full(), s, c) && Shaped(c) && M.Inv(MAX_NODES, c.q) && MainFits(Full(), c.d) && w < |c.d.workers|
    requires c.q.threads[w].Idle? && (c.d.workers[w].Looking? || c.d.workers[w].Enqueuing?)
      && WorkerCanStep(Full(), c.d, w)
    ensures RunsTo(Full(), s, c') && M.Inv(MAX_NODES, c'.q)
    ensures c' ==
      c.(q := M.Goto(c.q, w, if c.d.workers[w].Looking? then M.DequeueLoadHead
      else M.EnqueueLoadTail(c.d.workers[w].child)))
  {
    QueueMoves(c, w, if c.d.workers[w].Looking? then M.CallDequeue else M.CallEnqueue(c.d.workers[w].child));
    hide M.Inv, Full, M.CanStep, MainFits, WorkerCanStep;
    c' := WorkerMove(s, c, w, Go(0));
  }

  lemma WorkerOwnMove(s: System, c: System, w: nat) returns (c': System)
    requires RunsTo(Full(), s, c) && Shaped(c) && M.Inv(MAX_NODES, c.q) && MainFits(Full(), c.d) && w < |c.d.workers|
    requires c.q.threads[w].Idle? && !c.d.workers[w].Looking? && !c.d.workers[w].Enqueuing?
      && WorkerCanStep(Full(), c.d, w)
    ensures c' == c.(d := WorkerNext(Full(), c.d, w)) && RunsTo(Full(), s, c')
  {
    hide M.Inv, Full, MainFits, WorkerNext, WorkerCanStep;
    c' := WorkerMove(s, c, w, Go(0));
  }

  /** A Dequeue from its load of the head on, up to winning the head. */
  lemma DequeueLooks(q: M.Queue<nat>, t: nat) returns (q1: M.Queue<nat>, q2: M.Queue<nat>, q3: M.Queue<nat>)
    requires M.Inv(MAX_NODES, q) && t < |q.threads| && q.threads[t] == M.DequeueLoadHead && q.head < q.ring.tail
      && q.ring.stages[q.head].Published?
    ensures M.CanStep(MAX_NODES, q, t) && q1 == M.Next(MAX_NODES, q, t, M.Step(0)) && M.Inv(MAX_NODES, q1)
    ensures q1 == M.Goto(q, t, M.DequeueLoadSequence(q.head))
    ensures M.CanStep(MAX_NODES, q1, t) && q2 == M.Next(MAX_NODES, q1, t, M.Step(0)) && M.Inv(MAX_NODES, q2)
    ensures q2 == M.Goto(q, t, M.DequeueCas(q.head))
    ensures M.CanStep(MAX_NODES, q2, t) && q3 == M.Next(MAX_NODES, q2, t, M.Step(0)) && M.Inv(MAX_NODES, q3)
    ensures q3.threads == q.threads[t := M.DequeueRead(q.head)] && q3.head == q.head + 1
    ensures q3.ring.tail == q.ring.tail && q3.ring.items == q.ring.items
  {
    hide M.Inv;
    M.NextExtends(MAX_NODES, q, t, M.Step(0));
    q1 := M.Next(MAX_NODES, q, t, M.Step(0));
    M.NextExtends(MAX_NODES, q1, t, M.Step(0));
    M.DequeueVerdict(MAX_NODES, q1, q.head);
    q2 := M.Next(MAX_NODES, q1, t, M.Step(0));
    M.NextExtends(MAX_NODES, q2, t, M.Step(0));
    q3 := M.Next(MAX_NODES, q2, t, M.Step(0));
  }

  /** And its end. */
  lemma DequeueEnds(q: M.Queue<nat>, t: nat, pos: nat) returns (q1: M.Queue<nat>, q2: M.Queue<nat>)
    requires M.Inv(MAX_NODES, q) && t < |q.threads| && q.threads[t] == M.DequeueRead(pos)
    ensures pos < |q.ring.items|
    ensures M.CanStep(MAX_NODES, q, t) && q1 == M.Next(MAX_NODES, q, t, M.Step(0)) && M.Inv(MAX_NODES, q1)
    ensures q1.threads == q.threads[t := M.DequeueRelease(q.ring.items[pos], pos)]
    ensures q1.head == q.head && q1.ring.tail == q.ring.tail && q1.ring.items == q.ring.items
    ensures M.CanStep(MAX_NODES, q1, t) && q2 == M.Next(MAX_NODES, q1, t, M.Step(0)) && M.Inv(MAX_NODES, q2)
    ensures q2.threads == q.threads[t := M.Idle(M.Dequeued(q.ring.items[pos]))]
    ensures q2.head == q.head && q2.ring.tail == q.ring.tail && q2.ring.items == q.ring.items
  {
    assert M.PcInv(MAX_NODES, q, t, q.threads[t]);
    M.NextExtends(MAX_NODES, q, t, M.Step(0));
    q1 := M.Next(MAX_NODES, q, t, M.Step(0));
    assert M.PcInv(MAX_NODES, q1, t, q1.threads[t]);
    hide M.Inv;
    M.NextExtends(MAX_NODES, q1, t, M.Step(0));
    q2 := M.Next(MAX_NODES, q1, t, M.Step(0));
  }

  // ---- the run ----

  predicate NobodyWrites(threads: seq<M.Pc<nat>>) {
    forall t :: 0 <= t < |threads| ==> !threads[t].EnqueueWrite? && !threads[t].EnqueuePublish?
  }

  /** With nobody between a claim and its publication, what has not been taken is published. */
  lemma HeadIsPublished(c: System, main: MainPc, workers: seq<WorkerPc>, threads: seq<M.Pc<nat>>, head: nat, tail: nat,
      waiting: nat)
    requires At(c, main, workers, threads, head, tail, waiting) && head < tail
    requires NobodyWrites(threads)
    ensures |c.q.ring.stages| == tail && c.q.ring.stages[head].Published?
  {
    assert M.OwnerInv(c.q, head, c.q.ring.stages[head]);
  }

  lemma WorkerFitsAt(c: System, w: nat, main: MainPc, workers: seq<WorkerPc>, threads: seq<M.Pc<nat>>, head: nat,
      tail: nat, waiting: nat)
    requires At(c, main, workers, threads, head, tail, waiting) && w < 2
    requires match workers[w]
      case Looking => true
      case Executing(id) => id < MAX_NODES
      case LoadPhase(id) => id < MAX_NODES
      case Releasing(id, _, next) => id < MAX_NODES && next == 0
      case Enqueuing(id, _, next, child) => id == 1 && next == 0 && child < MAX_NODES
      case _ => false
    ensures WorkerCanStep(Full(), c.d, w)
  {
    FullIsWellFormed();
    FullTasks();
    hide Full, IndicesFit, WellFormed, M.Inv;
  }

  /** A worker wins the head. */
  lemma WinsHead(s: System, c: System, w: nat, main: MainPc, workers: seq<WorkerPc>, threads: seq<M.Pc<nat>>,
      head: nat, tail: nat, waiting: nat)
    returns (c': System)
    requires RunsTo(Full(), s, c) && At(c, main, workers, threads, head, tail, waiting)
      && main == Seeding(MAX_NODES - 1)
    requires w < 2 && workers[w].Looking? && threads[w].Idle? && head < tail <= MAX_NODES && NobodyWrites(threads)
    ensures RunsTo(Full(), s, c') && At(c', main, workers, threads[w := M.DequeueRead(head)], head + 1, tail, waiting)
  {
    FitsAt(c, main, workers, threads, head, tail, waiting);
    WorkerFitsAt(c, w, main, workers, threads, head, tail, waiting);
    HeadIsPublished(c, main, workers, threads, head, tail, waiting);
    hide M.Inv, Full, IndicesFit, M.Next, M.CanStep, RunsTo, WorkerCanStep;
    var c1 := WorkerCalls(s, c, w);
    var q1, q2, q3 := DequeueLooks(c1.q, w);
    var c2 := WorkerLooks(s, c1, w, q1);
    var c3 := WorkerLooks(s, c2, w, q2);
    c' := WorkerTakes(s, c3, w, q3);
  }

  /** And gets its task. */
  lemma GetsTask(s: System, c: System, w: nat, pos: nat, main: MainPc, workers: seq<WorkerPc>, threads: seq<M.Pc<nat>>,
      head: nat, tail: nat, waiting: nat)
    returns (c': System)
    requires RunsTo(Full(), s, c) && At(c, main, workers, threads, head, tail, waiting)
      && main == Seeding(MAX_NODES - 1)
    requires w < 2 && workers[w].Looking? && threads[w] == M.DequeueRead(pos)
    ensures RunsTo(Full(), s, c')
    ensures At(c', main, workers[w := Executing(pos)], threads[w := M.Idle(M.Dequeued(pos))], head, tail, waiting)
  {
    FitsAt(c, main, workers, threads, head, tail, waiting);
    var q1, q2 := DequeueEnds(c.q, w, pos);
    hide M.Inv, Full, IndicesFit, M.Next, M.CanStep, RunsTo, WorkerCanStep;
    var c1 := WorkerLooks(s, c, w, q1);
    c' := WorkerDone(s, c1, w, q2);
  }

  /** Worker 0 executes task 1 and makes the last task ready. */
  lemma ReleasesLast(s: System, c: System, threads: seq<M.Pc<nat>>, other: WorkerPc, head: nat, tail: nat)
      returns (c': System)
    requires RunsTo(Full(), s, c) && At(c, Seeding(MAX_NODES - 1), [Executing(1), other], threads, head, tail, 1)
      && threads[0].Idle?
    ensures RunsTo(Full(), s, c')
    ensures At(c', Seeding(MAX_NODES - 1), [Enqueuing(1, 0, 0, MAX_NODES - 1), other], threads, head, tail, 0)
  {
    var main := Seeding(MAX_NODES - 1);
    FullTasks();
    FitsAt(c, main, [Executing(1), other], threads, head, tail, 1);
    WorkerFitsAt(c, 0, main, [Executing(1), other], threads, head, tail, 1);
    assert Full().childTaskIds == [MAX_NODES - 1];
    hide M.Inv, Full, IndicesFit, RunsTo, MainFits;
    var c1 := WorkerOwnMove(s, c, 0);
    FitsAt(c1, main, [LoadPhase(1), other], threads, head, tail, 1);
    WorkerFitsAt(c1, 0, main, [LoadPhase(1), other], threads, head, tail, 1);
    var c2 := WorkerOwnMove(s, c1, 0);
    FitsAt(c2, main, [Releasing(1, 0, 0), other], threads, head, tail, 1);
    WorkerFitsAt(c2, 0, main, [Releasing(1, 0, 0), other], threads, head, tail, 1);
    c' := WorkerOwnMove(s, c2, 0);
  }

  /** A worker's whole Enqueue. */
  lemma WorkerEnqueues(s: System, c: System, w: nat, id: nat) returns (c': System)
    requires RunsTo(Full(), s, c) && Shaped(c) && M.Inv(MAX_NODES, c.q) && MainFits(Full(), c.d) && w < |c.d.workers|
    requires c.q.threads[w].Idle? && c.d.workers[w].Enqueuing? && c.d.workers[w].child == id
      && WorkerCanStep(Full(), c.d, w)
    requires c.q.ring.tail < MAX_NODES && id < |c.d.status|
    ensures RunsTo(Full(), s, c') && M.Inv(MAX_NODES, c'.q) && OneMoreItem(c.q, c'.q, id)
    ensures c'.q.threads == c.q.threads[w := M.Idle(M.Enqueued)]
    ensures var pc := c.d.workers[w];
      c' == c.(q := c'.q, d := Hand(Mark(c.d, id, Queued), w, Counting(pc.id, pc.phase, pc.next)))
  {
    hide M.Inv, Full, IndicesFit, M.Next, M.CanStep, RunsTo, WorkerCanStep;
    var c1 := WorkerCalls(s, c, w);
    var q1, q2 := EnqueueLooks(c1.q, w, id);
    var q3, q4, q5 := EnqueueFills(q2, w, id);
    var c2 := WorkerLooks(s, c1, w, q1);
    var c3 := WorkerLooks(s, c2, w, q2);
    var c4 := WorkerWins(s, c3, w, q3, id);
    var c5 := WorkerLooks(s, c4, w, q4);
    c' := WorkerDone(s, c5, w, q5);
  }

  /** And enqueues it. */
  lemma EnqueuesLast(s: System, c: System, threads: seq<M.Pc<nat>>, other: WorkerPc, head: nat) returns (c': System)
    requires RunsTo(Full(), s, c)
    requires At(c, Seeding(MAX_NODES - 1), [Enqueuing(1, 0, 0, MAX_NODES - 1), other], threads, head, MAX_NODES - 1, 0)
      && threads[0].Idle?
    ensures RunsTo(Full(), s, c')
    ensures At(c', Seeding(MAX_NODES - 1), [Counting(1, 0, 0), other], threads[0 := M.Idle(M.Enqueued)], head,
      MAX_NODES, 0)
  {
    var main, workers := Seeding(MAX_NODES - 1), [Enqueuing(1, 0, 0, MAX_NODES - 1), other];
    FitsAt(c, main, workers, threads, head, MAX_NODES - 1, 0);
    WorkerFitsAt(c, 0, main, workers, threads, head, MAX_NODES - 1, 0);
    hide M.Inv, Full, IndicesFit, RunsTo, WorkerCanStep, MainFits;
    c' := WorkerEnqueues(s, c, 0, MAX_NODES - 1);
  }

  /** A position that a worker has won and not given back leaves no slot for the one a lap later. */
  lemma RefusesMore(s: System, c: System, workers: seq<WorkerPc>, threads: seq<M.Pc<nat>>) returns (c': System)
    requires RunsTo(Full(), s, c) && At(c, SeedEnqueuing(MAX_NODES - 1), workers, threads, 2, MAX_NODES, 0)
    requires threads[1] == M.DequeueRead(0) && threads[2].Idle?
    ensures RunsTo(Full(), s, c') && |threads| == 3 && c'.q.threads == threads[2 := M.Idle(M.Full)]
  {
    FitsAt(c, SeedEnqueuing(MAX_NODES - 1), workers, threads, 2, MAX_NODES, 0);
    var c1, q2, q3;
    c1 := MainCalls(s, c);
    q2, q3 := LooksInVain(c1.q, 2, MAX_NODES - 1);
    hide M.Inv, Full, IndicesFit, M.Next, M.CanStep, RunsTo;
    var c2 := MainLooks(s, c1, q2);
    c' := MainMove(s, c2, Go(0));
  }

  lemma LooksInVain(q: M.Queue<nat>, t: nat, item: nat) returns (q1: M.Queue<nat>, q2: M.Queue<nat>)
    requires M.Inv(MAX_NODES, q) && t < |q.threads| && q.threads[t] == M.EnqueueLoadTail(item)
      && q.ring.tail == MAX_NODES
    requires t != 1 && |q.threads| > 1 && q.threads[1] == M.DequeueRead(0)
    ensures M.CanStep(MAX_NODES, q, t) && q1 == M.Next(MAX_NODES, q, t, M.Step(0)) && M.Inv(MAX_NODES, q1)
    ensures q1 == M.Goto(q, t, M.EnqueueLoadSequence(item, MAX_NODES))
    ensures M.CanStep(MAX_NODES, q1, t) && q2 == M.Next(MAX_NODES, q1, t, M.Step(0)) && M.Inv(MAX_NODES, q2)
    ensures q2 == M.Goto(q, t, M.Idle(M.Full))
  {
    assert M.PcInv(MAX_NODES, q, 1, q.threads[1]);
    hide M.Inv;
    M.NextExtends(MAX_NODES, q, t, M.Step(0));
    q1 := M.Next(MAX_NODES, q, t, M.Step(0));
    M.NextExtends(MAX_NODES, q1, t, M.Step(0));
    M.EnqueueVerdict(MAX_NODES, q1, MAX_NODES);
    q2 := M.Next(MAX_NODES, q1, t, M.Step(0));
  }

  /** The seed loop chooses the last task again. */
  lemma ChoosesAgain(s: System, c: System, workers: seq<WorkerPc>, threads: seq<M.Pc<nat>>) returns (c': System)
    requires RunsTo(Full(), s, c) && At(c, Seeding(MAX_NODES - 1), workers, threads, 2, MAX_NODES, 0)
      && threads[2].Idle?
    ensures RunsTo(Full(), s, c') && At(c', SeedEnqueuing(MAX_NODES - 1), workers, threads, 2, MAX_NODES, 0)
  {
    FitsAt(c, Seeding(MAX_NODES - 1), workers, threads, 2, MAX_NODES, 0);
    assert Full().phaseRanges[0].count == MAX_NODES;
    hide M.Inv, Full, IndicesFit, RunsTo;
    c' := MainOwnMove(s, c);
  }

  /** Outside the sound runs the assertions on the result of Enqueue can fail, on a well-formed graph: 256
      tasks are in the queue's positions, worker 1 stands on the first of them, the last task has been
      chosen by worker 0 and is chosen again by the seed loop, and its Enqueue returns false. */
  lemma EnqueueCanBeRefused(c: System) returns (states: seq<System>, moves: seq<SystemMove>)
    requires Start(Full(), c) && c.d.workers == [Looking, Looking]
    ensures WellFormed(Full()) && IsRun(Full(), states, moves) && states[0] == c
    ensures states[|moves|].q.threads == [M.Idle(M.Enqueued), M.DequeueRead(0), M.Idle(M.Full)]
  {
    FullIsWellFormed();
    hide Full, At, RunsTo, Start, IndicesFit, WellFormed;
    var s := Seeded(c);
    var r := Overflows(c, s);
    states, moves := RunOf(c, r);
  }

  lemma Seeded(c: System) returns (c': System)
    requires Start(Full(), c) && c.d.workers == [Looking, Looking]
    ensures RunsTo(Full(), c, c')
    ensures At(c', Seeding(MAX_NODES - 1), [Looking, Looking],
      [M.Idle(M.Nothing), M.Idle(M.Nothing), M.Idle(M.Enqueued)], 0, MAX_NODES - 1, 1)
  {
    hide Full, At, RunsTo, IndicesFit;
    Here(Full(), c);
    var none := M.Idle(M.Nothing);
    assert c.q.threads == [none, none, none];
    var b := Begins(c);
    hide Start, BuildingAt;
    var c1 := Builds(c, b, 0, [Looking, Looking], [none, none, none]);
    var c2 := SeedsOne(c, c1, 0, [Looking, Looking], [none, none, none], 0, 1);
    var seeded := [none, none, M.Idle(M.Enqueued)];
    assert [none, none, none][2 := M.Idle(M.Enqueued)] == seeded;
    c' := SeedsAllButOne(c, c2, 1, [Looking, Looking], seeded);
  }

  lemma Begins(c: System) returns (c': System)
    requires Start(Full(), c) && RunsTo(Full(), c, c) && |c.d.workers| == 2
    ensures RunsTo(Full(), c, c') && c' == BeginTickStep(c, 0) && BuildingAt(c', 0, c.d.workers, c.q.threads)
  {
    M.InitInv(MAX_NODES, c.q);
    c' := BeginTickStep(c, 0);
    OneMore(Full(), c, c, BeginTick(0), c');
    hide M.Inv, Full, IndicesFit;
  }

  lemma Overflows(s: System, c: System) returns (c': System)
    requires RunsTo(Full(), s, c)
    requires At(c, Seeding(MAX_NODES - 1), [Looking, Looking],
      [M.Idle(M.Nothing), M.Idle(M.Nothing), M.Idle(M.Enqueued)], 0, MAX_NODES - 1, 1)
    ensures RunsTo(Full(), s, c') && c'.q.threads == [M.Idle(M.Enqueued), M.DequeueRead(0), M.Idle(M.Full)]
  {
    hide Full, At, RunsTo;
    var main, looking, none, done := Seeding(MAX_NODES - 1), [Looking, Looking], M.Idle(M.Nothing), M.Idle(M.Enqueued);
    var c1 := WinsHead(s, c, 1, main, looking, [none, none, done], 0, MAX_NODES - 1, 1);
    assert [none, none, done][1 := M.DequeueRead(0)] == [none, M.DequeueRead(0), done];
    var c2 := WinsHead(s, c1, 0, main, looking, [none, M.DequeueRead(0), done], 1, MAX_NODES - 1, 1);
    assert [none, M.DequeueRead(0), done][0 := M.DequeueRead(1)] == [M.DequeueRead(1), M.DequeueRead(0), done];
    var c3 := GetsTask(s, c2, 0, 1, main, looking, [M.DequeueRead(1), M.DequeueRead(0), done], 2, MAX_NODES - 1, 1);
    assert [M.DequeueRead(1), M.DequeueRead(0), done][0 := M.Idle(M.Dequeued(1))] ==
      [M.Idle(M.Dequeued(1)), M.DequeueRead(0), done];
    assert looking[0 := Executing(1)] == [Executing(1), Looking];
    var c4 := ReleasesLast(s, c3, [M.Idle(M.Dequeued(1)), M.DequeueRead(0), done], Looking, 2, MAX_NODES - 1);
    var c5 := EnqueuesLast(s, c4, [M.Idle(M.Dequeued(1)), M.DequeueRead(0), done], Looking, 2);
    assert [M.Idle(M.Dequeued(1)), M.DequeueRead(0), done][0 := done] == [done, M.DequeueRead(0), done];
    var c6 := ChoosesAgain(s, c5, [Counting(1, 0, 0), Looking], [done, M.DequeueRead(0), done]);
    c' := RefusesMore(s, c6, [Counting(1, 0, 0), Looking], [done, M.DequeueRead(0), done]);
  }

  lemma RunOf(c: System, r: System) returns (states: seq<System>, moves: seq<SystemMove>)
    requires Start(Full(), c) && RunsTo(Full(), c, r)
    ensures IsRun(Full(), states, moves) && states[0] == c && states[|moves|] == r
  {
    hide Start, StepsTo, InOrder, Full;
    states, moves :| Steps(Full(), states, moves) && states[0] == c && states[|moves|] == r;
  }
}
