/** Two short runs of the scheduler, on well-formed graphs with an edge inside a phase, that show
    what the assumptions (S) and (C) keep out. */
module DispatchCounterexamples {
  import opened Tasks
  import opened Words
  import opened Dispatch
  import opened DispatchCounts

  function Indices(n: nat): seq<nat>
    requires n <= MAX_NODES
  {
    seq(MAX_NODES, i => if 0 <= i < n then i else 0)
  }

  /** Task 0 before task 1, both in the first phase. */
  function Chain(): TaskGraph {
    TaskGraph([TaskNode(0, 0, 0, 1, 0), TaskNode(1, 0, 1, 0, 1)], [1],
              [PhaseRange(0, 2), PhaseRange(2, 0), PhaseRange(2, 0), PhaseRange(2, 0)], Indices(2))
  }

  /** Task 0 before tasks 1 and 2, all in the first phase. */
  function Fork(): TaskGraph {
    TaskGraph([TaskNode(0, 0, 0, 2, 0), TaskNode(1, 0, 2, 0, 1), TaskNode(2, 0, 2, 0, 1)], [1, 2],
              [PhaseRange(0, 3), PhaseRange(3, 0), PhaseRange(3, 0), PhaseRange(3, 0)], Indices(3))
  }

  /** A graph whose every edge leads from one task to another task has no cycle. */
  lemma StarIsAcyclic(g: TaskGraph, center: nat)
    requires forall e, c :: e in Incoming(g, c) ==> e.parent == center && c != center
    ensures Acyclic(g)
  {
    forall walk: seq<nat> | IsWalk(g, walk) && |walk| > 1 ensures walk[0] != walk[|walk| - 1] {
      assert HasEdge(g, walk[0], walk[1]);
      assert HasEdge(g, walk[|walk| - 2], walk[|walk| - 1]);
    }
  }

  lemma ChainEdges()
    ensures AllEdges(Chain()) == {Edge(0, 0)}
    ensures Incoming(Chain(), 0) == {} && Incoming(Chain(), 1) == {Edge(0, 0)}
    ensures forall e, c :: e in Incoming(Chain(), c) ==> e.parent == 0 && c != 0
  {
    assert forall e :: e in AllEdges(Chain()) <==> e == Edge(0, 0);
  }

  lemma ChainIsWellFormed()
    ensures WellFormed(Chain())
  {
    hide AllEdges, Incoming, Acyclic;
    ChainEdges();
    StarIsAcyclic(Chain(), 0);
  }

  lemma ForkEdges()
    ensures AllEdges(Fork()) == {Edge(0, 0), Edge(0, 1)}
    ensures Incoming(Fork(), 0) == {} && Incoming(Fork(), 1) == {Edge(0, 0)} && Incoming(Fork(), 2) == {Edge(0, 1)}
    ensures forall e, c :: e in Incoming(Fork(), c) ==> e.parent == 0 && c != 0
  {
    assert forall e :: e in AllEdges(Fork()) <==> e == Edge(0, 0) || e == Edge(0, 1);
  }

  lemma ForkIsWellFormed()
    ensures WellFormed(Fork())
  {
    hide AllEdges, Incoming, Acyclic;
    ForkEdges();
    StarIsAcyclic(Fork(), 0);
  }

  lemma Start(g: TaskGraph, s: State) returns (r: State)
    requires Init(g, s)
    ensures Counts(g, s) && Reaches(g, s, r) && r == BeginPhase(s, INPUT)
  {
    AllLookingBalance(s.workers);
    assert Exec(g, s, []) == s;
    r := ReachesApply(g, s, s, Begin(INPUT));
  }

  lemma SeedsChain(s: State) returns (r: State)
    requires Init(Chain(), s) && s.workers == [Looking]
    ensures Counts(Chain(), s) && Reaches(Chain(), s, r)
    ensures r == State(0, Seeding(1), [Looking], s.remaining[0 := 0][1 := 1], [0], 1, s.epoch, r.status, r.chosen, [])
  {
    var g := Chain();
    hide Counts, Reaches, IndicesFit;
    r := Start(g, s);
    r := MainMoves(g, s, r);
    r := MainMoves(g, s, r);
    r := MainMoves(g, s, r);
    assert r == State(0, Seeding(0), [Looking], s.remaining[0 := 0][1 := 1], [], 0, s.epoch, r.status, r.chosen, []);
    r := MainMoves(g, s, r);
    r := MainMoves(g, s, r);
    r := MainMoves(g, s, r);
  }

  /** The worker runs task 0 and releases task 1 while the seed loop stands before task 1. */
  lemma CompletesDuringSeeding(s: State, r0: State, rem: seq<nat>) returns (r: State)
    requires Counts(Chain(), s) && Reaches(Chain(), s, r0) && |s.workers| == 1 && |rem| == MAX_NODES && rem[0] == 0
      && rem[1] == 1
    requires r0 == State(0, Seeding(1), [Looking], rem, [0], 1, s.epoch, r0.status, r0.chosen, [])
    ensures Reaches(Chain(), s, r)
    ensures r == State(0, Seeding(1), [Looking], rem[1 := 0], [1], 1, s.epoch, r.status, r.chosen, [0])
  {
    var g := Chain();
    hide Counts, Reaches, IndicesFit;
    r := WorkerMoves(g, s, r0, 0);
    r := WorkerMoves(g, s, r, 0);
    r := WorkerMoves(g, s, r, 0);
    assert r == State(0, Seeding(1), [Releasing(0, 0, 0)], rem, [], 1, s.epoch, r.status, r.chosen, [0]);
    r := WorkerMoves(g, s, r, 0);
    r := WorkerMoves(g, s, r, 0);
    r := WorkerMoves(g, s, r, 0);
    assert r == State(0, Seeding(1), [Releasing(0, 0, 1)], rem[1 := 0], [1], 2, s.epoch, r.status, r.chosen, [0]);
    r := WorkerMoves(g, s, r, 0);
  }

  /** The seed loop finds task 1's counter at zero and enqueues it once more. */
  lemma SeedsAgain(s: State, r0: State, rem: seq<nat>) returns (r: State)
    requires Counts(Chain(), s) && Reaches(Chain(), s, r0) && |s.workers| == 1 && |rem| == MAX_NODES && rem[1] == 0
    requires r0 == State(0, Seeding(1), [Looking], rem, [1], 1, s.epoch, r0.status, r0.chosen, [0])
    ensures Reaches(Chain(), s, r)
    ensures r == State(0, Seeding(2), [Looking], rem, [1, 1], 2, s.epoch, r.status, r.chosen, [0])
  {
    var g := Chain();
    hide Counts, Reaches, IndicesFit;
    r := MainMoves(g, s, r0);
    r := MainMoves(g, s, r);
    r := MainMoves(g, s, r);
  }

  lemma RunsTaskOne(s: State, r0: State, queue: seq<nat>, active: nat, log: seq<nat>) returns (r: State)
    requires Counts(Chain(), s) && Reaches(Chain(), s, r0) && |s.workers| == 1 && 1 < active < WORD32
    requires r0 == State(0, Seeding(2), [Looking], r0.remaining, [1] + queue, active, s.epoch, r0.status, r0.chosen,
      log)
    ensures Reaches(Chain(), s, r)
    ensures r == State(0, Seeding(2), [Looking], r0.remaining, queue, active - 1, s.epoch, r.status, r.chosen,
      log + [1])
  {
    var g := Chain();
    hide Counts, Reaches, IndicesFit;
    r := WorkerMoves(g, s, r0, 0);
    assert r == State(0, Seeding(2), [Executing(1)], r0.remaining, queue, active, s.epoch, r.status, r.chosen, log);
    r := WorkerMoves(g, s, r, 0);
    r := WorkerMoves(g, s, r, 0);
    r := WorkerMoves(g, s, r, 0);
  }

  /** Without (S): one worker finishes task 0 while the main thread is still seeding and releases
      task 1; the seed loop then reads task 1's counter, finds zero, and enqueues it again, so
      task 1 is executed twice. */
  lemma WithoutSTaskRunsTwice(s: State) returns (r: State)
    requires Init(Chain(), s) && s.workers == [Looking]
    ensures Counts(Chain(), s) && Reaches(Chain(), s, r)
    ensures r.log == [0, 1, 1]
  {
    hide Counts, Reaches, IndicesFit;
    var rem := s.remaining[0 := 0][1 := 1];
    r := SeedsChain(s);
    r := CompletesDuringSeeding(s, r, rem);
    r := SeedsAgain(s, r, rem[1 := 0]);
    r := RunsTaskOne(s, r, [1], 2, [0]);
    r := WorkerMoves(Chain(), s, r, 0);
    r := WorkerMoves(Chain(), s, r, 0);
  }

  lemma SeedsFork(s: State) returns (r: State)
    requires Init(Fork(), s) && s.workers == [Looking, Looking]
    ensures Counts(Fork(), s) && Reaches(Fork(), s, r)
    ensures r == State(0, Seeding(1), [Looking, Looking], s.remaining[0 := 0][1 := 1][2 := 1], [0], 1, s.epoch,
      r.status, r.chosen, [])
  {
    var g := Fork();
    hide Counts, Reaches, IndicesFit;
    r := Start(g, s);
    r := MainMoves(g, s, r);
    r := MainMoves(g, s, r);
    r := MainMoves(g, s, r);
    r := MainMoves(g, s, r);
    assert r == State(0, Seeding(0), [Looking, Looking], s.remaining[0 := 0][1 := 1][2 := 1], [], 0, s.epoch, r.status,
      r.chosen, []);
    r := MainMoves(g, s, r);
    r := MainMoves(g, s, r);
    r := MainMoves(g, s, r);
  }

  lemma EndsSeedingFork(s: State, r0: State, rem: seq<nat>) returns (r: State)
    requires Counts(Fork(), s) && Reaches(Fork(), s, r0) && |s.workers| == 2 && |rem| == MAX_NODES && rem[1] == 1
      && rem[2] == 1
    requires r0 == State(0, Seeding(1), [Looking, Looking], rem, [0], 1, s.epoch, r0.status, r0.chosen, [])
    ensures Reaches(Fork(), s, r)
    ensures r == State(0, WaitLoad, [Looking, Looking], rem, [0], 1, s.epoch, r.status, r.chosen, [])
  {
    var g := Fork();
    hide Counts, Reaches, IndicesFit;
    r := MainMoves(g, s, r0);
    r := MainMoves(g, s, r);
    r := MainMoves(g, s, r);
  }

  /** Worker 0 runs task 0 and enqueues task 1, but has not counted it yet. */
  lemma EnqueuesUncounted(s: State, r0: State, rem: seq<nat>) returns (r: State)
    requires Counts(Fork(), s) && Reaches(Fork(), s, r0) && |s.workers| == 2 && |rem| == MAX_NODES && rem[1] == 1
      && rem[2] == 1
    requires r0 == State(0, WaitLoad, [Looking, Looking], rem, [0], 1, s.epoch, r0.status, r0.chosen, [])
    ensures Reaches(Fork(), s, r)
    ensures r == State(0, WaitLoad, [Counting(0, 0, 0), Looking], rem[1 := 0], [1], 1, s.epoch, r.status, r.chosen, [0])
  {
    var g := Fork();
    hide Counts, Reaches, IndicesFit;
    r := WorkerMoves(g, s, r0, 0);
    r := WorkerMoves(g, s, r, 0);
    r := WorkerMoves(g, s, r, 0);
    assert r == State(0, WaitLoad, [Releasing(0, 0, 0), Looking], rem, [], 1, s.epoch, r.status, r.chosen, [0]);
    r := WorkerMoves(g, s, r, 0);
    r := WorkerMoves(g, s, r, 0);
  }

  /** Worker 1 runs task 1 and takes the counter to zero. */
  lemma ReachesZero(s: State, r0: State, rem: seq<nat>) returns (r: State)
    requires Counts(Fork(), s) && Reaches(Fork(), s, r0) && |s.workers| == 2 && |rem| == MAX_NODES
    requires r0 == State(0, WaitLoad, [Counting(0, 0, 0), Looking], rem, [1], 1, s.epoch, r0.status, r0.chosen, [0])
    ensures Reaches(Fork(), s, r)
    ensures r == State(0, WaitLoad, [Counting(0, 0, 0), EpochAdd], rem, [], 0, s.epoch, r.status, r.chosen, [0, 1])
  {
    var g := Fork();
    hide Counts, Reaches, IndicesFit;
    r := WorkerMoves(g, s, r0, 1);
    r := WorkerMoves(g, s, r, 1);
    r := WorkerMoves(g, s, r, 1);
    assert r == State(0, WaitLoad, [Counting(0, 0, 0), Releasing(1, 0, 0)], rem, [], 1, s.epoch, r.status, r.chosen,
      [0, 1]);
    r := WorkerMoves(g, s, r, 1);
  }

  /** Without (C), although (S) holds: a child is dequeued and completed before its parent has
      counted it, the active counter passes through zero, and ExecutePhase returns while task 2 of
      the phase has not been executed. */
  lemma WithoutCPhaseReturnsEarly(s: State) returns (r: State)
    requires Init(Fork(), s) && s.workers == [Looking, Looking]
    ensures Counts(Fork(), s) && Reaches(Fork(), s, r)
    ensures r.main.Outside? && r.phase == 0 && r.log == [0, 1]
    ensures IsTask(Fork(), 2) && GetNode(Fork(), 2).phaseId == 0
  {
    hide Counts, Reaches, IndicesFit;
    var rem := s.remaining[0 := 0][1 := 1][2 := 1];
    r := SeedsFork(s);
    r := EndsSeedingFork(s, r, rem);
    r := EnqueuesUncounted(s, r, rem);
    r := ReachesZero(s, r, rem[1 := 0]);
    r := MainMoves(Fork(), s, r);
  }
}
