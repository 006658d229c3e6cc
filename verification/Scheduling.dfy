/** JobDispatch as an object.  The main thread runs the methods here; between any two of its atomic
    operations the workers take any number of their own steps, as far as (S) and (C) allow. */
module Scheduling {
  import opened Collections
  import opened Tasks
  import opened Dispatch
  import opened DispatchCounts
  import opened DispatchSteps
  import opened DispatchRuns
  import opened DispatchProgress

  const EMPTY_GRAPH := TaskGraph([], [], [], [])

  function Zeros(n: nat): (r: seq<nat>)
    ensures |r| == n && forall i :: 0 <= i < n ==> r[i] == 0
  {
    seq(n, _ => 0)
  }

  function AllPendingOf(n: nat): (r: seq<Status>)
    ensures |r| == n && forall i :: 0 <= i < n ==> r[i] == Pending
  {
    seq(n, _ => Pending)
  }

  /** Before Initialize and after Shutdown: no workers, nothing queued, every counter zero. */
  function InitialState(): State {
    State(INPUT, Outside(0), [], Zeros(MAX_NODES), [], 0, 0, AllPendingOf(MAX_NODES), [], [])
  }

  /** How many workers are started: what the hardware offers, as a 16-bit number, within the pool's limit. */
  function PoolSize(hardwareConcurrency: nat): (n: nat)
    ensures 0 < n <= 32
    ensures 1 <= hardwareConcurrency % 65536 <= 32 ==> n == hardwareConcurrency % 65536
    ensures hardwareConcurrency % 65536 == 0 || hardwareConcurrency % 65536 > 32 ==> n == 1
  {
    var offered := hardwareConcurrency % 0x1_0000;
    if 0 < offered <= MAX_WORKERS then offered else 1
  }

  // ---- the moves that the methods make ----

  /** A run in which the phases are asked for in order and (S) and (C) are kept leads from `start` to `s`. */
  ghost predicate RunTo(g: TaskGraph, start: State, run: seq<Move>, s: State) {
    Init(g, start) && Counts(g, start) && PhasesAsked(g, start, run) && Obeys(g, start, run) && Exec(g, start, run) == s
  }

  lemma StartOfRun(g: TaskGraph, s: State)
    requires Init(g, s)
    ensures RunTo(g, s, [], s)
  {
    InitCounts(g, s);
    hide Init, Counts;
  }

  /** One more move. */
  lemma RunOn(g: TaskGraph, start: State, run: seq<Move>, s: State, m: Move)
    requires RunTo(g, start, run, s) && InOrder(s, m) && ObeysS(s, m) && ObeysC(s, m)
    ensures Counts(g, s) && RunTo(g, start, run + [m], Apply(g, s, m))
  {
    hide Init, Counts, InOrder, ObeysS, ObeysC;
    ObeysOn(g, start, run, m);
    ExecSnoc(g, start, run, m);
  }

  lemma {:induction false} ObeysOn(g: TaskGraph, s: State, run: seq<Move>, m: Move)
    requires Counts(g, s) && PhasesAsked(g, s, run) && Obeys(g, s, run)
    requires InOrder(Exec(g, s, run), m) && ObeysS(Exec(g, s, run), m) && ObeysC(Exec(g, s, run), m)
    ensures PhasesAsked(g, s, run + [m]) && Obeys(g, s, run + [m])
    decreases |run|
  {
    hide Counts, InOrder, ObeysS, ObeysC;
    if run == [] {
      assert (run + [m])[1..] == [];
    } else {
      ObeysOn(g, Apply(g, s, run[0]), run[1..], m);
      assert (run + [m])[1..] == run[1..] + [m];
    }
  }

  lemma MainGoes(g: TaskGraph, start: State, run: seq<Move>, s: State)
    requires Held(g, s) && ObeysC(s, ByMain) && RunTo(g, start, run, s)
    ensures MainFits(g, s) && Held(g, MainNext(g, s)) && RunTo(g, start, run + [ByMain], MainNext(g, s))
    ensures MainNext(g, s).workers == s.workers && ObeysC(MainNext(g, s), ByMain)
  {
    HeldMain(g, s);
    hide Held, RunTo, MainFits, ObeysC;
    RunOn(g, start, run, s, ByMain);
  }

  lemma WorkerGoes(g: TaskGraph, start: State, run: seq<Move>, s: State, w: nat)
    requires Held(g, s) && w < |s.workers| && ObeysS(s, ByWorker(w)) && ObeysC(s, ByWorker(w))
      && RunTo(g, start, run, s)
    ensures WorkerCanStep(g, s, w) && Held(g, WorkerNext(g, s, w))
      && RunTo(g, start, run + [ByWorker(w)], WorkerNext(g, s, w))
    ensures var s' := WorkerNext(g, s, w);
      |s'.workers| == |s.workers| && (s'.workers[w].Counting? ==> s.workers[w].Enqueuing?) && ObeysC(s', ByWorker(w))
  {
    HeldWorker(g, s, w);
    hide Held, RunTo, WorkerCanStep, ObeysC, ObeysS;
    RunOn(g, start, run, s, ByWorker(w));
  }

  lemma PhaseBegins(g: TaskGraph, start: State, run: seq<Move>, s: State, k: nat)
    requires Held(g, s) && s.main.Outside? && k < PHASES && (k == INPUT || k == s.main.next) && NobodyCounts(s)
      && RunTo(g, start, run, s)
    ensures Held(g, BeginPhase(s, k)) && NobodyCounts(BeginPhase(s, k))
      && RunTo(g, start, run + [Begin(k)], BeginPhase(s, k))
  {
    HeldBegin(g, s, k);
    hide Held, RunTo;
    RunOn(g, start, run, s, Begin(k));
  }

  /** The run goes on inside the phase: moves of the workers and of the main thread. */
  ghost predicate Inside(before: seq<Move>, run: seq<Move>) {
    before <= run && forall j {:trigger run[j]} :: |before| <= j < |run| ==> !run[j].Begin?
  }

  /** The run goes on by moves of the workers. */
  ghost predicate ByWorkers(before: seq<Move>, run: seq<Move>) {
    before <= run && forall j {:trigger run[j]} :: |before| <= j < |run| ==> run[j].ByWorker?
  }

  /** The run goes on with the beginning of phase `k`, and then inside it. */
  ghost predicate PhaseRun(before: seq<Move>, k: nat, run: seq<Move>) {
    Inside(before + [Begin(k)], run)
  }

  /** The phases asked for in a run. */
  ghost function Asked(run: seq<Move>): seq<nat> {
    if run == [] then []
    else
      var m := run[|run| - 1];
      Asked(run[..|run| - 1]) + if m.Begin? then [m.phase] else []
  }

  lemma {:induction false} InsideAsksNothing(before: seq<Move>, run: seq<Move>)
    requires Inside(before, run)
    ensures Asked(run) == Asked(before)
    decreases |run|
  {
    if |run| > |before| {
      InsideAsksNothing(before, run[..|run| - 1]);
    } else {
      assert run == before;
    }
  }

  lemma PhaseRunAsks(before: seq<Move>, k: nat, run: seq<Move>)
    requires PhaseRun(before, k, run)
    ensures Asked(run) == Asked(before) + [k]
  {
    InsideAsksNothing(before + [Begin(k)], run);
    assert (before + [Begin(k)])[..|before|] == before;
  }

  lemma NoMoves(run: seq<Move>)
    ensures ByWorkers(run, run) && Inside(run, run)
  {
  }

  lemma ByWorkersOn(a: seq<Move>, b: seq<Move>, c: seq<Move>)
    requires ByWorkers(a, b) && ByWorkers(b, c)
    ensures ByWorkers(a, c)
  {
  }

  /** What every task function is given; only its identity matters here. */
  class RuntimeContext {
    constructor () { }
  }

  class JobDispatch {
    var graph: TaskGraph
    var context: RuntimeContext?
    var registry: TaskRegistry?
    var running: bool
    var currentPhase: nat
    var runtimeState: seq<nat>
    var readyQueue: seq<nat>
    var activeTaskCount: nat
    var phaseEpoch: nat
    /** Where each worker thread stands; the pool is empty while the dispatcher is not running. */
    var workers: seq<WorkerPc>
    /** The pool's own run flag, and the workers that have left their loops. */
    var poolRunning: bool
    var left: set<nat>
    /** Is the main thread blocked in the wait on the epoch? */
    var asleep: bool
    /** Where the main thread stands, and the histories of the tick. */
    ghost var main: MainPc
    ghost var status: seq<Status>
    ghost var chosen: seq<nat>
    ghost var log: seq<nat>
    /** The moves made since Initialize, and the state before them. */
    ghost var start: State
    ghost var run: seq<Move>

    ghost function View(): State
      reads this
    {
      State(currentPhase, main, workers, runtimeState, readyQueue, activeTaskCount, phaseEpoch, status, chosen, log)
    }

    /** The state is the one that the moves made lead to, and they kept to (S) and (C). */
    ghost predicate Recorded()
      reads this
    {
      RunTo(graph, start, run, View())
    }

    /** Running, and nobody stands between an enqueue and its increment. */
    ghost predicate Steady()
      reads this
    {
      && Held(graph, View()) && NobodyCounts(View()) && |workers| > 0 && asleep == main.Asleep? && Recorded()
      && (if poolRunning then left == {} else main.Outside?)
    }

    /** As after construction. */
    ghost predicate AtStart()
      reads this
    {
      && View() == InitialState() && !asleep && graph == EMPTY_GRAPH && context == null && registry == null && run == []
      && !poolRunning && left == {}
    }

    ghost predicate Valid()
      reads this
    {
      if running then Steady() && poolRunning else AtStart()
    }

    constructor ()
      ensures Valid() && !running && AtStart()
    {
      graph, context, registry, running := EMPTY_GRAPH, null, null, false;
      poolRunning, left := false, {};
      currentPhase, runtimeState := INPUT, Zeros(MAX_NODES);
      readyQueue, activeTaskCount, phaseEpoch, workers, asleep := [], 0, 0, [], false;
      main, status, chosen, log := Outside(0), AllPendingOf(MAX_NODES), [], [];
      start, run := InitialState(), [];
    }

    /** Initialization succeeds exactly on a dispatcher that is not running and for a graph that is
        fully registered; then graph, context and registry are bound and as many workers started as the
        hardware offers, within the pool's fixed limit.  A failure changes nothing. */
    method Initialize(graph: TaskGraph, context: RuntimeContext, registry: TaskRegistry, hardwareConcurrency: nat)
        returns (ok: bool)
      requires Valid() && registry.Valid() && WellFormed(graph)
      modifies this
      ensures Valid() && (ok <==> !old(running) && forall n :: 0 <= n < |graph.nodes| ==>
        graph.nodes[n].id < 256 && registry.registry[graph.nodes[n].id] != None)
      ensures ok ==> running && Init(graph, View()) && start == View() && run == []
      ensures ok ==> this.graph == graph && this.context == context && this.registry == registry
      ensures ok ==> |workers| == PoolSize(hardwareConcurrency)
      ensures !ok ==> running == old(running) && View() == old(View()) && this.graph == old(this.graph)
      ensures !ok ==> this.context == old(this.context) && this.registry == old(this.registry)
    {
      if running {
        return false;
      }
      ok := registry.Validate(graph);
      if !ok {
        return false;
      }
      ok := Bind(graph, context, registry, PoolSize(hardwareConcurrency));
    }

    /** The part of Initialize that changes the dispatcher; it runs exactly if the pool has started. */
    method Bind(graph: TaskGraph, context: RuntimeContext, registry: TaskRegistry, poolSize: nat) returns (ok: bool)
      requires AtStart() && WellFormed(graph) && 0 < poolSize <= MAX_WORKERS
      modifies this
      ensures ok && running && poolRunning && Steady() && |workers| == poolSize
      ensures this.graph == graph && this.context == context && this.registry == registry
      ensures Init(graph, View()) && start == View() && run == []
    {
      hide WellFormed, Held, NobodyCounts, Steady, Init;
      this.graph, this.context, this.registry := graph, context, registry;
      ok := StartPool(poolSize);
      running := ok;
      StartIsHeld(graph, View());
      BeginRun();
    }

    /** No move has been made yet. */
    ghost method BeginRun()
      requires Init(graph, View()) && Held(graph, View()) && NobodyCounts(View()) && |workers| > 0 && !asleep
        && poolRunning && left == {}
      modifies this`start, this`run
      ensures Steady() && start == View() && run == []
    {
      hide Held, NobodyCounts, Init, RunTo;
      start, run := View(), [];
      StartOfRun(graph, start);
      assert main == Outside(0) by { OutsideAtInit(graph, View()); }
    }

    lemma OutsideAtInit(g: TaskGraph, s: State)
      requires Init(g, s)
      ensures s.main == Outside(0)
    {
    }

    /** A pool that runs already refuses to start, and nothing changes; else every worker begins its loop. */
    method StartPool(poolSize: nat) returns (ok: bool)
      modifies this`workers, this`poolRunning, this`left
      ensures ok == !old(poolRunning) && poolRunning
      ensures if ok then left == {} && |workers| == poolSize && forall w :: 0 <= w < poolSize ==> workers[w] == Looking
              else left == old(left) && workers == old(workers)
    {
      if poolRunning {
        return false;
      }
      workers, left, poolRunning := seq(poolSize, _ => Looking), {}, true;
      return true;
    }

    lemma StartIsHeld(g: TaskGraph, s: State)
      requires WellFormed(g) && |s.remaining| == |s.status| == MAX_NODES && s.phase == INPUT
      requires s.main == Outside(0) && s.queue == [] && s.active == 0 && s.chosen == [] && s.log == []
      requires forall id :: 0 <= id < |s.status| ==> s.status[id] == Pending
      requires |s.workers| <= MAX_WORKERS && forall w :: 0 <= w < |s.workers| ==> s.workers[w] == Looking
      ensures Init(g, s) && Held(g, s) && NobodyCounts(s)
    {
      GraphFits(g);
      InitCounts(g, s);
      InitInv(g, s);
      assert HeldBack(g, s);
      hide Counts, Inv;
    }

    // ---- the workers ----

    /** Assumption (S) or (C) keeps the worker from its next step. */
    ghost predicate Allowed(w: nat)
      reads this
    {
      w < |workers| && ObeysS(View(), ByWorker(w)) && ObeysC(View(), ByWorker(w))
    }

    /** One entry of the child list in ReleaseSuccessors: the decrement, and the decision. */
    method ReleaseChild(w: nat)
      requires w < |workers| && WorkerCanStep(graph, View(), w) && workers[w].Releasing?
      requires workers[w].next < GetNode(graph, workers[w].id).childCount
      modifies this`runtimeState, this`workers, this`status, this`chosen
      ensures View() == WorkerNext(graph, old(View()), w)
    {
      var id, phase, next := workers[w].id, workers[w].phase, workers[w].next;
      ChildFits(graph, id, next);
      hide IndicesFit;
      var child := graph.childTaskIds[GetNode(graph, id).dependencyOffset + next];
      var remaining := runtimeState[child];
      runtimeState := runtimeState[child := Decrement(remaining)];
      status := status[id := Running(w, next + 1)];
      if remaining == 1 && GetNode(graph, child).phaseId == phase {
        workers := workers[w := Enqueuing(id, phase, next, child)];
        chosen, status := chosen + [child], status[child := Due(w)];
      } else {
        workers := workers[w := Releasing(id, phase, next + 1)];
      }
    }

    /** The enqueue of a child that became ready; the machine waits where there is no room. */
    method EnqueueChild(w: nat)
      requires w < |workers| && WorkerCanStep(graph, View(), w) && workers[w].Enqueuing?
      modifies this`readyQueue, this`workers, this`status
      ensures View() == WorkerNext(graph, old(View()), w)
    {
      assert |graph.taskIdToNodeIndex| == |status|;
      hide IndicesFit;
      var pc := workers[w];
      if |readyQueue| < MAX_NODES {
        readyQueue := readyQueue + [pc.child];
        workers := workers[w := Counting(pc.id, pc.phase, pc.next)];
        status := status[pc.child := Queued];
      }
    }

    /** Its increment of the active counter. */
    method CountChild(w: nat)
      requires w < |workers| && WorkerCanStep(graph, View(), w) && workers[w].Counting?
      modifies this`activeTaskCount, this`workers
      ensures View() == WorkerNext(graph, old(View()), w)
    {
      hide IndicesFit;
      var pc := workers[w];
      activeTaskCount := Increment(activeTaskCount);
      workers := workers[w := Releasing(pc.id, pc.phase, pc.next + 1)];
    }

    /** The end of OnTaskCompleted: the decrement of the active counter. */
    method Subtract(w: nat)
      requires w < |workers| && WorkerCanStep(graph, View(), w) && workers[w].Releasing?
      requires workers[w].next == GetNode(graph, workers[w].id).childCount && workers[w].id < |status|
      modifies this`activeTaskCount, this`workers, this`status
      ensures View() == WorkerNext(graph, old(View()), w)
    {
      hide IndicesFit;
      var id := workers[w].id;
      var before := activeTaskCount;
      activeTaskCount := Decrement(before);
      workers := workers[w := if before == 1 then EpochAdd else Looking];
      status := status[id := Done];
    }

    /** The head of the worker's loop: it leaves once the pool's run flag is down; else Dequeue, and with
        nothing queued that fails and nothing changes. */
    method TakeTask(w: nat)
      requires w < |workers| && workers[w].Looking? && WorkerCanStep(graph, View(), w)
        && |graph.taskIdToNodeIndex| == |status|
      requires poolRunning || readyQueue == []
      modifies this`readyQueue, this`workers, this`status, this`left
      ensures View() == WorkerNext(graph, old(View()), w) && left == if poolRunning then old(left) else old(left) + {w}
    {
      hide IndicesFit;
      if !poolRunning {
        left := left + {w};
        return;
      }
      if readyQueue != [] {
        var id := readyQueue[0];
        readyQueue := readyQueue[1..];
        workers := workers[w := Executing(id)];
        status := status[id := Taken(w)];
      }
    }

    method ExecuteTask(w: nat, id: nat)
      requires w < |workers| && workers[w] == Executing(id) && WorkerCanStep(graph, View(), w)
        && |graph.taskIdToNodeIndex| == |status|
      modifies this`workers, this`status, this`log
      ensures View() == WorkerNext(graph, old(View()), w)
    {
      hide IndicesFit;
      workers := workers[w := LoadPhase(id)];
      log, status := log + [id], status[id := Running(w, 0)];
    }

    method LoadCurrentPhase(w: nat, id: nat)
      requires w < |workers| && workers[w] == LoadPhase(id) && WorkerCanStep(graph, View(), w)
      modifies this`workers
      ensures View() == WorkerNext(graph, old(View()), w)
    {
      hide IndicesFit;
      workers := workers[w := Releasing(id, currentPhase, 0)];
    }

    /** The increment of the epoch, and the notification: the two steps of the signal. */
    method Signal(w: nat)
      requires w < |workers| && (workers[w].EpochAdd? || workers[w].Notify?) && WorkerCanStep(graph, View(), w)
      requires asleep == main.Asleep?
      modifies this`phaseEpoch, this`workers, this`asleep, this`main
      ensures View() == WorkerNext(graph, old(View()), w) && asleep == main.Asleep?
    {
      hide IndicesFit;
      if workers[w].EpochAdd? {
        phaseEpoch := phaseEpoch + 1;
        workers := workers[w := Notify];
      } else {
        workers := workers[w := Looking];
        asleep := false;
        main := if main.Asleep? then WaitCompare(main.seen) else main;
      }
    }

    /** One atomic step of worker `w` in WorkerLoop, ExecuteTask and OnTaskCompleted. */
    method Operate(w: nat)
      requires w < |workers| && WorkerCanStep(graph, View(), w) && |graph.taskIdToNodeIndex| == |status|
      requires asleep == main.Asleep? && (poolRunning || readyQueue == [])
      modifies this`runtimeState, this`readyQueue, this`activeTaskCount, this`phaseEpoch, this`workers, this`asleep,
               this`main, this`status, this`chosen, this`log, this`left
      ensures View() == WorkerNext(graph, old(View()), w) && asleep == main.Asleep?
      ensures left == if old(workers[w]).Looking? && !poolRunning then old(left) + {w} else old(left)
    {
      hide IndicesFit, WorkerNext;
      match workers[w] {
        case Looking => TakeTask(w);
        case Executing(id) => ExecuteTask(w, id);
        case LoadPhase(id) => LoadCurrentPhase(w, id);
        case Releasing(id, _, next) =>
          if next < GetNode(graph, id).childCount { ReleaseChild(w); } else { Subtract(w); }
        case Enqueuing(_, _, _, _) => EnqueueChild(w);
        case Counting(_, _, _) => CountChild(w);
        case _ => Signal(w);
      }
    }

    /** Such a step, where (S) and (C) allow it: it keeps the invariant and is recorded. */
    method WorkerStep(w: nat)
      requires Held(graph, View()) && Allowed(w) && asleep == main.Asleep? && Recorded()
      requires poolRunning || readyQueue == []
      modifies this`runtimeState, this`readyQueue, this`activeTaskCount, this`phaseEpoch, this`workers, this`asleep,
               this`main, this`status, this`chosen, this`log, this`run, this`left
      ensures WorkerCanStep(graph, old(View()), w) && View() == WorkerNext(graph, old(View()), w)
      ensures Held(graph, View()) && w < |workers| && ObeysC(View(), ByWorker(w)) && asleep == main.Asleep?
      ensures Recorded() && run == old(run) + [ByWorker(w)]
      ensures left == if old(workers[w]).Looking? && !poolRunning then old(left) + {w} else old(left)
      ensures workers[w].Counting? ==> old(workers[w]).Enqueuing?
    {
      hide Held, WorkerNext, WorkerCanStep, RunTo;
      WorkerGoes(graph, start, run, View(), w);
      IdsFit(w);
      Operate(w);
      run := run + [ByWorker(w)];
    }

    lemma IdsFit(w: nat)
      requires Held(graph, View()) && w < |workers|
      ensures WorkerCanStep(graph, View(), w) && |graph.taskIdToNodeIndex| == MAX_NODES == |status|
        && |status| == |runtimeState|
    {
      WorkerOfInv(graph, View(), w);
      InvFits(graph, View());
    }

    /** One step, and the increment as well when it was an enqueue: (C). */
    method WorkerTurn(w: nat)
      requires Steady() && Allowed(w) && poolRunning
      modifies this`runtimeState, this`readyQueue, this`activeTaskCount, this`phaseEpoch, this`workers, this`asleep,
               this`main, this`status, this`chosen, this`log, this`run, this`left
      ensures Steady() && Moved(old(View()), View()) && ByWorkers(old(run), run)
      ensures !(old(workers[w]).Looking? && old(readyQueue) == []) ==>
        Measure(graph, View()) < old(Measure(graph, View()))
    {
      hide Held, Counts, Inv, IndicesFit, Measure, WorkerNext, WorkerCanStep, RunTo;
      StepMoves(View(), w);
      WorkerStep(w);
      ghost var between := View();
      if workers[w].Counting? {
        StepMoves(between, w);
        WorkerStep(w);
        MovedOn(old(View()), between, View());
      }
    }

    /** What any number of worker steps leaves behind: the log only grows, the work left only
        shrinks, strictly so when the epoch has moved, and the main thread may have been woken. */
    ghost predicate Moved(s: State, s': State)
      reads this
    {
      && s.log <= s'.log && |s'.workers| == |s.workers| && s'.phase == s.phase
      && Measure(graph, s') <= Measure(graph, s)
      && s.epoch <= s'.epoch
      && (s'.epoch != s.epoch ==> Measure(graph, s') < Measure(graph, s))
      && (s'.main == s.main || (s.main.Asleep? && s'.main == WaitCompare(s.main.seen)))
    }

    lemma MovedOn(s: State, m: State, r: State)
      requires Moved(s, m) && Moved(m, r)
      ensures Moved(s, r)
    {
    }

    lemma StepMoves(s: State, w: nat)
      requires Held(graph, s) && w < |s.workers|
      ensures WorkerCanStep(graph, s, w) && Moved(s, WorkerNext(graph, s, w))
      ensures !(s.workers[w].Looking? && s.queue == []) ==> Measure(graph, WorkerNext(graph, s, w)) < Measure(graph, s)
    {
      WorkerMoveDecreases(graph, s, w);
      hide Held, Counts, Inv, Measure;
      WorkerFrame(graph, s, w);
      LogGrows(s, w);
    }

    lemma LogGrows(s: State, w: nat)
      requires WorkerCanStep(graph, s, w)
      ensures s.log <= WorkerNext(graph, s, w).log
    {
      hide IndicesFit;
    }

    predicate CanMove(w: nat)
      requires w < |workers|
      reads this
    {
      !(workers[w].Looking? && readyQueue == [])
    }

    /** The workers take any number of steps, each any worker's; (S) keeps completions out while
        the main thread is seeding. */
    method WorkersRun(seeding: bool)
      requires Steady() && seeding == Seeds(main) && poolRunning
      modifies this`runtimeState, this`readyQueue, this`activeTaskCount, this`phaseEpoch, this`workers, this`asleep,
               this`main, this`status, this`chosen, this`log, this`run, this`left
      ensures Steady() && Moved(old(View()), View()) && ByWorkers(old(run), run)
    {
      hide Held, Measure, RunTo, ByWorkers;
      NoMoves(run);
      var n: nat := *;
      while n > 0
        invariant Steady() && Moved(old(View()), View()) && ByWorkers(old(run), run)
        invariant seeding == Seeds(main)
      {
        var w: nat := *;
        if 0 <= w < |workers| && !(seeding && workers[w].LoadPhase?) {
          ghost var before, runBefore := View(), run;
          WorkerTurn(w);
          MovedOn(old(View()), before, View());
          ByWorkersOn(old(run), runBefore, run);
        }
        n := n - 1;
      }
    }

    /** Blocked in the wait: only workers move, and one of them can, until one notifies. */
    method BlockUntilNotified()
      requires Steady() && asleep
      modifies this`runtimeState, this`readyQueue, this`activeTaskCount, this`phaseEpoch, this`workers, this`asleep,
               this`main, this`status, this`chosen, this`log, this`run, this`left
      ensures Steady() && main == WaitCompare(old(main.seen))
      ensures Moved(old(View()), View()) && Measure(graph, View()) < old(Measure(graph, View()))
        && ByWorkers(old(run), run)
    {
      hide Measure, RunTo, ByWorkers;
      NoMoves(run);
      while asleep
        invariant Steady() && Moved(old(View()), View()) && ByWorkers(old(run), run)
        invariant main == if asleep then old(main) else WaitCompare(old(main.seen))
        invariant !asleep ==> Measure(graph, View()) < old(Measure(graph, View()))
        decreases Measure(graph, View())
      {
        ghost var mover := Mover();
        assert mover < |workers| && CanMove(mover);
        hide Held;
        var w: nat :| w < |workers| && CanMove(w);
        ghost var before, runBefore := View(), run;
        assert CanMove(w);
        WorkerTurn(w);
        assert Measure(graph, View()) < Measure(graph, before);
        MovedOn(old(View()), before, View());
        ByWorkersOn(old(run), runBefore, run);
      }
    }

    lemma Mover() returns (w: nat)
      requires Steady() && asleep
      ensures w < |workers| && CanMove(w)
    {
      WorkWhenAsleep(graph, View());
      w := SomeWorkerMoves(graph, View());
    }

    // ---- the main thread ----

    /** The main thread moves on without touching anything but its own position. */
    ghost method Advance()
      requires Steady() && InWait(main) && !asleep
      requires main.WaitCompare? ==> phaseEpoch != main.seen
      modifies this`main, this`run
      ensures Steady() && MainFits(graph, old(View())) && View() == MainNext(graph, old(View()))
      ensures run == old(run) + [ByMain] && Measure(graph, View()) == old(Measure(graph, View()))
    {
      hide Held, RunTo, MainFits;
      MainGoes(graph, start, run, View());
      SameMeasure(graph, View(), MainNext(graph, View()));
      main, run := MainNext(graph, View()).main, run + [ByMain];
    }

    /** The compare inside the wait found the epoch unchanged. */
    method FallAsleep(epoch: nat)
      requires Steady() && main == WaitCompare(epoch) && phaseEpoch == epoch
      modifies this`main, this`asleep, this`run
      ensures run == old(run) + [ByMain]
      ensures Steady() && main == Asleep(epoch) && asleep && Measure(graph, View()) == old(Measure(graph, View()))
    {
      hide Held, RunTo, MainFits;
      MainGoes(graph, start, run, View());
      SameMeasure(graph, View(), MainNext(graph, View()));
      main, asleep := Asleep(epoch), true;
      run := run + [ByMain];
    }

    method BuildOne(i: nat)
      requires Steady() && main == Building(i) && i < |graph.nodes|
      modifies this`main, this`runtimeState, this`run
      ensures Steady() && main == Building(i + 1) && run == old(run) + [ByMain]
      ensures log == old(log)
    {
      hide Held, RunTo;
      MainGoes(graph, start, run, View());
      var node := graph.nodes[i];
      runtimeState := runtimeState[node.id := node.parentCount];
      main := Building(i + 1);
      run := run + [ByMain];
    }

    method BuildRuntimeState()
      requires Steady() && main == Building(0)
      modifies this`runtimeState, this`readyQueue, this`activeTaskCount, this`phaseEpoch, this`workers, this`asleep,
               this`main, this`status, this`chosen, this`log, this`run, this`left
      ensures Steady() && main == Seeding(0) && currentPhase == old(currentPhase) && old(log) <= log
        && Inside(old(run), run)
    {
      hide Held, Measure, RunTo, NobodyCounts;
      WorkersRun(false);
      var i := 0;
      while i < |graph.nodes|
        invariant Steady() && main == Building(i) && i <= |graph.nodes|
        invariant currentPhase == old(currentPhase) && old(log) <= log && Inside(old(run), run)
      {
        BuildRound(i);
        i := i + 1;
      }
      EndBuilding();
    }

    /** One round of the loop, and the workers after it. */
    method BuildRound(i: nat)
      requires Steady() && main == Building(i) && i < |graph.nodes|
      modifies this`runtimeState, this`readyQueue, this`activeTaskCount, this`phaseEpoch, this`workers, this`asleep,
               this`main, this`status, this`chosen, this`log, this`run, this`left
      ensures Steady() && main == Building(i + 1) && currentPhase == old(currentPhase) && old(log) <= log
        && Inside(old(run), run)
    {
      hide Held, Measure, RunTo, NobodyCounts, MainFits;
      BuildOne(i);
      WorkersRun(false);
    }

    ghost method EndBuilding()
      requires Steady() && main == Building(|graph.nodes|)
      modifies this`main, this`run
      ensures Steady() && main == Seeding(0) && run == old(run) + [ByMain]
    {
      hide Held, RunTo, MainFits;
      MainGoes(graph, start, run, View());
      main, run := Seeding(0), run + [ByMain];
    }

    lemma LoadIs(g: TaskGraph, s: State, i: nat)
      requires MainFits(g, s) && s.main == Seeding(i) && i < g.phaseRanges[s.phase].count
      ensures IndicesFit(g) && s.phase < PHASES
      ensures var id := SeedId(g, s, i);
        && id < |s.status| == |s.remaining|
        && MainNext(g, s) ==
          if s.remaining[id] == 0 then
            s.(main := SeedEnqueuing(i), chosen := s.chosen + [id], status := s.status[id := Picked])
          else s.(main := Seeding(i + 1))
    {
      hide IndicesFit;
    }

    lemma SteadyRange(i: nat)
      requires Steady() && currentPhase < |graph.phaseRanges| && i < graph.phaseRanges[currentPhase].count
      ensures graph.phaseRanges[currentPhase].begin + i < |graph.nodes| && |status| == |runtimeState| == MAX_NODES
      ensures IndicesFit(graph) && currentPhase < PHASES && SeedId(graph, View(), i) == NodeIdAt(i) < MAX_NODES
    {
      assert Inv(graph, View());
      hide Held, NobodyCounts, RunTo, Inv;
      InvFits(graph, View());
    }

    /** The id of the `i`-th node of the current phase. */
    function NodeIdAt(i: nat): nat
      reads this
    {
      if currentPhase < |graph.phaseRanges| && graph.phaseRanges[currentPhase].begin + i < |graph.nodes|
      then graph.nodes[graph.phaseRanges[currentPhase].begin + i].id else 0
    }

    /** The load of a node's counter in the seed loop. */
    method LoadCounter(i: nat) returns (id: nat, zero: bool)
      requires Steady() && main == Seeding(i) && currentPhase < |graph.phaseRanges|
        && i < graph.phaseRanges[currentPhase].count
      modifies this`main, this`status, this`chosen, this`run
      ensures Steady() && MainFits(graph, old(View())) && View() == MainNext(graph, old(View()))
      ensures main == (if zero then SeedEnqueuing(i) else Seeding(i + 1)) && log == old(log)
      ensures id == NodeIdAt(i) && run == old(run) + [ByMain]
    {
      hide Held, IndicesFit, RunTo, MainNext, MainFits;
      MainGoes(graph, start, run, View());
      SteadyRange(i);
      LoadIs(graph, View(), i);
      id := graph.nodes[graph.phaseRanges[currentPhase].begin + i].id;
      zero := runtimeState[id] == 0;
      if zero {
        chosen, status := chosen + [id], status[id := Picked];
        main := SeedEnqueuing(i);
      } else {
        main := Seeding(i + 1);
      }
      run := run + [ByMain];
    }

    /** The enqueue, which finds room, and the increment: (C). */
    method SeedOne(i: nat, id: nat)
      requires Steady() && main == SeedEnqueuing(i) && currentPhase < |graph.phaseRanges|
        && i < graph.phaseRanges[currentPhase].count
      requires id == NodeIdAt(i)
      modifies this`main, this`readyQueue, this`activeTaskCount, this`status, this`run
      ensures Steady() && main == Seeding(i + 1) && run == old(run) + [ByMain, ByMain]
    {
      hide Held, IndicesFit, NobodyCounts, RunTo;
      SteadyRange(i);
      SeedPush(i, id);
      SeedCount(i);
    }

    method SeedPush(i: nat, id: nat)
      requires Held(graph, View()) && NobodyCounts(View()) && main == SeedEnqueuing(i) && Recorded()
      requires IndicesFit(graph) && currentPhase < PHASES && i < graph.phaseRanges[currentPhase].count
        && id == SeedId(graph, View(), i)
      modifies this`main, this`readyQueue, this`status, this`run
      ensures Held(graph, View()) && main == SeedCounting(i) && ObeysC(View(), ByMain)
      ensures Recorded() && run == old(run) + [ByMain]
    {
      hide Held, IndicesFit, RunTo, MainNext, MainFits;
      SeedRoom(i, id);
      MainGoes(graph, start, run, View());
      PushIs(graph, View(), i);
      readyQueue := readyQueue + [id];
      status := status[id := Queued];
      main := SeedCounting(i);
      run := run + [ByMain];
      assert View() == MainNext(graph, old(View()));
    }

    lemma PushIs(g: TaskGraph, s: State, i: nat)
      requires MainFits(g, s) && s.main == SeedEnqueuing(i) && |s.queue| < MAX_NODES
      ensures IndicesFit(g) && s.phase < PHASES && i < g.phaseRanges[s.phase].count
      ensures var id := SeedId(g, s, i);
        id < |s.status| && MainNext(g, s) ==
          s.(main := SeedCounting(i), queue := s.queue + [id], status := s.status[id := Queued])
    {
      hide IndicesFit;
    }

    lemma SeedRoom(i: nat, id: nat)
      requires Held(graph, View()) && main == SeedEnqueuing(i) && id < MAX_NODES
      ensures |readyQueue| < MAX_NODES && id < |status|
    {
      SeedFindsRoom(graph, View());
      InvFits(graph, View());
    }

    method SeedCount(i: nat)
      requires Held(graph, View()) && ObeysC(View(), ByMain) && main == SeedCounting(i) && Recorded()
      modifies this`main, this`activeTaskCount, this`run
      ensures Held(graph, View()) && NobodyCounts(View()) && main == Seeding(i + 1)
      ensures Recorded() && run == old(run) + [ByMain]
    {
      hide Held, IndicesFit, RunTo;
      MainGoes(graph, start, run, View());
      activeTaskCount := Increment(activeTaskCount);
      main := Seeding(i + 1);
      run := run + [ByMain];
      assert View() == MainNext(graph, old(View()));
    }

    lemma SteadyShape()
      requires Steady()
      ensures currentPhase < PHASES == |graph.phaseRanges| && IndicesFit(graph) && |status| == MAX_NODES
    {
      InvFits(graph, View());
    }

    /** One round of the seed loop. */
    method SeedRound(i: nat)
      requires Steady() && main == Seeding(i) && currentPhase < |graph.phaseRanges|
        && i < graph.phaseRanges[currentPhase].count
      modifies this`runtimeState, this`readyQueue, this`activeTaskCount, this`phaseEpoch, this`workers, this`asleep,
               this`main, this`status, this`chosen, this`log, this`run, this`left
      ensures Steady() && main == Seeding(i + 1) && currentPhase == old(currentPhase) && old(log) <= log
        && Inside(old(run), run)
    {
      hide Held, Measure, IndicesFit, NobodyCounts, WorkerNext, MainNext, RunTo;
      WorkersRun(true);
      var id, zero := LoadCounter(i);
      if zero {
        WorkersRun(true);
        SeedOne(i, id);
      }
    }

    method SeedReadyQueue()
      requires Steady() && main == Seeding(0)
      modifies this`runtimeState, this`readyQueue, this`activeTaskCount, this`phaseEpoch, this`workers, this`asleep,
               this`main, this`status, this`chosen, this`log, this`run, this`left
      ensures Steady() && main == WaitLoad && currentPhase == old(currentPhase) && old(log) <= log
        && Inside(old(run), run)
    {
      hide Held, Measure, NobodyCounts, RunTo;
      SteadyShape();
      var range := graph.phaseRanges[currentPhase];
      var i := 0;
      while i < range.count
        invariant Steady() && main == Seeding(i) && i <= range.count
        invariant currentPhase == old(currentPhase) && old(log) <= log && Inside(old(run), run)
      {
        SeedRound(i);
        i := i + 1;
      }
      WorkersRun(true);
      EndSeeding(i);
    }

    ghost method EndSeeding(i: nat)
      requires Steady() && main == Seeding(i) && currentPhase < |graph.phaseRanges|
        && i == graph.phaseRanges[currentPhase].count
      modifies this`main, this`run
      ensures Steady() && main == WaitLoad && run == old(run) + [ByMain]
    {
      hide Held, RunTo, MainFits;
      MainGoes(graph, start, run, View());
      main, run := WaitLoad, run + [ByMain];
    }

    /** The wait inside one round of the loop: it returns once the epoch has moved past `epoch`. */
    method WaitOnEpoch(epoch: nat)
      requires Steady() && main == WaitCompare(epoch)
      modifies this`runtimeState, this`readyQueue, this`activeTaskCount, this`phaseEpoch, this`workers, this`asleep,
               this`main, this`status, this`chosen, this`log, this`run, this`left
      ensures Steady() && main == WaitCompare(epoch) && phaseEpoch != epoch && Inside(old(run), run)
      ensures currentPhase == old(currentPhase) && old(log) <= log
        && Measure(graph, View()) <= old(Measure(graph, View()))
      ensures old(phaseEpoch) == epoch ==> Measure(graph, View()) < old(Measure(graph, View()))
    {
      hide Held, Measure, RunTo;
      while phaseEpoch == epoch
        invariant Steady() && main == WaitCompare(epoch) && Inside(old(run), run)
        invariant currentPhase == old(currentPhase) && old(log) <= log
          && Measure(graph, View()) <= old(Measure(graph, View()))
        invariant old(phaseEpoch) == epoch != phaseEpoch ==> Measure(graph, View()) < old(Measure(graph, View()))
        decreases Measure(graph, View())
      {
        FallAsleep(epoch);
        BlockUntilNotified();
      }
    }

    /** The wait ends, whatever the workers do, and then the phase is complete. */
    method WaitForPhaseCompletion()
      requires Steady() && main == WaitLoad
      modifies this`runtimeState, this`readyQueue, this`activeTaskCount, this`phaseEpoch, this`workers, this`asleep,
               this`main, this`status, this`chosen, this`log, this`run, this`left
      ensures Steady() && main == Outside(currentPhase + 1) && currentPhase == old(currentPhase) && old(log) <= log
        && Inside(old(run), run)
    {
      hide Held, Measure, NobodyCounts, RunTo;
      WorkersRun(false);
      while activeTaskCount != 0
        invariant Steady() && main == WaitLoad && currentPhase == old(currentPhase) && old(log) <= log
          && Inside(old(run), run)
        decreases Measure(graph, View())
      {
        var done := WaitRound();
        if done {
          return;
        }
      }
      Advance();
    }

    /** What the wait loop needs of its steps. */
    twostate predicate Waited()
      reads this
    {
      && currentPhase == old(currentPhase) && graph == old(graph) && old(log) <= log && old(phaseEpoch) <= phaseEpoch
      && Measure(graph, View()) <= old(Measure(graph, View()))
      && (phaseEpoch != old(phaseEpoch) ==> Measure(graph, View()) < old(Measure(graph, View())))
      && Inside(old(run), run)
    }

    /** The workers run while the main thread stands between two steps of the wait. */
    method LetWorkersRun()
      requires Steady() && InWait(main) && !asleep
      modifies this`runtimeState, this`readyQueue, this`activeTaskCount, this`phaseEpoch, this`workers, this`asleep,
               this`main, this`status, this`chosen, this`log, this`run, this`left
      ensures Steady() && main == old(main) && !asleep && Waited()
    {
      hide Held, Measure, NobodyCounts, RunTo;
      WorkersRun(false);
    }

    ghost method Step()
      requires Steady() && InWait(main) && !asleep
      requires main.WaitCompare? ==> phaseEpoch != main.seen
      modifies this`main, this`run
      ensures Steady() && !asleep && Waited() && main == StepFrom(old(main))
    {
      hide Held, Measure, NobodyCounts, RunTo, MainFits;
      Advance();
    }

    /** Where the main thread goes from a place in the wait loop where it does not fall asleep. */
    function StepFrom(from: MainPc): MainPc
      reads this
    {
      match from
      case WaitLoad => if activeTaskCount != 0 then WaitEpoch else Outside(currentPhase + 1)
      case WaitEpoch => WaitRecheck(phaseEpoch)
      case WaitRecheck(e) => if activeTaskCount == 0 then Outside(currentPhase + 1) else WaitCompare(e)
      case WaitCompare(_) => WaitLoad
      case _ => from
    }

    /** A step that stays in the loop, and the workers after it. */
    method GoOn()
      requires Steady() && InWait(main) && !asleep && InWait(StepFrom(main))
      requires main.WaitCompare? ==> phaseEpoch != main.seen
      modifies this`runtimeState, this`readyQueue, this`activeTaskCount, this`phaseEpoch, this`workers, this`asleep,
               this`main, this`status, this`chosen, this`log, this`run, this`left
      ensures Steady() && !asleep && Waited() && main == old(StepFrom(main))
    {
      hide Steady, Measure;
      Step();
      LetWorkersRun();
    }

    /** One round of the wait loop, from a counter seen above zero. */
    method WaitRound() returns (done: bool)
      requires Steady() && main == WaitLoad && activeTaskCount != 0
      modifies this`runtimeState, this`readyQueue, this`activeTaskCount, this`phaseEpoch, this`workers, this`asleep,
               this`main, this`status, this`chosen, this`log, this`run, this`left
      ensures Steady() && currentPhase == old(currentPhase) && old(log) <= log && Inside(old(run), run)
      ensures main == if done then Outside(currentPhase + 1) else WaitLoad
      ensures !done ==> Measure(graph, View()) < old(Measure(graph, View()))
    {
      hide Held, RunTo, NobodyCounts, Measure;
      GoOn();
      var epoch := phaseEpoch;
      GoOn();
      done := activeTaskCount == 0;
      Step();
      if !done {
        FinishRound(epoch);
      }
    }

    /** The rest of a round whose second load found the counter above zero again: the wait. */
    method FinishRound(epoch: nat)
      requires Steady() && main == WaitCompare(epoch)
      modifies this`runtimeState, this`readyQueue, this`activeTaskCount, this`phaseEpoch, this`workers, this`asleep,
               this`main, this`status, this`chosen, this`log, this`run, this`left
      ensures Steady() && main == WaitLoad && currentPhase == old(currentPhase) && old(log) <= log
        && Inside(old(run), run)
      ensures Measure(graph, View()) <= old(Measure(graph, View()))
      ensures old(phaseEpoch) == epoch ==> Measure(graph, View()) < old(Measure(graph, View()))
    {
      hide Held, RunTo, NobodyCounts, Measure, Moved;
      LetWorkersRun();
      WaitOnEpoch(epoch);
      GoOn();
    }

    /** Phase `k` begins: the store to the current phase; at Input the histories of a new tick. */
    method StorePhase(k: nat)
      requires Steady() && poolRunning && main.Outside? && k < PHASES && (k == INPUT || k == main.next)
      modifies this`currentPhase, this`main, this`status, this`chosen, this`log, this`run
      ensures Steady() && View() == BeginPhase(old(View()), k) && run == old(run) + [Begin(k)]
    {
      hide Held, RunTo, NobodyCounts;
      PhaseBegins(graph, start, run, View(), k);
      run := run + [Begin(k)];
      currentPhase := k;
      if k == INPUT {
        main, status, chosen, log := Building(0), seq(|status|, _ => Pending), [], [];
      } else {
        main := Seeding(0);
      }
    }

    /** Executing phase `k` after the phases before it: whatever the workers do, the call returns,
        and then exactly the tasks of the phases up to `k` have been executed this tick, each once
        and in an order that respects dependencies and phases, nothing is queued and no worker has a
        task in hand.  On a dispatcher that is not running it fails and changes nothing. */
    method ExecutePhase(k: nat) returns (ok: bool)
      requires Valid() && k < PHASES && (running ==> main.Outside? && (k == INPUT || k == main.next))
      modifies this`runtimeState, this`readyQueue, this`activeTaskCount, this`phaseEpoch, this`workers, this`asleep,
               this`currentPhase, this`main, this`status, this`chosen, this`log, this`run, this`left
      ensures Valid() && ok == running
      ensures !ok ==> View() == old(View()) && run == old(run)
      ensures ok ==> PhaseRun(old(run), k, run)
      ensures ok ==>
        main == Outside(k + 1) && RunsExactly(graph, log, k + 1) && readyQueue == [] && NobodyCarries(View())
      ensures ok && k != INPUT ==> old(log) <= log
    {
      hide Steady, AtStart, NobodyCarries, RunsExactly, PhaseRun;
      if !running {
        return false;
      }
      RunPhase(k);
      return true;
    }

    method RunPhase(k: nat)
      requires Steady() && poolRunning && k < PHASES && main.Outside? && (k == INPUT || k == main.next)
      modifies this`runtimeState, this`readyQueue, this`activeTaskCount, this`phaseEpoch, this`workers, this`asleep,
               this`currentPhase, this`main, this`status, this`chosen, this`log, this`run, this`left
      ensures Steady() && main == Outside(k + 1) && RunsExactly(graph, log, k + 1) && readyQueue == []
        && NobodyCarries(View())
      ensures (k != INPUT ==> old(log) <= log) && PhaseRun(old(run), k, run)
    {
      hide Steady, NobodyCarries, RunsExactly;
      EnterPhase(k);
      SeedReadyQueue();
      WaitForPhaseCompletion();
      PhaseDone();
    }

    /** The first part of ExecutePhase: the phase is stored, and at Input the counters are built. */
    method EnterPhase(k: nat)
      requires Steady() && poolRunning && k < PHASES && main.Outside? && (k == INPUT || k == main.next)
      modifies this`runtimeState, this`readyQueue, this`activeTaskCount, this`phaseEpoch, this`workers, this`asleep,
               this`currentPhase, this`main, this`status, this`chosen, this`log, this`run, this`left
      ensures Steady() && main == Seeding(0) && currentPhase == k && (k != INPUT ==> old(log) <= log)
        && PhaseRun(old(run), k, run)
    {
      hide Held, NobodyCounts, RunTo;
      StorePhase(k);
      if k == INPUT {
        BuildRuntimeState();
      }
    }

    lemma PhaseDone()
      requires Steady() && main.Outside? && main.next > 0
      ensures RunsExactly(graph, log, main.next) && readyQueue == [] && NobodyCarries(View())
    {
      TickSoFar(graph, View());
    }

    /** Once the pool's run flag is down the workers leave their loops, each when it next comes to the head
        of its loop, in whatever order they move. */
    method JoinWorkers()
      requires Steady() && main.Outside? && !poolRunning && left == {}
      modifies this`runtimeState, this`readyQueue, this`activeTaskCount, this`phaseEpoch, this`workers, this`asleep,
               this`main, this`status, this`chosen, this`log, this`run, this`left
      ensures Steady() && main == old(main) && readyQueue == [] && ByWorkers(old(run), run)
      ensures forall w :: 0 <= w < |workers| ==> w in left && workers[w] == Looking
    {
      hide Steady, ByWorkers, Measure, UpTo;
      NoMoves(run);
      Idle();
      while exists w :: 0 <= w < |workers| && w !in left
        invariant Steady() && main == old(main) && readyQueue == [] && ByWorkers(old(run), run)
        invariant forall w :: w in left ==> w < |workers| && workers[w] == Looking
        decreases Measure(graph, View()), |UpTo(|workers|) - left|
      {
        var w: nat :| w < |workers| && w !in left;
        ghost var before := run;
        JoinOne(w);
        ByWorkersOn(old(run), before, run);
      }
    }

    lemma Idle()
      requires Steady() && main.Outside?
      ensures NobodyCarries(View()) && readyQueue == []
    {
      OutsideIsIdle(graph, View());
    }

    method JoinOne(w: nat)
      requires Steady() && main.Outside? && !poolRunning && w < |workers| && w !in left && readyQueue == []
      requires forall v :: v in left ==> v < |workers| && workers[v] == Looking
      modifies this`runtimeState, this`readyQueue, this`activeTaskCount, this`phaseEpoch, this`workers, this`asleep,
               this`main, this`status, this`chosen, this`log, this`run, this`left
      ensures Steady() && main == old(main) && readyQueue == [] && ByWorkers(old(run), run)
        && |workers| == |old(workers)|
      ensures forall v :: v in left ==> v < |workers| && workers[v] == Looking
      ensures Measure(graph, View()) < old(Measure(graph, View()))
              || (View() == old(View()) && |UpTo(|workers|) - left| < |UpTo(|workers|) - old(left)|)
    {
      hide Held, RunTo, Measure, WorkerNext, NobodyCounts, UpTo, ByWorkers;
      OutsideStep(graph, View(), w);
      ghost var before, runBefore := left, run;
      WorkerStep(w);
      OneByWorker(runBefore, w);
      if left != before {
        FewerStay(|workers|, before, w);
      }
    }

    lemma OneByWorker(before: seq<Move>, w: nat)
      ensures ByWorkers(before, before + [ByWorker(w)])
    {
    }

    /** A worker's step while the main thread is outside. */
    lemma OutsideStep(g: TaskGraph, s: State, w: nat)
      requires Held(g, s) && NobodyCounts(s) && s.main.Outside? && w < |s.workers|
      ensures ObeysS(s, ByWorker(w)) && ObeysC(s, ByWorker(w)) && WorkerCanStep(g, s, w)
      ensures var s' := WorkerNext(g, s, w);
        && s'.main == s.main && s'.queue == [] && NobodyCounts(s') && |s'.workers| == |s.workers|
        && (forall v :: 0 <= v < |s.workers| && v != w ==> s'.workers[v] == s.workers[v])
        && if s.workers[w].Looking? then s' == s else Measure(g, s') < Measure(g, s)
    {
      OutsideIsIdle(g, s);
      WorkerMoveDecreases(g, s, w);
      hide Held, Counts, Inv, Measure, IndicesFit;
      WorkerFrame(g, s, w);
      assert !Carries(s.workers[w]);
    }

    lemma FewerStay(n: nat, before: set<nat>, w: nat)
      requires w < n && w !in before
      ensures |UpTo(n) - (before + {w})| < |UpTo(n) - before|
    {
      assert UpTo(n) - (before + {w}) == (UpTo(n) - before) - {w};
    }

    /** Shutdown puts every field back to its initial value, so that the dispatcher may be initialized
        and run again; on one that is not running it changes nothing. */
    method Shutdown()
      requires Valid() && (running ==> main.Outside?)
      modifies this
      ensures Valid() && !running && AtStart()
      ensures currentPhase == 0 && readyQueue == [] && activeTaskCount == 0 && phaseEpoch == 0 && workers == []
      ensures |runtimeState| == 256 && forall id :: 0 <= id < 256 ==> runtimeState[id] == 0
      ensures graph.nodes == [] && context == null && registry == null && !poolRunning
      ensures !old(running) ==>
        View() == old(View()) && graph == old(graph) && context == old(context) && registry == old(registry)
    {
      if !running {
        StartMeans();
        return;
      }
      hide Steady, AtStart;
      StopAndReset();
      StartMeans();
    }

    /** The initial values, one by one. */
    lemma StartMeans()
      requires AtStart()
      ensures currentPhase == 0 && readyQueue == [] && activeTaskCount == 0 && phaseEpoch == 0 && workers == []
      ensures |runtimeState| == 256 && forall id :: 0 <= id < 256 ==> runtimeState[id] == 0
      ensures graph.nodes == [] && context == null && registry == null && !poolRunning
    {
    }

    method StopAndReset()
      requires Steady() && main.Outside? && poolRunning
      modifies this
      ensures AtStart() && !running
    {
      hide Steady, AtStart, ByWorkers;
      StopRunning();
      JoinWorkers();
      ResetState();
    }

    /** Both run flags go down. */
    method StopRunning()
      requires Steady() && main.Outside? && poolRunning
      modifies this`running, this`poolRunning
      ensures Steady() && !running && !poolRunning && left == {}
    {
      hide Held;
      running := false;
      poolRunning := false;
    }

    method ResetState()
      requires readyQueue == [] && !poolRunning
      modifies this
      ensures AtStart() && running == old(running)
    {
      hide InitialState;
      ResetCounters();
      workers, left := [], {};
      graph, context, registry, run, asleep := EMPTY_GRAPH, null, null, [], false;
      ResetHistories();
    }

    method ResetCounters()
      modifies this`activeTaskCount, this`phaseEpoch, this`currentPhase, this`runtimeState
      ensures activeTaskCount == phaseEpoch == 0 && currentPhase == INPUT && runtimeState == Zeros(MAX_NODES)
    {
      activeTaskCount, phaseEpoch, currentPhase := 0, 0, INPUT;
      runtimeState := Zeros(MAX_NODES);
    }

    ghost method ResetHistories()
      requires readyQueue == [] && workers == [] && activeTaskCount == phaseEpoch == 0 && currentPhase == INPUT
        && runtimeState == Zeros(MAX_NODES)
      modifies this`main, this`status, this`chosen, this`log
      ensures View() == InitialState()
    {
      main, status, chosen, log := Outside(0), AllPendingOf(MAX_NODES), [], [];
    }
  }
}
