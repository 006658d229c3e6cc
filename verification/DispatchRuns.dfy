/** Whole runs of the scheduler: what a tick executes, with which steps it goes wrong, and two
    conditions on the interleaving under which it never does. */
module DispatchRuns {
  import opened Collections
  import opened Tasks
  import opened Dispatch
  import opened DispatchCounts
  import opened DispatchSteps

  // ---- runs in which nothing goes wrong ----

  /** ExecutePhase is asked for Input, or for the phase that comes next. */
  predicate InOrder(s: State, m: Move) {
    m.Begin? && s.main.Outside? ==> m.phase == INPUT || m.phase == s.main.next || m.phase >= PHASES
  }

  predicate GoesWrong(g: TaskGraph, s: State, m: Move)
    requires MainFits(g, s)
  {
    m.ByMain? && (Reseeds(g, s) || LeavesEarly(s))
  }

  /** Phases are asked for in order, throughout the run. */
  ghost predicate PhasesAsked(g: TaskGraph, s: State, moves: seq<Move>)
    requires Counts(g, s)
    decreases |moves|
  {
    moves == [] || (InOrder(s, moves[0]) && PhasesAsked(g, Apply(g, s, moves[0]), moves[1..]))
  }

  /** No step of the run reseeds or leaves early. */
  ghost predicate Sound(g: TaskGraph, s: State, moves: seq<Move>)
    requires Counts(g, s)
    decreases |moves|
  {
    moves == [] || (!GoesWrong(g, s, moves[0]) && Sound(g, Apply(g, s, moves[0]), moves[1..]))
  }

  /** The promise of a tick holds in every state of the run. */
  ghost predicate KeepsPromise(g: TaskGraph, s: State, moves: seq<Move>)
    requires Counts(g, s)
    decreases |moves|
  {
    Promise(g, s) && (moves == [] || KeepsPromise(g, Apply(g, s, moves[0]), moves[1..]))
  }

  lemma SoundMoveKeepsInv(g: TaskGraph, s: State, m: Move)
    requires Counts(g, s) && Inv(g, s) && InOrder(s, m) && !GoesWrong(g, s, m)
    ensures Inv(g, Apply(g, s, m))
  {
    assert MainFits(g, s);
    hide Inv, Counts, Reseeds, LeavesEarly, MainFits;
    match m
    case Begin(k) => if s.main.Outside? && k < PHASES { BeginPhaseKeepsInv(g, s, k); }
    case ByMain =>
      if InWait(s.main) { ZeroMeans(g, s); }
      MainNextKeepsInv(g, s);
    case ByWorker(w) => if w < |s.workers| { WorkerNextKeepsInv(g, s, w); }
  }

  lemma {:induction false} SoundRunKeepsInv(g: TaskGraph, s: State, moves: seq<Move>)
    requires Counts(g, s) && Inv(g, s) && PhasesAsked(g, s, moves) && Sound(g, s, moves)
    ensures Inv(g, Exec(g, s, moves))
    decreases |moves|
  {
    hide Inv, Counts, GoesWrong, InOrder;
    if moves != [] {
      SoundMoveKeepsInv(g, s, moves[0]);
      SoundRunKeepsInv(g, Apply(g, s, moves[0]), moves[1..]);
    }
  }

  lemma WrongMoveBreaksPromise(g: TaskGraph, s: State, m: Move)
    requires Counts(g, s) && Inv(g, s) && GoesWrong(g, s, m)
    ensures !Promise(g, Apply(g, s, m))
  {
    assert MainFits(g, s);
    hide Inv, Counts, Reseeds, LeavesEarly, Promise, MainFits;
    if Reseeds(g, s) { ReseedBreaksPromise(g, s); } else { LeavingEarlyBreaksPromise(g, s); }
  }

  lemma {:induction false} PromiseMeansSound(g: TaskGraph, s: State, moves: seq<Move>)
    requires Counts(g, s) && Inv(g, s) && PhasesAsked(g, s, moves)
    ensures KeepsPromise(g, s, moves) <==> Sound(g, s, moves)
    decreases |moves|
  {
    assert MainFits(g, s);
    hide Inv, Counts, GoesWrong, InOrder, Promise, MainFits;
    InvPromises(g, s);
    if moves != [] {
      var s' := Apply(g, s, moves[0]);
      if GoesWrong(g, s, moves[0]) {
        WrongMoveBreaksPromise(g, s, moves[0]);
      } else {
        SoundMoveKeepsInv(g, s, moves[0]);
        PromiseMeansSound(g, s', moves[1..]);
      }
    }
  }

  lemma InitCounts(g: TaskGraph, s: State)
    requires Init(g, s)
    ensures Counts(g, s)
  {
    EveryRunConservesAndWakes(g, s, []);
  }

  /** Exactly when a tick goes wrong: over a run of a well-formed graph, no task is ever chosen twice
      and the main thread never comes back from an unfinished phase, if and only if the seed loop
      never loads a zero counter of a task that a worker has already chosen, and the main thread
      never loads a zero active counter while a worker has a task in hand. */
  lemma ExactlyWhenSound(g: TaskGraph, s: State, moves: seq<Move>)
    requires WellFormed(g) && Init(g, s)
    ensures Counts(g, s)
    ensures PhasesAsked(g, s, moves) ==> (KeepsPromise(g, s, moves) <==> Sound(g, s, moves))
  {
    InitCounts(g, s);
    InitInv(g, s);
    hide Inv, Counts, Init, WellFormed;
    if PhasesAsked(g, s, moves) {
      PromiseMeansSound(g, s, moves);
    }
  }

  // ---- what a sound tick executes ----

  /** The execution order of a set of tasks: each once, parents first, phases in order. */
  ghost predicate RunsExactly(g: TaskGraph, log: seq<nat>, phases: nat) {
    && Distinct(log)
    && (forall id: nat :: id in log <==> IsTask(g, id) && GetNode(g, id).phaseId < phases)
    && ParentsFirst(g, log)
    && PhasesInOrder(g, log)
  }

  lemma LogIsTask(g: TaskGraph, s: State, id: nat)
    requires Inv(g, s) && id in s.log
    ensures IsTask(g, id) && id < |s.status| && Executed(s.status[id])
  {
    hide WellFormed, AllEdges, CountersOk, MainOk;
  }

  lemma TickSoFar(g: TaskGraph, s: State)
    requires Inv(g, s) && s.main.Outside? && s.main.next > 0
    ensures RunsExactly(g, s.log, s.main.next) && s.queue == [] && NobodyCarries(s)
  {
    InvFits(g, s);
    hide AllEdges, CountersOk, Incoming, ParentsFirst, PhasesInOrder, QueueOk, HandsOk, ReadyOk, ChosenOk, IndicesFit,
      WellFormed;
    assert forall id: nat :: IsTask(g, id) ==> id < |s.status|;
    forall id: nat ensures id in s.log <==> IsTask(g, id) && GetNode(g, id).phaseId < s.main.next {
      if id in s.log { LogIsTask(g, s, id); }
      assert IsTask(g, id) && GetNode(g, id).phaseId < s.main.next ==> s.status[id].Done?;
    }
  }

  lemma PhaseIsBounded(g: TaskGraph, id: nat)
    requires WellFormed(g) && IsTask(g, id)
    ensures id < MAX_NODES && GetNode(g, id).phaseId < PHASES
  {
    assert g.nodes[g.taskIdToNodeIndex[id]].id == id;
  }

  /** What a tick has executed whenever the main thread is back, and at every moment. */
  ghost predicate TicksWell(g: TaskGraph, r: State) {
    && (r.main.Outside? && r.main.next > 0 ==> RunsExactly(g, r.log, r.main.next) && r.queue == [] && NobodyCarries(r))
    && (r.main == Outside(PHASES) ==> forall id: nat :: id in r.log <==> IsTask(g, id))
    && Distinct(r.log) && ParentsFirst(g, r.log) && PhasesInOrder(g, r.log)
  }

  lemma InvTicksWell(g: TaskGraph, r: State)
    requires Inv(g, r)
    ensures TicksWell(g, r)
  {
    hide AllEdges, CountersOk, ParentsFirst, PhasesInOrder, HandsOk, QueueOk, ChosenOk, WellFormed, MainOk;
    if r.main.Outside? && r.main.next > 0 {
      TickSoFar(g, r);
      if r.main.next == PHASES {
        forall id: nat ensures id in r.log <==> IsTask(g, id) {
          if IsTask(g, id) { PhaseIsBounded(g, id); }
        }
      }
    }
  }

  /** For every well-formed graph, any number of workers and any interleaving of their atomic
      operations in which no step reseeds or leaves early: whenever the main thread is back from
      phase `k`, the ExecuteTask calls of the tick so far are exactly the tasks of the phases up to
      `k`, each once, in an order that respects every dependency and the phases, nothing is queued and
      nobody has a task in hand.  After the fourth phase that is the whole graph.  A new tick may begin
      at any time the main thread is outside, also after one that broke off. */
  lemma SoundTicks(g: TaskGraph, s: State, moves: seq<Move>)
    requires WellFormed(g) && Init(g, s)
    ensures Counts(g, s)
    ensures PhasesAsked(g, s, moves) && Sound(g, s, moves) ==> TicksWell(g, Exec(g, s, moves))
  {
    InitCounts(g, s);
    InitInv(g, s);
    hide Inv, Counts, Init, WellFormed, TicksWell;
    if PhasesAsked(g, s, moves) && Sound(g, s, moves) {
      SoundRunKeepsInv(g, s, moves);
      InvTicksWell(g, Exec(g, s, moves));
    }
  }

  // ---- runs under (S) and (C) ----

  predicate Seeds(main: MainPc) {
    main.Seeding? || main.SeedEnqueuing? || main.SeedCounting?
  }

  /** The node that the seed loop comes to next. */
  function NextSeed(g: TaskGraph, s: State): nat
    requires s.phase < |g.phaseRanges| && Seeds(s.main)
  {
    g.phaseRanges[s.phase].begin + s.main.node + if s.main.Seeding? then 0 else 1
  }

  /** Tasks that the seed loop has yet to come to have been chosen by nobody. */
  ghost predicate Unseeded(g: TaskGraph, s: State)
    requires s.phase < |g.phaseRanges|
  {
    Seeds(s.main) ==>
      forall id {:trigger s.status[id]} ::
        0 <= id < |s.status| && InPhase(g, id, s.phase) && g.taskIdToNodeIndex[id] >= NextSeed(g, s) ==>
          s.status[id].Pending?
  }

  /** Does the worker's next step choose a child? */
  ghost predicate Chooses(g: TaskGraph, s: State, w: nat)
    requires WorkerCanStep(g, s, w)
  {
    |WorkerNext(g, s, w).chosen| > |s.chosen|
  }

  lemma UnseededDoesNotReseed(g: TaskGraph, s: State)
    requires Inv(g, s) && MainFits(g, s) && s.phase < |g.phaseRanges| && Unseeded(g, s)
    ensures !Reseeds(g, s)
  {
    hide HandsOk, QueueOk, LogOk, MainOk, ChosenOk, AllEdges, Acyclic, IndicesFit;
    if s.main.Seeding? && s.main.node < g.phaseRanges[s.phase].count {
      var n := g.phaseRanges[s.phase].begin + s.main.node;
      NodeOfId(g, n);
      var id := SeedId(g, s, s.main.node);
      assert InPhase(g, id, s.phase) && g.taskIdToNodeIndex[id] == n;
      assert s.status[id].Pending?;
    }
  }

  lemma QuietWorkersKeepUnseeded(g: TaskGraph, s: State, w: nat)
    requires Inv(g, s) && s.phase < |g.phaseRanges| && Unseeded(g, s) && WorkerCanStep(g, s, w) && !Chooses(g, s, w)
    ensures Unseeded(g, WorkerNext(g, s, w)) && WorkerNext(g, s, w).phase == s.phase
  {
    var s' := WorkerNext(g, s, w);
    WorkerFrame(g, s, w);
    PendingStays(g, s, w);
    hide WellFormed, HandsOk, QueueOk, LogOk, MainOk, ChosenOk, IndicesFit, WorkerNext;
    assert s'.main == s.main || (!Seeds(s.main) && !Seeds(s'.main));
  }

  lemma PendingStays(g: TaskGraph, s: State, w: nat)
    requires Inv(g, s) && WorkerCanStep(g, s, w) && !Chooses(g, s, w)
    ensures var s' := WorkerNext(g, s, w);
      && |s'.status| == |s.status|
      && forall id {:trigger s'.status[id]} :: 0 <= id < |s.status| && s.status[id].Pending? ==> s'.status[id].Pending?
  {
    hide WellFormed, LogOk, MainOk, ChosenOk, AllEdges, Acyclic, Incoming, Unprocessed, CountersOk, ReadyOk, PhaseOk;
    WorkerFrame(g, s, w);
    assert WorkerOk(g, s, w);
    hide IndicesFit;
    if s.workers[w].Releasing? && s.workers[w].next < GetNode(g, s.workers[w].id).childCount {
      ChildFits(g, s.workers[w].id, s.workers[w].next);
    }
  }

  lemma MainKeepsUnseeded(g: TaskGraph, s: State)
    requires Inv(g, s) && MainFits(g, s) && s.phase < |g.phaseRanges| && Unseeded(g, s)
    ensures Unseeded(g, MainNext(g, s)) && MainNext(g, s).phase == s.phase
  {
    hide HandsOk, QueueOk, LogOk, ChosenOk, AllEdges, Acyclic, Incoming, CountersOk, ReadyOk, PhaseOk, SeededUpTo;
    var s' := MainNext(g, s);
    if s.main.Seeding? && s.main.node < g.phaseRanges[s.phase].count {
      NodeOfId(g, g.phaseRanges[s.phase].begin + s.main.node);
    }
  }

  lemma BeginKeepsUnseeded(g: TaskGraph, s: State, k: nat)
    requires Inv(g, s) && s.main.Outside? && k < PHASES == |g.phaseRanges| && (k == INPUT || k == s.main.next)
    ensures Unseeded(g, BeginPhase(s, k)) && BeginPhase(s, k).phase == k
  {
    hide HandsOk, QueueOk, LogOk, ChosenOk, AllEdges, Acyclic, Incoming, CountersOk, ReadyOk, WellFormed;
  }

  /** (S): no completion is processed while the main thread is seeding. */
  predicate ObeysS(s: State, m: Move) {
    m.ByWorker? && m.w < |s.workers| && s.workers[m.w].LoadPhase? ==> !Seeds(s.main)
  }

  /** (C): an enqueue is directly followed by its increment. */
  predicate ObeysC(s: State, m: Move) {
    && (forall w {:trigger s.workers[w]} :: 0 <= w < |s.workers| && s.workers[w].Counting? ==> m == ByWorker(w))
    && (s.main.SeedCounting? ==> m == ByMain)
  }

  ghost predicate Obeys(g: TaskGraph, s: State, moves: seq<Move>)
    requires Counts(g, s)
    decreases |moves|
  {
    moves == [] || (ObeysS(s, moves[0]) && ObeysC(s, moves[0]) && Obeys(g, Apply(g, s, moves[0]), moves[1..]))
  }

  predicate Releases(pc: WorkerPc) {
    pc.Releasing? || pc.Enqueuing? || pc.Counting?
  }

  ghost predicate NobodyReleases(s: State) {
    forall w {:trigger s.workers[w]} :: 0 <= w < |s.workers| ==> !Releases(s.workers[w])
  }

  /** What (S) buys: while the main thread seeds, no worker processes a completion. */
  ghost predicate HeldBack(g: TaskGraph, s: State) {
    s.phase < |g.phaseRanges| && Unseeded(g, s) && (Seeds(s.main) ==> NobodyReleases(s))
  }

  lemma HeldBackWorker(g: TaskGraph, s: State, w: nat)
    requires Inv(g, s) && HeldBack(g, s) && w < |s.workers| && ObeysS(s, ByWorker(w))
    ensures WorkerCanStep(g, s, w) && HeldBack(g, WorkerNext(g, s, w))
  {
    WorkerOfInv(g, s, w);
    WorkerFrame(g, s, w);
    var s' := WorkerNext(g, s, w);
    hide Inv, WellFormed, AllEdges, IndicesFit, WorkerOk, WorkerFits, Unseeded;
    if Seeds(s.main) {
      QuietWorkersKeepUnseeded(g, s, w);
    } else {
      assert !Seeds(s'.main);
      UnseededOutside(g, s');
    }
  }

  lemma UnseededOutside(g: TaskGraph, s: State)
    requires s.phase < |g.phaseRanges| && !Seeds(s.main)
    ensures Unseeded(g, s)
  {
  }

  lemma HeldBackMain(g: TaskGraph, s: State)
    requires Inv(g, s) && MainFits(g, s) && HeldBack(g, s)
    ensures HeldBack(g, MainNext(g, s))
  {
    MainKeepsUnseeded(g, s);
    hide WellFormed, HandsOk, QueueOk, LogOk, ChosenOk, Unseeded, PhaseUnderWay, IndicesFit;
  }

  lemma HeldBackMove(g: TaskGraph, s: State, m: Move)
    requires Counts(g, s) && Inv(g, s) && HeldBack(g, s) && InOrder(s, m) && ObeysS(s, m) && ObeysC(s, m)
    ensures !GoesWrong(g, s, m) && Inv(g, Apply(g, s, m)) && HeldBack(g, Apply(g, s, m))
  {
    assert |g.phaseRanges| == PHASES by { InvFits(g, s); }
    match m {
      case Begin(k) =>
        if s.main.Outside? && k < PHASES {
          assert NobodyCarries(s) by { OutsideIsIdle(g, s); }
          hide Inv, Counts;
          BeginKeepsUnseeded(g, s, k);
        }
      case ByMain =>
        hide Inv, Counts, Reseeds, Unseeded;
        UnseededDoesNotReseed(g, s);
        if InWait(s.main) { ZeroMeans(g, s); }
        HeldBackMain(g, s);
      case ByWorker(w) =>
        hide Inv, Counts;
        if w < |s.workers| { HeldBackWorker(g, s, w); }
    }
    hide Inv, Counts, HeldBack, Reseeds;
    SoundMoveKeepsInv(g, s, m);
  }

  lemma OutsideIsIdle(g: TaskGraph, s: State)
    requires Inv(g, s) && s.main.Outside?
    ensures NobodyCarries(s) && s.queue == []
  {
    hide WellFormed, HandsOk, QueueOk, LogOk, ChosenOk;
  }

  lemma {:induction false} HeldBackRun(g: TaskGraph, s: State, moves: seq<Move>)
    requires Counts(g, s) && Inv(g, s) && HeldBack(g, s) && PhasesAsked(g, s, moves) && Obeys(g, s, moves)
    ensures Sound(g, s, moves)
    decreases |moves|
  {
    hide Inv, Counts, GoesWrong, InOrder, HeldBack, ObeysS, ObeysC;
    if moves != [] {
      HeldBackMove(g, s, moves[0]);
      HeldBackRun(g, Apply(g, s, moves[0]), moves[1..]);
    }
  }

  /** Under (S) and (C), for every well-formed graph, any number of workers and any interleaving of the
      atomic operations that the two allow, every tick is a linear extension and the main thread
      comes back only from complete phases. */
  lemma EveryTickIsALinearExtension(g: TaskGraph, s: State, moves: seq<Move>)
    requires WellFormed(g) && Init(g, s)
    ensures Counts(g, s)
    ensures PhasesAsked(g, s, moves) && Obeys(g, s, moves) ==>
      Sound(g, s, moves) && KeepsPromise(g, s, moves) && TicksWell(g, Exec(g, s, moves))
  {
    InitCounts(g, s);
    InitInv(g, s);
    assert HeldBack(g, s) by { InvFits(g, s); }
    hide Inv, Counts, Init, WellFormed, TicksWell, HeldBack;
    if PhasesAsked(g, s, moves) && Obeys(g, s, moves) {
      HeldBackRun(g, s, moves);
      ExactlyWhenSound(g, s, moves);
      SoundTicks(g, s, moves);
    }
  }

  // -- one move at a time, for the code that makes them --

  ghost predicate Held(g: TaskGraph, s: State) {
    Counts(g, s) && Inv(g, s) && HeldBack(g, s)
  }

  /** Nobody stands between an enqueue and its increment. */
  ghost predicate NobodyCounts(s: State) {
    !s.main.SeedCounting? && forall w {:trigger s.workers[w]} :: 0 <= w < |s.workers| ==> !s.workers[w].Counting?
  }

  /** A worker's step that (S) and (C) allow; only an enqueue leaves the worker about to count. */
  lemma HeldWorker(g: TaskGraph, s: State, w: nat)
    requires Held(g, s) && w < |s.workers| && ObeysS(s, ByWorker(w)) && ObeysC(s, ByWorker(w))
    ensures WorkerCanStep(g, s, w) && Held(g, WorkerNext(g, s, w))
    ensures var s' := WorkerNext(g, s, w);
      |s'.workers| == |s.workers| && (s'.workers[w].Counting? ==> s.workers[w].Enqueuing?) && ObeysC(s', ByWorker(w))
  {
    HeldBackMove(g, s, ByWorker(w));
    WorkerOfInv(g, s, w);
    WorkerFrame(g, s, w);
    hide Counts, Inv, HeldBack, IndicesFit;
  }

  /** A step of the main thread that (C) allows. */
  lemma HeldMain(g: TaskGraph, s: State)
    requires Held(g, s) && ObeysC(s, ByMain)
    ensures MainFits(g, s) && Held(g, MainNext(g, s)) && MainNext(g, s).workers == s.workers
      && ObeysC(MainNext(g, s), ByMain)
  {
    HeldBackMove(g, s, ByMain);
    assert MainFits(g, s);
    hide Counts, Inv, HeldBack, IndicesFit;
  }

  lemma HeldBegin(g: TaskGraph, s: State, k: nat)
    requires Held(g, s) && s.main.Outside? && k < PHASES && (k == INPUT || k == s.main.next) && NobodyCounts(s)
    ensures Held(g, BeginPhase(s, k)) && NobodyCounts(BeginPhase(s, k))
  {
    HeldBackMove(g, s, Begin(k));
    hide Counts, Inv, HeldBack;
  }
}
