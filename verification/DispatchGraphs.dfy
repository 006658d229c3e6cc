/** Graphs on which nothing goes wrong, whatever the interleaving: with several workers those without
    edges inside a phase, with one worker also some others. */
module DispatchGraphs {
  import opened Tasks
  import opened Dispatch
  import opened DispatchCounts
  import opened DispatchSteps
  import opened DispatchRuns

  // ---- the conditions ----

  /** Every dependency leads to a later phase. */
  predicate NoInnerEdges(g: TaskGraph) {
    forall e :: e in AllEdges(g) ==>
      IsEdge(g, e) && IsTask(g, ChildOf(g, e)) && GetNode(g, e.parent).phaseId < GetNode(g, ChildOf(g, e)).phaseId
  }

  /** Does the task depend on another one of its own phase? */
  predicate HasInnerParent(g: TaskGraph, c: nat)
    requires IsTask(g, c)
  {
    exists e :: e in Incoming(g, c) && InPhase(g, e.parent, GetNode(g, c).phaseId)
  }

  /** A walk along the edges leads from one task to another. */
  ghost predicate Leads(g: TaskGraph, a: nat, b: nat) {
    exists walk {:trigger IsWalk(g, walk)} :: IsWalk(g, walk) && |walk| > 1 && walk[0] == a && walk[|walk| - 1] == b
  }

  /** The task depends, through others or directly, on a task of its phase that depends on none of
      that phase and comes after it in node order. */
  ghost predicate FollowsLaterRoot(g: TaskGraph, c: nat)
    requires IsTask(g, c)
  {
    exists r: nat ::
      && InPhase(g, r, GetNode(g, c).phaseId) && !HasInnerParent(g, r) && Leads(g, r, c)
      && g.taskIdToNodeIndex[r] > g.taskIdToNodeIndex[c]
  }

  ghost predicate RootsComeLate(g: TaskGraph) {
    forall c: nat :: IsTask(g, c) && HasInnerParent(g, c) ==> FollowsLaterRoot(g, c)
  }

  /** What a caller has to check of the graph, given the number of workers. */
  ghost predicate SafeGraph(g: TaskGraph, workers: nat) {
    if workers == 1 then RootsComeLate(g) else NoInnerEdges(g)
  }

  lemma NoInnerEdgesIsSafe(g: TaskGraph, workers: nat)
    requires WellFormed(g) && NoInnerEdges(g)
    ensures SafeGraph(g, workers)
  {
    hide WellFormed, AllEdges;
    forall c: nat | IsTask(g, c) ensures !HasInnerParent(g, c) {
      forall e | e in Incoming(g, c) ensures !InPhase(g, e.parent, GetNode(g, c).phaseId) { }
    }
  }

  // ---- several workers ----

  ghost predicate NobodyEnqueues(s: State) {
    forall w {:trigger s.workers[w]} :: 0 <= w < |s.workers| ==> !s.workers[w].Enqueuing? && !s.workers[w].Counting?
  }

  /** Without inner edges, workers never choose. */
  lemma NothingToChoose(g: TaskGraph, s: State, w: nat)
    requires Inv(g, s) && NoInnerEdges(g) && w < |s.workers| && NobodyEnqueues(s)
    ensures WorkerCanStep(g, s, w) && !Chooses(g, s, w) && NobodyEnqueues(WorkerNext(g, s, w))
  {
    WorkerOfInv(g, s, w);
    WorkerFrame(g, s, w);
    if s.workers[w].Releasing? && s.workers[w].next < GetNode(g, s.workers[w].id).childCount {
      var e, child := ReleaseFacts(g, s, w);
      ReleaseIs(g, s, w, e, child);
      CarrierInPhase(g, s, w);
      hide Inv, WellFormed, AllEdges, IndicesFit, Incoming, WorkerNext, Unprocessed;
    } else {
      hide Inv, WellFormed, AllEdges, IndicesFit, WorkerOk;
    }
  }

  ghost predicate InnerFree(g: TaskGraph, s: State) {
    s.phase < |g.phaseRanges| && Unseeded(g, s) && NobodyEnqueues(s)
  }

  lemma InnerFreeMove(g: TaskGraph, s: State, m: Move)
    requires Counts(g, s) && Inv(g, s) && NoInnerEdges(g) && InnerFree(g, s) && InOrder(s, m)
    ensures !GoesWrong(g, s, m) && Inv(g, Apply(g, s, m)) && InnerFree(g, Apply(g, s, m))
  {
    assert |g.phaseRanges| == PHASES by { InvFits(g, s); }
    assert MainFits(g, s);
    hide Inv, Counts, Reseeds, NoInnerEdges, Unseeded;
    match m {
      case Begin(k) => if s.main.Outside? && k < PHASES { BeginKeepsUnseeded(g, s, k); }
      case ByMain => InnerFreeMain(g, s);
      case ByWorker(w) =>
        if w < |s.workers| {
          NothingToChoose(g, s, w);
          QuietWorkersKeepUnseeded(g, s, w);
        }
    }
    hide InnerFree, MainFits;
    SoundMoveKeepsInv(g, s, m);
  }

  lemma InnerFreeMain(g: TaskGraph, s: State)
    requires Counts(g, s) && Inv(g, s) && NoInnerEdges(g) && InnerFree(g, s)
    ensures MainFits(g, s) && !GoesWrong(g, s, ByMain) && InnerFree(g, MainNext(g, s))
  {
    assert |g.phaseRanges| == PHASES by { InvFits(g, s); }
    assert MainFits(g, s);
    hide Inv, Counts, Reseeds, NoInnerEdges, Unseeded;
    UnseededDoesNotReseed(g, s);
    if InWait(s.main) { ZeroMeans(g, s); }
    MainKeepsUnseeded(g, s);
  }

  // ---- one worker ----

  /** Tasks without an inner parent that the seed loop has yet to come to have been chosen by nobody. */
  ghost predicate RootsUnseeded(g: TaskGraph, s: State)
    requires s.phase < |g.phaseRanges|
  {
    Seeds(s.main) ==>
      forall id {:trigger s.status[id]} ::
        0 <= id < |s.status| && InPhase(g, id, s.phase) && !HasInnerParent(g, id)
          && g.taskIdToNodeIndex[id] >= NextSeed(g, s) ==>
          s.status[id].Pending?
  }

  /** One worker: what it has yet to count is still in the queue. */
  ghost predicate Alone(g: TaskGraph, s: State) {
    && |s.workers| == 1 && (s.workers[0].Counting? ==> s.queue != [])
    && s.phase < |g.phaseRanges| && RootsUnseeded(g, s)
  }

  /** A task with an edge not processed is pending. */
  lemma PendingBehind(g: TaskGraph, s: State, e: Edge, c: nat)
    requires Inv(g, s) && !s.main.Outside? && !s.main.Building?
    requires e in Incoming(g, c) && !EdgeDone(s.status, e)
    ensures c < |s.status| && IsTask(g, c) && s.remaining[c] > 0 && s.status[c].Pending?
  {
    assert WellFormed(g) && |g.taskIdToNodeIndex| == |s.status| == |s.remaining|;
    IncomingIsEdge(g, c, e);
    UnderWayFacts(g, s);
    hide Inv, WellFormed, Incoming, EdgeDone, PhaseOk;
    assert e in Unprocessed(g, s.status, c);
    assert s.remaining[c] == |Unprocessed(g, s.status, c)|;
  }

  lemma {:induction false} PendingOnWalk(g: TaskGraph, s: State, walk: seq<nat>, i: nat)
    requires Inv(g, s) && !s.main.Outside? && !s.main.Building?
    requires IsWalk(g, walk) && i < |walk| && walk[0] < |s.status| && s.status[walk[0]].Pending?
    ensures walk[i] < |s.status| && s.status[walk[i]].Pending?
    decreases i
  {
    hide Inv;
    if i > 0 {
      PendingOnWalk(g, s, walk, i - 1);
      assert HasEdge(g, walk[i - 1], walk[i]);
      var e :| e in Incoming(g, walk[i]) && e.parent == walk[i - 1];
      PendingBehind(g, s, e, walk[i]);
    }
  }

  lemma AloneIsUnseeded(g: TaskGraph, s: State)
    requires Inv(g, s) && RootsComeLate(g) && Alone(g, s)
    ensures Unseeded(g, s)
  {
    if Seeds(s.main) {
      assert |g.taskIdToNodeIndex| == |s.status| by { InvFits(g, s); }
      hide Inv, HasInnerParent, IsWalk;
      forall id | 0 <= id < |s.status| && InPhase(g, id, s.phase) && g.taskIdToNodeIndex[id] >= NextSeed(g, s)
        ensures s.status[id].Pending?
      {
        if HasInnerParent(g, id) {
          assert FollowsLaterRoot(g, id);
          var r: nat :| InPhase(g, r, s.phase) && !HasInnerParent(g, r) && Leads(g, r, id)
            && g.taskIdToNodeIndex[r] > g.taskIdToNodeIndex[id];
          assert s.status[r].Pending?;
          var walk :| IsWalk(g, walk) && |walk| > 1 && walk[0] == r && walk[|walk| - 1] == id;
          PendingOnWalk(g, s, walk, |walk| - 1);
        }
      }
    }
  }

  /** A worker chooses only tasks with an inner parent. */
  lemma ChosenHasInnerParent(g: TaskGraph, s: State, w: nat)
    requires Inv(g, s) && w < |s.workers| && WorkerCanStep(g, s, w) && Chooses(g, s, w)
    ensures s.workers[w].Releasing? && WorkerNext(g, s, w).workers[w].Enqueuing?
    ensures var child := WorkerNext(g, s, w).workers[w].child;
      && child < |s.status| && IsTask(g, child) && HasInnerParent(g, child)
      && WorkerNext(g, s, w).status ==
        s.status[s.workers[w].id := WorkerNext(g, s, w).status[s.workers[w].id]][child := Due(w)]
  {
    ChoosesAtRelease(g, s, w);
    var e, child := ReleaseFacts(g, s, w);
    ReleaseIs(g, s, w, e, child);
    CarrierInPhase(g, s, w);
    hide Inv, WellFormed, AllEdges, Incoming, IndicesFit, Unprocessed, WorkerNext;
    assert e in Incoming(g, child) && InPhase(g, e.parent, s.phase);
  }

  lemma ChoosesAtRelease(g: TaskGraph, s: State, w: nat)
    requires WorkerCanStep(g, s, w) && Chooses(g, s, w)
    ensures s.workers[w].Releasing? && WorkerFits(g, s.workers[w])
      && s.workers[w].next < GetNode(g, s.workers[w].id).childCount
  {
    hide IndicesFit;
  }

  lemma RootsStay(g: TaskGraph, s: State, w: nat)
    requires Inv(g, s) && w < |s.workers| && WorkerCanStep(g, s, w) && s.phase < |g.phaseRanges| && RootsUnseeded(g, s)
    ensures RootsUnseeded(g, WorkerNext(g, s, w))
  {
    WorkerFrame(g, s, w);
    if Chooses(g, s, w) {
      ChosenHasInnerParent(g, s, w);
      assert !s.status[s.workers[w].id].Pending? by { CarrierInPhase(g, s, w); }
    } else {
      PendingStays(g, s, w);
    }
    hide Inv, IndicesFit, WorkerNext, WorkerCanStep, HasInnerParent;
  }

  lemma CountsWhatIsQueued(g: TaskGraph, s: State)
    requires Inv(g, s) && |s.workers| == 1 && (s.workers[0].Counting? ==> s.queue != [])
    ensures WorkerCanStep(g, s, 0) && (WorkerNext(g, s, 0).workers[0].Counting? ==> WorkerNext(g, s, 0).queue != [])
  {
    WorkerOfInv(g, s, 0);
    if s.workers[0].Enqueuing? {
      RoomFor(g, s, s.workers[0].child);
    }
    hide Inv, IndicesFit;
  }

  lemma AloneMove(g: TaskGraph, s: State, m: Move)
    requires Counts(g, s) && Inv(g, s) && RootsComeLate(g) && Alone(g, s) && InOrder(s, m)
    ensures !GoesWrong(g, s, m) && Alone(g, Apply(g, s, m))
  {
    assert |g.phaseRanges| == PHASES by { InvFits(g, s); }
    assert MainFits(g, s);
    hide Inv, Counts, Reseeds, RootsComeLate, RootsUnseeded, Unseeded;
    match m {
      case Begin(k) =>
        if s.main.Outside? && k < PHASES {
          BeginKeepsUnseeded(g, s, k);
          UnseededRoots(g, BeginPhase(s, k));
        }
      case ByMain => AloneMain(g, s);
      case ByWorker(w) =>
        if w == 0 {
          CountsWhatIsQueued(g, s);
          WorkerFrame(g, s, w);
          RootsStay(g, s, w);
        }
    }
  }

  lemma UnseededRoots(g: TaskGraph, s: State)
    requires s.phase < |g.phaseRanges| && Unseeded(g, s)
    ensures RootsUnseeded(g, s)
  {
  }

  lemma AloneMain(g: TaskGraph, s: State)
    requires Counts(g, s) && Inv(g, s) && RootsComeLate(g) && Alone(g, s)
    ensures MainFits(g, s) && !GoesWrong(g, s, ByMain) && Alone(g, MainNext(g, s))
  {
    assert MainFits(g, s) by { InvFits(g, s); }
    AloneIsUnseeded(g, s);
    AloneDoesNotLeave(g, s);
    hide Inv, Counts, Reseeds, LeavesEarly, RootsComeLate, RootsUnseeded, Unseeded, MainNext, MainFits;
    UnseededDoesNotReseed(g, s);
    MainKeepsUnseeded(g, s);
    UnseededRoots(g, MainNext(g, s));
    MainTakesNothing(g, s);
  }

  /** What one worker has in hand has been counted. */
  lemma AloneDoesNotLeave(g: TaskGraph, s: State)
    requires Counts(g, s) && Alone(g, s)
    ensures !LeavesEarly(s)
  {
    hide Counts, RootsUnseeded;
    if s.main.WaitLoad? || s.main.WaitRecheck? { ZeroMeans(g, s); }
  }

  lemma MainTakesNothing(g: TaskGraph, s: State)
    requires MainFits(g, s)
    ensures MainNext(g, s).workers == s.workers && |MainNext(g, s).queue| >= |s.queue|
  {
    hide IndicesFit;
  }

  // ---- whole runs ----

  ghost predicate SafeSoFar(g: TaskGraph, s: State) {
    if |s.workers| == 1 then Alone(g, s) else InnerFree(g, s)
  }

  lemma SafeMove(g: TaskGraph, s: State, m: Move)
    requires Counts(g, s) && Inv(g, s) && SafeGraph(g, |s.workers|) && SafeSoFar(g, s) && InOrder(s, m)
    ensures MainFits(g, s) && !GoesWrong(g, s, m) && Inv(g, Apply(g, s, m)) && SafeSoFar(g, Apply(g, s, m))
  {
    assert MainFits(g, s);
    hide Inv, Counts, Alone, InnerFree, RootsComeLate, NoInnerEdges, GoesWrong, MainFits;
    if |s.workers| == 1 {
      AloneMove(g, s, m);
      SoundMoveKeepsInv(g, s, m);
    } else {
      InnerFreeMove(g, s, m);
    }
  }

  lemma InitIsSafe(g: TaskGraph, s: State)
    requires WellFormed(g) && Init(g, s)
    ensures SafeSoFar(g, s)
  {
    assert |g.phaseRanges| == PHASES && s.phase < PHASES;
    hide WellFormed, IndicesFit;
  }

  lemma {:induction false} SafeRun(g: TaskGraph, s: State, moves: seq<Move>)
    requires Counts(g, s) && Inv(g, s) && SafeGraph(g, |s.workers|) && SafeSoFar(g, s) && PhasesAsked(g, s, moves)
    ensures Sound(g, s, moves) && Inv(g, Exec(g, s, moves)) && SafeSoFar(g, Exec(g, s, moves))
    decreases |moves|
  {
    hide Inv, Counts, GoesWrong, InOrder, SafeGraph, SafeSoFar, MainFits;
    if moves != [] {
      SafeMove(g, s, moves[0]);
      SafeRun(g, Apply(g, s, moves[0]), moves[1..]);
    }
  }

  /** On a safe graph every run, whatever the interleaving of the atomic operations, executes each tick
      as a linear extension and comes back only from complete phases. */
  lemma SafeGraphTicks(g: TaskGraph, s: State, moves: seq<Move>)
    requires WellFormed(g) && Init(g, s) && SafeGraph(g, |s.workers|)
    ensures Counts(g, s)
    ensures PhasesAsked(g, s, moves) ==>
      Sound(g, s, moves) && KeepsPromise(g, s, moves) && TicksWell(g, Exec(g, s, moves))
  {
    InitCounts(g, s);
    InitInv(g, s);
    InitIsSafe(g, s);
    hide Inv, Counts, Init, WellFormed, TicksWell, SafeGraph, SafeSoFar;
    if PhasesAsked(g, s, moves) {
      SafeRun(g, s, moves);
      ExactlyWhenSound(g, s, moves);
      SoundTicks(g, s, moves);
    }
  }

  /** In particular without edges inside a phase, for any number of workers. */
  lemma NoInnerEdgesTicks(g: TaskGraph, s: State, moves: seq<Move>)
    requires WellFormed(g) && NoInnerEdges(g) && Init(g, s)
    ensures Counts(g, s)
    ensures PhasesAsked(g, s, moves) ==>
      Sound(g, s, moves) && KeepsPromise(g, s, moves) && TicksWell(g, Exec(g, s, moves))
  {
    NoInnerEdgesIsSafe(g, |s.workers|);
    SafeGraphTicks(g, s, moves);
  }
}
