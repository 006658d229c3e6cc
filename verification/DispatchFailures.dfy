/** On every other graph some run breaks the promise.  The run goes through the phases before with
    nobody disturbing anybody: the main thread seeds alone, and then worker 0 runs until nothing is
    left to do. */
module DispatchFailures {
  import opened Tasks
  import opened Dispatch
  import opened DispatchCounts
  import opened DispatchSteps
  import opened DispatchRuns
  import opened DispatchProgress
  import opened DispatchGraphs

  // ---- states that runs arrive at ----

  ghost predicate Arrives(g: TaskGraph, s: State, r: State)
    requires Counts(g, s)
  {
    exists moves {:trigger PhasesAsked(g, s, moves)} :: PhasesAsked(g, s, moves) && Exec(g, s, moves) == r
  }

  ghost predicate Fails(g: TaskGraph, s: State)
    requires Counts(g, s)
  {
    exists moves {:trigger PhasesAsked(g, s, moves)} :: PhasesAsked(g, s, moves) && !KeepsPromise(g, s, moves)
  }

  ghost predicate AllRunsKeepPromise(g: TaskGraph, s: State)
    requires Counts(g, s)
  {
    forall moves {:trigger PhasesAsked(g, s, moves)} :: PhasesAsked(g, s, moves) ==> KeepsPromise(g, s, moves)
  }

  lemma Stays(g: TaskGraph, s: State)
    requires Counts(g, s)
    ensures Arrives(g, s, s)
  {
    hide Counts;
    assert PhasesAsked(g, s, []) && Exec(g, s, []) == s;
  }

  lemma {:induction false} Continued(g: TaskGraph, s: State, first: seq<Move>, second: seq<Move>)
    requires Counts(g, s) && PhasesAsked(g, s, first) && PhasesAsked(g, Exec(g, s, first), second)
    ensures PhasesAsked(g, s, first + second) && Exec(g, s, first + second) == Exec(g, Exec(g, s, first), second)
    decreases |first|
  {
    hide Counts, InOrder, Apply;
    if first == [] {
      assert first + second == second;
    } else {
      assert (first + second)[1..] == first[1..] + second && (first + second)[0] == first[0];
      Continued(g, Apply(g, s, first[0]), first[1..], second);
    }
  }

  lemma {:induction false} BrokenLater(g: TaskGraph, s: State, first: seq<Move>, second: seq<Move>)
    requires Counts(g, s) && !KeepsPromise(g, Exec(g, s, first), second)
    ensures !KeepsPromise(g, s, first + second)
    decreases |first|
  {
    hide Counts, Promise, Apply;
    if first == [] {
      assert first + second == second;
    } else {
      assert (first + second)[1..] == first[1..] + second && (first + second)[0] == first[0];
      BrokenLater(g, Apply(g, s, first[0]), first[1..], second);
    }
  }

  lemma Onwards(g: TaskGraph, s: State, m: State, r: State)
    requires Counts(g, s) && Arrives(g, s, m) && Counts(g, m) && Arrives(g, m, r)
    ensures Arrives(g, s, r) && Counts(g, r)
  {
    hide Counts, PhasesAsked, Exec;
    var first :| PhasesAsked(g, s, first) && Exec(g, s, first) == m;
    var second :| PhasesAsked(g, m, second) && Exec(g, m, second) == r;
    Continued(g, s, first, second);
  }

  /** One more move. */
  lemma Then(g: TaskGraph, s: State, r: State, m: Move) returns (r': State)
    requires Counts(g, s) && Arrives(g, s, r) && InOrder(r, m)
    ensures Counts(g, r)
    ensures r' == Apply(g, r, m) && Arrives(g, s, r') && Counts(g, r')
  {
    hide Counts, InOrder;
    assert Counts(g, r) by { Arrived(g, s, r); }
    r' := Apply(g, r, m);
    assert PhasesAsked(g, r, [m]) && Exec(g, r, [m]) == r' by { OneMove(g, r, m); }
    Onwards(g, s, r, r');
  }

  lemma OneMove(g: TaskGraph, s: State, m: Move)
    requires Counts(g, s) && InOrder(s, m)
    ensures PhasesAsked(g, s, [m]) && Exec(g, s, [m]) == Apply(g, s, m)
    ensures !Promise(g, Apply(g, s, m)) ==> !KeepsPromise(g, s, [m])
  {
    hide Counts, InOrder, Promise;
    assert [m][0] == m && [m][1..] == [];
    assert PhasesAsked(g, Apply(g, s, m), []) && Exec(g, Apply(g, s, m), []) == Apply(g, s, m);
  }

  lemma Arrived(g: TaskGraph, s: State, r: State)
    requires Counts(g, s) && Arrives(g, s, r)
    ensures Counts(g, r) && |r.workers| == |s.workers|
  {
  }

  lemma FailsFrom(g: TaskGraph, s: State, r: State)
    requires Counts(g, s) && Arrives(g, s, r) && Counts(g, r) && Inv(g, r) && GoesWrong(g, r, ByMain)
    ensures Fails(g, s)
  {
    WrongMoveBreaksPromise(g, r, ByMain);
    hide Counts, Inv, GoesWrong, Promise, PhasesAsked, Exec, KeepsPromise, Apply;
    OneMove(g, r, ByMain);
    var first :| PhasesAsked(g, s, first) && Exec(g, s, first) == r;
    Continued(g, s, first, [ByMain]);
    BrokenLater(g, s, first, [ByMain]);
  }

  // ---- one worker runs dry ----

  /** A task of the phase is pending although its counter is zero only if it depends on none of the phase. */
  ghost predicate Settled(g: TaskGraph, s: State) {
    |s.remaining| == |s.status| &&
    forall id {:trigger s.status[id]} :: 0 <= id < |s.status| && InPhase(g, id, s.phase) && HasInnerParent(g, id) ==>
      (s.status[id].Pending? ==> s.remaining[id] > 0)
  }

  lemma WorkerKeepsSettled(g: TaskGraph, s: State, w: nat)
    requires Inv(g, s) && w < |s.workers| && Settled(g, s)
    ensures WorkerCanStep(g, s, w) && Settled(g, WorkerNext(g, s, w))
  {
    WorkerOfInv(g, s, w);
    WorkerFrame(g, s, w);
    if s.workers[w].Releasing? && s.workers[w].next < GetNode(g, s.workers[w].id).childCount {
      var e, child := ReleaseFacts(g, s, w);
      ReleaseIs(g, s, w, e, child);
      hide Inv, WellFormed, AllEdges, Incoming, IndicesFit, Unprocessed, HasInnerParent, WorkerNext;
    } else {
      OnlyReleaseCounts(g, s, w);
      hide Inv, WellFormed, IndicesFit, HasInnerParent, WorkerNext;
    }
  }

  lemma OnlyReleaseCounts(g: TaskGraph, s: State, w: nat)
    requires WorkerCanStep(g, s, w)
    requires !(s.workers[w].Releasing? && s.workers[w].next < GetNode(g, s.workers[w].id).childCount)
    ensures WorkerNext(g, s, w).remaining == s.remaining && WorkerNext(g, s, w).chosen == s.chosen
    ensures forall id {:trigger WorkerNext(g, s, w).status[id]} ::
      0 <= id < |s.status| && |WorkerNext(g, s, w).status| == |s.status| ==>
        (WorkerNext(g, s, w).status[id].Pending? ==> s.status[id].Pending?)
  {
    hide IndicesFit;
  }

  /** Worker `w` moves, the others stand, until it looks into an empty queue. */
  lemma {:induction false} RunDry(g: TaskGraph, s: State, w: nat) returns (r: State)
    requires Counts(g, s) && Inv(g, s) && w < |s.workers| && !s.main.Asleep?
    ensures Arrives(g, s, r) && Counts(g, r) && Inv(g, r)
    ensures r.main == s.main && r.phase == s.phase && r.workers == s.workers[w := Looking] && r.queue == []
    ensures Settled(g, s) ==> Settled(g, r)
    decreases Measure(g, s)
  {
    hide Counts, Inv, Measure, Settled;
    if s.workers[w].Looking? && s.queue == [] {
      Stays(g, s);
      r := s;
    } else {
      Stays(g, s);
      var s' := Then(g, s, s, ByWorker(w));
      WorkerMoveDecreases(g, s, w);
      WorkerNextKeepsInv(g, s, w);
      WorkerFrame(g, s, w);
      if Settled(g, s) { WorkerKeepsSettled(g, s, w); }
      r := RunDry(g, s', w);
      Onwards(g, s, s', r);
    }
  }

  // ---- the main thread seeds alone ----

  /** Seeding changes the lives only of tasks that it chooses. */
  ghost predicate SeedKept(s: State, r: State) {
    && |r.status| == |s.status| && r.phase == s.phase && r.workers == s.workers && r.remaining == s.remaining
    && (forall id {:trigger r.status[id]} :: 0 <= id < |r.status| ==>
          (r.status[id].Pending? ==> s.status[id].Pending?) && (Executed(r.status[id]) ==> Executed(s.status[id])))
  }

  lemma SeedKeeps(g: TaskGraph, s: State)
    requires MainFits(g, s) && Seeds(s.main)
    ensures SeedKept(s, MainNext(g, s))
  {
    hide IndicesFit;
  }

  lemma KeptAlong(s: State, m: State, r: State)
    requires SeedKept(s, m) && SeedKept(m, r)
    ensures SeedKept(s, r)
  {
  }

  /** The main thread seeds, nobody having chosen what it has yet to come to. */
  ghost predicate SeedsAlone(g: TaskGraph, s: State) {
    Counts(g, s) && Inv(g, s) && Seeds(s.main) && s.phase < |g.phaseRanges| && Unseeded(g, s)
  }

  /** One step of the seed loop, not its last. */
  lemma SeedStep(g: TaskGraph, s: State) returns (r: State)
    requires SeedsAlone(g, s) && (s.main.Seeding? ==> s.main.node < g.phaseRanges[s.phase].count)
    ensures MainFits(g, s) && r == MainNext(g, s) && Arrives(g, s, r) && SeedsAlone(g, r) && SeedKept(s, r)
    ensures s.main.Seeding? ==> r.main == SeedEnqueuing(s.main.node) || r.main == Seeding(s.main.node + 1)
    ensures s.main.SeedEnqueuing? ==> r.main == SeedCounting(s.main.node)
    ensures s.main.SeedCounting? ==> r.main == Seeding(s.main.node + 1)
  {
    assert MainFits(g, s) by { InvFits(g, s); }
    UnseededDoesNotReseed(g, s);
    MainNextKeepsInv(g, s);
    MainKeepsUnseeded(g, s);
    SeedKeeps(g, s);
    Stays(g, s);
    hide Counts, Inv, Unseeded, SeedKept, Reseeds;
    r := Then(g, s, s, ByMain);
    if s.main.SeedEnqueuing? { SeedFindsRoom(g, s); }
    hide IndicesFit;
  }

  /** The loop up to node `stop` of the phase. */
  lemma {:induction false} SeedUpTo(g: TaskGraph, s: State, stop: nat) returns (r: State)
    requires SeedsAlone(g, s) && s.main.node + (if s.main.Seeding? then 0 else 1) <= stop <=
      g.phaseRanges[s.phase].count
    ensures Counts(g, s) && Arrives(g, s, r) && SeedsAlone(g, r) && SeedKept(s, r) && r.main == Seeding(stop)
    decreases stop - s.main.node, if s.main.Seeding? then 2 else if s.main.SeedEnqueuing? then 1 else 0
  {
    hide Counts, Inv, Unseeded, SeedKept;
    if s.main == Seeding(stop) {
      Stays(g, s);
      assert SeedKept(s, s) by { KeptAtFirst(s); }
      r := s;
    } else {
      var m := SeedStep(g, s);
      r := SeedUpTo(g, m, stop);
      Onwards(g, s, m, r);
      KeptPhase(s, m);
      KeptAlong(s, m, r);
    }
  }

  lemma KeptAtFirst(s: State)
    ensures SeedKept(s, s)
  {
  }

  lemma KeptPhase(s: State, r: State)
    requires SeedKept(s, r)
    ensures r.phase == s.phase && r.workers == s.workers && r.remaining == s.remaining
  {
  }

  /** The whole loop. */
  lemma SeedAll(g: TaskGraph, s: State) returns (r: State)
    requires SeedsAlone(g, s) && s.main == Seeding(0)
    ensures Counts(g, s) && Arrives(g, s, r) && Counts(g, r) && Inv(g, r) && SeedKept(s, r) && r.main == WaitLoad
  {
    hide Counts, Inv, Unseeded, SeedKept;
    assert MainFits(g, s) by { assert Inv(g, s); InvFits(g, s); }
    var m := SeedUpTo(g, s, g.phaseRanges[s.phase].count);
    KeptPhase(s, m);
    EndOfSeeds(g, m);
    r := Then(g, s, m, ByMain);
    KeptAlong(s, m, r);
  }

  lemma EndOfSeeds(g: TaskGraph, s: State)
    requires SeedsAlone(g, s) && s.main == Seeding(g.phaseRanges[s.phase].count)
    ensures MainFits(g, s) && Inv(g, MainNext(g, s)) && MainNext(g, s).main == WaitLoad && SeedKept(s, MainNext(g, s))
  {
    assert MainFits(g, s) by { InvFits(g, s); }
    UnseededDoesNotReseed(g, s);
    MainNextKeepsInv(g, s);
    SeedKeeps(g, s);
    hide Counts, Inv, Unseeded, SeedKept, Reseeds, IndicesFit;
  }

  // ---- the phases before ----

  ghost predicate AllLooking(s: State) {
    |s.workers| > 0 && forall w :: 0 <= w < |s.workers| ==> s.workers[w] == Looking
  }

  /** A phase begins, and everybody is idle. */
  ghost predicate Fresh(g: TaskGraph, s: State, k: nat) {
    SeedsAlone(g, s) && s.main == Seeding(0) && s.phase == k && AllLooking(s)
  }

  /** The main thread comes back from a phase in which worker 0 has done all the work. */
  lemma OnePhase(g: TaskGraph, s: State, k: nat) returns (r: State)
    requires Fresh(g, s, k) && k < PHASES
    ensures Counts(g, s) && Arrives(g, s, r) && Counts(g, r) && Inv(g, r) && r.main == Outside(k + 1) && AllLooking(r)
  {
    hide Counts, Inv, SeedKept, SeedsAlone;
    var m := SeedAll(g, s);
    KeptPhase(s, m);
    var d := RunDry(g, m, 0);
    assert d.workers == s.workers;
    assert NobodyCarries(d);
    Onwards(g, s, m, d);
    LeavesWhenDry(g, d);
    r := Then(g, s, d, ByMain);
  }

  lemma LeavesWhenDry(g: TaskGraph, s: State)
    requires Counts(g, s) && Inv(g, s) && s.main == WaitLoad && NobodyCarries(s) && s.queue == []
    ensures MainFits(g, s) && Inv(g, MainNext(g, s)) && MainNext(g, s) == s.(main := Outside(s.phase + 1))
  {
    assert MainFits(g, s) by { InvFits(g, s); }
    ZeroMeans(g, s);
    hide Counts, Inv, IndicesFit;
    MainNextKeepsInv(g, s);
  }

  lemma {:induction false} BuildAll(g: TaskGraph, s: State) returns (r: State)
    requires Counts(g, s) && Inv(g, s) && s.main.Building? && s.phase < |g.phaseRanges| && AllLooking(s)
    ensures Arrives(g, s, r) && Fresh(g, r, INPUT)
    decreases |g.nodes| - s.main.node
  {
    assert MainFits(g, s) && s.phase == INPUT by { InvFits(g, s); }
    BuildKeepsInv(g, s);
    MainKeepsUnseeded(g, s);
    assert s.main.node <= |g.nodes|;
    Stays(g, s);
    hide Counts, Inv, Unseeded;
    r := Then(g, s, s, ByMain);
    if s.main.node < |g.nodes| {
      var m := r;
      r := BuildAll(g, m);
      Onwards(g, s, m, r);
    }
    hide IndicesFit;
  }

  /** From the start to the beginning of any phase. */
  lemma {:induction false} UpToPhase(g: TaskGraph, s: State, k: nat) returns (r: State)
    requires WellFormed(g) && Init(g, s) && |s.workers| > 0 && k < PHASES
    ensures Counts(g, s) && Arrives(g, s, r) && Fresh(g, r, k) && |r.workers| == |s.workers|
    decreases k
  {
    InitCounts(g, s);
    InitInv(g, s);
    assert AllLooking(s) && |g.phaseRanges| == PHASES;
    hide Counts, Inv, WellFormed, Init, Unseeded;
    var m;
    if k == 0 {
      Stays(g, s);
      m := Then(g, s, s, Begin(INPUT));
      BeginPhaseKeepsInv(g, s, INPUT);
      r := BuildAll(g, m);
      Onwards(g, s, m, r);
    } else {
      var f := UpToPhase(g, s, k - 1);
      m := OnePhase(g, f, k - 1);
      Onwards(g, s, f, m);
      BeginPhaseKeepsInv(g, m, k);
      BeginKeepsUnseeded(g, m, k);
      r := Then(g, s, m, Begin(k));
    }
    Arrived(g, s, r);
  }

  // ---- several workers: an edge inside a phase ----

  /** Worker 0 runs until it has chosen a child and is about to enqueue it; it does so since some task
      of the phase is still pending when all that was chosen is done. */
  lemma {:induction false} RunToEnqueue(g: TaskGraph, s: State, c: nat) returns (r: State)
    requires Counts(g, s) && Inv(g, s) && s.main == WaitLoad && OthersLook(s)
    requires c < |s.status| && InPhase(g, c, s.phase) && (s.status[c].Pending? || s.workers[0].Enqueuing?)
    ensures Arrives(g, s, r) && Counts(g, r) && Inv(g, r) && r.main == WaitLoad && |r.workers| == |s.workers|
    ensures OthersLook(r) && r.workers[0].Enqueuing?
    decreases Measure(g, s)
  {
    hide Counts, Inv, Measure, OthersLook, WorkerNext, WorkerCanStep;
    Stays(g, s);
    assert |s.workers| > 0 by { SomebodyLooks(s); }
    if s.workers[0].Enqueuing? {
      r := s;
    } else {
      NotDryYet(g, s, c);
      var s' := Then(g, s, s, ByWorker(0));
      WorkerMoveDecreases(g, s, 0);
      WorkerNextKeepsInv(g, s, 0);
      StillWaiting(g, s, c);
      r := RunToEnqueue(g, s', c);
      Onwards(g, s, s', r);
    }
  }

  ghost predicate OthersLook(s: State) {
    |s.workers| > 0 && forall w :: 0 < w < |s.workers| ==> s.workers[w] == Looking
  }

  lemma SomebodyLooks(s: State)
    requires OthersLook(s)
    ensures |s.workers| > 0
  {
  }

  lemma StillWaiting(g: TaskGraph, s: State, c: nat)
    requires Inv(g, s) && s.main == WaitLoad && OthersLook(s) && c < |s.status| && s.status[c].Pending?
      && WorkerCanStep(g, s, 0)
    ensures var s' := WorkerNext(g, s, 0);
      && s'.main == WaitLoad && OthersLook(s') && s'.phase == s.phase && |s'.workers| == |s.workers|
        && |s'.status| == |s.status|
      && (s'.status[c].Pending? || s'.workers[0].Enqueuing?)
  {
    hide Inv, WorkerNext, IndicesFit;
    WorkerFrame(g, s, 0);
    if Chooses(g, s, 0) { ChosenHasInnerParent(g, s, 0); } else { PendingStays(g, s, 0); }
  }

  lemma NotDryYet(g: TaskGraph, s: State, c: nat)
    requires Inv(g, s) && s.main == WaitLoad && OthersLook(s)
    requires c < |s.status| && InPhase(g, c, s.phase) && s.status[c].Pending?
    ensures !(s.workers[0].Looking? && s.queue == [])
  {
    if s.workers[0].Looking? && s.queue == [] {
      assert NobodyCarries(s);
      BarrierIsComplete(g, s);
      hide Inv;
    }
  }

  /** While worker 0 stands between enqueue and increment, worker 1 runs until nothing is left, and the
      main thread finds the active counter at zero. */
  lemma LeavesBehind(g: TaskGraph, s: State) returns (r: State)
    requires Counts(g, s) && Inv(g, s) && s.main == WaitLoad && OthersLook(s) && |s.workers| > 1
      && s.workers[0].Enqueuing?
    ensures Arrives(g, s, r) && Counts(g, r) && Inv(g, r) && MainFits(g, r) && GoesWrong(g, r, ByMain)
  {
    Stays(g, s);
    hide Counts, Inv, WorkerNext, WorkerCanStep, OthersLook, MainFits, Reseeds, LeavesEarly;
    var m := Then(g, s, s, ByWorker(0));
    WorkerNextKeepsInv(g, s, 0);
    Enqueues(g, s);
    r := RunDry(g, m, 1);
    Onwards(g, s, m, r);
    ZeroBehind(g, m, r);
  }

  lemma Enqueues(g: TaskGraph, s: State)
    requires Inv(g, s) && WorkerCanStep(g, s, 0) && s.main == WaitLoad && OthersLook(s) && s.workers[0].Enqueuing?
    ensures var m := WorkerNext(g, s, 0);
      m.main == WaitLoad && OthersLook(m) && |m.workers| == |s.workers| && m.workers[0].Counting?
  {
    assert WorkerOk(g, s, 0);
    hide Inv, IndicesFit;
    RoomFor(g, s, s.workers[0].child);
    WorkerFrame(g, s, 0);
  }

  lemma ZeroBehind(g: TaskGraph, m: State, r: State)
    requires OthersLook(m) && |m.workers| > 1 && m.workers[0].Counting?
    requires Counts(g, r) && Inv(g, r) && r.main == WaitLoad && r.workers == m.workers[1 := WorkerPc.Looking]
      && r.queue == []
    ensures MainFits(g, r) && GoesWrong(g, r, ByMain)
  {
    assert MainFits(g, r) by { InvFits(g, r); }
    hide Counts, Inv, MainFits, Reseeds;
    ZeroMeans(g, r);
    assert Carries(r.workers[0]);
  }

  lemma InnerEdgeFails(g: TaskGraph, s: State, e: Edge)
    requires WellFormed(g) && Init(g, s) && |s.workers| > 1
    requires e in AllEdges(g) && IsEdge(g, e) && IsTask(g, ChildOf(g, e))
      && GetNode(g, e.parent).phaseId == GetNode(g, ChildOf(g, e)).phaseId
    ensures Counts(g, s) && Fails(g, s)
  {
    var c := ChildOf(g, e);
    var k := GetNode(g, c).phaseId;
    PhaseIsBounded(g, c);
    assert e in Incoming(g, c);
    var f := UpToPhase(g, s, k);
    hide Counts, Inv, WellFormed, Init, AllEdges, Incoming, SeedsAlone, SeedKept;
    var m := SeedAll(g, f);
    KeptPhase(f, m);
    Onwards(g, s, f, m);
    ChildWaits(g, f, m, e, k);
    assert OthersLook(m) by { FreshLooks(g, f, k); }
    var q := RunToEnqueue(g, m, c);
    Onwards(g, s, m, q);
    var r := LeavesBehind(g, q);
    Onwards(g, s, q, r);
    FailsFrom(g, s, r);
  }

  lemma FreshLooks(g: TaskGraph, f: State, k: nat)
    requires Fresh(g, f, k)
    ensures OthersLook(f)
  {
  }

  /** Its parent not executed, the child is pending. */
  lemma ChildWaits(g: TaskGraph, f: State, m: State, e: Edge, k: nat)
    requires Fresh(g, f, k) && SeedKept(f, m) && Inv(g, m) && m.main == WaitLoad
    requires IsEdge(g, e) && e in Incoming(g, ChildOf(g, e)) && GetNode(g, e.parent).phaseId == k
    ensures ChildOf(g, e) < |m.status| && m.status[ChildOf(g, e)].Pending?
  {
    assert e.parent < |f.status| && f.status[e.parent].Pending? by { FreshIsPending(g, f, k, e.parent); }
    PendingBehind(g, m, e, ChildOf(g, e));
  }

  lemma FreshIsPending(g: TaskGraph, s: State, k: nat, id: nat)
    requires Fresh(g, s, k) && InPhase(g, id, k)
    ensures id < |s.status| && s.status[id].Pending?
  {
    assert |g.taskIdToNodeIndex| == |s.status| by { InvFits(g, s); }
    NodeInRange(g, s, id);
    hide Inv, Counts;
  }

  lemma NodeInRange(g: TaskGraph, s: State, id: nat)
    requires Inv(g, s) && InPhase(g, id, s.phase)
    ensures s.phase < |g.phaseRanges|
    ensures g.phaseRanges[s.phase].begin <= g.taskIdToNodeIndex[id] < g.phaseRanges[s.phase].begin
      + g.phaseRanges[s.phase].count
  {
    assert WellFormed(g) && s.phase < PHASES;
    hide Inv;
    var n := g.taskIdToNodeIndex[id];
    assert g.nodes[n].phaseId == s.phase;
  }

  // ---- one worker: a task that comes after all its roots ----

  lemma FreshIsSettled(g: TaskGraph, f: State, r: State, k: nat)
    requires Fresh(g, f, k) && SeedKept(f, r) && Inv(g, r) && !r.main.Outside? && !r.main.Building?
    ensures Settled(g, r)
  {
    assert |r.remaining| == |r.status| by { InvFits(g, r); }
    hide Inv, AllLooking, SeedsAlone;
    forall id | 0 <= id < |r.status| && InPhase(g, id, r.phase) && HasInnerParent(g, id) ensures r.remaining[id] > 0 {
      var e :| e in Incoming(g, id) && InPhase(g, e.parent, k);
      FreshIsPending(g, f, k, e.parent);
      PendingBehind(g, r, e, id);
    }
  }

  /** The tasks of the phase that are pending and lead to `c`, and `c`. */
  ghost function PendingBefore(g: TaskGraph, s: State, c: nat): set<nat> {
    set id | 0 <= id < |s.status| && InPhase(g, id, s.phase) && s.status[id].Pending? && (id == c || Leads(g, id, c))
  }

  lemma LeadsOn(g: TaskGraph, p: nat, a: nat, c: nat)
    requires HasEdge(g, p, a) && (a == c || Leads(g, a, c))
    ensures Leads(g, p, c)
  {
    hide HasEdge;
    if a == c {
      assert IsWalk(g, [p, a]);
    } else {
      var walk :| IsWalk(g, walk) && |walk| > 1 && walk[0] == a && walk[|walk| - 1] == c;
      LongerWalk(g, p, walk);
      hide IsWalk;
      assert ([p] + walk)[|walk|] == c;
    }
  }

  /** The state in which the main thread has seeded all that comes before `c`, and worker 0 has done it. */
  ghost predicate DryBefore(g: TaskGraph, s: State, c: nat) {
    && Inv(g, s) && Settled(g, s) && s.main.Seeding? && s.queue == [] && NobodyCarries(s)
    && InPhase(g, c, s.phase) && s.phase < |g.phaseRanges|
      && g.taskIdToNodeIndex[c] == g.phaseRanges[s.phase].begin + s.main.node
  }

  lemma WaitsForPending(g: TaskGraph, s: State, c: nat, m: nat) returns (p: nat)
    requires DryBefore(g, s, c) && m in PendingBefore(g, s, c) && s.remaining[m] > 0
    ensures p in PendingBefore(g, s, c) && HasEdge(g, p, m)
  {
    assert WellFormed(g) && |g.taskIdToNodeIndex| == |s.status| == |s.remaining|;
    UnderWayFacts(g, s);
    NothingUnderWay(g, s);
    hide Inv, Leads, HasInnerParent, HasEdge;
    assert Unprocessed(g, s.status, m) != {};
    var e :| e in Unprocessed(g, s.status, m);
    p := e.parent;
    IncomingIsEdge(g, m, e);
    LeadsOn(g, p, m, c);
    hide WellFormed, Incoming;
    assert !s.status[p].Done?;
  }

  lemma RootsAreSeeded(g: TaskGraph, s: State, c: nat, m: nat)
    requires DryBefore(g, s, c) && HasInnerParent(g, c) && !FollowsLaterRoot(g, c) && m in PendingBefore(g, s, c)
    ensures s.remaining[m] > 0
  {
    if HasInnerParent(g, m) {
      hide Inv, Leads;
    } else {
      assert SeededUpTo(g, s, g.taskIdToNodeIndex[c]);
      assert |s.remaining| == |s.status|;
      hide Inv, Leads, HasInnerParent;
      assert Leads(g, m, c) && g.taskIdToNodeIndex[m] <= g.taskIdToNodeIndex[c];
      assert g.taskIdToNodeIndex[m] != g.taskIdToNodeIndex[c];
    }
  }

  /** By then a worker has chosen `c`. */
  lemma ChosenByThen(g: TaskGraph, s: State, c: nat)
    requires DryBefore(g, s, c) && HasInnerParent(g, c) && !FollowsLaterRoot(g, c)
    ensures c < |s.status| && !s.status[c].Pending?
  {
    assert WellFormed(g) && |g.taskIdToNodeIndex| == |s.status|;
    hide DryBefore, WellFormed, Leads, HasInnerParent, FollowsLaterRoot, HasEdge;
    if s.status[c].Pending? {
      assert InPhase(g, c, s.phase) by { OfDry(g, s, c); }
      assert c in PendingBefore(g, s, c);
      GraphIsAcyclic(g);
      var m := MinimalTask(g, PendingBefore(g, s, c));
      RootsAreSeeded(g, s, c, m);
      var p := WaitsForPending(g, s, c, m);
      assert false;
    }
  }

  lemma OfDry(g: TaskGraph, s: State, c: nat)
    requires DryBefore(g, s, c)
    ensures InPhase(g, c, s.phase) && Inv(g, s)
  {
  }

  lemma ReseedsThen(g: TaskGraph, s: State, c: nat)
    requires DryBefore(g, s, c) && HasInnerParent(g, c) && !FollowsLaterRoot(g, c)
    ensures MainFits(g, s) && GoesWrong(g, s, ByMain)
  {
    hide DryBefore, HasInnerParent, FollowsLaterRoot;
    ChosenByThen(g, s, c);
    SeedsThen(g, s, c);
    hide IndicesFit;
  }

  /** The seed loop is at `c`. */
  lemma SeedsThen(g: TaskGraph, s: State, c: nat)
    requires DryBefore(g, s, c) && c < |s.status| && !s.status[c].Pending?
    ensures MainFits(g, s) && s.main.Seeding? && s.main.node < g.phaseRanges[s.phase].count
    ensures SeedId(g, s, s.main.node) == c && s.remaining[c] == 0
  {
    InvFits(g, s);
    UnderWayFacts(g, s);
    NodeInRange(g, s, c);
    hide Inv, Settled, CountersOk, PhaseOk, WellFormed;
  }

  lemma EarlyRootsFail(g: TaskGraph, s: State, c: nat)
    requires WellFormed(g) && Init(g, s) && |s.workers| == 1
    requires IsTask(g, c) && HasInnerParent(g, c) && !FollowsLaterRoot(g, c)
    ensures Counts(g, s) && Fails(g, s)
  {
    PhaseIsBounded(g, c);
    hide Counts, Inv, WellFormed, Init, Fresh, HasInnerParent, FollowsLaterRoot, GoesWrong, MainFits;
    var f := UpToPhase(g, s, GetNode(g, c).phaseId);
    var r := DryUpTo(g, f, c);
    Onwards(g, s, f, r);
    ReseedsThen(g, r, c);
    assert Inv(g, r) by { OfDry(g, r, c); }
    FailsFrom(g, s, r);
  }

  lemma DryUpTo(g: TaskGraph, f: State, c: nat) returns (r: State)
    requires IsTask(g, c) && Fresh(g, f, GetNode(g, c).phaseId) && |f.workers| == 1
    ensures Counts(g, f) && Arrives(g, f, r) && Counts(g, r) && DryBefore(g, r, c)
  {
    hide Counts, Inv, SeedsAlone, SeedKept, Settled;
    SeedsFit(g, f);
    NodeInRange(g, f, c);
    var m := SeedUpTo(g, f, g.taskIdToNodeIndex[c] - g.phaseRanges[f.phase].begin);
    KeptPhase(f, m);
    SeedsFit(g, m);
    FreshIsSettled(g, f, m, f.phase);
    r := RunDry(g, m, 0);
    Onwards(g, f, m, r);
    assert NobodyCarries(r);
  }

  lemma SeedsFit(g: TaskGraph, s: State)
    requires SeedsAlone(g, s)
    ensures Counts(g, s) && Inv(g, s)
  {
  }

  // ---- exactly the safe graphs ----

  /** For every well-formed graph and every number of workers: all runs keep the promise, whatever the
      interleaving, if and only if the graph is safe.  With several workers that is to say that no
      edge lies inside a phase; with one, that every task that depends on a task of its own phase
      also follows one that depends on none and comes later in node order. */
  lemma ExactlyTheSafeGraphs(g: TaskGraph, s: State)
    requires WellFormed(g) && Init(g, s) && |s.workers| > 0
    ensures Counts(g, s)
    ensures SafeGraph(g, |s.workers|) <==> AllRunsKeepPromise(g, s)
  {
    InitCounts(g, s);
    hide Counts, WellFormed, Init, SafeGraph, PhasesAsked, KeepsPromise;
    if SafeGraph(g, |s.workers|) {
      forall moves {:trigger PhasesAsked(g, s, moves)} | PhasesAsked(g, s, moves) ensures KeepsPromise(g, s, moves) {
        SafeGraphTicks(g, s, moves);
      }
    } else {
      UnsafeGraphFails(g, s);
    }
  }

  lemma UnsafeGraphFails(g: TaskGraph, s: State)
    requires WellFormed(g) && Init(g, s) && |s.workers| > 0 && !SafeGraph(g, |s.workers|)
    ensures Counts(g, s) && Fails(g, s)
  {
    hide WellFormed, Init, FollowsLaterRoot, HasInnerParent, NoInnerEdges, Fails, Counts;
    if |s.workers| == 1 {
      var c: nat :| IsTask(g, c) && HasInnerParent(g, c) && !FollowsLaterRoot(g, c);
      EarlyRootsFail(g, s, c);
    } else {
      var e := InnerEdge(g);
      InnerEdgeFails(g, s, e);
    }
  }

  lemma InnerEdge(g: TaskGraph) returns (e: Edge)
    requires WellFormed(g) && !NoInnerEdges(g)
    ensures e in AllEdges(g) && IsEdge(g, e) && IsTask(g, ChildOf(g, e))
    ensures GetNode(g, e.parent).phaseId == GetNode(g, ChildOf(g, e)).phaseId
  {
    e :| e in AllEdges(g) && !(IsEdge(g, e) && IsTask(g, ChildOf(g, e))
      && GetNode(g, e.parent).phaseId < GetNode(g, ChildOf(g, e)).phaseId);
    hide AllEdges;
  }
}
