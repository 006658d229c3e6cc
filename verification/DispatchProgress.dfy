/** Progress of a phase in which nothing has gone wrong: something can move as long as the phase has
    not ended, and every move uses up some of the work left. */
module DispatchProgress {
  import opened Tasks
  import opened Dispatch
  import opened DispatchCounts
  import opened DispatchSteps
  import opened DispatchRuns
  import opened DispatchGraphs

  function TaskWeight(g: TaskGraph, id: nat, st: Status): nat {
    var children := if IsTask(g, id) then GetNode(g, id).childCount else 0;
    match st
    case Taken(_) => 3 * children + 6
    case Running(_, r) => (if r <= children then 3 * (children - r) else 0) + 4
    case Done => 0
    case _ => 3 * children + 7
  }

  function WorkerWeight(pc: WorkerPc): nat {
    match pc
    case LoadPhase(_) => 1
    case Enqueuing(_, _, _, _) => 2
    case Counting(_, _, _) => 1
    case EpochAdd => 2
    case Notify => 1
    case _ => 0
  }

  function TaskSum(g: TaskGraph, status: seq<Status>, n: nat): nat
    requires n <= |status|
  {
    if n == 0 then 0 else TaskSum(g, status, n - 1) + TaskWeight(g, n - 1, status[n - 1])
  }

  function WorkerSum(workers: seq<WorkerPc>, n: nat): nat
    requires n <= |workers|
  {
    if n == 0 then 0 else WorkerSum(workers, n - 1) + WorkerWeight(workers[n - 1])
  }

  /** The work left: what is to be done for unfinished tasks and by workers on their way back. */
  function Measure(g: TaskGraph, s: State): nat {
    TaskSum(g, s.status, |s.status|) + WorkerSum(s.workers, |s.workers|)
  }

  lemma {:induction false} TaskSumUpdate(g: TaskGraph, status: seq<Status>, id: nat, st: Status, n: nat)
    requires id < |status| && n <= |status|
    ensures TaskSum(g, status[id := st], n) ==
            TaskSum(g, status, n) + if id < n then TaskWeight(g, id, st) - TaskWeight(g, id, status[id]) else 0
  {
    if n != 0 {
      TaskSumUpdate(g, status, id, st, n - 1);
    }
  }

  lemma {:induction false} WorkerSumUpdate(workers: seq<WorkerPc>, w: nat, pc: WorkerPc, n: nat)
    requires w < |workers| && n <= |workers|
    ensures WorkerSum(workers[w := pc], n) ==
            WorkerSum(workers, n) + if w < n then WorkerWeight(pc) - WorkerWeight(workers[w]) else 0
  {
    if n != 0 {
      WorkerSumUpdate(workers, w, pc, n - 1);
    }
  }

  /** How one worker's step changes the measure, when it changes the life of `id` and, if `c` is
      another task, of `c`. */
  lemma MeasureChange(g: TaskGraph, s: State, s': State, w: nat, id: nat, c: nat)
    requires w < |s.workers| && id < |s.status| && c < |s.status| && |s'.status| == |s.status|
    requires |s'.workers| == |s.workers| && s'.workers == s.workers[w := s'.workers[w]]
    requires s'.status == s.status[c := s'.status[c]][id := s'.status[id]]
    ensures Measure(g, s') == Measure(g, s)
              + TaskWeight(g, id, s'.status[id]) - TaskWeight(g, id, s.status[id])
              + (if c == id then 0 else TaskWeight(g, c, s'.status[c]) - TaskWeight(g, c, s.status[c]))
              + WorkerWeight(s'.workers[w]) - WorkerWeight(s.workers[w])
  {
    hide TaskSum, WorkerSum, TaskWeight, WorkerWeight;
    var m := s.status[c := s'.status[c]];
    TaskSumUpdate(g, s.status, c, s'.status[c], |s.status|);
    TaskSumUpdate(g, m, id, s'.status[id], |s.status|);
    WorkerSumUpdate(s.workers, w, s'.workers[w], |s.workers|);
  }

  lemma ReleaseDecreases(g: TaskGraph, s: State, w: nat)
    requires Inv(g, s) && WorkerCanStep(g, s, w) && s.workers[w].Releasing?
    requires s.workers[w].next < GetNode(g, s.workers[w].id).childCount
    ensures Measure(g, WorkerNext(g, s, w)) < Measure(g, s)
  {
    hide Inv, Measure, WellFormed, AllEdges, IndicesFit, Incoming, Unprocessed;
    var e, child := ReleaseFacts(g, s, w);
    ReleaseIs(g, s, w, e, child);
    hide WorkerNext;
    var s' := WorkerNext(g, s, w);
    assert s'.status == s.status[child := s'.status[child]][e.parent := s'.status[e.parent]];
    MeasureChange(g, s, s', w, e.parent, child);
  }

  lemma TaskStepDecreases(g: TaskGraph, s: State, w: nat, id: nat)
    requires WorkerCanStep(g, s, w) && WorkerOk(g, s, w) && id < |s.status|
    requires match s.workers[w]
      case Looking => s.queue != [] && id == s.queue[0] && s.status[id] == Queued
      case Executing(i) => id == i
      case Releasing(i, _, next) => id == i && next == GetNode(g, i).childCount
      case Enqueuing(_, _, _, child) => id == child && |s.queue| < MAX_NODES
      case _ => false
    ensures Measure(g, WorkerNext(g, s, w)) < Measure(g, s)
  {
    hide Measure, IndicesFit;
    var s' := WorkerNext(g, s, w);
    assert s'.status == s.status[id := s'.status[id]][id := s'.status[id]];
    MeasureChange(g, s, s', w, id, id);
  }

  lemma QuietStepDecreases(g: TaskGraph, s: State, w: nat)
    requires WorkerCanStep(g, s, w)
    requires s.workers[w].LoadPhase? || s.workers[w].Counting? || s.workers[w].EpochAdd? || s.workers[w].Notify?
    ensures Measure(g, WorkerNext(g, s, w)) < Measure(g, s)
  {
    hide Measure, IndicesFit;
    var s' := WorkerNext(g, s, w);
    MeasureChange(g, s, s', w, 0, 0);
  }

  /** Every step of a worker that is not looking into an empty queue uses up some of the work left. */
  lemma WorkerMoveDecreases(g: TaskGraph, s: State, w: nat)
    requires Inv(g, s) && w < |s.workers|
    ensures WorkerCanStep(g, s, w)
    ensures if s.workers[w].Looking? && s.queue == [] then WorkerNext(g, s, w) == s
            else Measure(g, WorkerNext(g, s, w)) < Measure(g, s)
  {
    WorkerOfInv(g, s, w);
    QueueOfInv(g, s);
    assert |g.taskIdToNodeIndex| == MAX_NODES == |s.status| by { InvFits(g, s); }
    hide Inv, Measure, IndicesFit, WellFormed;
    match s.workers[w]
    case Looking => if s.queue != [] { TaskStepDecreases(g, s, w, s.queue[0]); }
    case Executing(id) => TaskStepDecreases(g, s, w, id);
    case Releasing(id, _, next) =>
      if next < GetNode(g, id).childCount { ReleaseDecreases(g, s, w); } else { TaskStepDecreases(g, s, w, id); }
    case Enqueuing(_, _, _, child) =>
      RoomFor(g, s, child);
      TaskStepDecreases(g, s, w, child);
    case _ => QuietStepDecreases(g, s, w);
  }

  /** While something is queued or in hand, or a signal is owed, some worker can move; in particular
      whenever the main thread is asleep. */
  lemma SomeWorkerMoves(g: TaskGraph, s: State) returns (w: nat)
    requires Inv(g, s) && |s.workers| > 0
    requires s.queue != [] || !NobodyCarries(s) || SomeWorkerAt(s, EpochAdd) || SomeWorkerAt(s, Notify)
    ensures w < |s.workers| && !(s.workers[w].Looking? && s.queue == [])
  {
    if v :| 0 <= v < |s.workers| && !s.workers[v].Looking? {
      w := v;
    } else {
      w := 0;
    }
  }

  lemma WorkWhenAsleep(g: TaskGraph, s: State)
    requires Counts(g, s) && Inv(g, s) && (s.main.Asleep? || (InWait(s.main) && s.active != 0))
    ensures s.queue != [] || !NobodyCarries(s) || SomeWorkerAt(s, EpochAdd) || SomeWorkerAt(s, Notify)
  {
    if s.main.Asleep? { NoLostWakeup(g, s); }
    ZeroMeans(g, s);
    hide Fits, Inv;
  }

  // ---- the main thread ----

  function SeedRank(g: TaskGraph, phase: nat, i: nat): nat {
    if phase < |g.phaseRanges| && i <= g.phaseRanges[phase].count then 5 + 3 * (g.phaseRanges[phase].count - i) else 0
  }

  /** How far the main thread is from its next rest, if the epoch does not move. */
  function MainRank(g: TaskGraph, s: State): nat {
    match s.main
    case Outside(_) => 0
    case Building(n) => SeedRank(g, s.phase, 0) + 1 + if n <= |g.nodes| then |g.nodes| - n else 0
    case Seeding(i) => SeedRank(g, s.phase, i)
    case SeedEnqueuing(i) => SeedRank(g, s.phase, i + 1) + 2
    case SeedCounting(i) => SeedRank(g, s.phase, i + 1) + 1
    case WaitLoad => 4
    case WaitEpoch => 3
    case WaitRecheck(e) => if e == s.epoch then 2 else 6
    case WaitCompare(e) => if e == s.epoch then 1 else 5
    case Asleep(_) => 0
  }

  /** A worker's move can set the main thread back, by less than what it uses up. */
  function Rank(g: TaskGraph, s: State): nat {
    6 * Measure(g, s) + MainRank(g, s)
  }

  lemma MainKeepsMeasure(g: TaskGraph, s: State)
    requires Inv(g, s) && MainFits(g, s) && !Reseeds(g, s)
    ensures Measure(g, MainNext(g, s)) == Measure(g, s)
  {
    if s.main.Seeding? || s.main.SeedEnqueuing? {
      SeedMarks(g, s);
      hide Inv, MainNext, MainFits, Measure, Reseeds;
      var s' := MainNext(g, s);
      if s'.status == s.status { SameMeasure(g, s, s'); }
        else { MarkKeepsMeasure(g, s, s', SeedId(g, s, s.main.node)); }
    } else {
      hide Inv, IndicesFit, Measure, Reseeds;
      SameMeasure(g, s, MainNext(g, s));
    }
  }

  lemma SameMeasure(g: TaskGraph, s: State, s': State)
    requires s'.status == s.status && s'.workers == s.workers
    ensures Measure(g, s') == Measure(g, s)
  {
  }

  lemma MarkKeepsMeasure(g: TaskGraph, s: State, s': State, id: nat)
    requires id < |s.status| && |s'.status| == |s.status| && s'.status == s.status[id := s'.status[id]]
      && s'.workers == s.workers
    requires (s.status[id].Pending? && s'.status[id].Picked?) || (s.status[id].Picked? && s'.status[id].Queued?)
    ensures Measure(g, s') == Measure(g, s)
  {
    TaskSumUpdate(g, s.status, id, s'.status[id], |s.status|);
    hide TaskSum, WorkerSum;
  }

  /** What the seed loop does to the life of the task that it is at. */
  lemma SeedMarks(g: TaskGraph, s: State)
    requires Inv(g, s) && MainFits(g, s) && !Reseeds(g, s) && (s.main.Seeding? || s.main.SeedEnqueuing?)
    ensures var s' := MainNext(g, s);
      && s'.workers == s.workers && |s'.status| == |s.status|
      && (s'.status != s.status ==>
            IndicesFit(g) && s.phase < PHASES && s.main.node < g.phaseRanges[s.phase].count &&
            var id := SeedId(g, s, s.main.node);
            id < |s.status| && s'.status == s.status[id := s'.status[id]] &&
            ((s.status[id].Pending? && s'.status[id].Picked?) || (s.status[id].Picked? && s'.status[id].Queued?)))
  {
    if s.main.SeedEnqueuing? {
      assert s.status[SeedId(g, s, s.main.node)] == Picked by { assert MainOk(g, s); }
    }
    hide Inv, IndicesFit;
  }

  lemma MainRankDecreases(g: TaskGraph, s: State)
    requires MainFits(g, s) && MainNext(g, s) != s
    ensures MainRank(g, MainNext(g, s)) < MainRank(g, s)
  {
    assert s.phase < |g.phaseRanges|;
    hide IndicesFit;
  }

  lemma WorkerSetsBackLittle(g: TaskGraph, s: State, w: nat)
    requires WorkerCanStep(g, s, w)
    ensures MainRank(g, WorkerNext(g, s, w)) <= MainRank(g, s) + 5
  {
    WorkerFrame(g, s, w);
    hide WorkerNext, IndicesFit, SeedRank;
  }

  // ---- whole runs ----

  /** A move inside a phase, by which something changes. */
  ghost predicate Effective(g: TaskGraph, s: State, m: Move)
    requires Counts(g, s)
  {
    !m.Begin? && Apply(g, s, m) != s
  }

  lemma EffectiveDecreases(g: TaskGraph, s: State, m: Move)
    requires Counts(g, s) && Inv(g, s) && Effective(g, s, m) && !GoesWrong(g, s, m)
    ensures Rank(g, Apply(g, s, m)) < Rank(g, s)
  {
    assert MainFits(g, s);
    hide Counts, Inv, Measure, MainRank, Reseeds;
    if m.ByMain? {
      MainKeepsMeasure(g, s);
      MainRankDecreases(g, s);
    } else {
      WorkerMoveDecreases(g, s, m.w);
      WorkerSetsBackLittle(g, s, m.w);
    }
  }

  ghost predicate AllEffective(g: TaskGraph, s: State, moves: seq<Move>)
    requires Counts(g, s)
    decreases |moves|
  {
    moves == [] || (Effective(g, s, moves[0]) && AllEffective(g, Apply(g, s, moves[0]), moves[1..]))
  }

  /** The phase that the main thread is in, or the last one that it has executed. */
  ghost predicate SamePhaseAs(s: State, phase: nat) {
    s.phase == phase && (s.main.Outside? ==> s.main.next == phase + 1)
  }

  lemma InsideOnePhase(g: TaskGraph, s: State, m: Move, phase: nat)
    requires Counts(g, s) && !m.Begin? && SamePhaseAs(s, phase)
    ensures SamePhaseAs(Apply(g, s, m), phase)
  {
    if m.ByWorker? && m.w < |s.workers| {
      WorkerNextFits(g, s, m.w);
      WorkerFrame(g, s, m.w);
    }
    hide Fits, WakeOk, IndicesFit, WorkerNext;
  }

  lemma {:induction false} EffectiveRunsEnd(g: TaskGraph, s: State, moves: seq<Move>, phase: nat)
    requires Counts(g, s) && Inv(g, s) && AllEffective(g, s, moves) && Sound(g, s, moves)
    ensures Inv(g, Exec(g, s, moves)) && |moves| + Rank(g, Exec(g, s, moves)) <= Rank(g, s)
    ensures SamePhaseAs(s, phase) ==> SamePhaseAs(Exec(g, s, moves), phase)
    decreases |moves|
  {
    hide Counts, Inv, Rank, GoesWrong;
    if moves != [] {
      EffectiveDecreases(g, s, moves[0]);
      SoundMoveKeepsInv(g, s, moves[0]);
      if SamePhaseAs(s, phase) { InsideOnePhase(g, s, moves[0], phase); }
      hide SamePhaseAs;
      EffectiveRunsEnd(g, Apply(g, s, moves[0]), moves[1..], phase);
    }
  }

  /** The main thread is outside and every worker looks for work. */
  ghost predicate Idle(s: State) {
    s.main.Outside? && forall w {:trigger s.workers[w]} :: 0 <= w < |s.workers| ==> s.workers[w].Looking?
  }

  ghost predicate SomeMove(g: TaskGraph, s: State)
    requires Counts(g, s)
  {
    exists m {:trigger Effective(g, s, m)} :: Effective(g, s, m)
  }

  /** Something can move exactly while not everybody is idle. */
  lemma SomethingMoves(g: TaskGraph, s: State)
    requires Counts(g, s) && Inv(g, s) && |s.workers| > 0
    ensures SomeMove(g, s) <==> !Idle(s)
  {
    hide Counts, Inv, Effective, MainFits;
    if Idle(s) {
      NothingMoves(g, s);
    } else if s.main.Outside? {
      var w: nat :| w < |s.workers| && !s.workers[w].Looking?;
      WorkerMoves(g, s, w);
    } else if s.main.Asleep? {
      WorkWhenAsleep(g, s);
      var w := SomeWorkerMoves(g, s);
      WorkerMoves(g, s, w);
    } else {
      assert Effective(g, s, ByMain) by { MainMoves(g, s); }
    }
  }

  lemma NothingMoves(g: TaskGraph, s: State)
    requires Counts(g, s) && Inv(g, s) && Idle(s)
    ensures !SomeMove(g, s)
  {
    OutsideIsIdle(g, s);
    hide Counts, Inv;
    forall m ensures !Effective(g, s, m) { }
  }

  lemma WorkerMoves(g: TaskGraph, s: State, w: nat)
    requires Counts(g, s) && Inv(g, s) && w < |s.workers| && !(s.workers[w].Looking? && s.queue == [])
    ensures Effective(g, s, ByWorker(w))
  {
    hide Counts, Inv;
    WorkerMoveDecreases(g, s, w);
  }

  lemma MainMoves(g: TaskGraph, s: State)
    requires Counts(g, s) && Inv(g, s) && !s.main.Outside? && !s.main.Asleep?
    ensures Effective(g, s, ByMain)
  {
    assert MainFits(g, s);
    hide Counts, Inv;
    MainGoesOn(g, s);
  }

  lemma MainGoesOn(g: TaskGraph, s: State)
    requires Inv(g, s) && MainFits(g, s) && !s.main.Outside? && !s.main.Asleep?
    ensures MainNext(g, s) != s
  {
    if s.main.SeedEnqueuing? { SeedFindsRoom(g, s); }
    hide Inv, IndicesFit;
  }

  lemma SeedFindsRoom(g: TaskGraph, s: State)
    requires Inv(g, s) && s.main.SeedEnqueuing?
    ensures |s.queue| < MAX_NODES
  {
    assert exists id :: PickedIs(s, id) by { assert MainOk(g, s); }
    hide Inv;
    var id :| PickedIs(s, id);
    RoomFor(g, s, id);
  }

  /** From `r` on, with moves all effective: there are boundedly many, another one is possible exactly until
      everybody is idle, and then the phase that was under way has been executed: the ExecuteTask calls
      of the tick are exactly the tasks up to it. */
  ghost predicate Ends(g: TaskGraph, r: State, moves: seq<Move>)
    requires Counts(g, r)
  {
    var q := Exec(g, r, moves);
    && |moves| <= Rank(g, r)
    && (SomeMove(g, q) <==> !Idle(q))
    && (Idle(q) && !r.main.Outside? ==> q.main == Outside(r.phase + 1) && RunsExactly(g, q.log, r.phase + 1))
  }

  lemma EndsFrom(g: TaskGraph, r: State, moves: seq<Move>)
    requires Counts(g, r) && Inv(g, r) && |r.workers| > 0 && AllEffective(g, r, moves) && Sound(g, r, moves)
    ensures Ends(g, r, moves)
  {
    hide Counts, Inv, Rank, RunsExactly, SomeMove, AllEffective, Sound, Exec;
    EffectiveRunsEnd(g, r, moves, r.phase);
    var q := Exec(g, r, moves);
    SomethingMoves(g, q);
    if q.main.Outside? && q.main.next > 0 { TickSoFar(g, q); }
  }

  /** Every phase ends, from any state of a run in which nothing has gone wrong, as long as nothing goes
      wrong, whatever the interleaving. */
  lemma EveryPhaseEnds(g: TaskGraph, s: State, before: seq<Move>, moves: seq<Move>)
    requires WellFormed(g) && Init(g, s) && |s.workers| > 0
    ensures Counts(g, s)
    ensures PhasesAsked(g, s, before) && Sound(g, s, before) ==>
      var r := Exec(g, s, before); AllEffective(g, r, moves) && Sound(g, r, moves) ==> Ends(g, r, moves)
  {
    InitCounts(g, s);
    InitInv(g, s);
    hide Counts, Inv, WellFormed, Init, Ends, PhasesAsked, Sound, AllEffective, Exec;
    if PhasesAsked(g, s, before) && Sound(g, s, before) {
      var r := Exec(g, s, before);
      SoundRunKeepsInv(g, s, before);
      if AllEffective(g, r, moves) && Sound(g, r, moves) { EndsFrom(g, r, moves); }
    }
  }

  lemma {:induction false} EffectiveInOrder(g: TaskGraph, s: State, moves: seq<Move>)
    requires Counts(g, s) && AllEffective(g, s, moves)
    ensures PhasesAsked(g, s, moves)
    decreases |moves|
  {
    hide Counts;
    if moves != [] {
      EffectiveInOrder(g, Apply(g, s, moves[0]), moves[1..]);
    }
  }

  /** On a safe graph nothing goes wrong, and so every phase ends, whatever the interleaving. */
  lemma EveryPhaseOfASafeGraphEnds(g: TaskGraph, s: State, before: seq<Move>, moves: seq<Move>)
    requires WellFormed(g) && Init(g, s) && |s.workers| > 0 && SafeGraph(g, |s.workers|)
    ensures Counts(g, s)
    ensures PhasesAsked(g, s, before) ==>
      var r := Exec(g, s, before); AllEffective(g, r, moves) ==> Ends(g, r, moves)
  {
    InitCounts(g, s);
    InitInv(g, s);
    InitIsSafe(g, s);
    hide Counts, Inv, WellFormed, Init, Ends, PhasesAsked, Sound, AllEffective, Exec, SafeGraph, SafeSoFar;
    if PhasesAsked(g, s, before) {
      var r := Exec(g, s, before);
      SafeRun(g, s, before);
      if AllEffective(g, r, moves) {
        EffectiveInOrder(g, r, moves);
        SafeRun(g, r, moves);
        EndsFrom(g, r, moves);
      }
    }
  }
}
