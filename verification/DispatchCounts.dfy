/** What the scheduler's 32-bit active counter counts, and that no wakeup is lost.  This holds for
    every run, whatever the order in which phases are asked for and however the enqueues, the
    increments and the completions interleave; of the graph only its indices are used. */
module DispatchCounts {
  import opened Tasks
  import opened Words
  import opened Dispatch

  ghost predicate Fits(g: TaskGraph, s: State) {
    && MainFits(g, s)
    && s.active < WORD32
    && |s.queue| <= MAX_NODES && |s.workers| <= MAX_WORKERS
    && (forall i {:trigger s.queue[i]} :: 0 <= i < |s.queue| ==> IsTask(g, s.queue[i]))
    && (forall w {:trigger s.workers[w]} :: 0 <= w < |s.workers| ==> WorkerFits(g, s.workers[w]))
  }

  // ---- counting workers ----

  /** An instance counts once, less the increment its worker still owes. */
  function Owing(pc: WorkerPc): int {
    (if Carries(pc) then 1 else 0) - (if pc.Counting? then 1 else 0)
  }

  function Balance(workers: seq<WorkerPc>): (b: int)
    ensures 0 <= b <= |workers|
  {
    if workers == [] then 0 else Balance(workers[..|workers| - 1]) + Owing(workers[|workers| - 1])
  }

  lemma {:induction false} BalanceUpdate(workers: seq<WorkerPc>, w: nat, pc: WorkerPc)
    requires w < |workers|
    ensures Balance(workers[w := pc]) == Balance(workers) + Owing(pc) - Owing(workers[w])
    decreases |workers|
  {
    var n := |workers| - 1;
    if w == n {
      assert workers[w := pc][..n] == workers[..n];
    } else {
      assert workers[w := pc][..n] == workers[..n][w := pc];
      BalanceUpdate(workers[..n], w, pc);
    }
  }

  /** Queued instances, plus those in workers' hands, less the increments still owed. */
  function Owed(s: State): int {
    |s.queue| + Balance(s.workers) - (if s.main.SeedCounting? then 1 else 0)
  }

  ghost predicate SomeWorkerAt(s: State, pc: WorkerPc) {
    exists w :: 0 <= w < |s.workers| && s.workers[w] == pc
  }

  /** What guarantees that a main thread about to sleep, or asleep, moves on. */
  ghost predicate WakeOk(s: State) {
    && (s.main.WaitCompare? || s.main.Asleep? ==> s.active != 0 || SomeWorkerAt(s, EpochAdd) || s.epoch != s.main.seen)
    && (s.main.Asleep? && s.epoch != s.main.seen ==> SomeWorkerAt(s, Notify))
    && ((s.main.WaitRecheck? || s.main.WaitCompare? || s.main.Asleep?) ==> s.main.seen <= s.epoch)
  }

  ghost predicate Counts(g: TaskGraph, s: State) {
    && Fits(g, s)
    && s.active == Owed(s) % WORD32
    && WakeOk(s)
  }

  /** Conservation at every reachable state: the active counter is the number of queued instances
      and instances in hand, less the increments still owed, modulo 2^32; outside the seed loop's
      own window, and in particular once seeding is over, it is that number itself. */
  lemma CounterConservation(g: TaskGraph, s: State)
    requires Counts(g, s)
    ensures s.active == Owed(s) % WORD32
    ensures !s.main.SeedCounting? ==> s.active == Owed(s)
    ensures s.main.SeedCounting? ==> s.active == if Owed(s) < 0 then WORD32 - 1 else Owed(s)
  {
  }

  /** No lost wakeup: while the main thread is blocked on the epoch, the active
      counter is not zero, or a worker stands between the decrement that brought it to zero and its
      notification. */
  lemma NoLostWakeup(g: TaskGraph, s: State)
    requires Counts(g, s) && s.main.Asleep?
    ensures s.active != 0 || SomeWorkerAt(s, EpochAdd) || SomeWorkerAt(s, Notify)
  {
  }

  lemma {:induction false} BalanceIsZero(workers: seq<WorkerPc>)
    ensures Balance(workers) == 0 <==> forall w :: 0 <= w < |workers| ==> Owing(workers[w]) == 0
    decreases |workers|
  {
    if workers != [] {
      BalanceIsZero(workers[..|workers| - 1]);
      assert forall w :: 0 <= w < |workers| - 1 ==> workers[..|workers| - 1][w] == workers[w];
    }
  }

  /** What a zero really means: once seeding is over, the active counter is zero
      exactly when nothing is queued and every task in a worker's hands stands between the enqueue
      of a child and its increment.  So the barrier is complete exactly when no worker does. */
  lemma ZeroMeans(g: TaskGraph, s: State)
    requires Counts(g, s) && !s.main.SeedCounting?
    ensures s.active == 0 <==>
      s.queue == [] && forall w :: 0 <= w < |s.workers| && Carries(s.workers[w]) ==> s.workers[w].Counting?
    ensures s.active == 0 && (forall w :: 0 <= w < |s.workers| ==> !s.workers[w].Counting?) ==> NobodyCarries(s)
  {
    CounterConservation(g, s);
    BalanceIsZero(s.workers);
    hide Fits;
  }

  // ---- every step keeps the invariant ----

  lemma WorkersElsewhere(s: State, s': State, w: nat)
    requires w < |s.workers| == |s'.workers| && s'.workers == s.workers[w := s'.workers[w]]
    ensures forall pc :: SomeWorkerAt(s, pc) && pc != s.workers[w] ==> SomeWorkerAt(s', pc)
    ensures SomeWorkerAt(s', s'.workers[w])
  {
    forall pc | SomeWorkerAt(s, pc) && pc != s.workers[w] ensures SomeWorkerAt(s', pc) {
      var u :| 0 <= u < |s.workers| && s.workers[u] == pc;
      assert s'.workers[u] == pc;
    }
  }

  /** What a worker's step changes outside the histories. */
  lemma WorkerFrame(g: TaskGraph, s: State, w: nat)
    requires WorkerCanStep(g, s, w)
    ensures var s' := WorkerNext(g, s, w); var pc := s.workers[w];
      && s'.phase == s.phase && |s'.remaining| == |s.remaining| && |s'.status| == |s.status|
        && |s'.workers| == |s.workers|
      && s'.workers == s.workers[w := s'.workers[w]]
      && s'.epoch == (if pc.EpochAdd? then s.epoch + 1 else s.epoch)
      && s'.main == (if pc.Notify? && s.main.Asleep? then WaitCompare(s.main.seen) else s.main)
      && s'.active == (if pc.Counting? then Increment(s.active)
                       else if Finishes(g, pc) then Decrement(s.active) else s.active)
      && (pc.EpochAdd? ==> s'.workers[w] == Notify)
      && (Finishes(g, pc) && s.active == 1 ==> s'.workers[w] == EpochAdd)
      && |s'.queue| == |s.queue| + (if pc.Looking? && s.queue != [] then -1
        else if pc.Enqueuing? && |s.queue| < MAX_NODES then 1 else 0)
  {
    assert |g.taskIdToNodeIndex| == MAX_NODES;
    hide IndicesFit;
    if s.workers[w].Releasing? && !Finishes(g, s.workers[w]) {
      ChildFits(g, s.workers[w].id, s.workers[w].next);
    }
    assert s.workers[w := s.workers[w]] == s.workers;
    assert WorkerNext(g, s, w) == s || WorkerNext(g, s, w).workers == s.workers[w := WorkerNext(g, s, w).workers[w]];
  }

  /** The worker is about to take its task off the active counter. */
  predicate Finishes(g: TaskGraph, pc: WorkerPc)
    requires WorkerFits(g, pc)
  {
    pc.Releasing? && pc.next == GetNode(g, pc.id).childCount
  }

  lemma ReleaseFits(g: TaskGraph, s: State, w: nat)
    requires WorkerCanStep(g, s, w) && s.workers[w].Releasing? && !Finishes(g, s.workers[w])
    ensures WorkerFits(g, WorkerNext(g, s, w).workers[w]) && WorkerNext(g, s, w).queue == s.queue
  {
    ChildFits(g, s.workers[w].id, s.workers[w].next);
    hide IndicesFit;
  }

  lemma HandFits(g: TaskGraph, s: State, w: nat)
    requires WorkerCanStep(g, s, w) && |s.queue| <= MAX_NODES
    requires forall i {:trigger s.queue[i]} :: 0 <= i < |s.queue| ==> IsTask(g, s.queue[i])
    ensures var s' := WorkerNext(g, s, w);
      WorkerFits(g, s'.workers[w]) && |s'.queue| <= MAX_NODES
        && forall i {:trigger s'.queue[i]} :: 0 <= i < |s'.queue| ==> IsTask(g, s'.queue[i])
  {
    assert |g.taskIdToNodeIndex| == MAX_NODES;
    hide IndicesFit;
    if s.workers[w].Releasing? && !Finishes(g, s.workers[w]) {
      ReleaseFits(g, s, w);
      hide WorkerNext;
    }
  }

  lemma WorkerNextFits(g: TaskGraph, s: State, w: nat)
    requires Fits(g, s) && w < |s.workers|
    ensures WorkerCanStep(g, s, w) && Fits(g, WorkerNext(g, s, w))
  {
    WorkerFrame(g, s, w);
    HandFits(g, s, w);
    hide IndicesFit, WorkerNext, WorkerFits;
  }

  lemma OwingChange(g: TaskGraph, s: State, w: nat)
    requires WorkerCanStep(g, s, w)
    ensures var pc, pc' := s.workers[w], WorkerNext(g, s, w).workers[w];
      Owing(pc') - Owing(pc) ==
        if pc.Looking? && s.queue != [] then 1
        else if pc.Enqueuing? && |s.queue| < MAX_NODES then -1
        else if pc.Counting? then 1
        else if Finishes(g, pc) then -1 else 0
  {
    hide IndicesFit;
  }

  lemma WorkerNextBalance(g: TaskGraph, s: State, w: nat)
    requires WorkerCanStep(g, s, w) && w < |s.workers|
    ensures var s' := WorkerNext(g, s, w);
      Owed(s') - Owed(s) == if s.workers[w].Counting? then 1 else if Finishes(g, s.workers[w]) then -1 else 0
  {
    hide WorkerCanStep, WorkerNext, Balance, Owing, WorkerFits;
    WorkerFrame(g, s, w);
    OwingChange(g, s, w);
    BalanceUpdate(s.workers, w, WorkerNext(g, s, w).workers[w]);
  }

  lemma WorkerNextCounts(g: TaskGraph, s: State, w: nat)
    requires Counts(g, s) && WorkerCanStep(g, s, w) && w < |s.workers|
    ensures WorkerNext(g, s, w).active == Owed(WorkerNext(g, s, w)) % WORD32
  {
    hide WorkerNext, WakeOk, Owed, Fits, WorkerCanStep, WorkerFits;
    WorkerFrame(g, s, w);
    WorkerNextBalance(g, s, w);
    CounterConservation(g, s);
  }

  lemma WorkerNextWakes(g: TaskGraph, s: State, w: nat)
    requires Counts(g, s) && WorkerCanStep(g, s, w) && w < |s.workers|
    ensures WakeOk(WorkerNext(g, s, w))
  {
    OwedIsSmall(g, s);
    hide WorkerNext, Owed, Fits, WorkerCanStep, WorkerFits, SomeWorkerAt;
    WorkerFrame(g, s, w);
    CounterConservation(g, s);
    WorkersElsewhere(s, WorkerNext(g, s, w), w);
  }

  lemma OwedIsSmall(g: TaskGraph, s: State)
    requires Fits(g, s)
    ensures Owed(s) < WORD32 - 1
  {
  }

  lemma WorkerNextKeepsCounts(g: TaskGraph, s: State, w: nat)
    requires Counts(g, s) && w < |s.workers|
    ensures WorkerCanStep(g, s, w) && Counts(g, WorkerNext(g, s, w)) && |WorkerNext(g, s, w).workers| == |s.workers|
  {
    hide WakeOk, WorkerNext, WorkerCanStep;
    WorkerNextFits(g, s, w);
    WorkerNextCounts(g, s, w);
    WorkerNextWakes(g, s, w);
    WorkerFrame(g, s, w);
  }

  lemma MainNextFits(g: TaskGraph, s: State)
    requires Fits(g, s)
    ensures Fits(g, MainNext(g, s))
  {
    hide WorkerFits;
  }

  lemma MainNextKeepsCounts(g: TaskGraph, s: State)
    requires Counts(g, s)
    ensures Counts(g, MainNext(g, s))
  {
    CounterConservation(g, s);
    MainNextFits(g, s);
    hide Balance, IndicesFit, WorkerFits;
  }

  lemma BeginPhaseKeepsCounts(g: TaskGraph, s: State, k: nat)
    requires Counts(g, s) && s.main.Outside? && k < PHASES
    ensures Counts(g, BeginPhase(s, k))
  {
  }

  // ---- whole runs ----

  ghost function Apply(g: TaskGraph, s: State, m: Move): (r: State)
    requires Counts(g, s)
    ensures Counts(g, r) && |r.workers| == |s.workers|
  {
    match m
    case Begin(k) => if s.main.Outside? && k < PHASES then BeginPhaseKeepsCounts(g, s, k); BeginPhase(s, k) else s
    case ByMain => MainNextKeepsCounts(g, s); MainNext(g, s)
    case ByWorker(w) => if w < |s.workers| then WorkerNextKeepsCounts(g, s, w); WorkerNext(g, s, w) else s
  }

  ghost function Exec(g: TaskGraph, s: State, moves: seq<Move>): (r: State)
    requires Counts(g, s)
    ensures Counts(g, r) && |r.workers| == |s.workers|
    decreases |moves|
  {
    if moves == [] then s else Exec(g, Apply(g, s, moves[0]), moves[1..])
  }

  lemma {:induction false} AllLookingBalance(workers: seq<WorkerPc>)
    requires forall w :: 0 <= w < |workers| ==> workers[w] == Looking
    ensures Balance(workers) == 0
    decreases |workers|
  {
    if workers != [] {
      AllLookingBalance(workers[..|workers| - 1]);
    }
  }

  /** Over every run, whatever the graph, the interleaving and the phases asked for: the counter is
      conserved and no wakeup is lost. */
  lemma EveryRunConservesAndWakes(g: TaskGraph, s: State, moves: seq<Move>)
    requires Init(g, s)
    ensures Counts(g, s)
    ensures var r := Exec(g, s, moves);
      && r.active == Owed(r) % WORD32
      && (!r.main.SeedCounting? ==> r.active == Owed(r))
      && (r.main.Asleep? ==> r.active != 0 || SomeWorkerAt(r, EpochAdd) || SomeWorkerAt(r, Notify))
  {
    AllLookingBalance(s.workers);
    var r := Exec(g, s, moves);
    CounterConservation(g, r);
  }

  lemma {:induction false} ExecSnoc(g: TaskGraph, s: State, moves: seq<Move>, m: Move)
    requires Counts(g, s)
    ensures Exec(g, s, moves + [m]) == Apply(g, Exec(g, s, moves), m)
    decreases |moves|
  {
    hide Counts;
    if moves == [] {
      assert (moves + [m])[1..] == [];
    } else {
      ExecSnoc(g, Apply(g, s, moves[0]), moves[1..], m);
      assert (moves + [m])[1..] == moves[1..] + [m];
    }
  }

  ghost predicate Reaches(g: TaskGraph, s: State, r: State)
    requires Counts(g, s)
  {
    exists moves :: Exec(g, s, moves) == r
  }

  lemma ReachesCounts(g: TaskGraph, s: State, r: State)
    requires Counts(g, s) && Reaches(g, s, r)
    ensures Counts(g, r) && |r.workers| == |s.workers|
  {
  }

  lemma ReachesApply(g: TaskGraph, s: State, r: State, m: Move) returns (r': State)
    requires Counts(g, s) && Reaches(g, s, r)
    ensures Counts(g, r) && r' == Apply(g, r, m) && Reaches(g, s, r')
  {
    ReachesCounts(g, s, r);
    var moves :| Exec(g, s, moves) == r;
    ExecSnoc(g, s, moves, m);
    r' := Apply(g, r, m);
    assert Exec(g, s, moves + [m]) == r';
  }

  lemma MainMoves(g: TaskGraph, s: State, r: State) returns (r': State)
    requires Counts(g, s) && Reaches(g, s, r)
    ensures MainFits(g, r)
    ensures r' == MainNext(g, r) && Reaches(g, s, r')
  {
    r' := ReachesApply(g, s, r, ByMain);
  }

  lemma WorkerMoves(g: TaskGraph, s: State, r: State, w: nat) returns (r': State)
    requires Counts(g, s) && Reaches(g, s, r) && w < |s.workers| == |r.workers|
    ensures WorkerCanStep(g, r, w)
    ensures r' == WorkerNext(g, r, w) && Reaches(g, s, r')
  {
    r' := ReachesApply(g, s, r, ByWorker(w));
  }
}
