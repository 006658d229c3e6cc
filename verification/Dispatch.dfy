/** The phase scheduler as a step machine: one main thread inside ExecutePhase and any number of
    workers, interleaved step by step.  Every atomic operation of the program is its own step: the
    decrement of a child's counter, the enqueue and the increment of the active counter are apart,
    and so are the seed loop's load, enqueue and increment.  The counters are 32-bit words.  The
    ready queue is a first-in-first-out sequence here; `ReadyQueue` puts the real one in its place. */
module Dispatch {
  import opened Collections
  import opened Tasks
  import opened Words

  const MAX_WORKERS: nat := 32

  /** How far a task has got in this tick; a running task has processed its first `released`
      children.  `Picked` and `Due` are tasks chosen for the queue and not in it yet, by the seed loop
      and by a worker. */
  datatype Status =
    | Pending
    | Picked
    | Due(worker: nat)
    | Queued
    | Taken(worker: nat)
    | Running(worker: nat, released: nat)
    | Done

  datatype WorkerPc =
    | Looking
    | Executing(id: nat)
    | LoadPhase(id: nat)
    | Releasing(id: nat, phase: nat, next: nat)             // about to decrement a child, or the active counter
    | Enqueuing(id: nat, phase: nat, next: nat, child: nat) // about to enqueue the child that became ready
    | Counting(id: nat, phase: nat, next: nat)              // about to increment the active counter for it
    | EpochAdd
    | Notify

  /** `Outside(k)`: the main thread is outside ExecutePhase and phases before `k` are executed. */
  datatype MainPc =
    | Outside(next: nat)
    | Building(node: nat)
    | Seeding(node: nat)                                    // about to load the node's counter
    | SeedEnqueuing(node: nat)                              // about to enqueue the node's task
    | SeedCounting(node: nat)                               // about to increment the active counter for it
    | WaitLoad
    | WaitEpoch
    | WaitRecheck(seen: nat)
    | WaitCompare(seen: nat)
    | Asleep(seen: nat)

  /** `status`, `chosen` and `log` are history: the life of each task in this tick, the ids in the order
      in which it was decided to enqueue them, and those in the order of their ExecuteTask calls. */
  datatype State = State(
    phase: nat,
    main: MainPc,
    workers: seq<WorkerPc>,
    remaining: seq<nat>,
    queue: seq<nat>,
    active: nat,
    epoch: nat,
    status: seq<Status>,
    chosen: seq<nat>,
    log: seq<nat>)

  // ---- the steps ----

  /** fetch_sub(1) and fetch_add(1) on an unsigned 32-bit counter. */
  function Decrement(x: nat): nat {
    if x == 0 then WORD32 - 1 else x - 1
  }

  function Increment(x: nat): nat {
    (x + 1) % WORD32
  }

  /** All indices that the program computes are within its arrays. */
  predicate IndicesFit(g: TaskGraph) {
    && |g.taskIdToNodeIndex| == MAX_NODES && |g.phaseRanges| == PHASES
    && (forall n {:trigger g.nodes[n]} :: 0 <= n < |g.nodes| ==>
          IsTask(g, g.nodes[n].id) && g.nodes[n].dependencyOffset + g.nodes[n].childCount <= |g.childTaskIds|)
    && (forall n, j {:trigger g.nodes[n], g.childTaskIds[j]} ::
          0 <= n < |g.nodes| && g.nodes[n].dependencyOffset <= j < g.nodes[n].dependencyOffset
            + g.nodes[n].childCount ==>
            IsTask(g, g.childTaskIds[j]))
    && (forall k {:trigger g.phaseRanges[k]} :: 0 <= k < PHASES ==>
      g.phaseRanges[k].begin + g.phaseRanges[k].count <= |g.nodes|)
  }

  predicate WorkerFits(g: TaskGraph, pc: WorkerPc) {
    match pc
    case Executing(id) => IsTask(g, id)
    case LoadPhase(id) => IsTask(g, id)
    case Releasing(id, _, next) => IsTask(g, id) && next <= GetNode(g, id).childCount
    case Enqueuing(id, _, next, child) => IsTask(g, id) && next < GetNode(g, id).childCount && IsTask(g, child)
    case Counting(id, _, next) => IsTask(g, id) && next < GetNode(g, id).childCount
    case _ => true
  }

  predicate WorkerCanStep(g: TaskGraph, s: State, w: nat) {
    && IndicesFit(g) && |s.remaining| == |s.status| == MAX_NODES
    && w < |s.workers| && WorkerFits(g, s.workers[w])
    && (s.queue != [] ==> IsTask(g, s.queue[0]))
  }

  function Hand(s: State, w: nat, pc: WorkerPc): State
    requires w < |s.workers|
  {
    s.(workers := s.workers[w := pc])
  }

  function Mark(s: State, id: nat, st: Status): State
    requires id < |s.status|
  {
    s.(status := s.status[id := st])
  }

  lemma ChildFits(g: TaskGraph, id: nat, slot: nat)
    requires IndicesFit(g) && IsTask(g, id) && slot < GetNode(g, id).childCount
    ensures IsEdge(g, Edge(id, slot)) && IsTask(g, ChildOf(g, Edge(id, slot))) && ChildOf(g, Edge(id, slot)) < MAX_NODES
  {
  }

  /** The decrement of one child's counter; a child that became ready in the phase this worker read
      is chosen. */
  function ReleaseOne(g: TaskGraph, s: State, w: nat, id: nat, phase: nat, next: nat): State
    requires IndicesFit(g) && |s.remaining| == |s.status| == MAX_NODES && w < |s.workers|
    requires IsTask(g, id) && next < GetNode(g, id).childCount
  {
    ChildFits(g, id, next);
    var child := ChildOf(g, Edge(id, next));
    var before := s.remaining[child];
    var s' := Mark(s.(remaining := s.remaining[child := Decrement(before)]), id, Running(w, next + 1));
    if before == 1 && GetNode(g, child).phaseId == phase then
      Hand(Mark(s'.(chosen := s.chosen + [child]), child, Due(w)), w, Enqueuing(id, phase, next, child))
    else
      Hand(s', w, Releasing(id, phase, next + 1))
  }

  /** One step of worker `w`; a worker that cannot move leaves the state as it is. */
  function WorkerNext(g: TaskGraph, s: State, w: nat): State
    requires WorkerCanStep(g, s, w)
  {
    match s.workers[w]
    case Looking =>
      if s.queue == [] then s
      else Hand(Mark(s.(queue := s.queue[1..]), s.queue[0], Taken(w)), w, Executing(s.queue[0]))
    case Executing(id) => Hand(Mark(s.(log := s.log + [id]), id, Running(w, 0)), w, LoadPhase(id))
    case LoadPhase(id) => Hand(s, w, Releasing(id, s.phase, 0))
    case Releasing(id, phase, next) =>
      if next < GetNode(g, id).childCount then ReleaseOne(g, s, w, id, phase, next)
      else Hand(Mark(s.(active := Decrement(s.active)), id, Done), w, if s.active == 1 then EpochAdd else Looking)
    case Enqueuing(id, phase, next, child) =>
      if |s.queue| < MAX_NODES then
        Hand(Mark(s.(queue := s.queue + [child]), child, Queued), w, Counting(id, phase, next))
      else s
    case Counting(id, phase, next) => Hand(s.(active := Increment(s.active)), w, Releasing(id, phase, next + 1))
    case EpochAdd => Hand(s.(epoch := s.epoch + 1), w, Notify)
    case Notify => Hand(if s.main.Asleep? then s.(main := WaitCompare(s.main.seen)) else s, w, Looking)
  }

  predicate MainFits(g: TaskGraph, s: State) {
    && IndicesFit(g) && |s.remaining| == |s.status| == MAX_NODES && s.phase < PHASES
    && match s.main
       case Building(n) => n <= |g.nodes|
       case Seeding(i) => i <= g.phaseRanges[s.phase].count
       case SeedEnqueuing(i) => i < g.phaseRanges[s.phase].count
       case SeedCounting(i) => i < g.phaseRanges[s.phase].count
       case _ => true
  }

  /** The task of the `i`-th node of the current phase. */
  function SeedId(g: TaskGraph, s: State, i: nat): (id: nat)
    requires IndicesFit(g) && s.phase < PHASES && i < g.phaseRanges[s.phase].count
    ensures id < MAX_NODES && IsTask(g, id)
  {
    g.nodes[g.phaseRanges[s.phase].begin + i].id
  }

  /** One step of the main thread inside ExecutePhase; asleep it does not move by itself. */
  function MainNext(g: TaskGraph, s: State): State
    requires MainFits(g, s)
  {
    match s.main
    case Outside(_) => s
    case Building(n) =>
      if n < |g.nodes| then
        s.(remaining := s.remaining[g.nodes[n].id := g.nodes[n].parentCount], main := Building(n + 1))
      else s.(main := Seeding(0))
    case Seeding(i) =>
      if i < g.phaseRanges[s.phase].count then
        var id := SeedId(g, s, i);
        if s.remaining[id] == 0 then Mark(s.(main := SeedEnqueuing(i), chosen := s.chosen + [id]), id, Picked)
        else s.(main := Seeding(i + 1))
      else s.(main := WaitLoad)
    case SeedEnqueuing(i) =>
      var id := SeedId(g, s, i);
      if |s.queue| < MAX_NODES then Mark(s.(main := SeedCounting(i), queue := s.queue + [id]), id, Queued) else s
    case SeedCounting(i) => s.(active := Increment(s.active), main := Seeding(i + 1))
    case WaitLoad => s.(main := if s.active != 0 then WaitEpoch else Outside(s.phase + 1))
    case WaitEpoch => s.(main := WaitRecheck(s.epoch))
    case WaitRecheck(e) => s.(main := if s.active == 0 then Outside(s.phase + 1) else WaitCompare(e))
    case WaitCompare(e) => s.(main := if s.epoch == e then Asleep(e) else WaitLoad)
    case Asleep(_) => s
  }

  /** ExecutePhase is called for phase `k`: at Input a new tick begins and its histories start over. */
  function BeginPhase(s: State, k: nat): State {
    if k == INPUT then
      s.(phase := k, main := Building(0), status := seq(|s.status|, _ => Pending), chosen := [], log := [])
    else
      s.(phase := k, main := Seeding(0))
  }

  datatype Move = Begin(phase: nat) | ByMain | ByWorker(w: nat)

  predicate Init(g: TaskGraph, s: State) {
    && IndicesFit(g)
    && |s.remaining| == |s.status| == MAX_NODES && s.phase < PHASES
    && s.main == Outside(0) && s.queue == [] && s.active == 0
    && s.chosen == [] && s.log == [] && AllPending(s.status)
    && |s.workers| <= MAX_WORKERS && (forall w :: 0 <= w < |s.workers| ==> s.workers[w] == Looking)
  }

  predicate AllPending(status: seq<Status>) {
    forall id :: 0 <= id < |status| ==> status[id].Pending?
  }

  // ---- what the program means to keep ----

  /** Workers with a task in hand. */
  predicate Carries(pc: WorkerPc) {
    !pc.Looking? && !pc.EpochAdd? && !pc.Notify?
  }

  predicate NobodyCarries(s: State) {
    forall w {:trigger s.workers[w]} :: 0 <= w < |s.workers| ==> !Carries(s.workers[w])
  }

  predicate Holds(pc: WorkerPc, id: nat) {
    Carries(pc) && pc.id == id
  }

  predicate Executed(st: Status) {
    st.Running? || st.Done?
  }

  predicate EdgeDone(status: seq<Status>, e: Edge) {
    && e.parent < |status|
    && (match status[e.parent]
        case Done => true
        case Running(_, r) => e.slot < r
        case _ => false)
  }

  function Unprocessed(g: TaskGraph, status: seq<Status>, c: nat): set<Edge> {
    set e | e in Incoming(g, c) && !EdgeDone(status, e)
  }

  ghost predicate WorkerOk(g: TaskGraph, s: State, w: nat)
    requires w < |s.workers|
  {
    WorkerFits(g, s.workers[w]) &&
    match s.workers[w]
    case Executing(id) => id < |s.status| && s.status[id] == Taken(w)
    case LoadPhase(id) => id < |s.status| && s.status[id] == Running(w, 0)
    case Releasing(id, phase, next) => id < |s.status| && s.status[id] == Running(w, next) && phase == s.phase
    case Enqueuing(id, phase, next, child) =>
      id < |s.status| && s.status[id] == Running(w, next + 1) && phase == s.phase &&
      child < |s.status| && s.status[child] == Due(w) && GetNode(g, child).phaseId == phase
    case Counting(id, phase, next) => id < |s.status| && s.status[id] == Running(w, next + 1) && phase == s.phase
    case _ => true
  }

  ghost predicate StatusOk(g: TaskGraph, s: State, id: nat)
    requires id < |s.status|
  {
    (!s.status[id].Pending? ==> IsTask(g, id)) &&
    match s.status[id]
    case Pending => true
    case Picked => s.main.SeedEnqueuing?
    case Due(w) => w < |s.workers| && s.workers[w].Enqueuing? && s.workers[w].child == id
    case Queued => id in s.queue
    case Taken(w) => w < |s.workers| && Holds(s.workers[w], id)
    case Running(w, _) => w < |s.workers| && Holds(s.workers[w], id)
    case Done => true
  }

  ghost predicate HandsOk(g: TaskGraph, s: State) {
    && (forall w {:trigger s.workers[w]} :: 0 <= w < |s.workers| ==> WorkerOk(g, s, w))
    && (forall id {:trigger s.status[id]} :: 0 <= id < |s.status| ==> StatusOk(g, s, id))
  }

  ghost predicate QueueOk(g: TaskGraph, s: State) {
    && Distinct(s.queue)
    && (forall i {:trigger s.queue[i]} :: 0 <= i < |s.queue| ==>
          IsTask(g, s.queue[i]) && s.queue[i] < |s.status| && s.status[s.queue[i]] == Queued)
  }

  /** Each task's counter is the number of its incoming edges not yet processed. */
  ghost predicate CountersOk(g: TaskGraph, s: State)
    requires |s.remaining| == |s.status|
  {
    forall c {:trigger s.remaining[c]} :: 0 <= c < |s.remaining| && IsTask(g, c) ==>
      s.remaining[c] == |Unprocessed(g, s.status, c)|
  }

  ghost predicate ReadyOk(g: TaskGraph, s: State)
    requires |s.remaining| == |s.status|
  {
    forall id {:trigger s.status[id]} :: 0 <= id < |s.status| && IsTask(g, id) && !s.status[id].Pending? ==>
      s.remaining[id] == 0
  }

  /** The parents of every executed task were executed before it. */
  ghost predicate ParentsFirst(g: TaskGraph, log: seq<nat>) {
    forall i, e :: 0 <= i < |log| && e in Incoming(g, log[i]) ==> e.parent in log[..i]
  }

  ghost predicate PhasesInOrder(g: TaskGraph, log: seq<nat>) {
    && (forall i :: 0 <= i < |log| ==> IsTask(g, log[i]))
    && (forall i, j :: 0 <= i < j < |log| ==> GetNode(g, log[i]).phaseId <= GetNode(g, log[j]).phaseId)
  }

  ghost predicate LogOk(g: TaskGraph, s: State) {
    && Distinct(s.log)
    && (forall i {:trigger s.log[i]} :: 0 <= i < |s.log| ==> s.log[i] < |s.status| && Executed(s.status[s.log[i]]))
    && (forall id {:trigger s.status[id]} :: 0 <= id < |s.status| && Executed(s.status[id]) ==> id in s.log)
    && ParentsFirst(g, s.log)
    && PhasesInOrder(g, s.log)
  }

  /** Each task is chosen for the queue at most once. */
  ghost predicate ChosenOk(s: State) {
    && Distinct(s.chosen)
    && (forall i {:trigger s.chosen[i]} :: 0 <= i < |s.chosen| ==>
      s.chosen[i] < |s.status| && !s.status[s.chosen[i]].Pending?)
    && (forall id {:trigger s.status[id]} :: 0 <= id < |s.status| && !s.status[id].Pending? ==> id in s.chosen)
  }

  /** Tasks of phases before `k` are done and tasks of later phases than `last` are untouched. */
  ghost predicate PhaseOk(g: TaskGraph, s: State, k: nat, last: int) {
    forall id {:trigger s.status[id]} :: 0 <= id < |s.status| && IsTask(g, id) ==>
      && (GetNode(g, id).phaseId < k ==> s.status[id].Done?)
      && (GetNode(g, id).phaseId > last ==> s.status[id].Pending?)
  }

  /** A task of the phase that the seed loop has passed over waits for a parent. */
  ghost predicate SeededUpTo(g: TaskGraph, s: State, n: nat)
    requires |s.remaining| == |s.status|
  {
    forall id {:trigger s.status[id]} ::
      0 <= id < |s.status| && InPhase(g, id, s.phase) && g.taskIdToNodeIndex[id] < n ==>
        (s.status[id].Pending? ==> s.remaining[id] > 0)
  }

  ghost predicate Shape(g: TaskGraph, s: State) {
    && WellFormed(g)
    && |s.remaining| == |s.status| == MAX_NODES
    && s.phase < PHASES
  }

  ghost predicate PhaseUnderWay(g: TaskGraph, s: State, seeded: nat)
    requires |s.remaining| == |s.status|
  {
    PhaseOk(g, s, s.phase, s.phase) && CountersOk(g, s) && ReadyOk(g, s) && SeededUpTo(g, s, seeded)
  }

  ghost predicate PickedIs(s: State, id: nat) {
    && id < |s.status| && s.status[id] == Picked
    && forall x {:trigger s.status[x]} :: 0 <= x < |s.status| && s.status[x] == Picked ==> x == id
  }

  ghost predicate MainOk(g: TaskGraph, s: State)
    requires Shape(g, s)
  {
    var range := g.phaseRanges[s.phase];
    match s.main
    case Outside(next) =>
      next <= PHASES && NobodyCarries(s) && s.queue == [] &&
      (0 < next ==> PhaseOk(g, s, next, next - 1) && CountersOk(g, s) && ReadyOk(g, s))
    case Building(n) =>
      n <= |g.nodes| && s.phase == INPUT && AllPending(s.status) && s.log == [] && NobodyCarries(s) && s.queue == [] &&
      (forall m :: 0 <= m < n ==> s.remaining[g.nodes[m].id] == g.nodes[m].parentCount)
    case Seeding(i) => i <= range.count && PhaseUnderWay(g, s, range.begin + i)
    case SeedEnqueuing(i) =>
      i < range.count && PhaseUnderWay(g, s, range.begin + i + 1) &&
      PickedIs(s, g.nodes[range.begin + i].id)
    case SeedCounting(i) => i < range.count && PhaseUnderWay(g, s, range.begin + i + 1)
    case _ => PhaseUnderWay(g, s, |g.nodes|)
  }

  /** The state of a tick in which nothing has gone wrong. */
  ghost predicate Inv(g: TaskGraph, s: State) {
    && Shape(g, s)
    && HandsOk(g, s)
    && QueueOk(g, s)
    && ChosenOk(s)
    && LogOk(g, s)
    && MainOk(g, s)
  }

  // ---- what can go wrong ----

  /** The seed loop is about to find at zero the counter of a task that a worker has chosen already. */
  predicate Reseeds(g: TaskGraph, s: State)
    requires MainFits(g, s)
  {
    s.main.Seeding? && s.main.node < g.phaseRanges[s.phase].count &&
    var id := SeedId(g, s, s.main.node); s.remaining[id] == 0 && !s.status[id].Pending?
  }

  /** The main thread is about to find the active counter at zero while a worker has a task in hand. */
  predicate LeavesEarly(s: State) {
    (s.main.WaitLoad? || s.main.WaitRecheck?) && s.active == 0 && !NobodyCarries(s)
  }
}
