/** The dispatcher on its real ready queue: the workers and the main thread are threads of the queue's
    step machine, each atomic step of an Enqueue or a Dequeue is a step of the whole, and a task
    changes hands when a position of the queue is won. */
module ReadyQueue {
  import opened Collections
  import opened SlotRing
  import M = Mpmc
  import opened Tasks
  import opened Dispatch
  import opened DispatchCounts
  import opened DispatchSteps
  import opened DispatchRuns
  import opened DispatchGraphs

  /** `d` is the dispatcher; its own `queue` is not used.  Worker `w` is thread `w` of the queue, the main
      thread the one after the workers.  `base` is history, the tail at the beginning of the phase;
      `rejected` records that an Enqueue returned false, which the program asserts never happens. */
  datatype System = System(d: State, q: M.Queue<nat>, base: nat, rejected: bool)

  /** What a thread inside a queue operation may do: take its next step, leaving `residue` behind if it
      moves an item out, or fail its compare and swap spuriously. */
  datatype How = Go(residue: nat) | Fail

  datatype SystemMove = BeginTick(phase: nat) | MainGoes(how: How) | WorkerGoes(w: nat, how: How)

  function ActionOf(how: How): M.Action<nat> {
    match how
    case Go(residue) => M.Step(residue)
    case Fail => M.FailSpuriously
  }

  // ---- the dispatcher as it looks from outside the queue's operations ----

  function AbsWorker(pc: WorkerPc, tp: M.Pc<nat>, items: seq<nat>): WorkerPc {
    if pc.Looking? && (tp.DequeueRead? || tp.DequeueRelease?) && tp.pos < |items| then Executing(items[tp.pos])
    else if pc.Enqueuing? && (tp.EnqueueWrite? || tp.EnqueuePublish?) then Counting(pc.id, pc.phase, pc.next)
    else pc
  }

  function AbsMain(pc: MainPc, tp: M.Pc<nat>): MainPc {
    if pc.SeedEnqueuing? && (tp.EnqueueWrite? || tp.EnqueuePublish?) then SeedCounting(pc.node) else pc
  }

  predicate Shaped(c: System) {
    && |c.q.threads| == |c.d.workers| + 1
    && c.q.head <= c.q.ring.tail == |c.q.ring.items|
  }

  /** The queue holds the items of the positions from its head to its tail; a worker has its task
      from the moment it wins the position. */
  function Abs(c: System): State
    requires Shaped(c)
  {
    var n := |c.d.workers|;
    c.d.(queue := c.q.ring.items[c.q.head..c.q.ring.tail],
         main := AbsMain(c.d.main, c.q.threads[n]),
         workers := seq(n, w requires 0 <= w < n => AbsWorker(c.d.workers[w], c.q.threads[w], c.q.ring.items)))
  }

  // ---- the steps ----

  /** The histories of the tasks follow the positions won. */
  function Won(g: TaskGraph, d: State, q: M.Queue<nat>, q': M.Queue<nat>, w: nat): State {
    if q'.head > q.head && q.head < |q.ring.items| && q.ring.items[q.head] < |d.status| then
      Mark(d, q.ring.items[q.head], Status.Taken(w))
    else if q'.ring.tail > q.ring.tail && |q'.ring.items| > |q.ring.items|
      && q'.ring.items[|q.ring.items|] < |d.status| then
      Mark(d, q'.ring.items[|q.ring.items|], Queued)
    else d
  }

  /** A queue operation of worker `w` has returned, or not. */
  function WorkerReturns(d: State, w: nat, tp: M.Pc<nat>): State
    requires w < |d.workers|
  {
    if tp.Idle? && tp.last.Dequeued? && d.workers[w].Looking? then Hand(d, w, Executing(tp.last.value))
    else if tp.Idle? && tp.last.Enqueued? && d.workers[w].Enqueuing? then
      Hand(d, w, Counting(d.workers[w].id, d.workers[w].phase, d.workers[w].next))
    else d
  }

  predicate Refused(tp: M.Pc<nat>) {
    tp.Idle? && tp.last.Full?
  }

  ghost predicate CanGo(g: TaskGraph, c: System, t: nat) {
    && Shaped(c) && t < |c.q.threads| && M.CanStep(MAX_NODES, c.q, t)
    && (t < |c.d.workers| && c.q.threads[t].Idle? ==> WorkerCanStep(g, c.d, t))
    && MainFits(g, c.d)
  }

  /** Worker `w`: inside a queue operation its next step there; else the call that its position asks for,
      or its own next step. */
  function WorkerStep(g: TaskGraph, c: System, w: nat, how: How): System
    requires CanGo(g, c, w) && w < |c.d.workers|
  {
    var pc := c.d.workers[w];
    if !c.q.threads[w].Idle? then
      var q' := M.Next(MAX_NODES, c.q, w, ActionOf(how));
      if w < |q'.threads| then
        c.(d := WorkerReturns(Won(g, c.d, c.q, q', w), w, q'.threads[w]), q := q',
          rejected := c.rejected || Refused(q'.threads[w]))
      else c
    else if pc.Looking? then c.(q := M.Next(MAX_NODES, c.q, w, M.CallDequeue))
    else if pc.Enqueuing? then c.(q := M.Next(MAX_NODES, c.q, w, M.CallEnqueue(pc.child)))
    else c.(d := WorkerNext(g, c.d, w))
  }

  /** The main thread likewise; the seed loop's enqueue is its only operation on the queue. */
  function MainStep(g: TaskGraph, c: System, how: How): System
    requires CanGo(g, c, |c.d.workers|)
  {
    var n := |c.d.workers|;
    if !c.q.threads[n].Idle? then
      var q' := M.Next(MAX_NODES, c.q, n, ActionOf(how));
      var d' := Won(g, c.d, c.q, q', n);
      if n < |q'.threads| then
        c.(d := if q'.threads[n].Idle? && q'.threads[n].last.Enqueued? && d'.main.SeedEnqueuing? then
          d'.(main := SeedCounting(d'.main.node)) else d',
           q := q', rejected := c.rejected || Refused(q'.threads[n]))
      else c
    else if c.d.main.SeedEnqueuing? then
      c.(q := M.Next(MAX_NODES, c.q, n, M.CallEnqueue(SeedId(g, c.d, c.d.main.node))))
    else c.(d := MainNext(g, c.d))
  }

  function BeginTickStep(c: System, k: nat): System {
    c.(d := BeginPhase(c.d, k), base := c.q.ring.tail)
  }

  ghost predicate Start(g: TaskGraph, c: System) {
    && Init(g, c.d) && M.Init(MAX_NODES, c.q) && |c.q.threads| == |c.d.workers| + 1
    && c.base == 0 && !c.rejected
  }

  // ---- how the two fit together ----

  predicate Dequeues(tp: M.Pc<nat>) {
    tp.DequeueLoadHead? || tp.DequeueLoadSequence? || tp.DequeueCas? || tp.DequeueRead? || tp.DequeueRelease?
  }

  predicate Enqueues(tp: M.Pc<nat>, item: nat) {
    (tp.EnqueueLoadTail? || tp.EnqueueLoadSequence? || tp.EnqueueCas? || tp.EnqueueWrite? || tp.EnqueuePublish?)
      && tp.item == item
  }

  /** A thread is inside the operation that its position asks for, or inside none. */
  predicate WorkerCoupled(pc: WorkerPc, tp: M.Pc<nat>) {
    tp.Idle? || (pc.Looking? && Dequeues(tp)) || (pc.Enqueuing? && Enqueues(tp, pc.child))
  }

  predicate MainCoupled(g: TaskGraph, d: State, tp: M.Pc<nat>)
    requires MainFits(g, d)
  {
    tp.Idle? || (d.main.SeedEnqueuing? && Enqueues(tp, SeedId(g, d, d.main.node)))
  }

  ghost predicate Coupled(g: TaskGraph, c: System) {
    && Shaped(c) && MainFits(g, c.d) && c.d.queue == []
    && (forall w {:trigger c.d.workers[w]} :: 0 <= w < |c.d.workers| ==> WorkerCoupled(c.d.workers[w], c.q.threads[w]))
    && MainCoupled(g, c.d, c.q.threads[|c.d.workers|])
  }

  predicate Entered(st: Status) {
    !st.Pending? && !st.Picked? && !st.Due?
  }

  /** Every position before the phase is given back; those won in it hold different tasks of the phase. */
  ghost predicate Roomy(c: System) {
    && c.base <= c.q.ring.tail == |c.q.ring.items| == |c.q.ring.stages|
    && (forall p {:trigger c.q.ring.stages[p]} :: 0 <= p < c.base ==> c.q.ring.stages[p].Released?)
    && Distinct(c.q.ring.items[c.base..])
    && (forall p {:trigger c.q.ring.items[p]} :: c.base <= p < c.q.ring.tail ==>
          c.q.ring.items[p] < |c.d.status| && Entered(c.d.status[c.q.ring.items[p]]))
  }

  /** The state of a system in which nothing has gone wrong. */
  ghost predicate SystemOk(g: TaskGraph, c: System) {
    && M.Inv(MAX_NODES, c.q) && Coupled(g, c) && Roomy(c) && !c.rejected
    && Counts(g, Abs(c)) && Inv(g, Abs(c))
  }

  // ---- one step of a queue operation ----

  predicate Holding(tp: M.Pc<nat>) {
    tp.DequeueRead? || tp.DequeueRelease?
  }

  predicate Placed(tp: M.Pc<nat>) {
    tp.EnqueueWrite? || tp.EnqueuePublish?
  }

  lemma DequeueFacts(q: M.Queue<nat>, t: nat, a: M.Action<nat>)
    requires M.Inv(MAX_NODES, q) && t < |q.threads| && Dequeues(q.threads[t]) && (a.Step? || a.FailSpuriously?)
    ensures M.CanStep(MAX_NODES, q, t)
    ensures var tp := q.threads[t]; var r := M.Next(MAX_NODES, q, t, a);
      var won := tp.DequeueCas? && a.Step? && tp.pos == q.head;
      && |r.threads| == |q.threads| && r.threads == q.threads[t := r.threads[t]]
      && r.head == (if won then q.head + 1 else q.head) && r.ring.tail == q.ring.tail && r.ring.items == q.ring.items
      && (won ==> q.head < |q.ring.items| && r.threads[t] == M.DequeueRead(q.head))
      && (Holding(tp) ==> tp.pos < |q.ring.items|)
      && (!won && Holding(tp) ==>
            (Holding(r.threads[t]) && r.threads[t].pos == tp.pos)
              || r.threads[t] == M.Idle(M.Dequeued(q.ring.items[tp.pos])))
      && (!won && !Holding(tp) ==>
        (Dequeues(r.threads[t]) && !Holding(r.threads[t])) || r.threads[t] == M.Idle(M.Empty))
  {
    assert M.PcInv(MAX_NODES, q, t, q.threads[t]);
    assert q.threads[t := q.threads[t]] == q.threads;
  }

  lemma EnqueueFacts(q: M.Queue<nat>, t: nat, a: M.Action<nat>, item: nat)
    requires M.Inv(MAX_NODES, q) && t < |q.threads| && Enqueues(q.threads[t], item) && (a.Step? || a.FailSpuriously?)
    ensures M.CanStep(MAX_NODES, q, t)
    ensures var tp := q.threads[t]; var r := M.Next(MAX_NODES, q, t, a);
      var won := tp.EnqueueCas? && a.Step? && tp.pos == q.ring.tail;
      && |r.threads| == |q.threads| && r.threads == q.threads[t := r.threads[t]]
      && r.head == q.head && r.ring.tail == (if won then q.ring.tail + 1 else q.ring.tail)
      && r.ring.items == (if won then q.ring.items + [item] else q.ring.items)
      && (won ==> r.threads[t] == M.EnqueueWrite(item, q.ring.tail))
      && (!won && Placed(tp) ==>
        (Placed(r.threads[t]) && Enqueues(r.threads[t], item)) || r.threads[t] == M.Idle(M.Enqueued))
      && (!won && !Placed(tp) ==>
            (if r.threads[t] == M.Idle(M.Full) then
              q.ring.tail >= MAX_NODES && !GivenBack(q.ring, q.ring.tail - MAX_NODES)
             else Enqueues(r.threads[t], item) && !Placed(r.threads[t])))
  {
    assert M.PcInv(MAX_NODES, q, t, q.threads[t]);
    assert q.threads[t := q.threads[t]] == q.threads;
    if q.threads[t].EnqueueLoadSequence? { M.EnqueueVerdict(MAX_NODES, q, q.threads[t].pos); }
  }

  lemma CallFacts(q: M.Queue<nat>, t: nat, a: M.Action<nat>)
    requires M.Inv(MAX_NODES, q) && t < |q.threads| && q.threads[t].Idle? && (a.CallEnqueue? || a.CallDequeue?)
    ensures M.CanStep(MAX_NODES, q, t)
    ensures M.Next(MAX_NODES, q, t, a) ==
      q.(threads := q.threads[t := if a.CallEnqueue? then M.EnqueueLoadTail(a.item) else M.DequeueLoadHead])
  {
    assert M.PcInv(MAX_NODES, q, t, q.threads[t]);
  }

  // ---- there is always room ----

  lemma OneMoreFits(mine: seq<nat>, id: nat)
    requires Distinct(mine) && id < MAX_NODES && forall p :: 0 <= p < |mine| ==> mine[p] < MAX_NODES && mine[p] != id
    ensures |mine| < MAX_NODES && id !in mine
  {
    DistinctFits(mine + [id], UpTo(MAX_NODES));
  }

  /** A task about to be enqueued is not among those enqueued in the phase, so these leave a slot free. */
  lemma RoomInRing(g: TaskGraph, c: System, id: nat)
    requires Roomy(c) && |c.d.status| == MAX_NODES && id < MAX_NODES && !Entered(c.d.status[id])
    ensures c.q.ring.tail - c.base < MAX_NODES && id !in c.q.ring.items[c.base..]
    ensures c.q.ring.tail >= MAX_NODES ==> GivenBack(c.q.ring, c.q.ring.tail - MAX_NODES)
  {
    var mine := c.q.ring.items[c.base..];
    assert forall p :: 0 <= p < |mine| ==> mine[p] == c.q.ring.items[c.base + p];
    assert forall p :: 0 <= p < |mine| ==> mine[p] < MAX_NODES && mine[p] != id;
    OneMoreFits(mine, id);
    if c.q.ring.tail >= MAX_NODES {
      assert c.q.ring.stages[c.q.ring.tail - MAX_NODES].Released?;
    }
  }

  // ---- each step of the system is a step of the dispatcher, or none ----

  /** How the steps fit: the dispatcher seen from outside takes the step `s'`, and the rest still fits. */
  ghost predicate Fitting(g: TaskGraph, c: System, c': System, s': State) {
    && M.Inv(MAX_NODES, c'.q) && Coupled(g, c') && Abs(c') == s'
    && !c'.rejected && c'.base == c.base && |c'.d.workers| == |c.d.workers|
  }

  lemma QueueMoves(c: System, t: nat, a: M.Action<nat>)
    requires M.Inv(MAX_NODES, c.q) && t < |c.q.threads|
    ensures M.CanStep(MAX_NODES, c.q, t) && M.Inv(MAX_NODES, M.Next(MAX_NODES, c.q, t, a))
    ensures var q' := M.Next(MAX_NODES, c.q, t, a);
      |q'.threads| == |c.q.threads| && q'.head <= q'.ring.tail == |q'.ring.items|
  {
    M.NextExtends(MAX_NODES, c.q, t, a);
  }

  lemma AbsOf(c: System, w: nat)
    requires Shaped(c) && w < |c.d.workers|
    ensures Abs(c).workers[w] == AbsWorker(c.d.workers[w], c.q.threads[w], c.q.ring.items)
  {
  }

  /** A step of a Dequeue: winning the head is the dispatcher's dequeue, all else changes nothing there. */
  lemma DequeueFits(g: TaskGraph, c: System, w: nat, how: How)
    requires M.Inv(MAX_NODES, c.q) && Coupled(g, c) && !c.rejected && w < |c.d.workers| && Dequeues(c.q.threads[w])
      && c.d.workers[w].Looking?
    requires WorkerCanStep(g, Abs(c), w) && |c.d.status| == MAX_NODES
    ensures CanGo(g, c, w)
    ensures var c' := WorkerStep(g, c, w, how);
      Fitting(g, c, c', Abs(c)) || Fitting(g, c, c', WorkerNext(g, Abs(c), w))
  {
    QueueMoves(c, w, ActionOf(how));
    DequeueFacts(c.q, w, ActionOf(how));
    AbsOf(c, w);
    hide M.Inv, M.Next, M.CanStep, IndicesFit;
    var tp := c.q.threads[w];
    var q' := M.Next(MAX_NODES, c.q, w, ActionOf(how));
    var c' := WorkerStep(g, c, w, how);
    if tp.DequeueCas? && how.Go? && tp.pos == c.q.head {
      DequeueWins(g, c, w, c', q');
    } else {
      DequeueQuiet(g, c, w, c', q');
    }
  }

  lemma DequeueWins(g: TaskGraph, c: System, w: nat, c': System, q': M.Queue<nat>)
    requires Coupled(g, c) && !c.rejected && w < |c.d.workers| && c.q.threads[w].DequeueCas? && c.d.workers[w].Looking?
    requires WorkerCanStep(g, Abs(c), w) && |c.d.status| == MAX_NODES
    requires M.Inv(MAX_NODES, q') && |q'.threads| == |c.q.threads|
      && q'.threads == c.q.threads[w := M.DequeueRead(c.q.head)]
    requires q'.head == c.q.head + 1 <= q'.ring.tail == c.q.ring.tail && q'.ring.items == c.q.ring.items
    requires c' == c.(d := WorkerReturns(Won(g, c.d, c.q, q', w), w, q'.threads[w]), q := q',
      rejected := c.rejected || Refused(q'.threads[w]))
    ensures Fitting(g, c, c', WorkerNext(g, Abs(c), w))
  {
    var s := Abs(c);
    var id := c.q.ring.items[c.q.head];
    assert s.queue[0] == id && s.queue[1..] == c.q.ring.items[c.q.head + 1..c.q.ring.tail];
    assert id < MAX_NODES;
    AbsOf(c, w);
    hide M.Inv, IndicesFit;
    var s' := WorkerNext(g, s, w);
    assert c'.d == Mark(c.d, id, Status.Taken(w));
    forall v | 0 <= v < |c.d.workers|
      ensures Abs(c').workers[v] == s'.workers[v] && WorkerCoupled(c'.d.workers[v], c'.q.threads[v])
    {
      AbsOf(c, v);
    }
    assert Abs(c').workers == s'.workers;
  }

  lemma DequeueQuiet(g: TaskGraph, c: System, w: nat, c': System, q': M.Queue<nat>)
    requires Coupled(g, c) && !c.rejected && w < |c.d.workers| && Dequeues(c.q.threads[w]) && c.d.workers[w].Looking?
    requires M.Inv(MAX_NODES, q') && |q'.threads| == |c.q.threads| && q'.threads == c.q.threads[w := q'.threads[w]]
    requires q'.head == c.q.head && q'.ring.tail == c.q.ring.tail && q'.ring.items == c.q.ring.items
    requires Holding(c.q.threads[w]) ==> c.q.threads[w].pos < |c.q.ring.items|
    requires Holding(c.q.threads[w]) ==>
      (Holding(q'.threads[w]) && q'.threads[w].pos == c.q.threads[w].pos)
        || q'.threads[w] == M.Idle(M.Dequeued(c.q.ring.items[c.q.threads[w].pos]))
    requires !Holding(c.q.threads[w]) ==>
      (Dequeues(q'.threads[w]) && !Holding(q'.threads[w])) || q'.threads[w] == M.Idle(M.Empty)
    requires c' == c.(d := WorkerReturns(Won(g, c.d, c.q, q', w), w, q'.threads[w]), q := q',
      rejected := c.rejected || Refused(q'.threads[w]))
    ensures Fitting(g, c, c', Abs(c))
  {
    hide M.Inv, IndicesFit;
    forall v | 0 <= v < |c.d.workers|
      ensures Abs(c').workers[v] == Abs(c).workers[v] && WorkerCoupled(c'.d.workers[v], c'.q.threads[v])
    {
      AbsOf(c, v);
    }
    assert Abs(c').workers == Abs(c).workers;
  }

  /** A step of a worker's Enqueue: winning the tail is the dispatcher's enqueue; it is never refused. */
  lemma EnqueueFits(g: TaskGraph, c: System, w: nat, how: How)
    requires M.Inv(MAX_NODES, c.q) && Coupled(g, c) && Roomy(c) && !c.rejected && w < |c.d.workers|
    requires c.d.workers[w].Enqueuing? && Enqueues(c.q.threads[w], c.d.workers[w].child)
    requires WorkerCanStep(g, Abs(c), w) && |c.d.status| == MAX_NODES
    requires !Placed(c.q.threads[w]) ==>
      |Abs(c).queue| < MAX_NODES && c.d.workers[w].child < MAX_NODES && !Entered(c.d.status[c.d.workers[w].child])
    ensures CanGo(g, c, w)
    ensures var c' := WorkerStep(g, c, w, how);
      Fitting(g, c, c', Abs(c)) || Fitting(g, c, c', WorkerNext(g, Abs(c), w))
  {
    var child := c.d.workers[w].child;
    QueueMoves(c, w, ActionOf(how));
    EnqueueFacts(c.q, w, ActionOf(how), child);
    if !Placed(c.q.threads[w]) { RoomInRing(g, c, child); }
    AbsOf(c, w);
    hide M.Inv, M.Next, M.CanStep, IndicesFit, Roomy;
    var tp := c.q.threads[w];
    var q' := M.Next(MAX_NODES, c.q, w, ActionOf(how));
    var c' := WorkerStep(g, c, w, how);
    if tp.EnqueueCas? && how.Go? && tp.pos == c.q.ring.tail {
      EnqueueWins(g, c, w, c', q');
    } else {
      EnqueueQuiet(g, c, w, c', q');
    }
  }

  lemma EnqueueIs(g: TaskGraph, s: State, w: nat)
    requires WorkerCanStep(g, s, w) && s.workers[w].Enqueuing? && |s.queue| < MAX_NODES
    ensures var pc := s.workers[w];
      && pc.child < |s.status|
      && WorkerNext(g, s, w) == s.(queue := s.queue + [pc.child], status := s.status[pc.child := Queued],
                                   workers := s.workers[w := Counting(pc.id, pc.phase, pc.next)])
  {
    assert |g.taskIdToNodeIndex| == |s.status|;
    hide IndicesFit;
  }

  lemma EnqueueWinsFits(g: TaskGraph, c: System, w: nat, c': System, q': M.Queue<nat>)
    requires Coupled(g, c) && !c.rejected && w < |c.d.workers| && c.q.threads[w].EnqueueCas?
      && c.d.workers[w].Enqueuing?
    requires WorkerCanStep(g, Abs(c), w) && |c.d.status| == MAX_NODES && |Abs(c).queue| < MAX_NODES
      && c.d.workers[w].child < MAX_NODES
    requires M.Inv(MAX_NODES, q') && |q'.threads| == |c.q.threads|
    requires q'.threads == c.q.threads[w := M.EnqueueWrite(c.d.workers[w].child, c.q.ring.tail)]
    requires q'.head == c.q.head && q'.ring.tail == c.q.ring.tail + 1 == |q'.ring.items|
      && q'.ring.items == c.q.ring.items + [c.d.workers[w].child]
    requires c' == c.(d := Mark(c.d, c.d.workers[w].child, Queued), q := q')
    ensures Fitting(g, c, c', WorkerNext(g, Abs(c), w))
  {
    var s := Abs(c);
    var child := c.d.workers[w].child;
    assert s.queue + [child] == q'.ring.items[q'.head..q'.ring.tail];
    AbsOf(c, w);
    EnqueueIs(g, s, w);
    hide M.Inv, IndicesFit, WorkerNext, WorkerCanStep;
    var s' := WorkerNext(g, s, w);
    forall v | 0 <= v < |c.d.workers| && v != w
      ensures s.workers[v] == AbsWorker(c.d.workers[v], q'.threads[v], q'.ring.items)
    {
      AbsOf(c, v);
    }
    AbsWorkersAre(c', s');
  }

  lemma EnqueueWins(g: TaskGraph, c: System, w: nat, c': System, q': M.Queue<nat>)
    requires Coupled(g, c) && !c.rejected && w < |c.d.workers| && c.q.threads[w].EnqueueCas?
      && c.d.workers[w].Enqueuing?
    requires WorkerCanStep(g, Abs(c), w) && |c.d.status| == MAX_NODES && |Abs(c).queue| < MAX_NODES
      && c.d.workers[w].child < MAX_NODES
    requires M.Inv(MAX_NODES, q') && |q'.threads| == |c.q.threads|
    requires q'.threads == c.q.threads[w := M.EnqueueWrite(c.d.workers[w].child, c.q.ring.tail)]
    requires q'.head == c.q.head && q'.ring.tail == c.q.ring.tail + 1 == |q'.ring.items|
      && q'.ring.items == c.q.ring.items + [c.d.workers[w].child]
    requires c' == c.(d := WorkerReturns(Won(g, c.d, c.q, q', w), w, q'.threads[w]), q := q',
      rejected := c.rejected || Refused(q'.threads[w]))
    ensures Fitting(g, c, c', WorkerNext(g, Abs(c), w))
  {
    EnqueueWinsFits(g, c, w, c.(d := Mark(c.d, c.d.workers[w].child, Queued), q := q'), q');
    hide M.Inv, IndicesFit, Fitting, Coupled, WorkerCanStep;
  }

  lemma EnqueueQuiet(g: TaskGraph, c: System, w: nat, c': System, q': M.Queue<nat>)
    requires Coupled(g, c) && !c.rejected && w < |c.d.workers|
    requires c.d.workers[w].Enqueuing? && Enqueues(c.q.threads[w], c.d.workers[w].child)
    requires M.Inv(MAX_NODES, q') && |q'.threads| == |c.q.threads| && q'.threads == c.q.threads[w := q'.threads[w]]
    requires q'.head == c.q.head && q'.ring.tail == c.q.ring.tail && q'.ring.items == c.q.ring.items
    requires Placed(c.q.threads[w]) ==>
      (Placed(q'.threads[w]) && Enqueues(q'.threads[w], c.d.workers[w].child)) || q'.threads[w] == M.Idle(M.Enqueued)
    requires !Placed(c.q.threads[w]) ==> Enqueues(q'.threads[w], c.d.workers[w].child) && !Placed(q'.threads[w])
    requires c' == c.(d := WorkerReturns(Won(g, c.d, c.q, q', w), w, q'.threads[w]), q := q',
      rejected := c.rejected || Refused(q'.threads[w]))
    ensures Fitting(g, c, c', Abs(c))
  {
    hide M.Inv, IndicesFit;
    forall v | 0 <= v < |c.d.workers|
      ensures Abs(c').workers[v] == Abs(c).workers[v] && WorkerCoupled(c'.d.workers[v], c'.q.threads[v])
    {
      AbsOf(c, v);
    }
    assert Abs(c').workers == Abs(c).workers;
  }

  /** The seed loop's Enqueue likewise. */
  lemma SeedFits(g: TaskGraph, c: System, how: How)
    requires M.Inv(MAX_NODES, c.q) && Coupled(g, c) && Roomy(c) && !c.rejected
    requires c.d.main.SeedEnqueuing? && Enqueues(c.q.threads[|c.d.workers|], SeedId(g, c.d, c.d.main.node))
    requires |c.d.status| == MAX_NODES && MainFits(g, Abs(c))
    requires !Placed(c.q.threads[|c.d.workers|]) ==>
      |Abs(c).queue| < MAX_NODES && !Entered(c.d.status[SeedId(g, c.d, c.d.main.node)])
    ensures CanGo(g, c, |c.d.workers|)
    ensures var c' := MainStep(g, c, how);
      Fitting(g, c, c', Abs(c)) || Fitting(g, c, c', MainNext(g, Abs(c)))
  {
    var n := |c.d.workers|;
    var id := SeedId(g, c.d, c.d.main.node);
    QueueMoves(c, n, ActionOf(how));
    EnqueueFacts(c.q, n, ActionOf(how), id);
    if !Placed(c.q.threads[n]) { RoomInRing(g, c, id); }
    hide M.Inv, M.Next, M.CanStep, IndicesFit, Roomy;
    var tp := c.q.threads[n];
    var q' := M.Next(MAX_NODES, c.q, n, ActionOf(how));
    var c' := MainStep(g, c, how);
    if tp.EnqueueCas? && how.Go? && tp.pos == c.q.ring.tail {
      SeedWins(g, c, id, c', q');
    } else {
      SeedQuiet(g, c, id, c', q');
    }
  }

  /** What the main thread's queue step leaves behind. */
  function AfterSeed(g: TaskGraph, c: System, q': M.Queue<nat>): System
    requires |c.d.workers| < |q'.threads|
  {
    var n := |c.d.workers|;
    var d' := Won(g, c.d, c.q, q', n);
    c.(d := if q'.threads[n].Idle? && q'.threads[n].last.Enqueued? && d'.main.SeedEnqueuing? then
      d'.(main := SeedCounting(d'.main.node)) else d',
       q := q', rejected := c.rejected || Refused(q'.threads[n]))
  }

  lemma SeedWins(g: TaskGraph, c: System, id: nat, c': System, q': M.Queue<nat>)
    requires Coupled(g, c) && !c.rejected && c.d.main.SeedEnqueuing? && c.q.threads[|c.d.workers|].EnqueueCas?
    requires id == SeedId(g, c.d, c.d.main.node) && |c.d.status| == MAX_NODES && |Abs(c).queue| < MAX_NODES
      && MainFits(g, Abs(c))
    requires M.Inv(MAX_NODES, q') && |q'.threads| == |c.q.threads|
    requires q'.threads == c.q.threads[|c.d.workers| := M.EnqueueWrite(id, c.q.ring.tail)]
    requires q'.head == c.q.head && q'.ring.tail == c.q.ring.tail + 1 == |q'.ring.items|
      && q'.ring.items == c.q.ring.items + [id]
    requires c' == AfterSeed(g, c, q')
    ensures Fitting(g, c, c', MainNext(g, Abs(c)))
  {
    var s := Abs(c);
    assert s.queue + [id] == q'.ring.items[q'.head..q'.ring.tail];
    hide M.Inv, IndicesFit;
    var s' := MainNext(g, s);
    assert c'.d == Mark(c.d, id, Queued);
    forall v | 0 <= v < |c.d.workers|
      ensures Abs(c').workers[v] == s'.workers[v] && WorkerCoupled(c'.d.workers[v], c'.q.threads[v])
    {
      AbsOf(c, v);
    }
    assert Abs(c').workers == s'.workers;
  }

  lemma SeedQuiet(g: TaskGraph, c: System, id: nat, c': System, q': M.Queue<nat>)
    requires Coupled(g, c) && !c.rejected && c.d.main.SeedEnqueuing? && id == SeedId(g, c.d, c.d.main.node)
    requires Enqueues(c.q.threads[|c.d.workers|], id)
    requires M.Inv(MAX_NODES, q') && |q'.threads| == |c.q.threads|
      && q'.threads == c.q.threads[|c.d.workers| := q'.threads[|c.d.workers|]]
    requires q'.head == c.q.head && q'.ring.tail == c.q.ring.tail && q'.ring.items == c.q.ring.items
    requires Placed(c.q.threads[|c.d.workers|]) ==>
      (Placed(q'.threads[|c.d.workers|]) && Enqueues(q'.threads[|c.d.workers|], id))
        || q'.threads[|c.d.workers|] == M.Idle(M.Enqueued)
    requires !Placed(c.q.threads[|c.d.workers|]) ==>
      Enqueues(q'.threads[|c.d.workers|], id) && !Placed(q'.threads[|c.d.workers|])
    requires c' == AfterSeed(g, c, q')
    ensures Fitting(g, c, c', Abs(c))
  {
    hide M.Inv, IndicesFit;
    forall v | 0 <= v < |c.d.workers|
      ensures Abs(c').workers[v] == Abs(c).workers[v] && WorkerCoupled(c'.d.workers[v], c'.q.threads[v])
    {
      AbsOf(c, v);
    }
    assert Abs(c').workers == Abs(c).workers;
  }

  /** A call of an operation changes nothing for the dispatcher. */
  lemma CallFits(g: TaskGraph, c: System, t: nat, a: M.Action<nat>)
    requires M.Inv(MAX_NODES, c.q) && Coupled(g, c) && !c.rejected && t < |c.q.threads| && c.q.threads[t].Idle?
    requires if t < |c.d.workers| then
      (a.CallDequeue? && c.d.workers[t].Looking?)
      || (c.d.workers[t].Enqueuing? && a == M.CallEnqueue(c.d.workers[t].child))
             else c.d.main.SeedEnqueuing? && a == M.CallEnqueue(SeedId(g, c.d, c.d.main.node))
    ensures M.CanStep(MAX_NODES, c.q, t) && Fitting(g, c, c.(q := M.Next(MAX_NODES, c.q, t, a)), Abs(c))
  {
    QueueMoves(c, t, a);
    CallFacts(c.q, t, a);
    hide M.Inv, M.Next, M.CanStep, IndicesFit;
    var c' := c.(q := M.Next(MAX_NODES, c.q, t, a));
    forall v | 0 <= v < |c.d.workers|
      ensures Abs(c').workers[v] == Abs(c).workers[v] && WorkerCoupled(c'.d.workers[v], c'.q.threads[v])
    {
      AbsOf(c, v);
    }
    assert Abs(c').workers == Abs(c).workers;
  }

  /** A worker's step outside the queue's operations. */
  lemma OwnStepFits(g: TaskGraph, c: System, w: nat)
    requires M.Inv(MAX_NODES, c.q) && Coupled(g, c) && !c.rejected && w < |c.d.workers| && c.q.threads[w].Idle?
    requires !c.d.workers[w].Looking? && !c.d.workers[w].Enqueuing? && WorkerCanStep(g, Abs(c), w)
    ensures WorkerCanStep(g, c.d, w) && Fitting(g, c, c.(d := WorkerNext(g, c.d, w)), WorkerNext(g, Abs(c), w))
  {
    AbsOf(c, w);
    hide M.Inv, WorkerNext, IndicesFit;
    assert WorkerCanStep(g, c.d, w);
    hide WorkerCanStep;
    var c' := c.(d := WorkerNext(g, c.d, w));
    var s' := WorkerNext(g, Abs(c), w);
    WorkerFrame(g, c.d, w);
    WorkerFrame(g, Abs(c), w);
    OwnStepSame(g, c.d, Abs(c), w);
    AbsWorkersAre(c', s');
  }

  /** The workers as seen from outside, one by one. */
  lemma AbsWorkersAre(c: System, s: State)
    requires Shaped(c) && |s.workers| == |c.d.workers|
    requires forall v :: 0 <= v < |c.d.workers| ==>
      s.workers[v] == AbsWorker(c.d.workers[v], c.q.threads[v], c.q.ring.items)
    ensures Abs(c).workers == s.workers
  {
  }

  /** Outside the queue's operations a worker looks neither at the queue nor, but for the main thread's
      sleep, at the others. */
  lemma OwnStepSame(g: TaskGraph, d: State, s: State, w: nat)
    requires WorkerCanStep(g, d, w) && WorkerCanStep(g, s, w) && d.workers[w] == s.workers[w] && !d.workers[w].Looking?
      && !d.workers[w].Enqueuing?
    requires s == d.(queue := s.queue, main := s.main, workers := s.workers)
      && (d.main == s.main || (!d.main.Asleep? && !s.main.Asleep?))
    ensures var d', s' := WorkerNext(g, d, w), WorkerNext(g, s, w);
      && s' == d'.(queue := s.queue, main := s'.main, workers := s'.workers) && d'.queue == d.queue
        && d'.workers[w] == s'.workers[w]
      && (s'.main == s.main || s'.main == d'.main)
  {
    hide IndicesFit;
  }

  /** The main thread's step outside the queue's operation. */
  lemma OwnMainFits(g: TaskGraph, c: System)
    requires M.Inv(MAX_NODES, c.q) && Coupled(g, c) && !c.rejected && c.q.threads[|c.d.workers|].Idle?
      && !c.d.main.SeedEnqueuing?
    ensures MainFits(g, c.d) && MainFits(g, Abs(c)) && Fitting(g, c, c.(d := MainNext(g, c.d)), MainNext(g, Abs(c)))
  {
    hide M.Inv;
    var c' := c.(d := MainNext(g, c.d));
    assert MainFits(g, c'.d);
    hide IndicesFit;
    forall v | 0 <= v < |c.d.workers|
      ensures Abs(c').workers[v] == Abs(c).workers[v] && WorkerCoupled(c'.d.workers[v], c'.q.threads[v])
    {
      AbsOf(c, v);
    }
    assert Abs(c').workers == Abs(c).workers;
  }

  lemma BeginFits(g: TaskGraph, c: System, k: nat)
    requires M.Inv(MAX_NODES, c.q) && Coupled(g, c) && !c.rejected && c.d.main.Outside? && k < PHASES
    ensures var c' := BeginTickStep(c, k);
      M.Inv(MAX_NODES, c'.q) && Coupled(g, c') && Abs(c') == BeginPhase(Abs(c), k) && !c'.rejected
        && Abs(c).main == c.d.main
  {
    hide M.Inv;
    var c' := BeginTickStep(c, k);
    assert MainFits(g, c'.d);
    hide IndicesFit;
    forall v | 0 <= v < |c.d.workers|
      ensures Abs(c').workers[v] == Abs(c).workers[v] && WorkerCoupled(c'.d.workers[v], c'.q.threads[v])
    {
      AbsOf(c, v);
    }
    assert Abs(c').workers == Abs(c).workers;
  }

  // ---- the positions of the phase ----

  /** An id once in the queue has entered, whatever becomes of it in the phase. */
  ghost predicate EnteredStays(s: State, s': State) {
    && |s'.status| == |s.status|
    && forall id {:trigger s'.status[id]} :: 0 <= id < |s.status| && Entered(s.status[id]) ==> Entered(s'.status[id])
  }

  lemma WorkerKeepsEntered(g: TaskGraph, s: State, w: nat)
    requires Inv(g, s) && w < |s.workers|
    ensures WorkerCanStep(g, s, w) && EnteredStays(s, WorkerNext(g, s, w))
  {
    WorkerOfInv(g, s, w);
    if s.workers[w].Releasing? && s.workers[w].next < GetNode(g, s.workers[w].id).childCount {
      ReleaseKeepsEntered(g, s, w);
    } else {
      hide Inv, IndicesFit;
      WorkerFrame(g, s, w);
    }
  }

  lemma ReleaseKeepsEntered(g: TaskGraph, s: State, w: nat)
    requires Inv(g, s) && WorkerCanStep(g, s, w) && s.workers[w].Releasing?
      && s.workers[w].next < GetNode(g, s.workers[w].id).childCount
    ensures EnteredStays(s, WorkerNext(g, s, w))
  {
    hide Inv, IndicesFit, AllEdges, Incoming, Unprocessed, WorkerNext;
    var e, child := ReleaseFacts(g, s, w);
    ReleaseIs(g, s, w, e, child);
  }

  lemma MainKeepsEntered(g: TaskGraph, s: State)
    requires Inv(g, s) && MainFits(g, s) && !Reseeds(g, s)
    ensures EnteredStays(s, MainNext(g, s))
  {
    hide WellFormed, HandsOk, QueueOk, LogOk, ChosenOk, IndicesFit, PhaseUnderWay;
  }

  lemma RingGrows(q: M.Queue<nat>, t: nat, a: M.Action<nat>)
    requires M.Inv(MAX_NODES, q) && t < |q.threads|
    ensures M.CanStep(MAX_NODES, q, t)
    ensures var r := M.Next(MAX_NODES, q, t, a);
      && r.ring.tail == |r.ring.items| == |r.ring.stages| && |q.ring.stages| <= |r.ring.stages|
      && (forall p {:trigger r.ring.stages[p]} :: 0 <= p < |q.ring.stages| && q.ring.stages[p].Released? ==>
        r.ring.stages[p].Released?)
  {
    M.NextExtends(MAX_NODES, q, t, a);
    hide M.Next, M.CanStep;
    var r := M.Next(MAX_NODES, q, t, a);
    forall p | 0 <= p < |q.ring.stages| && q.ring.stages[p].Released? ensures r.ring.stages[p].Released? {
      assert M.StageLeadsTo(q.ring.stages[p], r.ring.stages[p]);
    }
  }

  /** The queue has moved by at most one position, which holds a task that has just entered. */
  lemma RoomyStays(c: System, c': System)
    requires Roomy(c) && c'.base == c.base && EnteredStays(c.d, c'.d)
    requires c'.q.ring.tail == |c'.q.ring.items| == |c'.q.ring.stages| && |c.q.ring.stages| <= |c'.q.ring.stages|
    requires forall p {:trigger c'.q.ring.stages[p]} :: 0 <= p < |c.q.ring.stages| && c.q.ring.stages[p].Released? ==>
      c'.q.ring.stages[p].Released?
    requires c'.q.ring.items == c.q.ring.items ||
      (|c'.q.ring.items| == |c.q.ring.items| + 1
        && c'.q.ring.items == c.q.ring.items + [c'.q.ring.items[|c.q.ring.items|]] &&
       Fresh(c, c'.q.ring.items[|c.q.ring.items|]) && Entered(c'.d.status[c'.q.ring.items[|c.q.ring.items|]]))
    ensures Roomy(c')
  {
    if c'.q.ring.items != c.q.ring.items {
      assert c'.q.ring.items[c.base..] == c.q.ring.items[c.base..] + [c'.q.ring.items[|c.q.ring.items|]];
    }
  }

  /** The id is not among those enqueued in the phase. */
  ghost predicate Fresh(c: System, id: nat)
    requires c.base <= |c.q.ring.items|
  {
    id < |c.d.status| && id !in c.q.ring.items[c.base..]
  }

  // ---- every step keeps the system in order ----

  /** What the invariant of the dispatcher says about a worker as the system has it. */
  lemma WorkerAtHand(g: TaskGraph, c: System, w: nat)
    requires SystemOk(g, c) && w < |c.d.workers|
    ensures WorkerCanStep(g, Abs(c), w) && |c.d.status| == MAX_NODES && WorkerCoupled(c.d.workers[w], c.q.threads[w])
    ensures MainFits(g, c.d) && Shaped(c)
    ensures c.d.workers[w].Enqueuing? && !Placed(c.q.threads[w]) ==>
      var child := c.d.workers[w].child; |Abs(c).queue| < MAX_NODES && child < MAX_NODES && c.d.status[child] == Due(w)
  {
    var s := Abs(c);
    AbsOf(c, w);
    hide M.Inv, Counts, Roomy;
    WorkerOfInv(g, s, w);
    assert |s.status| == MAX_NODES by { InvFits(g, s); }
    hide Inv, IndicesFit;
    if c.d.workers[w].Enqueuing? && !Placed(c.q.threads[w]) {
      assert s.workers[w] == c.d.workers[w];
      RoomFor(g, s, c.d.workers[w].child);
    }
  }

  /** The queue has gone on to `q'`, and if it won a position for `child`, then `child` has entered. */
  ghost predicate WinsEntry(c: System, c': System, q': M.Queue<nat>, child: nat) {
    && c'.q == q' && c'.base == c.base && EnteredStays(c.d, c'.d)
    && (|q'.ring.items| > |c.q.ring.items| ==> child < |c'.d.status| && Entered(c'.d.status[child]))
  }

  lemma EnqueueKeepsRoomy(g: TaskGraph, c: System, w: nat, how: How, child: nat)
    requires M.Inv(MAX_NODES, c.q) && Coupled(g, c) && Roomy(c) && w < |c.q.threads| && Enqueues(c.q.threads[w], child)
      && |c.d.status| == MAX_NODES
    requires !Placed(c.q.threads[w]) ==> child < MAX_NODES && !Entered(c.d.status[child])
    ensures M.CanStep(MAX_NODES, c.q, w)
    ensures var q' := M.Next(MAX_NODES, c.q, w, ActionOf(how));
      forall c': System :: WinsEntry(c, c', q', child) ==> Roomy(c')
  {
    RingGrows(c.q, w, ActionOf(how));
    EnqueueFacts(c.q, w, ActionOf(how), child);
    if !Placed(c.q.threads[w]) { RoomInRing(g, c, child); }
    var q' := M.Next(MAX_NODES, c.q, w, ActionOf(how));
    hide M.Inv, M.Next, M.CanStep, Coupled;
    forall c': System | WinsEntry(c, c', q', child) ensures Roomy(c') {
      RoomyStays(c, c');
    }
  }

  lemma StillInOrder(g: TaskGraph, c: System, c': System, s': State, m: Move)
    requires SystemOk(g, c) && Fitting(g, c, c', s') && (s' == Abs(c) || s' == Apply(g, Abs(c), m))
    requires InOrder(Abs(c), m) && !GoesWrong(g, Abs(c), m) && Roomy(c')
    ensures SystemOk(g, c')
  {
    assert Shaped(c) && Shaped(c');
    hide M.Inv, Counts, Inv, Coupled, Roomy, Reseeds, LeavesEarly;
    SoundMoveKeepsInv(g, Abs(c), m);
  }

  lemma Entering(g: TaskGraph, c: System, c': System, s': State)
    requires Shaped(c) && Shaped(c') && Abs(c') == s' && (s' == Abs(c) || EnteredStays(Abs(c), s'))
    ensures EnteredStays(c.d, c'.d)
  {
  }

  lemma DequeueGoesWell(g: TaskGraph, c: System, w: nat, how: How)
    requires SystemOk(g, c) && w < |c.d.workers| && c.d.workers[w].Looking? && Dequeues(c.q.threads[w])
    ensures CanGo(g, c, w)
    ensures var c' := WorkerStep(g, c, w, how);
      SystemOk(g, c') && (Abs(c') == Abs(c) || Abs(c') == Apply(g, Abs(c), ByWorker(w)))
  {
    hide M.Inv, Counts, Inv, Reseeds, LeavesEarly, IndicesFit, M.Next, M.CanStep, WorkerNext, WorkerCanStep, Roomy,
      EnteredStays;
    WorkerAtHand(g, c, w);
    WorkerKeepsEntered(g, Abs(c), w);
    DequeueFits(g, c, w, how);
    var c' := WorkerStep(g, c, w, how);
    Entering(g, c, c', Abs(c'));
    RingGrows(c.q, w, ActionOf(how));
    DequeueFacts(c.q, w, ActionOf(how));
    RoomyStays(c, c');
    StillInOrder(g, c, c', Abs(c'), ByWorker(w));
  }

  lemma EnqueueGoesWell(g: TaskGraph, c: System, w: nat, how: How)
    requires SystemOk(g, c) && w < |c.d.workers| && c.d.workers[w].Enqueuing?
      && Enqueues(c.q.threads[w], c.d.workers[w].child)
    ensures CanGo(g, c, w)
    ensures var c' := WorkerStep(g, c, w, how);
      SystemOk(g, c') && (Abs(c') == Abs(c) || Abs(c') == Apply(g, Abs(c), ByWorker(w)))
  {
    hide M.Inv, Counts, Inv, Reseeds, LeavesEarly, IndicesFit, M.Next, M.CanStep, WorkerNext, WorkerCanStep, Roomy,
      EnteredStays;
    WorkerAtHand(g, c, w);
    WorkerKeepsEntered(g, Abs(c), w);
    EnqueueFits(g, c, w, how);
    var c' := WorkerStep(g, c, w, how);
    Entering(g, c, c', Abs(c'));
    EnqueueFacts(c.q, w, ActionOf(how), c.d.workers[w].child);
    EnqueueKeepsRoomy(g, c, w, how, c.d.workers[w].child);
    StillInOrder(g, c, c', Abs(c'), ByWorker(w));
  }

  lemma CallGoesWell(g: TaskGraph, c: System, t: nat, a: M.Action<nat>)
    requires SystemOk(g, c) && t < |c.q.threads| && c.q.threads[t].Idle?
    requires if t < |c.d.workers| then
      (a.CallDequeue? && c.d.workers[t].Looking?)
      || (c.d.workers[t].Enqueuing? && a == M.CallEnqueue(c.d.workers[t].child))
             else c.d.main.SeedEnqueuing? && a == M.CallEnqueue(SeedId(g, c.d, c.d.main.node))
    ensures M.CanStep(MAX_NODES, c.q, t)
    ensures var c' := c.(q := M.Next(MAX_NODES, c.q, t, a)); SystemOk(g, c') && Abs(c') == Abs(c)
  {
    hide M.Inv, Counts, Inv, IndicesFit, M.Next, M.CanStep, Roomy;
    CallFits(g, c, t, a);
    CallFacts(c.q, t, a);
    RingGrows(c.q, t, a);
    RoomyStays(c, c.(q := M.Next(MAX_NODES, c.q, t, a)));
  }

  lemma OwnStepGoesWell(g: TaskGraph, c: System, w: nat)
    requires SystemOk(g, c) && w < |c.d.workers| && c.q.threads[w].Idle? && !c.d.workers[w].Looking?
      && !c.d.workers[w].Enqueuing?
    ensures WorkerCanStep(g, c.d, w)
    ensures var c' := c.(d := WorkerNext(g, c.d, w)); SystemOk(g, c') && Abs(c') == Apply(g, Abs(c), ByWorker(w))
  {
    hide M.Inv, Counts, Inv, Reseeds, LeavesEarly, IndicesFit, WorkerNext, WorkerCanStep, Roomy, EnteredStays;
    WorkerAtHand(g, c, w);
    WorkerKeepsEntered(g, Abs(c), w);
    OwnStepFits(g, c, w);
    var c' := c.(d := WorkerNext(g, c.d, w));
    Entering(g, c, c', Abs(c'));
    RingIs(g, c);
    RoomyStays(c, c');
    StillInOrder(g, c, c', Abs(c'), ByWorker(w));
  }

  lemma RingIs(g: TaskGraph, c: System)
    requires Roomy(c)
    ensures c.q.ring.tail == |c.q.ring.items| == |c.q.ring.stages|
  {
  }

  /** Every step of every worker, inside the queue's operations or outside. */
  lemma WorkerGoesWell(g: TaskGraph, c: System, w: nat, how: How)
    requires SystemOk(g, c) && w < |c.d.workers|
    ensures CanGo(g, c, w)
    ensures var c' := WorkerStep(g, c, w, how);
      SystemOk(g, c') && (Abs(c') == Abs(c) || Abs(c') == Apply(g, Abs(c), ByWorker(w)))
  {
    hide M.Inv, Counts, Inv, IndicesFit, M.Next, M.CanStep, WorkerNext, Roomy;
    WorkerAtHand(g, c, w);
    AbsOf(c, w);
    QueueMoves(c, w, M.CallDequeue);
    var pc, tp := c.d.workers[w], c.q.threads[w];
    if pc.Looking? && Dequeues(tp) {
      DequeueGoesWell(g, c, w, how);
    } else if pc.Enqueuing? && Enqueues(tp, pc.child) {
      EnqueueGoesWell(g, c, w, how);
    } else if pc.Looking? {
      CallGoesWell(g, c, w, M.CallDequeue);
    } else if pc.Enqueuing? {
      CallGoesWell(g, c, w, M.CallEnqueue(pc.child));
    } else {
      OwnStepGoesWell(g, c, w);
    }
  }

  /** What the invariant says about the main thread as the system has it. */
  lemma MainAtHand(g: TaskGraph, c: System)
    requires SystemOk(g, c)
    ensures MainFits(g, c.d) && MainFits(g, Abs(c)) && |c.d.status| == MAX_NODES && Shaped(c)
    ensures c.d.main.SeedEnqueuing? && !Placed(c.q.threads[|c.d.workers|]) ==>
      |Abs(c).queue| < MAX_NODES && c.d.status[SeedId(g, c.d, c.d.main.node)] == Picked
  {
    var s := Abs(c);
    hide M.Inv, Counts, Roomy;
    assert MainFits(g, s);
    assert |s.status| == MAX_NODES by { InvFits(g, s); }
    if c.d.main.SeedEnqueuing? && !Placed(c.q.threads[|c.d.workers|]) {
      assert s.main == c.d.main;
      hide WellFormed, HandsOk, QueueOk, ChosenOk, LogOk, PhaseUnderWay, IndicesFit;
      assert PickedIs(s, SeedId(g, c.d, c.d.main.node));
      RoomFor(g, s, SeedId(g, c.d, c.d.main.node));
    }
  }

  lemma SeedGoesWell(g: TaskGraph, c: System, how: How)
    requires SystemOk(g, c) && c.d.main.SeedEnqueuing?
      && Enqueues(c.q.threads[|c.d.workers|], SeedId(g, c.d, c.d.main.node))
    ensures CanGo(g, c, |c.d.workers|)
    ensures var c' := MainStep(g, c, how);
      SystemOk(g, c') && (Abs(c') == Abs(c) || Abs(c') == Apply(g, Abs(c), ByMain))
  {
    hide M.Inv, Counts, Inv, IndicesFit, M.Next, M.CanStep, MainNext, Roomy, EnteredStays;
    MainAtHand(g, c);
    var n := |c.d.workers|;
    assert !Reseeds(g, Abs(c)) && !LeavesEarly(Abs(c));
    MainKeepsEntered(g, Abs(c));
    SeedFits(g, c, how);
    var c' := MainStep(g, c, how);
    Entering(g, c, c', Abs(c'));
    var id := SeedId(g, c.d, c.d.main.node);
    EnqueueFacts(c.q, n, ActionOf(how), id);
    EnqueueKeepsRoomy(g, c, n, how, id);
    hide Reseeds, LeavesEarly;
    StillInOrder(g, c, c', Abs(c'), ByMain);
  }

  lemma OwnMainGoesWell(g: TaskGraph, c: System)
    requires SystemOk(g, c) && c.q.threads[|c.d.workers|].Idle? && !c.d.main.SeedEnqueuing?
    requires !GoesWrong(g, Abs(c), ByMain)
    ensures MainFits(g, c.d)
    ensures var c' := c.(d := MainNext(g, c.d)); SystemOk(g, c') && Abs(c') == Apply(g, Abs(c), ByMain)
  {
    hide M.Inv, Counts, Inv, Reseeds, LeavesEarly, IndicesFit, MainNext, Roomy, EnteredStays;
    MainAtHand(g, c);
    MainKeepsEntered(g, Abs(c));
    OwnMainFits(g, c);
    var c' := c.(d := MainNext(g, c.d));
    Entering(g, c, c', Abs(c'));
    RingIs(g, c);
    RoomyStays(c, c');
    StillInOrder(g, c, c', Abs(c'), ByMain);
  }

  /** Every step of the main thread that neither reseeds nor leaves early. */
  lemma MainGoesWell(g: TaskGraph, c: System, how: How)
    requires SystemOk(g, c)
    requires MainFits(g, Abs(c)) ==> !GoesWrong(g, Abs(c), ByMain)
    ensures CanGo(g, c, |c.d.workers|)
    ensures var c' := MainStep(g, c, how);
      SystemOk(g, c') && (Abs(c') == Abs(c) || Abs(c') == Apply(g, Abs(c), ByMain))
  {
    hide M.Inv, Counts, Inv, IndicesFit, M.Next, M.CanStep, MainNext, Roomy, Reseeds, LeavesEarly;
    MainAtHand(g, c);
    var n := |c.d.workers|;
    QueueMoves(c, n, M.CallDequeue);
    if !c.q.threads[n].Idle? {
      SeedGoesWell(g, c, how);
    } else if c.d.main.SeedEnqueuing? {
      CallGoesWell(g, c, n, M.CallEnqueue(SeedId(g, c.d, c.d.main.node)));
    } else {
      OwnMainGoesWell(g, c);
    }
  }

  /** While the main thread is outside every position is given back and no operation is under way but
      for workers that look into the empty queue: the barrier at work. */
  lemma OutsideIsDrained(g: TaskGraph, c: System)
    requires SystemOk(g, c) && c.d.main.Outside?
    ensures c.q.head == c.q.ring.tail == |c.q.ring.stages|
    ensures forall p {:trigger c.q.ring.stages[p]} :: 0 <= p < c.q.ring.tail ==> c.q.ring.stages[p].Released?
    ensures forall t, item :: 0 <= t < |c.q.threads| ==> !Enqueues(c.q.threads[t], item)
  {
    var s := Abs(c);
    assert s.main == c.d.main;
    OutsideIsIdle(g, s);
    hide Inv, Counts, Roomy;
    assert |s.queue| == c.q.ring.tail - c.q.head;
    forall w | 0 <= w < |c.d.workers|
      ensures c.q.threads[w].Idle? || (Dequeues(c.q.threads[w]) && !Holding(c.q.threads[w]))
    {
      NotHolding(g, c, w);
    }
    forall p | 0 <= p < c.q.ring.tail ensures c.q.ring.stages[p].Released? {
      assert M.OwnerInv(c.q, p, c.q.ring.stages[p]);
    }
  }

  lemma NotHolding(g: TaskGraph, c: System, w: nat)
    requires M.Inv(MAX_NODES, c.q) && Coupled(g, c) && w < |c.d.workers| && NobodyCarries(Abs(c))
    ensures c.q.threads[w].Idle? || (Dequeues(c.q.threads[w]) && !Holding(c.q.threads[w]))
  {
    assert M.PcInv(MAX_NODES, c.q, w, c.q.threads[w]);
    hide M.Inv, IndicesFit;
    AbsOf(c, w);
    assert !Carries(Abs(c).workers[w]);
  }

  lemma BeginGoesWell(g: TaskGraph, c: System, k: nat)
    requires SystemOk(g, c) && c.d.main.Outside? && k < PHASES && (k == INPUT || k == c.d.main.next)
    ensures SystemOk(g, BeginTickStep(c, k)) && Abs(BeginTickStep(c, k)) == Apply(g, Abs(c), Begin(k))
  {
    OutsideIsDrained(g, c);
    hide M.Inv, Counts, Inv, IndicesFit;
    BeginFits(g, c, k);
    var c' := BeginTickStep(c, k);
    assert c'.q.ring.items[c'.base..] == [];
    SoundMoveKeepsInv(g, Abs(c), Begin(k));
  }

  // ---- whole runs ----

  function MoveOf(m: SystemMove): Move {
    match m
    case BeginTick(k) => Begin(k)
    case MainGoes(_) => ByMain
    case WorkerGoes(w, _) => ByWorker(w)
  }

  /** The move takes the system from one state to the other; what happens once an index does not fit
      is left open. */
  ghost predicate StepsTo(g: TaskGraph, c: System, m: SystemMove, c': System) {
    match m
    case BeginTick(k) => c' == if c.d.main.Outside? && k < PHASES then BeginTickStep(c, k) else c
    case MainGoes(how) => CanGo(g, c, |c.d.workers|) ==> c' == MainStep(g, c, how)
    case WorkerGoes(w, how) => if w < |c.d.workers| then CanGo(g, c, w) ==> c' == WorkerStep(g, c, w, how) else c' == c
  }

  /** A run from the start in which the phases are asked for in order. */
  ghost predicate IsRun(g: TaskGraph, states: seq<System>, moves: seq<SystemMove>) {
    && |states| == |moves| + 1 && Start(g, states[0])
    && forall i {:trigger moves[i]} :: 0 <= i < |moves| ==>
         StepsTo(g, states[i], moves[i], states[i + 1]) && InOrder(states[i].d, MoveOf(moves[i]))
  }

  lemma StartIsOk(g: TaskGraph, c: System)
    requires WellFormed(g) && Start(g, c)
    ensures SystemOk(g, c)
  {
    M.InitInv(MAX_NODES, c.q);
    hide M.Inv;
    assert Shaped(c);
    var s := Abs(c);
    forall w | 0 <= w < |c.d.workers| ensures s.workers[w] == Looking { AbsOf(c, w); }
    assert Init(g, s);
    InitCounts(g, s);
    InitInv(g, s);
    hide Counts, Inv, WellFormed, IndicesFit;
    GraphFitsStart(g, c);
  }

  lemma GraphFitsStart(g: TaskGraph, c: System)
    requires Start(g, c) && Shaped(c)
    ensures Coupled(g, c) && Roomy(c)
  {
    hide IndicesFit;
  }

  lemma StepKeepsOk(g: TaskGraph, c: System, m: SystemMove, c': System)
    requires SystemOk(g, c) && StepsTo(g, c, m, c') && InOrder(c.d, MoveOf(m)) && !GoesWrong(g, Abs(c), MoveOf(m))
    ensures SystemOk(g, c') && InOrder(Abs(c), MoveOf(m))
      && (Abs(c') == Abs(c) || Abs(c') == Apply(g, Abs(c), MoveOf(m)))
  {
    assert c.d.main.Outside? <==> Abs(c).main.Outside?;
    assert c.d.main.Outside? ==> Abs(c).main == c.d.main;
    hide M.Inv, Counts, Inv, IndicesFit, Roomy, Reseeds, LeavesEarly, Coupled, CanGo;
    match m
    case BeginTick(k) => if c.d.main.Outside? && k < PHASES { BeginGoesWell(g, c, k); }
    case MainGoes(how) => MainGoesWell(g, c, how);
    case WorkerGoes(w, how) => if w < |c.d.workers| { WorkerGoesWell(g, c, w, how); }
  }

  lemma OkShape(g: TaskGraph, c: System)
    requires SystemOk(g, c)
    ensures Shaped(c) && MainFits(g, Abs(c)) && Counts(g, Abs(c)) && Inv(g, Abs(c)) && !c.rejected
  {
    hide M.Inv, Inv, Roomy;
  }

  /** No thread has just been told that the queue is full. */
  ghost predicate NoneRefused(c: System) {
    forall t :: 0 <= t < |c.q.threads| ==> c.q.threads[t] != M.Idle(M.Full)
  }

  lemma QueueStepRefuses(q: M.Queue<nat>, t: nat, a: M.Action<nat>)
    requires M.CanStep(MAX_NODES, q, t)
    ensures var q' := M.Next(MAX_NODES, q, t, a);
      && |q'.threads| == |q.threads| && (forall u :: 0 <= u < |q.threads| && u != t ==> q'.threads[u] == q.threads[u])
      && (q.threads[t].Idle? && (a.CallEnqueue? || a.CallDequeue?) ==> !q'.threads[t].Idle?)
  {
    if q.threads[t].Idle? && (a.CallEnqueue? || a.CallDequeue?) {
      CallBegins(q, t, a);
    }
    hide M.Next, M.CanStep;
    forall u: nat | u < |q.threads| && u != t
      ensures |M.Next(MAX_NODES, q, t, a).threads| == |q.threads|
      ensures M.Next(MAX_NODES, q, t, a).threads[u] == q.threads[u]
    {
      M.OtherLeavesThread(MAX_NODES, q, t, u, a);
    }
    SameThreadCount(q, t, a);
  }

  lemma CallBegins(q: M.Queue<nat>, t: nat, a: M.Action<nat>)
    requires M.CanStep(MAX_NODES, q, t) && q.threads[t].Idle? && (a.CallEnqueue? || a.CallDequeue?)
    ensures var q' := M.Next(MAX_NODES, q, t, a); t < |q'.threads| && !q'.threads[t].Idle?
  {
  }

  lemma SameThreadCount(q: M.Queue<nat>, t: nat, a: M.Action<nat>)
    requires M.CanStep(MAX_NODES, q, t)
    ensures |M.Next(MAX_NODES, q, t, a).threads| == |q.threads|
  {
  }

  lemma WorkerRefusesNone(g: TaskGraph, c: System, w: nat, how: How)
    requires CanGo(g, c, w) && w < |c.d.workers| && NoneRefused(c) && !WorkerStep(g, c, w, how).rejected
    ensures NoneRefused(WorkerStep(g, c, w, how))
  {
    var pc := c.d.workers[w];
    QueueStepRefuses(c.q, w, ActionOf(how));
    QueueStepRefuses(c.q, w, M.CallDequeue);
    if pc.Enqueuing? { QueueStepRefuses(c.q, w, M.CallEnqueue(pc.child)); }
    hide M.Next, M.CanStep, WorkerNext, Won, WorkerReturns;
  }

  lemma MainRefusesNone(g: TaskGraph, c: System, how: How)
    requires CanGo(g, c, |c.d.workers|) && NoneRefused(c) && !MainStep(g, c, how).rejected
    ensures NoneRefused(MainStep(g, c, how))
  {
    var n := |c.d.workers|;
    QueueStepRefuses(c.q, n, ActionOf(how));
    if c.d.main.SeedEnqueuing? {
      QueueStepRefuses(c.q, n, M.CallEnqueue(SeedId(g, c.d, c.d.main.node)));
    }
    hide M.Next, M.CanStep, MainNext, Won;
  }

  lemma StepRefusesNone(g: TaskGraph, c: System, m: SystemMove, c': System)
    requires SystemOk(g, c) && StepsTo(g, c, m, c') && !GoesWrong(g, Abs(c), MoveOf(m)) && NoneRefused(c)
    requires !c'.rejected
    ensures NoneRefused(c')
  {
    hide SystemOk, CanGo, WorkerStep, MainStep, GoesWrong, NoneRefused;
    match m
    case BeginTick(k) =>
      assert c'.q == c.q;
      assert NoneRefused(c') by { SameQueueRefuses(c, c'); }
    case MainGoes(how) =>
      MainGoesWell(g, c, how);
      MainRefusesNone(g, c, how);
    case WorkerGoes(w, how) =>
      if w < |c.d.workers| {
        WorkerGoesWell(g, c, w, how);
        WorkerRefusesNone(g, c, w, how);
      }
  }

  lemma SameQueueRefuses(c: System, c': System)
    requires c'.q == c.q && NoneRefused(c)
    ensures NoneRefused(c')
  {
  }

  /** The main thread neither reseeds nor leaves early in the run. */
  ghost predicate SoundRun(g: TaskGraph, states: seq<System>, moves: seq<SystemMove>)
    requires |states| == |moves| + 1
  {
    forall i {:trigger moves[i]} :: 0 <= i < |moves| && Shaped(states[i]) && MainFits(g, Abs(states[i])) ==>
      !GoesWrong(g, Abs(states[i]), MoveOf(moves[i]))
  }

  lemma {:induction false} RunStaysOk(g: TaskGraph, states: seq<System>, moves: seq<SystemMove>, n: nat)
    requires WellFormed(g) && IsRun(g, states, moves) && SoundRun(g, states, moves) && n <= |moves|
    ensures SystemOk(g, states[n]) && NoneRefused(states[n])
    decreases n
  {
    hide SystemOk, StepsTo, InOrder, GoesWrong, WellFormed, Start, NoneRefused;
    if n == 0 {
      StartIsOk(g, states[0]);
      StartRefusesNone(g, states[0]);
    } else {
      RunStaysOk(g, states, moves, n - 1);
      OkShape(g, states[n - 1]);
      assert moves[n - 1] == moves[n - 1];
      hide Shaped, MainFits;
      StepKeepsOk(g, states[n - 1], moves[n - 1], states[n]);
      OkShape(g, states[n]);
      StepRefusesNone(g, states[n - 1], moves[n - 1], states[n]);
    }
  }

  lemma StartRefusesNone(g: TaskGraph, c: System)
    requires Start(g, c)
    ensures NoneRefused(c)
  {
    hide IndicesFit;
  }

  /** The dispatcher on its real queue, over any number of ticks of any run in which the main thread
      neither reseeds nor leaves early, whatever the interleaving of the queue's atomic steps: no
      Enqueue ever returns false, and every tick is a linear extension. */
  lemma SoundSystem(g: TaskGraph, states: seq<System>, moves: seq<SystemMove>)
    requires WellFormed(g) && IsRun(g, states, moves) && SoundRun(g, states, moves)
    ensures forall n {:trigger states[n]} :: 0 <= n <= |moves| ==>
      Shaped(states[n]) && NoneRefused(states[n]) && TicksWell(g, Abs(states[n]))
  {
    forall n | 0 <= n <= |moves| ensures Shaped(states[n]) && NoneRefused(states[n]) && TicksWell(g, Abs(states[n])) {
      RunStaysOk(g, states, moves, n);
      OkShape(g, states[n]);
      InvTicksWell(g, Abs(states[n]));
    }
  }

  lemma {:induction false} SafeSystem(g: TaskGraph, states: seq<System>, moves: seq<SystemMove>, n: nat)
    requires WellFormed(g) && IsRun(g, states, moves) && SafeGraph(g, |states[0].d.workers|) && n <= |moves|
    ensures SystemOk(g, states[n]) && SafeSoFar(g, Abs(states[n])) && |Abs(states[n]).workers| == |states[0].d.workers|
    ensures n < |moves| ==> !GoesWrong(g, Abs(states[n]), MoveOf(moves[n]))
    decreases n
  {
    hide SystemOk, StepsTo, GoesWrong, WellFormed, Start, SafeGraph, SafeSoFar, Inv, Counts, InOrder;
    if n == 0 {
      StartIsOk(g, states[0]);
      OkShape(g, states[0]);
      StartIsFree(g, states[0]);
    } else {
      SafeSystem(g, states, moves, n - 1);
      OkShape(g, states[n - 1]);
      assert moves[n - 1] == moves[n - 1];
      hide Shaped, MainFits, Abs;
      StepKeepsOk(g, states[n - 1], moves[n - 1], states[n]);
      OkShape(g, states[n]);
      SafeMove(g, Abs(states[n - 1]), MoveOf(moves[n - 1]));
    }
    if n < |moves| {
      assert moves[n] == moves[n];
      OkShape(g, states[n]);
      AbsInOrder(states[n], MoveOf(moves[n]));
      SafeMove(g, Abs(states[n]), MoveOf(moves[n]));
    }
  }

  lemma AbsInOrder(c: System, m: Move)
    requires Shaped(c) && InOrder(c.d, m)
    ensures InOrder(Abs(c), m)
  {
  }

  lemma StartIsFree(g: TaskGraph, c: System)
    requires Start(g, c) && Shaped(c)
    ensures SafeSoFar(g, Abs(c)) && HeldBack(g, Abs(c)) && |Abs(c).workers| == |c.d.workers|
  {
    var s := Abs(c);
    forall w | 0 <= w < |s.workers| ensures s.workers[w] == Looking { AbsOf(c, w); }
    assert |g.phaseRanges| == PHASES;
    hide IndicesFit;
  }

  /** For safe graphs no run needs a condition: no Enqueue returns false, and every tick is a linear
      extension. */
  lemma NeverRejectsOnSafeGraphs(g: TaskGraph, states: seq<System>, moves: seq<SystemMove>)
    requires WellFormed(g) && IsRun(g, states, moves) && SafeGraph(g, |states[0].d.workers|)
    ensures forall n {:trigger states[n]} :: 0 <= n <= |moves| ==>
      Shaped(states[n]) && NoneRefused(states[n]) && TicksWell(g, Abs(states[n]))
  {
    hide SafeGraph;
    forall i | 0 <= i < |moves| && Shaped(states[i]) && MainFits(g, Abs(states[i]))
      ensures !GoesWrong(g, Abs(states[i]), MoveOf(moves[i]))
    {
      SafeSystem(g, states, moves, i);
    }
    SoundSystem(g, states, moves);
  }

  /** (S) and (C) as they look in the system: a worker counts from the moment it wins its position. */
  ghost predicate ObeysAll(states: seq<System>, moves: seq<SystemMove>)
    requires |states| == |moves| + 1
  {
    forall i {:trigger moves[i]} :: 0 <= i < |moves| && Shaped(states[i]) ==>
      ObeysS(Abs(states[i]), MoveOf(moves[i])) && ObeysC(Abs(states[i]), MoveOf(moves[i]))
  }

  lemma {:induction false} HeldBackSystem(g: TaskGraph, states: seq<System>, moves: seq<SystemMove>, n: nat)
    requires WellFormed(g) && IsRun(g, states, moves) && ObeysAll(states, moves) && n <= |moves|
    ensures SystemOk(g, states[n]) && HeldBack(g, Abs(states[n]))
    ensures n < |moves| ==> !GoesWrong(g, Abs(states[n]), MoveOf(moves[n]))
    decreases n
  {
    hide SystemOk, StepsTo, GoesWrong, WellFormed, Start, HeldBack, Inv, Counts, InOrder, ObeysS, ObeysC;
    if n == 0 {
      StartIsOk(g, states[0]);
      OkShape(g, states[0]);
      StartIsFree(g, states[0]);
    } else {
      HeldBackSystem(g, states, moves, n - 1);
      OkShape(g, states[n - 1]);
      assert moves[n - 1] == moves[n - 1];
      StepKeepsOk(g, states[n - 1], moves[n - 1], states[n]);
      OkShape(g, states[n]);
      HeldBackMove(g, Abs(states[n - 1]), MoveOf(moves[n - 1]));
    }
    if n < |moves| {
      assert moves[n] == moves[n];
      OkShape(g, states[n]);
      AbsInOrder(states[n], MoveOf(moves[n]));
      HeldBackMove(g, Abs(states[n]), MoveOf(moves[n]));
    }
  }

  /** Under (S) and (C), for every well-formed graph, any number of workers and any number of ticks: no
      Enqueue returns false, so the assertions on its result hold, and every tick is a linear
      extension. */
  lemma ReadyQueueNeverRejects(g: TaskGraph, states: seq<System>, moves: seq<SystemMove>)
    requires WellFormed(g) && IsRun(g, states, moves) && ObeysAll(states, moves)
    ensures forall n {:trigger states[n]} :: 0 <= n <= |moves| ==>
      Shaped(states[n]) && NoneRefused(states[n]) && TicksWell(g, Abs(states[n]))
  {
    forall i | 0 <= i < |moves| && Shaped(states[i]) && MainFits(g, Abs(states[i]))
      ensures !GoesWrong(g, Abs(states[i]), MoveOf(moves[i]))
    {
      HeldBackSystem(g, states, moves, i);
    }
    SoundSystem(g, states, moves);
  }

  // ---- what is looked up ----

  /** After a successful Validate, every id that a worker executes resolves to a function and is an
      index within the counters, in every state of a run in which nothing goes wrong. */
  lemma ExecutedTasksResolve(registry: TaskRegistry, g: TaskGraph, states: seq<System>, moves: seq<SystemMove>, n: nat,
      w: nat)
    requires registry.Valid() && forall i :: 0 <= i < |g.nodes| ==>
      g.nodes[i].id < 256 && registry.registry[g.nodes[i].id] != None
    requires WellFormed(g) && IsRun(g, states, moves) && SoundRun(g, states, moves) && n <= |moves|
    ensures var d := states[n].d;
      && |d.remaining| == MAX_NODES
      && (w < |d.workers| && d.workers[w].Executing? ==>
        d.workers[w].id < 256 && registry.Resolve(d.workers[w].id) == registry.registry[d.workers[w].id] != None)
  {
    RunStaysOk(g, states, moves, n);
    var c := states[n];
    OkShape(g, c);
    InvFits(g, Abs(c));
    hide IsRun, SystemOk, Inv, Counts, WellFormed, SoundRun;
    if w < |c.d.workers| && c.d.workers[w].Executing? {
      AbsOf(c, w);
      WorkerOfInv(g, Abs(c), w);
    }
  }
}
