/** The multi-producer multi-consumer queue as a step machine: every atomic load, compare and
    swap, storage access and sequence store is one step of one thread, and the threads take
    their steps in any order (sequentially consistent atomics). */
module Mpmc {
  import opened SlotRing

  datatype Outcome<T> =
    | Nothing
    | Enqueued
    | Full
    | Dequeued(value: T)
    | Empty
    | Size(size: nat)

  /** Where a thread stands, with its local `pos` and the value it carries. */
  datatype Pc<T> =
    | Idle(last: Outcome<T>)
    | EnqueueLoadTail(item: T)
    | EnqueueLoadSequence(item: T, pos: nat)
    | EnqueueCas(item: T, pos: nat)
    | EnqueueWrite(item: T, pos: nat)
    | EnqueuePublish(item: T, pos: nat)
    | DequeueLoadHead
    | DequeueLoadSequence(pos: nat)
    | DequeueCas(pos: nat)
    | DequeueRead(pos: nat)
    | DequeueRelease(value: T, pos: nat)
    | SizeLoadTail
    | SizeLoadHead(tail: nat)

  /** What the scheduler may ask of a thread.  `residue` is what a move leaves in the slot. */
  datatype Action<T> =
    | CallEnqueue(item: T)
    | CallDequeue
    | CallSize
    | Step(residue: T)
    | FailSpuriously  // compare_exchange_weak may fail although the values agree

  /** `delivered[p]` is the value returned by the Dequeue that won position `p`; `producers[p]` and
      `consumers[p]` are the threads whose Enqueue and Dequeue won it. */
  datatype Queue<T> = Queue(head: nat, ring: Ring<T>, threads: seq<Pc<T>>, delivered: map<nat, T>,
                            producers: seq<nat>, consumers: seq<nat>)

  ghost predicate Init<T>(cap: nat, s: Queue<T>) {
    && 2 <= cap == |s.ring.slots|
    && s.head == s.ring.tail == 0
    && s.ring.items == [] && s.ring.stages == [] && s.delivered == map[] && s.producers == s.consumers == []
    && (forall i :: 0 <= i < cap ==> s.ring.slots[i].sequence == i)
    && (forall t :: 0 <= t < |s.threads| ==> s.threads[t] == Idle(Nothing))
  }

  predicate ClaimedByConsumer(st: Stage) {
    st.Taken? || st.Drained? || st.Released?
  }

  ghost predicate PcInv<T>(cap: nat, s: Queue<T>, t: nat, pc: Pc<T>)
    requires |s.ring.items| == |s.ring.stages| == s.ring.tail
  {
    match pc
    case EnqueueLoadSequence(_, pos) => pos <= s.ring.tail
    case EnqueueCas(_, pos) => pos <= s.ring.tail && (pos == s.ring.tail ==> GivenBack(s.ring, pos - cap))
    case EnqueueWrite(item, pos) => pos < s.ring.tail && s.ring.stages[pos] == Claimed(t) && s.ring.items[pos] == item
    case EnqueuePublish(item, pos) => pos < s.ring.tail && s.ring.stages[pos] == Stored(t) && s.ring.items[pos] == item
    case DequeueLoadSequence(pos) => pos <= s.head
    case DequeueCas(pos) => pos <= s.head && (pos == s.head ==> pos < s.ring.tail && s.ring.stages[pos].Published?)
    case DequeueRead(pos) => pos < s.ring.tail && s.ring.stages[pos] == Taken(t)
    case DequeueRelease(value, pos) => pos < s.ring.tail && s.ring.stages[pos] == Drained(t)
      && s.ring.items[pos] == value
    case SizeLoadHead(tail) => tail <= s.head + cap
    case _ => true
  }

  ghost predicate OwnerInv<T>(s: Queue<T>, p: nat, st: Stage) {
    match st
    case Claimed(o) => o < |s.threads| && s.threads[o].EnqueueWrite? && s.threads[o].pos == p
    case Stored(o) => o < |s.threads| && s.threads[o].EnqueuePublish? && s.threads[o].pos == p
    case Taken(o) => o < |s.threads| && s.threads[o].DequeueRead? && s.threads[o].pos == p
    case Drained(o) => o < |s.threads| && s.threads[o].DequeueRelease? && s.threads[o].pos == p
    case _ => true
  }

  ghost predicate Inv<T>(cap: nat, s: Queue<T>) {
    && RingInv(cap, s.ring)
    && s.head <= s.ring.tail <= s.head + cap
    && |s.producers| == s.ring.tail && |s.consumers| == s.head
    && (forall p {:trigger s.ring.stages[p]} :: 0 <= p < s.ring.tail ==>
          (ClaimedByConsumer(s.ring.stages[p]) <==> p < s.head))
    && (forall p {:trigger s.ring.stages[p]} :: 0 <= p < s.ring.tail ==> OwnerInv(s, p, s.ring.stages[p]))
    && (forall t {:trigger s.threads[t]} :: 0 <= t < |s.threads| ==> PcInv(cap, s, t, s.threads[t]))
    && (forall p: nat {:trigger p in s.delivered} ::
          p in s.delivered <==> p < s.ring.tail && s.ring.stages[p].Released?)
    && (forall p: nat {:trigger s.delivered[p]} :: p in s.delivered ==>
      p < s.ring.tail && s.delivered[p] == s.ring.items[p])
  }

  /** What a step of thread `t` relies on. */
  ghost predicate CanStep<T>(cap: nat, s: Queue<T>, t: nat) {
    && 0 < cap == |s.ring.slots| && t < |s.threads|
    && |s.ring.items| == |s.ring.stages| == s.ring.tail
    && PcInv(cap, s, t, s.threads[t])
  }

  /** One step of thread `t`; an action the thread cannot take leaves the state as it is. */
  function Next<T>(cap: nat, s: Queue<T>, t: nat, a: Action<T>): Queue<T>
    requires CanStep(cap, s, t)
  {
    match (s.threads[t], a)
    case (Idle(_), CallEnqueue(item)) => Goto(s, t, EnqueueLoadTail(item))
    case (Idle(_), CallDequeue) => Goto(s, t, DequeueLoadHead)
    case (Idle(_), CallSize) => Goto(s, t, SizeLoadTail)

    case (EnqueueLoadTail(item), Step(_)) => Goto(s, t, EnqueueLoadSequence(item, s.ring.tail))
    case (EnqueueLoadSequence(item, pos), Step(_)) =>
      var diff := SlotAt(cap, s.ring, pos).sequence - pos;
      if diff == 0 then Goto(s, t, EnqueueCas(item, pos))
      else if diff < 0 then Goto(s, t, Idle(Full))
      else Goto(s, t, EnqueueLoadTail(item))
    case (EnqueueCas(item, pos), Step(_)) =>
      if s.ring.tail == pos then
        Goto(s.(ring := Claim(s.ring, item, t), producers := s.producers + [t]), t, EnqueueWrite(item, pos))
      else
        Goto(s, t, EnqueueLoadSequence(item, s.ring.tail))
    case (EnqueueCas(item, pos), FailSpuriously) => Goto(s, t, EnqueueLoadSequence(item, s.ring.tail))
    case (EnqueueWrite(item, pos), Step(_)) =>
      Goto(s.(ring := WithStorage(cap, s.ring, pos, item, Stored(t))), t, EnqueuePublish(item, pos))
    case (EnqueuePublish(item, pos), Step(_)) =>
      Goto(s.(ring := WithSequence(cap, s.ring, pos, pos + 1, Published)), t, Idle(Enqueued))

    case (DequeueLoadHead, Step(_)) => Goto(s, t, DequeueLoadSequence(s.head))
    case (DequeueLoadSequence(pos), Step(_)) =>
      var diff := SlotAt(cap, s.ring, pos).sequence - (pos + 1);
      if diff == 0 then Goto(s, t, DequeueCas(pos))
      else if diff < 0 then Goto(s, t, Idle(Empty))
      else Goto(s, t, DequeueLoadHead)
    case (DequeueCas(pos), Step(_)) =>
      if s.head == pos then
        Goto(s.(head := pos + 1, ring := s.ring.(stages := s.ring.stages[pos := Taken(t)]),
          consumers := s.consumers + [t]), t,
             DequeueRead(pos))
      else
        Goto(s, t, DequeueLoadSequence(s.head))
    case (DequeueCas(pos), FailSpuriously) => Goto(s, t, DequeueLoadSequence(s.head))
    case (DequeueRead(pos), Step(residue)) =>
      Goto(s.(ring := WithStorage(cap, s.ring, pos, residue, Drained(t))), t,
           DequeueRelease(SlotAt(cap, s.ring, pos).storage, pos))
    case (DequeueRelease(value, pos), Step(_)) =>
      Goto(s.(ring := WithSequence(cap, s.ring, pos, pos + cap, Released), delivered := s.delivered[pos := value]), t,
           Idle(Dequeued(value)))

    case (SizeLoadTail, Step(_)) => Goto(s, t, SizeLoadHead(s.ring.tail))
    case (SizeLoadHead(tail), Step(_)) => Goto(s, t, Idle(Size(if tail >= s.head then tail - s.head else 0)))
    case _ => s
  }

  function Goto<T>(s: Queue<T>, t: nat, pc: Pc<T>): Queue<T>
    requires t < |s.threads|
  {
    s.(threads := s.threads[t := pc])
  }

  // ---- the verdict of a sequence load ----

  /** Enqueue gives up exactly when, at its sequence load, its position is the tail and the
      occupant one lap back has not given the slot back; it reloads only when its position
      is stale.  However old the position is, it may be up to any number of laps behind. */
  lemma EnqueueVerdict<T>(cap: nat, s: Queue<T>, pos: nat)
    requires Inv(cap, s) && pos <= s.ring.tail
    ensures SlotAt(cap, s.ring, pos).sequence < pos <==> pos == s.ring.tail && !GivenBack(s.ring, pos - cap)
    ensures SlotAt(cap, s.ring, pos).sequence > pos ==> pos < s.ring.tail
  {
    ProducerVerdict(cap, s.ring, pos);
  }

  /** Dequeue gives up exactly when, at its sequence load, its position is the head and that
      position is not published; it reloads only when its position is stale. */
  lemma DequeueVerdict<T>(cap: nat, s: Queue<T>, pos: nat)
    requires Inv(cap, s) && pos <= s.head
    ensures SlotAt(cap, s.ring, pos).sequence < pos + 1 <==> pos == s.head && !IsPublished(s.ring, pos)
    ensures SlotAt(cap, s.ring, pos).sequence > pos + 1 ==> pos < s.head
    ensures SlotAt(cap, s.ring, pos).sequence == pos + 1 && pos == s.head ==>
              pos < s.ring.tail && s.ring.stages[pos].Published?
  {
    var q := LatestOccupant(cap, s.ring.tail, pos);
    assert SlotAt(cap, s.ring, q) == SlotAt(cap, s.ring, pos);
    assert Latest(cap, s.ring, q);
    if q != pos && pos < s.ring.tail {
      assert s.ring.stages[pos].Released?;
    }
  }

  // ---- every step keeps the invariant ----

  lemma InitInv<T>(cap: nat, s: Queue<T>)
    requires Init(cap, s)
    ensures Inv(cap, s)
  {
    FreshRing(cap, s.ring);
  }

  predicate Owns<T>(pc: Pc<T>) {
    pc.EnqueueWrite? || pc.EnqueuePublish? || pc.DequeueRead? || pc.DequeueRelease?
  }

  lemma LocalStepKeepsInv<T>(cap: nat, s: Queue<T>, t: nat, pc: Pc<T>)
    requires Inv(cap, s) && t < |s.threads|
    requires !Owns(s.threads[t]) && !Owns(pc) && PcInv(cap, s, t, pc)
    ensures Inv(cap, Goto(s, t, pc))
  {
    var s' := Goto(s, t, pc);
    forall u | 0 <= u < |s'.threads| ensures PcInv(cap, s', u, s'.threads[u]) {
      assert PcInv(cap, s, u, s.threads[u]);
    }
    forall p | 0 <= p < s'.ring.tail ensures OwnerInv(s', p, s'.ring.stages[p]) {
      assert OwnerInv(s, p, s.ring.stages[p]);
    }
  }

  lemma ProducerClaimKeepsInv<T>(cap: nat, s: Queue<T>, t: nat, item: T)
    requires Inv(cap, s) && t < |s.threads| && s.threads[t] == EnqueueCas(item, s.ring.tail)
    ensures Inv(cap, Goto(s.(ring := Claim(s.ring, item, t), producers := s.producers + [t]), t,
      EnqueueWrite(item, s.ring.tail)))
  {
    var pos := s.ring.tail;
    var s' := Goto(s.(ring := Claim(s.ring, item, t), producers := s.producers + [t]), t, EnqueueWrite(item, pos));
    EnqueueVerdict(cap, s, pos);
    assert PcInv(cap, s, t, s.threads[t]);
    ClaimKeepsRing(cap, s.ring, item, t);
    forall p | 0 <= p < s'.ring.tail
      ensures OwnerInv(s', p, s'.ring.stages[p])
      ensures ClaimedByConsumer(s'.ring.stages[p]) <==> p < s'.head
    {
      if p < pos { assert OwnerInv(s, p, s.ring.stages[p]); }
    }
    forall u | 0 <= u < |s'.threads| ensures PcInv(cap, s', u, s'.threads[u]) {
      assert PcInv(cap, s, u, s.threads[u]);
    }
  }

  /** The steps that move one position from stage to stage, the tail unchanged. */
  ghost predicate StageStep<T>(cap: nat, s: Queue<T>, t: nat, p: nat, s': Queue<T>) {
    && t < |s.threads| && p < s.ring.tail && |s.ring.stages| == |s.ring.items| == s.ring.tail
    && s'.ring.tail == s.ring.tail && s'.ring.items == s.ring.items
    && |s'.threads| == |s.threads| && s'.threads == s.threads[t := s'.threads[t]]
    && |s'.ring.stages| == |s.ring.stages| && s'.ring.stages == s.ring.stages[p := s'.ring.stages[p]]
    && !s.ring.stages[p].Released? && (s.ring.stages[p].Published? || s.ring.stages[p].owner == t)
    && (Owns(s.threads[t]) ==> s.threads[t].pos == p)
    && s'.head == (if ClaimedByConsumer(s.ring.stages[p]) == ClaimedByConsumer(s'.ring.stages[p]) then s.head
      else s.head + 1)
    && (s'.head != s.head ==> p == s.head && ClaimedByConsumer(s'.ring.stages[p]))
    && (s.ring.stages[p].Published? ==> s'.ring.stages[p].Taken?)
    && PcInv(cap, s', t, s'.threads[t]) && OwnerInv(s', p, s'.ring.stages[p])
    && s'.delivered == (if s'.ring.stages[p].Released? then s.delivered[p := s.ring.items[p]] else s.delivered)
    && s'.producers == s.producers && s'.consumers == if s'.head == s.head then s.consumers else s.consumers + [t]
  }

  lemma StageStepKeepsOthers<T>(cap: nat, s: Queue<T>, t: nat, p: nat, s': Queue<T>, u: nat)
    requires Inv(cap, s) && StageStep(cap, s, t, p, s') && u < |s.threads|
    ensures PcInv(cap, s', u, s'.threads[u])
  {
    if u != t {
      assert PcInv(cap, s, u, s.threads[u]);
      assert OwnerInv(s, p, s.ring.stages[p]);
    }
  }

  lemma StageStepKeepsInv<T>(cap: nat, s: Queue<T>, t: nat, p: nat, s': Queue<T>)
    requires Inv(cap, s) && StageStep(cap, s, t, p, s') && RingInv(cap, s'.ring)
    ensures Inv(cap, s')
  {
    forall q | 0 <= q < s'.ring.tail
      ensures OwnerInv(s', q, s'.ring.stages[q])
      ensures ClaimedByConsumer(s'.ring.stages[q]) <==> q < s'.head
    {
      if q != p { assert OwnerInv(s, q, s.ring.stages[q]); }
    }
    forall u | 0 <= u < |s'.threads| ensures PcInv(cap, s', u, s'.threads[u]) {
      StageStepKeepsOthers(cap, s, t, p, s', u);
    }
  }

  lemma ProducerStoresKeepInv<T>(cap: nat, s: Queue<T>, t: nat)
    requires Inv(cap, s) && t < |s.threads|
    requires s.threads[t].EnqueueWrite? || s.threads[t].EnqueuePublish?
    ensures forall residue :: Inv(cap, Next(cap, s, t, Step(residue)))
  {
    assert PcInv(cap, s, t, s.threads[t]);
    var pos := s.threads[t].pos;
    forall residue ensures Inv(cap, Next(cap, s, t, Step(residue))) {
      if s.threads[t].EnqueueWrite? {
        StorageStoreKeepsRing(cap, s.ring, pos, s.threads[t].item, Stored(t));
      } else {
        SequenceStoreKeepsRing(cap, s.ring, pos, pos + 1, Published);
      }
      StageStepKeepsInv(cap, s, t, pos, Next(cap, s, t, Step(residue)));
    }
  }

  lemma ConsumerClaimKeepsInv<T>(cap: nat, s: Queue<T>, t: nat)
    requires Inv(cap, s) && t < |s.threads| && s.threads[t] == DequeueCas(s.head)
    ensures forall residue :: Inv(cap, Next(cap, s, t, Step(residue)))
  {
    assert PcInv(cap, s, t, s.threads[t]);
    forall residue ensures Inv(cap, Next(cap, s, t, Step(residue))) {
      var s' := Next(cap, s, t, Step(residue));
      TakeKeepsRing(cap, s.ring, s.head, t);
      StageStepKeepsInv(cap, s, t, s.head, s');
    }
  }

  lemma ConsumerStoresKeepInv<T>(cap: nat, s: Queue<T>, t: nat, residue: T)
    requires Inv(cap, s) && t < |s.threads|
    requires s.threads[t].DequeueRead? || s.threads[t].DequeueRelease?
    ensures Inv(cap, Next(cap, s, t, Step(residue)))
  {
    assert PcInv(cap, s, t, s.threads[t]);
    var pos := s.threads[t].pos;
    assert Latest(cap, s.ring, pos);
    if s.threads[t].DequeueRead? {
      assert SlotAt(cap, s.ring, pos).storage == s.ring.items[pos];
      StorageStoreKeepsRing(cap, s.ring, pos, residue, Drained(t));
    } else {
      SequenceStoreKeepsRing(cap, s.ring, pos, pos + cap, Released);
    }
    StageStepKeepsInv(cap, s, t, pos, Next(cap, s, t, Step(residue)));
  }

  /** Does the thread's next step win a position? */
  predicate WinsPosition<T>(s: Queue<T>, t: nat)
    requires t < |s.threads|
  {
    match s.threads[t]
    case EnqueueCas(_, pos) => pos == s.ring.tail
    case DequeueCas(pos) => pos == s.head
    case _ => false
  }

  lemma QuietStepMovesOn<T>(cap: nat, s: Queue<T>, t: nat, a: Action<T>)
    requires CanStep(cap, s, t) && !Owns(s.threads[t]) && !(a.Step? && WinsPosition(s, t))
    requires s.head <= s.ring.tail <= s.head + cap
    requires s.threads[t].EnqueueLoadSequence? ==>
               var pos := s.threads[t].pos; SlotAt(cap, s.ring, pos).sequence == pos == s.ring.tail ==>
                 GivenBack(s.ring, pos - cap)
    requires s.threads[t].DequeueLoadSequence? ==>
               var pos := s.threads[t].pos;
               SlotAt(cap, s.ring, pos).sequence == pos + 1 && pos == s.head ==>
                 pos < s.ring.tail && s.ring.stages[pos].Published?
    ensures var s' := Next(cap, s, t, a);
      t < |s'.threads| && s' == Goto(s, t, s'.threads[t]) && !Owns(s'.threads[t]) && PcInv(cap, s, t, s'.threads[t])
  {
  }

  lemma QuietStepKeepsInv<T>(cap: nat, s: Queue<T>, t: nat, a: Action<T>)
    requires Inv(cap, s) && t < |s.threads| && !Owns(s.threads[t]) && !(a.Step? && WinsPosition(s, t))
    ensures CanStep(cap, s, t) && Inv(cap, Next(cap, s, t, a))
  {
    assert PcInv(cap, s, t, s.threads[t]);
    if s.threads[t].EnqueueLoadSequence? { EnqueueVerdict(cap, s, s.threads[t].pos); }
    if s.threads[t].DequeueLoadSequence? { DequeueVerdict(cap, s, s.threads[t].pos); }
    QuietStepMovesOn(cap, s, t, a);
    LocalStepKeepsInv(cap, s, t, Next(cap, s, t, a).threads[t]);
  }

  lemma NextKeepsInv<T>(cap: nat, s: Queue<T>, t: nat, a: Action<T>)
    requires Inv(cap, s) && t < |s.threads|
    ensures CanStep(cap, s, t) && Inv(cap, Next(cap, s, t, a))
  {
    assert PcInv(cap, s, t, s.threads[t]);
    if Owns(s.threads[t]) {
      if a.Step? {
        if s.threads[t].DequeueRead? || s.threads[t].DequeueRelease? {
          ConsumerStoresKeepInv(cap, s, t, a.residue);
        } else {
          ProducerStoresKeepInv(cap, s, t);
        }
      }
    } else if a.Step? && WinsPosition(s, t) {
      if s.threads[t].EnqueueCas? {
        ProducerClaimKeepsInv(cap, s, t, s.threads[t].item);
      } else {
        ConsumerClaimKeepsInv(cap, s, t);
      }
    } else {
      QuietStepKeepsInv(cap, s, t, a);
    }
  }

  // ---- histories only grow ----

  /** `later` is what became of a position whose stage was `st`. */
  predicate StageLeadsTo(st: Stage, later: Stage) {
    match st
    case Claimed(o) => later == st || (later.Stored? && later.owner == o) || later.Published?
      || ClaimedByConsumer(later)
    case Stored(_) => later == st || later.Published? || ClaimedByConsumer(later)
    case Published => later == st || ClaimedByConsumer(later)
    case Taken(o) => later == st || (later.Drained? && later.owner == o) || later.Released?
    case Drained(_) => later == st || later.Released?
    case Released => later == st
  }

  ghost predicate Extends<T>(s: Queue<T>, r: Queue<T>)
    requires |s.ring.stages| == |s.ring.items| && |r.ring.stages| == |r.ring.items|
  {
    && |r.threads| == |s.threads|
    && s.head <= r.head && s.ring.tail <= r.ring.tail
    && s.ring.items <= r.ring.items && s.producers <= r.producers && s.consumers <= r.consumers
    && (forall p {:trigger s.ring.stages[p]} {:trigger r.ring.stages[p]} :: 0 <= p < |s.ring.stages| ==>
          StageLeadsTo(s.ring.stages[p], r.ring.stages[p]))
    && (forall p :: p in s.delivered ==> p in r.delivered && r.delivered[p] == s.delivered[p])
  }

  lemma StagesLead<T>(cap: nat, s: Queue<T>, t: nat, a: Action<T>, p: nat)
    requires Inv(cap, s) && CanStep(cap, s, t) && p < s.ring.tail
    ensures p < |Next(cap, s, t, a).ring.stages|
    ensures StageLeadsTo(s.ring.stages[p], Next(cap, s, t, a).ring.stages[p])
  {
    assert OwnerInv(s, p, s.ring.stages[p]);
  }

  lemma NextExtends<T>(cap: nat, s: Queue<T>, t: nat, a: Action<T>)
    requires Inv(cap, s) && t < |s.threads|
    ensures CanStep(cap, s, t) && Inv(cap, Next(cap, s, t, a)) && Extends(s, Next(cap, s, t, a))
  {
    NextKeepsInv(cap, s, t, a);
    var s' := Next(cap, s, t, a);
    if s.threads[t].DequeueRelease? {
      assert s.threads[t].pos !in s.delivered;
    }
    forall p | 0 <= p < |s.ring.stages| ensures StageLeadsTo(s.ring.stages[p], s'.ring.stages[p]) {
      StagesLead(cap, s, t, a, p);
    }
  }

  lemma ExtendsTransitive<T>(s: Queue<T>, m: Queue<T>, r: Queue<T>)
    requires |s.ring.stages| == |s.ring.items| && |m.ring.stages| == |m.ring.items| && |r.ring.stages| == |r.ring.items|
    requires Extends(s, m) && Extends(m, r)
    ensures Extends(s, r)
  {
    forall p | 0 <= p < |s.ring.stages| ensures StageLeadsTo(s.ring.stages[p], r.ring.stages[p]) {
      assert StageLeadsTo(s.ring.stages[p], m.ring.stages[p]) && StageLeadsTo(m.ring.stages[p], r.ring.stages[p]);
    }
  }

  // ---- whole runs ----

  /** A schedule names, step after step, the thread that moves and what it does. */
  type Schedule<T> = seq<(nat, Action<T>)>

  predicate ValidSchedule<T>(n: nat, sched: Schedule<T>) {
    forall i :: 0 <= i < |sched| ==> sched[i].0 < n
  }

  /** The state that a schedule leads to; every reachable state keeps the invariant and only
      extends the histories. */
  ghost function Exec<T>(cap: nat, s: Queue<T>, sched: Schedule<T>): (r: Queue<T>)
    requires Inv(cap, s) && ValidSchedule(|s.threads|, sched)
    ensures Inv(cap, r) && Extends(s, r) && |r.threads| == |s.threads|
    decreases |sched|
  {
    if sched == [] then s
    else
      NextExtends(cap, s, sched[0].0, sched[0].1);
      var m := Next(cap, s, sched[0].0, sched[0].1);
      var r := Exec(cap, m, sched[1..]);
      ExtendsTransitive(s, m, r);
      r
  }

  lemma {:induction false} ExecSnoc<T>(cap: nat, s: Queue<T>, sched: Schedule<T>, t: nat, a: Action<T>)
    requires Inv(cap, s) && ValidSchedule(|s.threads|, sched) && t < |s.threads|
    ensures ValidSchedule(|s.threads|, sched + [(t, a)])
    ensures var r := Exec(cap, s, sched);
      t < |r.threads| && CanStep(cap, r, t) && Exec(cap, s, sched + [(t, a)]) == Next(cap, r, t, a)
    decreases |sched|
  {
    hide Inv, CanStep, Next, Extends;
    NextExtends(cap, Exec(cap, s, sched), t, a);
    if sched == [] {
      assert (sched + [(t, a)])[1..] == [];
    } else {
      NextExtends(cap, s, sched[0].0, sched[0].1);
      ExecSnoc(cap, Next(cap, s, sched[0].0, sched[0].1), sched[1..], t, a);
      assert (sched + [(t, a)])[1..] == sched[1..] + [(t, a)];
    }
  }

  // ---- one thread's part of a run ----

  /** The actions of thread `t`, in order. */
  function Own<T>(sched: Schedule<T>, t: nat): seq<Action<T>> {
    if sched == [] then []
    else
      var n := |sched| - 1;
      Own(sched[..n], t) + if sched[n].0 == t then [sched[n].1] else []
  }

  lemma OwnSnoc<T>(sched: Schedule<T>, t: nat, a: Action<T>)
    ensures Own(sched + [(t, a)], t) == Own(sched, t) + [a]
  {
    assert (sched + [(t, a)])[..|sched|] == sched;
  }

  /** Between the two the thread has made exactly the call `call`, and gone on with it. */
  predicate OneCall<T(==)>(before: seq<Action<T>>, after: seq<Action<T>>, call: Action<T>) {
    && before + [call] <= after
    && forall i :: |before| < i < |after| ==> after[i].Step? || after[i].FailSpuriously?
  }

  /** How often the thread's compare and swap failed although the values agreed. */
  function Failures<T>(actions: seq<Action<T>>): nat {
    if actions == [] then 0
    else Failures(actions[..|actions| - 1]) + if actions[|actions| - 1].FailSpuriously? then 1 else 0
  }

  /** How often the thread has gone round its retry loop: its sequence loads. */
  ghost function Rounds<T>(cap: nat, s: Queue<T>, sched: Schedule<T>, t: nat): nat
    requires Inv(cap, s) && ValidSchedule(|s.threads|, sched) && t < |s.threads|
    decreases |sched|
  {
    if sched == [] then 0
    else
      var n := |sched| - 1;
      var pc := Exec(cap, s, sched[..n]).threads[t];
      Rounds(cap, s, sched[..n], t) +
        if sched[n].0 == t && sched[n].1.Step? && (pc.EnqueueLoadSequence? || pc.DequeueLoadSequence?) then 1 else 0
  }

  lemma RoundsSnoc<T>(cap: nat, s: Queue<T>, sched: Schedule<T>, t: nat, u: nat, a: Action<T>)
    requires Inv(cap, s) && ValidSchedule(|s.threads|, sched) && t < |s.threads| && u < |s.threads|
    ensures ValidSchedule(|s.threads|, sched + [(u, a)])
    ensures var pc := Exec(cap, s, sched).threads[t];
      Rounds(cap, s, sched + [(u, a)], t) == Rounds(cap, s, sched, t) +
        if u == t && a.Step? && (pc.EnqueueLoadSequence? || pc.DequeueLoadSequence?) then 1 else 0
  {
    hide Inv, Exec;
    assert (sched + [(u, a)])[..|sched|] == sched;
  }

  predicate AtRest<T>(s: Queue<T>) {
    forall t :: 0 <= t < |s.threads| ==> s.threads[t].Idle?
  }

  /** The values handed out, in the order in which consumers won their positions. */
  function InClaimOrder<T>(s: Queue<T>): (values: seq<T>)
    requires forall p: nat :: p < s.head ==> p in s.delivered
    ensures |values| == s.head
  {
    seq(s.head, p requires 0 <= p < s.head => s.delivered[p])
  }

  /** Global first in, first out, with no loss and no duplication, over every run of any
      number of producers and consumers: what the consumer of a position returned is what the
      producer of that position put in; and once the threads have returned, the delivered
      values in claim order are a prefix of the enqueued items in claim order and the rest of
      the items sit published in their slots. */
  lemma FirstInFirstOut<T>(cap: nat, s: Queue<T>, sched: Schedule<T>)
    requires Init(cap, s) && ValidSchedule(|s.threads|, sched)
    ensures Inv(cap, s)
    ensures var r := Exec(cap, s, sched);
      && r.head <= r.ring.tail <= r.head + cap
      && (forall p :: p in r.delivered ==> p < r.head && r.delivered[p] == r.ring.items[p])
      && (AtRest(r) ==>
            && (forall p: nat :: p in r.delivered <==> p < r.head)
            && InClaimOrder(r) == r.ring.items[..r.head]
            && (forall p :: r.head <= p < r.ring.tail ==> SlotAt(cap, r.ring, p) == Slot(p + 1, r.ring.items[p])))
  {
    InitInv(cap, s);
    var r := Exec(cap, s, sched);
    forall p | p in r.delivered ensures p < r.head && r.delivered[p] == r.ring.items[p] {
      assert r.ring.stages[p].Released?;
    }
    if AtRest(r) {
      AtRestStages(cap, r);
      forall p | r.head <= p < r.ring.tail ensures SlotAt(cap, r.ring, p) == Slot(p + 1, r.ring.items[p]) {
        assert r.ring.stages[p].Published?;
        assert Latest(cap, r.ring, p);
      }
      forall p: nat ensures p in r.delivered <==>
        p < r.head { if p < r.ring.tail { assert r.ring.stages[p] == r.ring.stages[p]; } }
    }
  }

  lemma AtRestStages<T>(cap: nat, s: Queue<T>)
    requires Inv(cap, s) && AtRest(s)
    ensures forall p {:trigger s.ring.stages[p]} :: 0 <= p < s.ring.tail ==>
              s.ring.stages[p] == if p < s.head then Released else Published
  {
    forall p | 0 <= p < s.ring.tail ensures s.ring.stages[p] == if p < s.head then Released else Published {
      assert OwnerInv(s, p, s.ring.stages[p]);
    }
  }

  /** A step appends at most one item: the one its thread came with, at the position it won. */
  lemma OneItemPerClaim<T>(cap: nat, s: Queue<T>, t: nat, a: Action<T>)
    requires Inv(cap, s) && t < |s.threads|
    ensures var s' := Next(cap, s, t, a);
      s'.ring.items == s.ring.items ||
      (s.threads[t].EnqueueCas? && s'.ring.items == s.ring.items + [s.threads[t].item] &&
       s'.threads[t] == EnqueueWrite(s.threads[t].item, s.ring.tail))
  {
    assert PcInv(cap, s, t, s.threads[t]);
  }

  /** When Enqueue returns true, its item stands in the history at the position its thread won,
      and that position is published. */
  lemma EnqueueReturns<T>(cap: nat, s: Queue<T>, t: nat, a: Action<T>)
    requires Inv(cap, s) && t < |s.threads| && !s.threads[t].Idle?
    requires Next(cap, s, t, a).threads[t] == Idle(Enqueued)
    ensures var pc := s.threads[t];
      && pc.EnqueuePublish? && pc.pos < |s.ring.items| && s.ring.items[pc.pos] == pc.item
      && IsPublished(Next(cap, s, t, a).ring, pc.pos)
  {
    assert PcInv(cap, s, t, s.threads[t]);
  }

  /** When Dequeue returns a value, it is the item of the position its thread won, and that
      position was never delivered before; no other step delivers anything. */
  lemma DequeueReturns<T>(cap: nat, s: Queue<T>, t: nat, a: Action<T>)
    requires Inv(cap, s) && t < |s.threads|
    ensures var s' := Next(cap, s, t, a); var pc := s.threads[t];
      if !pc.Idle? && s'.threads[t].Idle? && s'.threads[t].last.Dequeued? then
        && pc.DequeueRelease? && pc.pos < |s.ring.items| && pc.pos !in s.delivered
        && s'.threads[t].last.value == s.ring.items[pc.pos]
        && s'.delivered == s.delivered[pc.pos := s.ring.items[pc.pos]]
      else s'.delivered == s.delivered
  {
    assert PcInv(cap, s, t, s.threads[t]);
  }

  predicate OwnedBy(st: Stage, t: nat) {
    (st.Claimed? || st.Stored? || st.Taken? || st.Drained?) && st.owner == t
  }

  /** Real-time order: a thread that is idle in `s` can only win positions from the tail of `s`
      on, so an Enqueue called after another has returned comes later in the queue. */
  lemma LaterCallsComeLater<T>(cap: nat, s: Queue<T>, sched: Schedule<T>, t: nat)
    requires Inv(cap, s) && ValidSchedule(|s.threads|, sched)
    requires t < |s.threads| && s.threads[t].Idle?
    ensures var pc := Exec(cap, s, sched).threads[t];
      && (pc.EnqueueWrite? || pc.EnqueuePublish? ==> s.ring.tail <= pc.pos)
      && (pc.DequeueRead? || pc.DequeueRelease? ==> s.head <= pc.pos)
  {
    var r := Exec(cap, s, sched);
    assert PcInv(cap, r, t, r.threads[t]);
    forall p | 0 <= p < s.ring.tail
      ensures !OwnedBy(s.ring.stages[p], t) && StageLeadsTo(s.ring.stages[p], r.ring.stages[p])
    {
      assert OwnerInv(s, p, s.ring.stages[p]);
    }
  }

  /** At most one thread at a time can touch a slot's storage. */
  lemma StorageIsExclusive<T>(cap: nat, s: Queue<T>, t: nat, u: nat)
    requires Inv(cap, s) && t < |s.threads| && u < |s.threads| && t != u
    requires s.threads[t].EnqueueWrite? || s.threads[t].DequeueRead?
    requires s.threads[u].EnqueueWrite? || s.threads[u].DequeueRead?
    ensures s.threads[t].pos % cap != s.threads[u].pos % cap
  {
    assert PcInv(cap, s, t, s.threads[t]) && PcInv(cap, s, u, s.threads[u]);
    var p, q := s.threads[t].pos, s.threads[u].pos;
    assert !s.ring.stages[p].Released? && !s.ring.stages[q].Released?;
    SlotsDiffer(cap, p, q);
  }

  /** A slot's sequence number has one of three values, fixed by the stage of the position that
      the head's window assigns to it. */
  lemma SequenceValues<T>(cap: nat, s: Queue<T>, p: int)
    requires Inv(cap, s) && s.head <= p < s.head + cap
    ensures var q := SlotAt(cap, s.ring, p).sequence;
      if p < s.ring.tail then q == (if IsPublished(s.ring, p) then p + 1 else p)
      else q == (if GivenBack(s.ring, p - cap) then p else p - cap + 1)
  {
    if p < s.ring.tail {
      assert Latest(cap, s.ring, p);
      assert !ClaimedByConsumer(s.ring.stages[p]);
    } else {
      SlotsAgree(cap, p - cap, p);
      assert SlotAt(cap, s.ring, p - cap) == SlotAt(cap, s.ring, p) && Latest(cap, s.ring, p - cap);
      if 0 <= p - cap { assert ClaimedByConsumer(s.ring.stages[p - cap]); }
    }
  }

  lemma OtherLeavesThread<T>(cap: nat, s: Queue<T>, u: nat, t: nat, a: Action<T>)
    requires CanStep(cap, s, u) && t < |s.threads| && t != u
    ensures var r := Next(cap, s, u, a);
      |r.threads| == |s.threads| && r.threads[t] == s.threads[t]
  {
  }

  lemma {:induction false} OthersLeaveThread<T>(cap: nat, s: Queue<T>, sched: Schedule<T>, t: nat)
    requires Inv(cap, s) && ValidSchedule(|s.threads|, sched) && t < |s.threads|
    requires forall i :: 0 <= i < |sched| ==> sched[i].0 != t
    ensures Exec(cap, s, sched).threads[t] == s.threads[t]
    decreases |sched|
  {
    hide Inv, Next, Extends, CanStep;
    if sched != [] {
      NextExtends(cap, s, sched[0].0, sched[0].1);
      OtherLeavesThread(cap, s, sched[0].0, t, sched[0].1);
      OthersLeaveThread(cap, Next(cap, s, sched[0].0, sched[0].1), sched[1..], t);
    }
  }

  lemma SizeLoads<T>(cap: nat, s: Queue<T>, t: nat, residue: T)
    requires CanStep(cap, s, t)
    ensures s.threads[t].SizeLoadTail? ==> Next(cap, s, t, Step(residue)) == Goto(s, t, SizeLoadHead(s.ring.tail))
    ensures s.threads[t].SizeLoadHead? ==> var tail := s.threads[t].tail;
      Next(cap, s, t, Step(residue)) == Goto(s, t, Idle(Size(if s.head <= tail then tail - s.head else 0)))
  {
  }

  lemma SizeBegins<T>(cap: nat, s: Queue<T>, t: nat)
    requires CanStep(cap, s, t) && s.threads[t].Idle?
    ensures Next(cap, s, t, CallSize) == Goto(s, t, SizeLoadTail)
  {
  }

  lemma ExecFirst<T>(cap: nat, s: Queue<T>, sched: Schedule<T>)
    requires Inv(cap, s) && ValidSchedule(|s.threads|, sched) && sched != []
    ensures CanStep(cap, s, sched[0].0) && Inv(cap, Next(cap, s, sched[0].0, sched[0].1))
    ensures |Next(cap, s, sched[0].0, sched[0].1).threads| == |s.threads|
    ensures Exec(cap, s, sched) == Exec(cap, Next(cap, s, sched[0].0, sched[0].1), sched[1..])
  {
    hide Inv, Next, CanStep, Extends;
    NextExtends(cap, s, sched[0].0, sched[0].1);
  }

  lemma ExecNothing<T>(cap: nat, s: Queue<T>)
    requires Inv(cap, s)
    ensures Exec(cap, s, []) == s
  {
    hide Inv;
  }

  lemma SlotCount<T>(cap: nat, s: Queue<T>)
    requires Inv(cap, s)
    ensures |s.ring.items| == s.ring.tail >= s.head
  {
  }

  /** ApproxSize, with the others moving between its two loads: the distance of the tail at the first from
      the head at the second, or 0 when the head has passed it; undisturbed, the number of items put
      in and not taken. */
  lemma SizeOfTwoLoads<T>(cap: nat, s: Queue<T>, t: nat, residue: T, others: Schedule<T>)
    requires Inv(cap, s) && t < |s.threads| && s.threads[t].SizeLoadTail?
    requires ValidSchedule(|s.threads|, others) && forall i :: 0 <= i < |others| ==> others[i].0 != t
    ensures ValidSchedule(|s.threads|, [(t, Step(residue))] + others + [(t, Step(residue))])
    ensures var r := Exec(cap, s, [(t, Step(residue))] + others + [(t, Step(residue))]);
      r.threads[t] == Idle(Size(if r.head <= s.ring.tail then s.ring.tail - r.head else 0)) &&
      r.threads[t].last.size <= cap && (others == [] ==> s.head + r.threads[t].last.size == |s.ring.items|)
  {
    hide Inv, CanStep, Next, Extends, Exec;
    var step := (t, Step(residue));
    NextExtends(cap, s, t, step.1);
    var m := Next(cap, s, t, step.1);
    SizeLoads(cap, s, t, residue);
    SlotCount(cap, s);
    OthersLeaveThread(cap, m, others, t);
    assert ([step] + others)[1..] == others;
    var r := Exec(cap, s, [step] + others);
    assert r == Exec(cap, m, others) by { ExecFirst(cap, s, [step] + others); }
    assert others == [] ==> r == m by { ExecNothing(cap, m); }
    ExecSnoc(cap, s, [step] + others, t, step.1);
    SizeLoads(cap, r, t, residue);
    SizeWithinCapacity(cap, r, t, residue);
  }

  /** A whole call, undisturbed. */
  lemma SizeUndisturbed<T>(cap: nat, s: Queue<T>, t: nat, residue: T)
    requires Inv(cap, s) && t < |s.threads| && s.threads[t].Idle?
    ensures ValidSchedule(|s.threads|, [(t, CallSize), (t, Step(residue)), (t, Step(residue))])
    ensures |s.ring.items| >= s.head
    ensures Exec(cap, s, [(t, CallSize), (t, Step(residue)), (t, Step(residue))]) ==
      Goto(s, t, Idle(Size(|s.ring.items| - s.head)))
  {
    hide Inv, CanStep, Next, Extends, Exec;
    SlotCount(cap, s);
    var called, loaded := Goto(s, t, SizeLoadTail), Goto(s, t, SizeLoadHead(s.ring.tail));
    NextExtends(cap, s, t, CallSize);
    SizeBegins(cap, s, t);
    var sched: Schedule<T> := [(t, CallSize), (t, Step(residue)), (t, Step(residue))];
    ExecFirst(cap, s, sched);
    assert sched[1..] == [(t, Step(residue)), (t, Step(residue))];
    ExecFirst(cap, called, sched[1..]);
    SizeLoads(cap, called, t, residue);
    assert Goto(called, t, SizeLoadHead(s.ring.tail)) == loaded;
    assert sched[1..][1..] == [(t, Step(residue))];
    ExecFirst(cap, loaded, sched[1..][1..]);
    SizeLoads(cap, loaded, t, residue);
    assert |sched[1..][1..][1..]| == 0;
    ExecNothing(cap, Next(cap, loaded, t, Step(residue)));
  }

  /** ApproxSize never reports more than the capacity. */
  lemma SizeWithinCapacity<T>(cap: nat, s: Queue<T>, t: nat, residue: T)
    requires Inv(cap, s) && t < |s.threads| && s.threads[t].SizeLoadHead?
    ensures Next(cap, s, t, Step(residue)).threads[t].last.size <= cap
  {
    assert PcInv(cap, s, t, s.threads[t]);
  }
}
