/** The multi-producer single-consumer queue as a step machine.  Producers compete for the tail
    as in `Mpmc`; the one consumer walks its own position and needs no compare and swap. */
module Mpsc {
  import opened SlotRing
  import opened Words

  datatype Outcome = Nothing | Enqueued | Full | Size(size: nat)

  datatype Producer<T> =
    | Idle(last: Outcome)
    | LoadTail(item: T)
    | LoadSequence(item: T, pos: nat)
    | Cas(item: T, pos: nat)
    | Write(item: T, pos: nat)
    | Publish(item: T, pos: nat)
    | SizeLoadTail
    | SizeLoadHead(tail: nat)

  datatype Delivery<T> = NoCall | Received(value: T) | Nothing_

  datatype Consumer<T> =
    | Waiting(result: Delivery<T>)
    | LoadPosition
    | Examine(pos: nat)
    | Read(pos: nat)
    | Release(value: T, pos: nat)
    | StorePosition(value: T, pos: nat)

  datatype Action<T> = CallEnqueue(item: T) | CallSize | Step | FailSpuriously

  /** `delivered` lists the values that Dequeue returned, in order. */
  datatype Queue<T> = Queue(head: nat, ring: Ring<T>, producers: seq<Producer<T>>, consumer: Consumer<T>,
    delivered: seq<T>)

  ghost predicate Init<T>(cap: nat, s: Queue<T>) {
    && 2 <= cap == |s.ring.slots|
    && s.head == s.ring.tail == 0
    && s.ring.items == [] && s.ring.stages == [] && s.delivered == []
    && (forall i :: 0 <= i < cap ==> s.ring.slots[i].sequence == i)
    && (forall t :: 0 <= t < |s.producers| ==> s.producers[t] == Idle(Nothing))
    && s.consumer == Waiting(NoCall)
  }

  /** The first position whose slot is not given back: the consumer's stored position, or one
      more while it stands between its two stores. */
  function Done<T>(s: Queue<T>): nat {
    if s.consumer.StorePosition? then s.head + 1 else s.head
  }

  ghost predicate ProducerInv<T>(cap: nat, s: Queue<T>, t: nat, pc: Producer<T>)
    requires |s.ring.items| == |s.ring.stages| == s.ring.tail
  {
    match pc
    case LoadSequence(_, pos) => pos <= s.ring.tail
    case Cas(_, pos) => pos <= s.ring.tail && (pos == s.ring.tail ==> GivenBack(s.ring, pos - cap))
    case Write(item, pos) => pos < s.ring.tail && s.ring.stages[pos] == Claimed(t) && s.ring.items[pos] == item
    case Publish(item, pos) => pos < s.ring.tail && s.ring.stages[pos] == Stored(t) && s.ring.items[pos] == item
    case SizeLoadHead(tail) => tail <= s.ring.tail
    case _ => true
  }

  ghost predicate ConsumerInv<T>(s: Queue<T>)
    requires |s.ring.items| == |s.ring.stages| == s.ring.tail
  {
    match s.consumer
    case Waiting(_) => true
    case LoadPosition => true
    case Examine(pos) => pos == s.head
    case Read(pos) => pos == s.head < s.ring.tail && s.ring.stages[pos] == Taken(0)
    case Release(value, pos) =>
      pos == s.head < s.ring.tail && s.ring.stages[pos] == Drained(0) && s.ring.items[pos] == value
    case StorePosition(value, pos) =>
      pos == s.head < s.ring.tail && s.ring.stages[pos].Released? && s.ring.items[pos] == value
  }

  ghost predicate OwnerInv<T>(s: Queue<T>, p: nat, st: Stage) {
    match st
    case Claimed(o) => o < |s.producers| && s.producers[o].Write? && s.producers[o].pos == p
    case Stored(o) => o < |s.producers| && s.producers[o].Publish? && s.producers[o].pos == p
    case Taken(_) => s.consumer.Read? && s.consumer.pos == p
    case Drained(_) => s.consumer.Release? && s.consumer.pos == p
    case Released => p < Done(s)
    case Published => true
  }

  ghost predicate Inv<T>(cap: nat, s: Queue<T>) {
    && RingInv(cap, s.ring)
    && Done(s) <= s.ring.tail <= Done(s) + cap
    && ConsumerInv(s)
    && (forall p {:trigger s.ring.stages[p]} :: 0 <= p < Done(s) ==> s.ring.stages[p].Released?)
    && (forall p {:trigger s.ring.stages[p]} :: 0 <= p < s.ring.tail ==> OwnerInv(s, p, s.ring.stages[p]))
    && (forall t {:trigger s.producers[t]} :: 0 <= t < |s.producers| ==> ProducerInv(cap, s, t, s.producers[t]))
    && s.delivered == s.ring.items[..s.head]
  }

  function Goto<T>(s: Queue<T>, t: nat, pc: Producer<T>): Queue<T>
    requires t < |s.producers|
  {
    s.(producers := s.producers[t := pc])
  }

  ghost predicate CanStep<T>(cap: nat, s: Queue<T>, t: nat) {
    && 0 < cap == |s.ring.slots| && t < |s.producers|
    && |s.ring.items| == |s.ring.stages| == s.ring.tail
    && ProducerInv(cap, s, t, s.producers[t])
  }

  /** One step of producer `t`. */
  function ProducerNext<T>(cap: nat, s: Queue<T>, t: nat, a: Action<T>): Queue<T>
    requires CanStep(cap, s, t)
  {
    match (s.producers[t], a)
    case (Idle(_), CallEnqueue(item)) => Goto(s, t, LoadTail(item))
    case (Idle(_), CallSize) => Goto(s, t, SizeLoadTail)
    case (LoadTail(item), Step) => Goto(s, t, LoadSequence(item, s.ring.tail))
    case (LoadSequence(item, pos), Step) =>
      var diff := SlotAt(cap, s.ring, pos).sequence - pos;
      if diff == 0 then Goto(s, t, Cas(item, pos))
      else if diff < 0 then Goto(s, t, Idle(Full))
      else Goto(s, t, LoadTail(item))
    case (Cas(item, pos), Step) =>
      if s.ring.tail == pos then Goto(s.(ring := Claim(s.ring, item, t)), t, Write(item, pos))
      else Goto(s, t, LoadSequence(item, s.ring.tail))
    case (Cas(item, pos), FailSpuriously) => Goto(s, t, LoadSequence(item, s.ring.tail))
    case (Write(item, pos), Step) =>
      Goto(s.(ring := WithStorage(cap, s.ring, pos, item, Stored(t))), t, Publish(item, pos))
    case (Publish(item, pos), Step) =>
      Goto(s.(ring := WithSequence(cap, s.ring, pos, pos + 1, Published)), t, Idle(Enqueued))
    case (SizeLoadTail, Step) => Goto(s, t, SizeLoadHead(s.ring.tail))
    case (SizeLoadHead(tail), Step) => Goto(s, t, Idle(Size(Wrap(tail - s.head))))
    case _ => s
  }

  ghost predicate ConsumerCanStep<T>(cap: nat, s: Queue<T>) {
    && 0 < cap == |s.ring.slots|
    && |s.ring.items| == |s.ring.stages| == s.ring.tail
    && ConsumerInv(s)
    && (s.consumer.Examine? && SlotAt(cap, s.ring, s.consumer.pos).sequence == s.consumer.pos + 1 ==>
          s.consumer.pos < s.ring.tail)
  }

  /** One step of the consumer; from `Waiting` it calls Dequeue.  `residue` is what the move
      leaves in the slot. */
  function ConsumerNext<T>(cap: nat, s: Queue<T>, residue: T): Queue<T>
    requires ConsumerCanStep(cap, s)
  {
    match s.consumer
    case Waiting(_) => s.(consumer := LoadPosition)
    case LoadPosition => s.(consumer := Examine(s.head))
    case Examine(pos) =>
      if SlotAt(cap, s.ring, pos).sequence == pos + 1 then
        s.(consumer := Read(pos), ring := s.ring.(stages := s.ring.stages[pos := Taken(0)]))
      else
        s.(consumer := Waiting(Nothing_))
    case Read(pos) =>
      s.(consumer := Release(SlotAt(cap, s.ring, pos).storage, pos),
         ring := WithStorage(cap, s.ring, pos, residue, Drained(0)))
    case Release(value, pos) =>
      s.(consumer := StorePosition(value, pos), ring := WithSequence(cap, s.ring, pos, pos + cap, Released))
    case StorePosition(value, pos) =>
      s.(consumer := Waiting(Received(value)), head := pos + 1, delivered := s.delivered + [value])
  }

  // ---- verdicts ----

  /** The consumer turns away exactly when, at its sequence load, its position is unpublished. */
  lemma ConsumerVerdict<T>(cap: nat, s: Queue<T>)
    requires Inv(cap, s) && s.consumer.Examine?
    ensures SlotAt(cap, s.ring, s.head).sequence == s.head + 1 <==> IsPublished(s.ring, s.head)
    ensures ConsumerCanStep(cap, s)
    ensures IsPublished(s.ring, s.head) ==> s.ring.stages[s.head].Published?
  {
    var q := LatestOccupant(cap, s.ring.tail, s.head);
    assert SlotAt(cap, s.ring, q) == SlotAt(cap, s.ring, s.head);
    assert Latest(cap, s.ring, q);
    if s.head < s.ring.tail { assert OwnerInv(s, s.head, s.ring.stages[s.head]); }
  }

  /** How a producer's step ends its call, and where it goes otherwise.  It ends with `Full` exactly at the
      sequence load for a position that is the tail while the occupant one lap back has not given the
      slot back, and with success exactly when it publishes its item at the position it won; from a
      stale position it goes on to the tail of the moment. */
  lemma ProducerVerdicts<T>(cap: nat, s: Queue<T>, t: nat, a: Action<T>)
    requires Inv(cap, s) && t < |s.producers| && !s.producers[t].Idle?
    ensures CanStep(cap, s, t) && |ProducerNext(cap, s, t, a).producers| == |s.producers|
    ensures var pc := s.producers[t]; var pc' := ProducerNext(cap, s, t, a).producers[t];
      && (pc' == Idle(Full) <==> a.Step? && pc.LoadSequence? && FoundFull(cap, s, pc.pos))
      && (pc' == Idle(Enqueued) <==> a.Step? && pc.Publish?)
      && (a.Step? && pc.LoadSequence? && pc.pos < s.ring.tail && IsPublished(s.ring, pc.pos) ==>
        pc' == LoadTail(pc.item))
      && (a.Step? && pc.LoadSequence? && pc.pos < s.ring.tail && !IsPublished(s.ring, pc.pos) ==> pc'.Cas?)
      && (a.Step? && pc.LoadSequence? && pc.pos == s.ring.tail && !FoundFull(cap, s, pc.pos) ==> pc'.Cas?)
      && (pc'.Cas? ==> pc'.item == pc.item && pc'.pos == pc.pos)
      && (a.Step? && pc.Cas? && pc.pos == s.ring.tail ==> pc' == Write(pc.item, pc.pos))
      && (a.Step? && pc.Cas? && pc.pos < s.ring.tail ==> pc' == LoadSequence(pc.item, s.ring.tail))
      && (a.FailSpuriously? && pc.Cas? ==> pc' == LoadSequence(pc.item, s.ring.tail))
      && (a.Step? && pc.LoadTail? ==> pc' == LoadSequence(pc.item, s.ring.tail))
  {
    assert ProducerInv(cap, s, t, s.producers[t]);
    if s.producers[t].LoadSequence? {
      ProducerVerdict(cap, s.ring, s.producers[t].pos);
    }
  }

  /** The position is the tail, and its slot has not been given back. */
  predicate FoundFull<T>(cap: nat, s: Queue<T>, pos: nat) {
    pos == s.ring.tail && !GivenBack(s.ring, s.ring.tail - cap)
  }

  /** What a producer's step puts in.  Items are added by the swap of the tail alone, one at a time and the
      caller's own; a position becomes published by the step that ends in success alone, and its item
      is the caller's. */
  lemma ProducerPuts<T>(cap: nat, s: Queue<T>, t: nat, a: Action<T>)
    requires Inv(cap, s) && t < |s.producers| && CanStep(cap, s, t)
    ensures var pc := s.producers[t]; var s' := ProducerNext(cap, s, t, a);
      && s'.ring.items ==
           s.ring.items + (if a.Step? && pc.Cas? && pc.pos == s.ring.tail then [pc.item] else [])
      && (forall p: nat :: IsPublished(s'.ring, p) <==>
            IsPublished(s.ring, p) || (a.Step? && pc.Publish? && p == pc.pos))
      && (pc.Publish? ==> !IsPublished(s.ring, pc.pos) && pc.pos < s.ring.tail && s.ring.items[pc.pos] == pc.item)
  {
    assert ProducerInv(cap, s, t, s.producers[t]);
  }

  // ---- every step keeps the invariant ----

  lemma InitInv<T>(cap: nat, s: Queue<T>)
    requires Init(cap, s)
    ensures Inv(cap, s)
  {
    FreshRing(cap, s.ring);
  }

  lemma ProducerMoveKeepsInv<T>(cap: nat, s: Queue<T>, t: nat, pc: Producer<T>)
    requires Inv(cap, s) && t < |s.producers|
    requires !s.producers[t].Write? && !s.producers[t].Publish? && !pc.Write? && !pc.Publish?
    requires ProducerInv(cap, s, t, pc)
    ensures Inv(cap, Goto(s, t, pc))
  {
    var s' := Goto(s, t, pc);
    forall u | 0 <= u < |s'.producers| ensures ProducerInv(cap, s', u, s'.producers[u]) {
      assert ProducerInv(cap, s, u, s.producers[u]);
    }
    forall p | 0 <= p < s'.ring.tail ensures OwnerInv(s', p, s'.ring.stages[p]) {
      assert OwnerInv(s, p, s.ring.stages[p]);
    }
  }

  lemma ClaimKeepsInv<T>(cap: nat, s: Queue<T>, t: nat, item: T)
    requires Inv(cap, s) && t < |s.producers| && s.producers[t] == Cas(item, s.ring.tail)
    ensures Inv(cap, Goto(s.(ring := Claim(s.ring, item, t)), t, Write(item, s.ring.tail)))
  {
    var pos := s.ring.tail;
    var s' := Goto(s.(ring := Claim(s.ring, item, t)), t, Write(item, pos));
    assert ProducerInv(cap, s, t, s.producers[t]);
    ProducerVerdict(cap, s.ring, pos);
    ClaimKeepsRing(cap, s.ring, item, t);
    if 0 <= pos - cap { assert OwnerInv(s, pos - cap, s.ring.stages[pos - cap]); }
    forall p | 0 <= p < s'.ring.tail ensures OwnerInv(s', p, s'.ring.stages[p]) {
      if p < pos { assert OwnerInv(s, p, s.ring.stages[p]); }
    }
    forall u | 0 <= u < |s'.producers| ensures ProducerInv(cap, s', u, s'.producers[u]) {
      assert ProducerInv(cap, s, u, s.producers[u]);
    }
  }

  /** A producer that moves its own position on, the consumer at rest. */
  lemma ProducerStageKeepsInv<T>(cap: nat, s: Queue<T>, t: nat, s': Queue<T>)
    requires Inv(cap, s) && t < |s.producers| && (s.producers[t].Write? || s.producers[t].Publish?)
    requires RingInv(cap, s'.ring) && s'.ring.tail == s.ring.tail && s'.ring.items == s.ring.items
    requires |s'.producers| == |s.producers| && |s'.ring.stages| == |s.ring.stages|
    requires s' == s.(ring := s'.ring, producers := s.producers[t := s'.producers[t]])
    requires var pos := s.producers[t].pos;
      pos < s.ring.tail && s'.ring.stages == s.ring.stages[pos := s'.ring.stages[pos]] &&
      (if s'.ring.stages[pos].Published? then s'.producers[t].Idle?
       else s'.ring.stages[pos] == Stored(t) && s'.producers[t] == Publish(s.ring.items[pos], pos))
    ensures Inv(cap, s')
  {
    assert ProducerInv(cap, s, t, s.producers[t]);
    forall p | 0 <= p < s'.ring.tail ensures OwnerInv(s', p, s'.ring.stages[p]) {
      assert OwnerInv(s, p, s.ring.stages[p]);
    }
    forall u | 0 <= u < |s'.producers| ensures ProducerInv(cap, s', u, s'.producers[u]) {
      assert ProducerInv(cap, s, u, s.producers[u]);
    }
  }

  lemma ProducerStoreKeepsInv<T>(cap: nat, s: Queue<T>, t: nat)
    requires Inv(cap, s) && t < |s.producers| && (s.producers[t].Write? || s.producers[t].Publish?)
    ensures CanStep(cap, s, t) && Inv(cap, ProducerNext(cap, s, t, Step))
  {
    assert ProducerInv(cap, s, t, s.producers[t]);
    var pos := s.producers[t].pos;
    if s.producers[t].Write? {
      StorageStoreKeepsRing(cap, s.ring, pos, s.producers[t].item, Stored(t));
    } else {
      SequenceStoreKeepsRing(cap, s.ring, pos, pos + 1, Published);
    }
    ProducerStageKeepsInv(cap, s, t, ProducerNext(cap, s, t, Step));
  }

  lemma ProducerNextKeepsInv<T>(cap: nat, s: Queue<T>, t: nat, a: Action<T>)
    requires Inv(cap, s) && t < |s.producers|
    ensures CanStep(cap, s, t) && Inv(cap, ProducerNext(cap, s, t, a))
  {
    assert ProducerInv(cap, s, t, s.producers[t]);
    match s.producers[t]
    case Write(_, _) => if a.Step? { ProducerStoreKeepsInv(cap, s, t); }
    case Publish(_, _) => if a.Step? { ProducerStoreKeepsInv(cap, s, t); }
    case Cas(item, pos) =>
      if a.Step? && pos == s.ring.tail { ClaimKeepsInv(cap, s, t, item); }
      else { ProducerMoveKeepsInv(cap, s, t, ProducerNext(cap, s, t, a).producers[t]); }
    case _ =>
      QuietProducerMoves(cap, s, t, a);
  }

  lemma QuietProducerMoves<T>(cap: nat, s: Queue<T>, t: nat, a: Action<T>)
    requires Inv(cap, s) && t < |s.producers|
    requires !s.producers[t].Write? && !s.producers[t].Publish? && !s.producers[t].Cas?
    ensures CanStep(cap, s, t) && Inv(cap, ProducerNext(cap, s, t, a))
  {
    assert ProducerInv(cap, s, t, s.producers[t]);
    if s.producers[t].LoadSequence? {
      ProducerVerdict(cap, s.ring, s.producers[t].pos);
    }
    ProducerMoveKeepsInv(cap, s, t, ProducerNext(cap, s, t, a).producers[t]);
  }

  /** A consumer step that keeps the ring's counts and moves at most its own position on. */
  lemma ConsumerStageKeepsInv<T>(cap: nat, s: Queue<T>, s': Queue<T>)
    requires Inv(cap, s)
    requires RingInv(cap, s'.ring) && s'.ring.tail == s.ring.tail && s'.ring.items == s.ring.items
    requires s'.producers == s.producers
    requires |s'.ring.stages| == |s.ring.stages|
    requires s'.ring.stages == s.ring.stages ||
             (s.head < s.ring.tail && s'.ring.stages == s.ring.stages[s.head := s'.ring.stages[s.head]] &&
              !s.ring.stages[s.head].Claimed? && !s.ring.stages[s.head].Stored? && !s.ring.stages[s.head].Released?)
    requires Done(s) <= Done(s') <= s'.ring.tail
    requires forall p :: Done(s) <= p < Done(s') ==> s'.ring.stages[p].Released?
    requires ConsumerInv(s') && s'.delivered == s'.ring.items[..s'.head]
    requires forall p ::
      0 <= p < s'.ring.tail && (p == s.head || s.ring.stages[p].Taken? || s.ring.stages[p].Drained?) ==>
        OwnerInv(s', p, s'.ring.stages[p])
    ensures Inv(cap, s')
  {
    forall p | 0 <= p < s'.ring.tail ensures OwnerInv(s', p, s'.ring.stages[p]) {
      assert OwnerInv(s, p, s.ring.stages[p]);
    }
    forall u | 0 <= u < |s'.producers| ensures ProducerInv(cap, s', u, s'.producers[u]) {
      assert ProducerInv(cap, s, u, s.producers[u]);
    }
  }

  /** Only the consumer's own position can be taken or drained. */
  lemma TakenIsHead<T>(cap: nat, s: Queue<T>, p: nat)
    requires Inv(cap, s) && p < s.ring.tail
    ensures s.ring.stages[p].Taken? || s.ring.stages[p].Drained? ==> p == s.head
  {
    assert OwnerInv(s, p, s.ring.stages[p]);
  }

  lemma ConsumerRingStep<T>(cap: nat, s: Queue<T>, residue: T)
    requires Inv(cap, s)
    ensures ConsumerCanStep(cap, s) && RingInv(cap, ConsumerNext(cap, s, residue).ring)
  {
    match s.consumer {
      case Examine(pos) =>
        ConsumerVerdict(cap, s);
        if IsPublished(s.ring, pos) { TakeKeepsRing(cap, s.ring, pos, 0); }
      case Read(pos) =>
        StorageStoreKeepsRing(cap, s.ring, pos, residue, Drained(0));
      case Release(_, pos) =>
        SequenceStoreKeepsRing(cap, s.ring, pos, pos + cap, Released);
      case _ =>
    }
  }

  lemma ConsumerNextKeepsInv<T>(cap: nat, s: Queue<T>, residue: T)
    requires Inv(cap, s)
    ensures ConsumerCanStep(cap, s) && Inv(cap, ConsumerNext(cap, s, residue))
  {
    ConsumerRingStep(cap, s, residue);
    var s' := ConsumerNext(cap, s, residue);
    if s.consumer.Examine? { ConsumerVerdict(cap, s); }
    if s.consumer.Read? { assert SlotAt(cap, s.ring, s.head).storage == s.ring.items[s.head]; }
    forall p | 0 <= p < s'.ring.tail ensures s.ring.stages[p].Taken? || s.ring.stages[p].Drained? ==> p == s.head {
      TakenIsHead(cap, s, p);
    }
    if s.head < s.ring.tail { assert OwnerInv(s, s.head, s.ring.stages[s.head]); }
    ConsumerStageKeepsInv(cap, s, s');
  }

  // ---- whole runs ----

  datatype Move<T> = ByProducer(t: nat, action: Action<T>) | ByConsumer(residue: T)

  predicate ValidSchedule<T>(n: nat, sched: seq<Move<T>>) {
    forall i :: 0 <= i < |sched| && sched[i].ByProducer? ==> sched[i].t < n
  }

  ghost function AfterProducer<T>(cap: nat, s: Queue<T>, t: nat, a: Action<T>): (r: Queue<T>)
    requires Inv(cap, s) && t < |s.producers|
    ensures Inv(cap, r) && |r.producers| == |s.producers|
    ensures s.ring.items <= r.ring.items && s.delivered <= r.delivered
  {
    ProducerNextKeepsInv(cap, s, t, a);
    ProducerNext(cap, s, t, a)
  }

  ghost function AfterConsumer<T>(cap: nat, s: Queue<T>, residue: T): (r: Queue<T>)
    requires Inv(cap, s)
    ensures Inv(cap, r) && |r.producers| == |s.producers|
    ensures s.ring.items <= r.ring.items && s.delivered <= r.delivered
  {
    ConsumerNextKeepsInv(cap, s, residue);
    ConsumerNext(cap, s, residue)
  }

  ghost function Apply<T>(cap: nat, s: Queue<T>, m: Move<T>): (r: Queue<T>)
    requires Inv(cap, s) && (m.ByProducer? ==> m.t < |s.producers|)
    ensures Inv(cap, r) && |r.producers| == |s.producers|
    ensures s.ring.items <= r.ring.items && s.delivered <= r.delivered
  {
    match m
    case ByProducer(t, a) => AfterProducer(cap, s, t, a)
    case ByConsumer(residue) => AfterConsumer(cap, s, residue)
  }

  ghost function Exec<T>(cap: nat, s: Queue<T>, sched: seq<Move<T>>): (r: Queue<T>)
    requires Inv(cap, s) && ValidSchedule(|s.producers|, sched)
    ensures Inv(cap, r) && |r.producers| == |s.producers|
    ensures s.ring.items <= r.ring.items && s.delivered <= r.delivered
    decreases |sched|
  {
    if sched == [] then s else Exec(cap, Apply(cap, s, sched[0]), sched[1..])
  }

  /** First in, first out, no loss and no duplication over every run with one consumer: the
      returned values are the first of the items in claim order, whoever produced them.  The
      tail may run ahead of the stored consumer position by one more than the capacity, and
      only while the consumer stands between its two stores. */
  lemma FirstInFirstOut<T>(cap: nat, s: Queue<T>, sched: seq<Move<T>>)
    requires Init(cap, s) && ValidSchedule(|s.producers|, sched)
    ensures Inv(cap, s)
    ensures var r := Exec(cap, s, sched);
      && r.head <= r.ring.tail <= r.head + cap + 1
      && (r.ring.tail == r.head + cap + 1 ==> r.consumer.StorePosition?)
      && |r.delivered| == r.head && r.delivered <= r.ring.items
  {
    InitInv(cap, s);
  }

  /** Over every run: the step by which a call of Enqueue returns false is the sequence load for the tail, in a
      state in which the occupant one lap back has not given the slot back; and the one by which it
      returns true publishes the caller's item, at a position that was not published before. */
  lemma EnqueueEnds<T>(cap: nat, s: Queue<T>, sched: seq<Move<T>>, t: nat, a: Action<T>)
    requires Init(cap, s) && ValidSchedule(|s.producers|, sched) && t < |s.producers|
    ensures Inv(cap, s) && ValidSchedule(|s.producers|, sched + [ByProducer(t, a)])
    ensures var d := Exec(cap, s, sched); var pc := d.producers[t];
      var r := Exec(cap, s, sched + [ByProducer(t, a)]);
      !pc.Idle? ==>
        && (r.producers[t] == Idle(Full) <==>
              a.Step? && pc.LoadSequence? && pc.pos == d.ring.tail && !GivenBack(d.ring, d.ring.tail - cap))
        && (r.producers[t] == Idle(Enqueued) <==>
              a.Step? && pc.Publish? && pc.pos < |r.ring.items| && r.ring.items[pc.pos] == pc.item &&
              !IsPublished(d.ring, pc.pos) && IsPublished(r.ring, pc.pos))
  {
    InitInv(cap, s);
    ExecSnoc(cap, s, sched, ByProducer(t, a));
    hide Inv, Exec, ProducerNext, CanStep;
    var d := Exec(cap, s, sched);
    if !d.producers[t].Idle? {
      ProducerVerdicts(cap, d, t, a);
      ProducerPuts(cap, d, t, a);
    }
  }

  /** ApproxSize subtracts two loads.  It reports the distance exactly when the consumer has not
      overtaken the loaded tail between them; otherwise it reports a number near 2^64. */
  lemma SizeIsExactUnlessOvertaken<T>(cap: nat, s: Queue<T>, t: nat)
    requires Inv(cap, s) && t < |s.producers| && s.producers[t].SizeLoadHead?
    requires cap < HALF && s.head - s.producers[t].tail < HALF
    ensures CanStep(cap, s, t)
    ensures var tail := s.producers[t].tail; var size := ProducerNext(cap, s, t, Step).producers[t].last.size;
      && (size <= cap + 1 <==> s.head <= tail)
      && (s.head <= tail ==> size == tail - s.head)
      && (s.head > tail ==> size == WORD - (s.head - tail))
  {
    assert ProducerInv(cap, s, t, s.producers[t]);
  }

  // ---- runs that show the bounds are met ----

  lemma {:induction false} ExecSnoc<T>(cap: nat, s: Queue<T>, sched: seq<Move<T>>, m: Move<T>)
    requires Inv(cap, s) && ValidSchedule(|s.producers|, sched) && (m.ByProducer? ==> m.t < |s.producers|)
    ensures ValidSchedule(|s.producers|, sched + [m])
    ensures Exec(cap, s, sched + [m]) == Apply(cap, Exec(cap, s, sched), m)
    decreases |sched|
  {
    hide Inv;
    if sched == [] {
      assert (sched + [m])[1..] == [];
    } else {
      ExecSnoc(cap, Apply(cap, s, sched[0]), sched[1..], m);
      assert (sched + [m])[1..] == sched[1..] + [m];
    }
  }

  ghost predicate Reaches<T(!new)>(cap: nat, s: Queue<T>, r: Queue<T>)
    requires Inv(cap, s)
  {
    exists sched :: ValidSchedule(|s.producers|, sched) && Exec(cap, s, sched) == r
  }

  lemma ReachesApply<T(!new)>(cap: nat, s: Queue<T>, r: Queue<T>, m: Move<T>)
    requires Inv(cap, s) && Reaches(cap, s, r) && (m.ByProducer? ==> m.t < |s.producers|)
    ensures Inv(cap, r) && |r.producers| == |s.producers| && Reaches(cap, s, Apply(cap, r, m))
  {
    var sched :| ValidSchedule(|s.producers|, sched) && Exec(cap, s, sched) == r;
    ExecSnoc(cap, s, sched, m);
  }

  lemma ReachesInv<T(!new)>(cap: nat, s: Queue<T>, r: Queue<T>)
    requires Inv(cap, s) && Reaches(cap, s, r)
    ensures Inv(cap, r) && |r.producers| == |s.producers|
  {
  }

  lemma ProducerMoves<T(!new)>(cap: nat, s: Queue<T>, r: Queue<T>, t: nat, a: Action<T>) returns (r': Queue<T>)
    requires Inv(cap, s) && Reaches(cap, s, r) && t < |s.producers| == |r.producers|
    ensures CanStep(cap, r, t) && r' == ProducerNext(cap, r, t, a)
    ensures |r'.producers| == |s.producers| && Reaches(cap, s, r')
  {
    ReachesApply(cap, s, r, ByProducer(t, a));
    r' := Apply(cap, r, ByProducer(t, a));
  }

  lemma ConsumerMoves<T(!new)>(cap: nat, s: Queue<T>, r: Queue<T>, residue: T) returns (r': Queue<T>)
    requires Inv(cap, s) && Reaches(cap, s, r)
    ensures ConsumerCanStep(cap, r) && r' == ConsumerNext(cap, r, residue)
    ensures |r'.producers| == |s.producers| && Reaches(cap, s, r')
  {
    ReachesApply(cap, s, r, ByConsumer(residue));
    r' := Apply(cap, r, ByConsumer(residue));
  }

  /** A step that moves only the producer itself from `pc` on to `pc'`. */
  lemma QuietMove<T(!new)>(cap: nat, s: Queue<T>, r: Queue<T>, t: nat, pc: Producer<T>, a: Action<T>, pc': Producer<T>)
    requires Inv(cap, s) && t < |s.producers| == |r.producers| && Reaches(cap, s, Goto(r, t, pc))
    requires CanStep(cap, Goto(r, t, pc), t) ==> ProducerNext(cap, Goto(r, t, pc), t, a) == Goto(Goto(r, t, pc), t, pc')
    ensures Reaches(cap, s, Goto(r, t, pc'))
  {
    hide Reaches, Inv;
    var _ := ProducerMoves(cap, s, Goto(r, t, pc), t, a);
    assert Goto(Goto(r, t, pc), t, pc') == Goto(r, t, pc');
  }

  /** Producer 0 wins the tail undisturbed. */
  lemma ReachesClaim<T(!new)>(cap: nat, s: Queue<T>, r: Queue<T>, x: T) returns (r': Queue<T>)
    requires Inv(cap, s) && Reaches(cap, s, r) && 0 < |s.producers| == |r.producers|
    requires r.producers[0].Idle? && GivenBack(r.ring, r.ring.tail - cap)
    ensures Reaches(cap, s, r')
    ensures r' == Goto(r.(ring := Claim(r.ring, x, 0)), 0, Write(x, r.ring.tail))
  {
    hide Reaches, Inv;
    assert 0 < cap == |r.ring.slots| && SlotAt(cap, r.ring, r.ring.tail).sequence == r.ring.tail by {
      ReachesInv(cap, s, r);
      ProducerVerdict(cap, r.ring, r.ring.tail);
    }
    var pos := r.ring.tail;
    assert r == Goto(r, 0, r.producers[0]);
    QuietMove(cap, s, r, 0, r.producers[0], CallEnqueue(x), LoadTail(x));
    QuietMove(cap, s, r, 0, LoadTail(x), Step, LoadSequence(x, pos));
    QuietMove(cap, s, r, 0, LoadSequence(x, pos), Step, Cas(x, pos));
    r' := ProducerMoves(cap, s, Goto(r, 0, Cas(x, pos)), 0, Step);
    assert r'.producers == r.producers[0 := Write(x, pos)];
  }

  /** What the two stores of a producer do to everything but the slot itself. */
  lemma TwoStores<T>(cap: nat, s: Queue<T>, t: nat)
    requires CanStep(cap, s, t) && s.producers[t].Write?
    ensures var pos := s.producers[t].pos; var m := ProducerNext(cap, s, t, Step);
      && CanStep(cap, m, t) && m.producers[t] == Publish(s.producers[t].item, pos)
      && var r := ProducerNext(cap, m, t, Step);
         && r == s.(ring := r.ring, producers := s.producers[t := Idle(Enqueued)])
         && r.ring.tail == s.ring.tail && r.ring.stages == s.ring.stages[pos := Published]
  {
    var pos := s.producers[t].pos;
    var m := ProducerNext(cap, s, t, Step);
    var r := ProducerNext(cap, m, t, Step);
    assert r.producers == s.producers[t := Idle(Enqueued)];
    assert r.ring.stages == s.ring.stages[pos := Published];
  }

  /** Producer 0 runs a whole Enqueue undisturbed. */
  lemma ReachesPut<T(!new)>(cap: nat, s: Queue<T>, r: Queue<T>, x: T) returns (r': Queue<T>)
    requires Inv(cap, s) && Reaches(cap, s, r) && 0 < |s.producers| == |r.producers|
    requires r.producers[0].Idle? && GivenBack(r.ring, r.ring.tail - cap)
    ensures Reaches(cap, s, r')
    ensures r'.ring.tail == r.ring.tail + 1 && r'.head == r.head && r'.consumer == r.consumer
    ensures r'.producers == r.producers[0 := Idle(Enqueued)]
    ensures r'.ring.stages == r.ring.stages + [Published]
  {
    hide Reaches, Inv;
    var r1 := ReachesClaim(cap, s, r, x);
    var r2 := ProducerMoves(cap, s, r1, 0, Step);
    TwoStores(cap, r1, 0);
    assert |r.ring.stages| == r.ring.tail by { ReachesInv(cap, s, r); }
    r' := ProducerMoves(cap, s, r2, 0, Step);
    assert (r.ring.stages + [Claimed(0)])[r.ring.tail := Published] == r.ring.stages + [Published];
    assert r.producers[0 := Write(x, r.ring.tail)][0 := Idle(Enqueued)] == r.producers[0 := Idle(Enqueued)];
  }

  /** The consumer takes the head's position undisturbed. */
  lemma ReachesTake<T(!new)>(cap: nat, s: Queue<T>, r: Queue<T>, x: T) returns (r': Queue<T>)
    requires Inv(cap, s) && Reaches(cap, s, r) && |s.producers| == |r.producers|
    requires r.consumer.Waiting? && IsPublished(r.ring, r.head)
    ensures Reaches(cap, s, r')
    ensures r' == r.(consumer := Read(r.head), ring := r.ring.(stages := r.ring.stages[r.head := Taken(0)]))
  {
    hide Reaches, Inv;
    r' := ConsumerMoves(cap, s, r, x);
    r' := ConsumerMoves(cap, s, r', x);
    assert r' == r.(consumer := Examine(r.head));
    assert 0 < cap == |r'.ring.slots| && SlotAt(cap, r.ring, r.head).sequence == r.head + 1 by {
      ReachesInv(cap, s, r');
      ConsumerVerdict(cap, r');
    }
    r' := ConsumerMoves(cap, s, r', x);
  }

  /** The consumer runs a Dequeue up to the point between its two stores. */
  lemma ReachesRelease<T(!new)>(cap: nat, s: Queue<T>, r: Queue<T>, x: T) returns (r': Queue<T>)
    requires Inv(cap, s) && Reaches(cap, s, r) && |s.producers| == |r.producers|
    requires r.consumer.Waiting? && IsPublished(r.ring, r.head)
    ensures Reaches(cap, s, r')
    ensures r'.head == r.head && r'.ring.tail == r.ring.tail && r'.producers == r.producers
    ensures r'.consumer.StorePosition?
    ensures r.head < r.ring.tail && r'.ring.stages == r.ring.stages[r.head := Released]
  {
    hide Reaches, Inv;
    r' := ReachesTake(cap, s, r, x);
    r' := ConsumerMoves(cap, s, r', x);
    assert r'.consumer.Release? && r'.consumer.pos == r.head;
    r' := ConsumerMoves(cap, s, r', x);
    assert r'.ring.stages == r.ring.stages[r.head := Released];
  }

  /** The extra position is really reached: with two slots, a producer refills the slot that the
      consumer has just given back before the consumer stores its position. */
  lemma WindowOpens<T(!new)>(s: Queue<T>, x: T) returns (r: Queue<T>)
    requires Init(2, s) && |s.producers| == 1
    ensures Inv(2, s) && Reaches(2, s, r) && r.ring.tail == r.head + 2 + 1
  {
    InitInv(2, s);
    assert Exec(2, s, []) == s && ValidSchedule<T>(1, []);
    r := ReachesPut(2, s, s, x);
    r := ReachesPut(2, s, r, x);
    r := ReachesRelease(2, s, r, x);
    r := ReachesPut(2, s, r, x);
  }

  lemma OvertakenStart<T(!new)>(s: Queue<T>)
    requires Init(2, s) && |s.producers| == 2
    ensures Inv(2, s) && Reaches(2, s, Goto(s, 1, SizeLoadHead(0)))
  {
    InitInv(2, s);
    assert Exec(2, s, []) == s && ValidSchedule<T>(2, []);
    assert s == Goto(s, 1, Idle(Nothing));
    QuietMove(2, s, s, 1, Idle(Nothing), CallSize, SizeLoadTail);
    QuietMove(2, s, s, 1, SizeLoadTail, Step, SizeLoadHead(0));
  }

  lemma OvertakenEnd<T(!new)>(s: Queue<T>, r: Queue<T>, x: T) returns (r': Queue<T>)
    requires Inv(2, s) && Reaches(2, s, r) && |s.producers| == |r.producers| == 2
    requires r.consumer.StorePosition? && r.head == 0 && r.producers[1] == SizeLoadHead(0)
    ensures Reaches(2, s, r') && |r'.producers| == 2 && r'.producers[1] == Idle(Size(WORD - 1))
  {
    hide Reaches, Inv;
    var r1 := ConsumerMoves(2, s, r, x);
    assert r1.head == 1 by { ReachesInv(2, s, r); }
    assert r1 == Goto(r1, 1, SizeLoadHead(0));
    assert Wrap(-1) == WORD - 1;
    QuietMove(2, s, r1, 1, SizeLoadHead(0), Step, Idle(Size(WORD - 1)));
    r' := Goto(r1, 1, Idle(Size(WORD - 1)));
  }

  /** A size of 2^64 - 1 is really reported: the tail is loaded before the item goes in, the
      consumer position after it has come out. */
  lemma SizeOvertaken<T(!new)>(s: Queue<T>, x: T) returns (r: Queue<T>)
    requires Init(2, s) && |s.producers| == 2
    ensures Inv(2, s) && Reaches(2, s, r) && |r.producers| == 2 && r.producers[1] == Idle(Size(WORD - 1))
  {
    hide Reaches;
    OvertakenStart(s);
    r := ReachesPut(2, s, Goto(s, 1, SizeLoadHead(0)), x);
    r := ReachesRelease(2, s, r, x);
    r := OvertakenEnd(s, r, x);
  }
}
