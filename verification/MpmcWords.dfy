/** The multi-producer multi-consumer queue as the program counts: 64-bit words that wrap,
    a mask for the slot, and the sign of a wrapped difference for the verdict.  The machine
    has no histories; it is shown to be the unbounded machine of `Mpmc`, word for word. */
module MpmcWords {
  import opened SlotRing
  import opened Words
  import U = Mpmc

  datatype Slot<T> = Slot(sequence: Word, storage: T)

  datatype Pc<T> =
    | Idle(last: U.Outcome<T>)
    | EnqueueLoadTail(item: T)
    | EnqueueLoadSequence(item: T, pos: Word)
    | EnqueueCas(item: T, pos: Word)
    | EnqueueWrite(item: T, pos: Word)
    | EnqueuePublish(item: T, pos: Word)
    | DequeueLoadHead
    | DequeueLoadSequence(pos: Word)
    | DequeueCas(pos: Word)
    | DequeueRead(pos: Word)
    | DequeueRelease(value: T, pos: Word)
    | SizeLoadTail
    | SizeLoadHead(tail: Word)

  datatype Queue<T> = Queue(head: Word, tail: Word, slots: seq<Slot<T>>, threads: seq<Pc<T>>)

  function IndexOf(pos: Word, k: nat): (i: nat)
    ensures i < Pow2(k)
  {
    MaskIsRemainder(pos, k);
    BitAnd(pos, Pow2(k) - 1)
  }

  function Goto<T>(w: Queue<T>, t: nat, pc: Pc<T>): Queue<T>
    requires t < |w.threads|
  {
    w.(threads := w.threads[t := pc])
  }

  function StoreSequence<T>(w: Queue<T>, i: nat, sequence: Word): Queue<T>
    requires i < |w.slots|
  {
    w.(slots := w.slots[i := w.slots[i].(sequence := sequence)])
  }

  function StoreItem<T>(w: Queue<T>, i: nat, storage: T): Queue<T>
    requires i < |w.slots|
  {
    w.(slots := w.slots[i := w.slots[i].(storage := storage)])
  }

  /** One step of thread `t` of a queue with 2^k slots. */
  function Next<T>(k: nat, w: Queue<T>, t: nat, a: U.Action<T>): Queue<T>
    requires |w.slots| == Pow2(k) && t < |w.threads|
  {
    match (w.threads[t], a)
    case (Idle(_), CallEnqueue(item)) => Goto(w, t, EnqueueLoadTail(item))
    case (Idle(_), CallDequeue) => Goto(w, t, DequeueLoadHead)
    case (Idle(_), CallSize) => Goto(w, t, SizeLoadTail)

    case (EnqueueLoadTail(item), Step(_)) => Goto(w, t, EnqueueLoadSequence(item, w.tail))
    case (EnqueueLoadSequence(item, pos), Step(_)) =>
      var diff := SignedDifference(w.slots[IndexOf(pos, k)].sequence, pos);
      if diff == 0 then Goto(w, t, EnqueueCas(item, pos))
      else if diff < 0 then Goto(w, t, Idle(U.Full))
      else Goto(w, t, EnqueueLoadTail(item))
    case (EnqueueCas(item, pos), Step(_)) =>
      if w.tail == pos then Goto(w.(tail := Plus(pos, 1)), t, EnqueueWrite(item, pos))
      else Goto(w, t, EnqueueLoadSequence(item, w.tail))
    case (EnqueueCas(item, pos), FailSpuriously) => Goto(w, t, EnqueueLoadSequence(item, w.tail))
    case (EnqueueWrite(item, pos), Step(_)) =>
      Goto(StoreItem(w, IndexOf(pos, k), item), t, EnqueuePublish(item, pos))
    case (EnqueuePublish(item, pos), Step(_)) =>
      Goto(StoreSequence(w, IndexOf(pos, k), Plus(pos, 1)), t, Idle(U.Enqueued))

    case (DequeueLoadHead, Step(_)) => Goto(w, t, DequeueLoadSequence(w.head))
    case (DequeueLoadSequence(pos), Step(_)) =>
      var diff := SignedDifference(w.slots[IndexOf(pos, k)].sequence, Plus(pos, 1));
      if diff == 0 then Goto(w, t, DequeueCas(pos))
      else if diff < 0 then Goto(w, t, Idle(U.Empty))
      else Goto(w, t, DequeueLoadHead)
    case (DequeueCas(pos), Step(_)) =>
      if w.head == pos then Goto(w.(head := Plus(pos, 1)), t, DequeueRead(pos))
      else Goto(w, t, DequeueLoadSequence(w.head))
    case (DequeueCas(pos), FailSpuriously) => Goto(w, t, DequeueLoadSequence(w.head))
    case (DequeueRead(pos), Step(residue)) =>
      Goto(StoreItem(w, IndexOf(pos, k), residue), t, DequeueRelease(w.slots[IndexOf(pos, k)].storage, pos))
    case (DequeueRelease(value, pos), Step(_)) =>
      Goto(StoreSequence(w, IndexOf(pos, k), Plus(pos, Pow2(k))), t, Idle(U.Dequeued(value)))

    case (SizeLoadTail, Step(_)) => Goto(w, t, SizeLoadHead(w.tail))
    case (SizeLoadHead(tail), Step(_)) => Goto(w, t, Idle(U.Size(if tail >= w.head then tail - w.head else 0)))
    case _ => w
  }

  // ---- the words of an unbounded state ----

  function PcWords<T>(pc: U.Pc<T>): Pc<T> {
    match pc
    case Idle(last) => Idle(last)
    case EnqueueLoadTail(item) => EnqueueLoadTail(item)
    case EnqueueLoadSequence(item, pos) => EnqueueLoadSequence(item, Wrap(pos))
    case EnqueueCas(item, pos) => EnqueueCas(item, Wrap(pos))
    case EnqueueWrite(item, pos) => EnqueueWrite(item, Wrap(pos))
    case EnqueuePublish(item, pos) => EnqueuePublish(item, Wrap(pos))
    case DequeueLoadHead => DequeueLoadHead
    case DequeueLoadSequence(pos) => DequeueLoadSequence(Wrap(pos))
    case DequeueCas(pos) => DequeueCas(Wrap(pos))
    case DequeueRead(pos) => DequeueRead(Wrap(pos))
    case DequeueRelease(value, pos) => DequeueRelease(value, Wrap(pos))
    case SizeLoadTail => SizeLoadTail
    case SizeLoadHead(tail) => SizeLoadHead(Wrap(tail))
  }

  function SlotWords<T>(s: SlotRing.Slot<T>): Slot<T> {
    Slot.Slot(Wrap(s.sequence), s.storage)
  }

  function ToWords<T>(s: U.Queue<T>): Queue<T> {
    Queue(Wrap(s.head), Wrap(s.ring.tail),
          seq(|s.ring.slots|, i requires 0 <= i < |s.ring.slots| => SlotWords(s.ring.slots[i])),
          seq(|s.threads|, t requires 0 <= t < |s.threads| => PcWords(s.threads[t])))
  }

  /** The thread's true differences fit the signed word: its position is not so far behind that
      the counters lapped it.  ApproxSize compares two counters without a difference, so there
      both must be in the same lap of the word. */
  ghost predicate Fits<T>(cap: nat, s: U.Queue<T>, t: nat)
    requires 0 < cap == |s.ring.slots| && t < |s.threads|
  {
    match s.threads[t]
    case EnqueueLoadSequence(_, pos) => -HALF <= SlotAt(cap, s.ring, pos).sequence - pos < HALF
    case EnqueueCas(_, pos) => s.ring.tail - pos < WORD
    case DequeueLoadSequence(pos) => -HALF <= SlotAt(cap, s.ring, pos).sequence - (pos + 1) < HALF
    case DequeueCas(pos) => s.head - pos < WORD
    case SizeLoadHead(tail) => tail / WORD == s.head / WORD
    case _ => true
  }

  /** How stale a position may get before a difference leaves the signed range. */
  lemma FitsWhenNotLapped<T>(cap: nat, s: U.Queue<T>, t: nat)
    requires U.Inv(cap, s) && t < |s.threads|
    requires s.threads[t].EnqueueLoadSequence? ==> s.ring.tail - s.threads[t].pos + 2 * cap <= HALF
    requires s.threads[t].DequeueLoadSequence? ==> s.head - s.threads[t].pos + 2 * cap <= HALF
    requires s.threads[t].EnqueueCas? ==> s.ring.tail - s.threads[t].pos < WORD
    requires s.threads[t].DequeueCas? ==> s.head - s.threads[t].pos < WORD
    requires s.threads[t].SizeLoadHead? ==> s.threads[t].tail / WORD == s.head / WORD
    ensures Fits(cap, s, t)
  {
    assert U.PcInv(cap, s, t, s.threads[t]);
    if s.threads[t].EnqueueLoadSequence? || s.threads[t].DequeueLoadSequence? {
      var pos := s.threads[t].pos;
      var q := LatestOccupant(cap, s.ring.tail, pos);
      assert SlotAt(cap, s.ring, q) == SlotAt(cap, s.ring, pos);
      assert Latest(cap, s.ring, q);
    }
  }

  lemma SlotOfWord<T>(k: nat, s: U.Queue<T>, pos: int)
    requires k <= 63 && |s.ring.slots| == Pow2(k)
    ensures 0 < Pow2(k) && IndexOf(Wrap(pos), k) == pos % Pow2(k)
    ensures ToWords(s).slots[IndexOf(Wrap(pos), k)] == SlotWords(SlotAt(Pow2(k), s.ring, pos))
  {
    MaskedWordIsSlot(pos, k);
  }

  lemma GotoAgrees<T>(s: U.Queue<T>, t: nat, pc: U.Pc<T>)
    requires t < |s.threads|
    ensures ToWords(U.Goto(s, t, pc)) == Goto(ToWords(s), t, PcWords(pc))
  {
    assert ToWords(U.Goto(s, t, pc)).threads == Goto(ToWords(s), t, PcWords(pc)).threads;
  }

  lemma SequenceStoreAgrees<T>(k: nat, s: U.Queue<T>, s': U.Queue<T>, t: nat, p: nat, sequence: int, stage: Stage,
      pc: U.Pc<T>)
    requires k <= 63 && |s.ring.slots| == Pow2(k) && p < |s.ring.stages| && t < |s.threads|
    requires 0 < Pow2(k) ==> s'.ring == WithSequence(Pow2(k), s.ring, p, sequence, stage)
    requires s'.head == s.head && s'.threads == s.threads[t := pc]
    ensures ToWords(s') == Goto(StoreSequence(ToWords(s), IndexOf(Wrap(p), k), Wrap(sequence)), t, PcWords(pc))
  {
    SlotOfWord(k, s, p);
    var w := Goto(StoreSequence(ToWords(s), IndexOf(Wrap(p), k), Wrap(sequence)), t, PcWords(pc));
    assert ToWords(s').slots == w.slots;
    assert ToWords(s').threads == w.threads;
  }

  lemma StorageStoreAgrees<T>(k: nat, s: U.Queue<T>, s': U.Queue<T>, t: nat, p: nat, storage: T, stage: Stage,
      pc: U.Pc<T>)
    requires k <= 63 && |s.ring.slots| == Pow2(k) && p < |s.ring.stages| && t < |s.threads|
    requires 0 < Pow2(k) ==> s'.ring == WithStorage(Pow2(k), s.ring, p, storage, stage)
    requires s'.head == s.head && s'.threads == s.threads[t := pc]
    ensures ToWords(s') == Goto(StoreItem(ToWords(s), IndexOf(Wrap(p), k), storage), t, PcWords(pc))
  {
    SlotOfWord(k, s, p);
    var w := Goto(StoreItem(ToWords(s), IndexOf(Wrap(p), k), storage), t, PcWords(pc));
    assert ToWords(s').slots == w.slots;
    assert ToWords(s').threads == w.threads;
  }

  lemma EnqueueVerdictAgrees<T>(k: nat, s: U.Queue<T>, t: nat, residue: T)
    requires k <= 63 && U.CanStep(Pow2(k), s, t) && s.threads[t].EnqueueLoadSequence? && Fits(Pow2(k), s, t)
    ensures Next(k, ToWords(s), t, U.Step(residue)) == ToWords(U.Next(Pow2(k), s, t, U.Step(residue)))
  {
    hide SignedDifference, IndexOf, Wrap, SlotAt;
    var pos := s.threads[t].pos;
    SlotOfWord(k, s, pos);
    assert ToWords(s).threads[t] == PcWords(s.threads[t]);
    SignedDifferenceIsTrue(SlotAt(Pow2(k), s.ring, pos).sequence, pos);
    GotoAgrees(s, t, U.Next(Pow2(k), s, t, U.Step(residue)).threads[t]);
  }

  lemma DequeueDifference<T>(k: nat, s: U.Queue<T>, pos: nat)
    requires k <= 63 && 0 < Pow2(k) == |s.ring.slots|
    requires -HALF <= SlotAt(Pow2(k), s.ring, pos).sequence - (pos + 1) < HALF
    ensures SignedDifference(ToWords(s).slots[IndexOf(Wrap(pos), k)].sequence, Plus(Wrap(pos), 1)) ==
      SlotAt(Pow2(k), s.ring, pos).sequence - (pos + 1)
  {
    SlotOfWord(k, s, pos);
    WrapShift(pos, 1);
    SignedDifferenceIsTrue(SlotAt(Pow2(k), s.ring, pos).sequence, pos + 1);
  }

  lemma DequeueVerdictAgrees<T>(k: nat, s: U.Queue<T>, t: nat, residue: T)
    requires k <= 63 && U.CanStep(Pow2(k), s, t) && s.threads[t].DequeueLoadSequence? && Fits(Pow2(k), s, t)
    ensures Next(k, ToWords(s), t, U.Step(residue)) == ToWords(U.Next(Pow2(k), s, t, U.Step(residue)))
  {
    hide SignedDifference, IndexOf, Wrap, Plus, SlotAt;
    DequeueDifference(k, s, s.threads[t].pos);
    assert ToWords(s).threads[t] == PcWords(s.threads[t]);
    GotoAgrees(s, t, U.Next(Pow2(k), s, t, U.Step(residue)).threads[t]);
  }

  lemma CasAgrees<T>(k: nat, s: U.Queue<T>, t: nat, a: U.Action<T>)
    requires k <= 63 && U.CanStep(Pow2(k), s, t) && Fits(Pow2(k), s, t)
    requires s.threads[t].EnqueueCas? || s.threads[t].DequeueCas?
    ensures Next(k, ToWords(s), t, a) == ToWords(U.Next(Pow2(k), s, t, a))
  {
    hide Fits, Next, U.Next, ToWords;
    if s.threads[t].EnqueueCas? { EnqueueCasAgrees(k, s, t, a); } else { DequeueCasAgrees(k, s, t, a); }
  }

  lemma EnqueueCasAgrees<T>(k: nat, s: U.Queue<T>, t: nat, a: U.Action<T>)
    requires k <= 63 && U.CanStep(Pow2(k), s, t) && Fits(Pow2(k), s, t) && s.threads[t].EnqueueCas?
    ensures Next(k, ToWords(s), t, a) == ToWords(U.Next(Pow2(k), s, t, a))
  {
    hide IndexOf, BitAnd, Wrap;
    var pos := s.threads[t].pos;
    assert ToWords(s).threads[t] == PcWords(s.threads[t]);
    WrapShift(pos, 1);
    WrapInjective(s.ring.tail, pos);
    assert ToWords(U.Next(Pow2(k), s, t, a)).threads == Next(k, ToWords(s), t, a).threads;
  }

  lemma DequeueCasAgrees<T>(k: nat, s: U.Queue<T>, t: nat, a: U.Action<T>)
    requires k <= 63 && U.CanStep(Pow2(k), s, t) && Fits(Pow2(k), s, t) && s.threads[t].DequeueCas?
    ensures Next(k, ToWords(s), t, a) == ToWords(U.Next(Pow2(k), s, t, a))
  {
    hide IndexOf, BitAnd, Wrap;
    var pos := s.threads[t].pos;
    assert ToWords(s).threads[t] == PcWords(s.threads[t]);
    WrapShift(pos, 1);
    WrapInjective(s.head, pos);
    assert ToWords(U.Next(Pow2(k), s, t, a)).threads == Next(k, ToWords(s), t, a).threads;
  }

  lemma WriteAgrees<T>(k: nat, s: U.Queue<T>, t: nat, residue: T)
    requires k <= 63 && U.CanStep(Pow2(k), s, t) && s.threads[t].EnqueueWrite?
    ensures Next(k, ToWords(s), t, U.Step(residue)) == ToWords(U.Next(Pow2(k), s, t, U.Step(residue)))
  {
    hide IndexOf, Wrap, BitAnd;
    var pos := s.threads[t].pos;
    var s' := U.Next(Pow2(k), s, t, U.Step(residue));
    assert ToWords(s).threads[t] == PcWords(s.threads[t]);
    StorageStoreAgrees(k, s, s', t, pos, s.threads[t].item, Stored(t), s'.threads[t]);
  }

  lemma PublishAgrees<T>(k: nat, s: U.Queue<T>, t: nat, residue: T)
    requires k <= 63 && U.CanStep(Pow2(k), s, t) && s.threads[t].EnqueuePublish?
    ensures Next(k, ToWords(s), t, U.Step(residue)) == ToWords(U.Next(Pow2(k), s, t, U.Step(residue)))
  {
    hide IndexOf, Wrap, BitAnd;
    var pos := s.threads[t].pos;
    var s' := U.Next(Pow2(k), s, t, U.Step(residue));
    assert ToWords(s).threads[t] == PcWords(s.threads[t]);
    WrapShift(pos, 1);
    SequenceStoreAgrees(k, s, s', t, pos, pos + 1, Published, s'.threads[t]);
  }

  lemma ReadAgrees<T>(k: nat, s: U.Queue<T>, t: nat, residue: T)
    requires k <= 63 && U.CanStep(Pow2(k), s, t) && s.threads[t].DequeueRead?
    ensures Next(k, ToWords(s), t, U.Step(residue)) == ToWords(U.Next(Pow2(k), s, t, U.Step(residue)))
  {
    hide IndexOf, Wrap, BitAnd;
    var pos := s.threads[t].pos;
    var s' := U.Next(Pow2(k), s, t, U.Step(residue));
    assert ToWords(s).threads[t] == PcWords(s.threads[t]);
    SlotOfWord(k, s, pos);
    StorageStoreAgrees(k, s, s', t, pos, residue, Drained(t), s'.threads[t]);
  }

  lemma WordsOf<T>(s: U.Queue<T>, t: nat)
    requires t < |s.threads|
    ensures var w := ToWords(s);
      |w.slots| == |s.ring.slots| && |w.threads| == |s.threads| && w.threads[t] == PcWords(s.threads[t])
  {
  }

  lemma WordReleaseIs<T>(k: nat, w: Queue<T>, t: nat, residue: T)
    requires |w.slots| == Pow2(k) && t < |w.threads| && w.threads[t].DequeueRelease?
    ensures var DequeueRelease(value, pos) := w.threads[t];
      Next(k, w, t, U.Step(residue)) ==
        Goto(StoreSequence(w, IndexOf(pos, k), Plus(pos, Pow2(k))), t, Idle(U.Dequeued(value)))
  {
    hide IndexOf;
  }

  lemma ReleaseIs<T>(cap: nat, s: U.Queue<T>, t: nat, residue: T)
    requires U.CanStep(cap, s, t) && s.threads[t].DequeueRelease?
    ensures var s' := U.Next(cap, s, t, U.Step(residue)); var pc := s.threads[t];
      && s'.head == s.head && s'.threads == s.threads[t := U.Idle(U.Dequeued(pc.value))]
      && s'.ring == WithSequence(cap, s.ring, pc.pos, pc.pos + cap, Released)
  {
  }

  lemma ReleaseAgrees<T>(k: nat, s: U.Queue<T>, t: nat, residue: T)
    requires k <= 63 && U.CanStep(Pow2(k), s, t) && s.threads[t].DequeueRelease?
    ensures Next(k, ToWords(s), t, U.Step(residue)) == ToWords(U.Next(Pow2(k), s, t, U.Step(residue)))
  {
    hide IndexOf, Wrap, BitAnd, Next, U.Next, ToWords, WithSequence, StoreSequence, Goto, SlotAt;
    var pos := s.threads[t].pos;
    var s' := U.Next(Pow2(k), s, t, U.Step(residue));
    WordsOf(s, t);
    WrapShift(pos, Pow2(k));
    WordReleaseIs(k, ToWords(s), t, residue);
    ReleaseIs(Pow2(k), s, t, residue);
    SequenceStoreAgrees(k, s, s', t, pos, pos + Pow2(k), Released, s'.threads[t]);
  }

  /** A step of the word machine is the step of the unbounded machine: the same branch, the
      same slot, the same result, also across the wrap to zero. */
  lemma WordStepAgrees<T>(k: nat, s: U.Queue<T>, t: nat, a: U.Action<T>)
    requires k <= 63 && U.Inv(Pow2(k), s) && t < |s.threads| && Fits(Pow2(k), s, t)
    ensures |ToWords(s).slots| == Pow2(k) && |ToWords(s).threads| == |s.threads|
    ensures Next(k, ToWords(s), t, a) == ToWords(U.Next(Pow2(k), s, t, a))
  {
    assert U.PcInv(Pow2(k), s, t, s.threads[t]);
    assert ToWords(s).threads[t] == PcWords(s.threads[t]);
    if s.threads[t].EnqueueLoadSequence? {
      if a.Step? { EnqueueVerdictAgrees(k, s, t, a.residue); }
    } else if s.threads[t].DequeueLoadSequence? {
      if a.Step? { DequeueVerdictAgrees(k, s, t, a.residue); }
    } else if s.threads[t].EnqueueCas? || s.threads[t].DequeueCas? {
      CasAgrees(k, s, t, a);
    } else if U.Owns(s.threads[t]) {
      if a.Step? {
        match s.threads[t]
        case EnqueueWrite(_, _) => WriteAgrees(k, s, t, a.residue);
        case EnqueuePublish(_, _) => PublishAgrees(k, s, t, a.residue);
        case DequeueRead(_) => ReadAgrees(k, s, t, a.residue);
        case DequeueRelease(_, _) => ReleaseAgrees(k, s, t, a.residue);
      }
    } else {
      LocalStepAgrees(k, s, t, a);
    }
  }

  lemma LocalStepAgrees<T>(k: nat, s: U.Queue<T>, t: nat, a: U.Action<T>)
    requires k <= 63 && U.CanStep(Pow2(k), s, t) && Fits(Pow2(k), s, t)
    requires s.threads[t].Idle? || s.threads[t].EnqueueLoadTail? || s.threads[t].DequeueLoadHead?
             || s.threads[t].SizeLoadTail? || s.threads[t].SizeLoadHead?
    ensures Next(k, ToWords(s), t, a) == ToWords(U.Next(Pow2(k), s, t, a))
  {
    var s' := U.Next(Pow2(k), s, t, a);
    assert ToWords(s).threads[t] == PcWords(s.threads[t]);
    if s.threads[t].SizeLoadHead? {
      var tail := s.threads[t].tail;
      assert tail == WORD * (tail / WORD) + Wrap(tail) && s.head == WORD * (s.head / WORD) + Wrap(s.head);
    }
    assert ToWords(s').threads == Next(k, ToWords(s), t, a).threads;
  }

  // ---- whole runs ----

  function Exec<T>(k: nat, w: Queue<T>, sched: U.Schedule<T>): Queue<T>
    requires |w.slots| == Pow2(k) && U.ValidSchedule(|w.threads|, sched)
    decreases |sched|
  {
    if sched == [] then w
    else Exec(k, Next(k, w, sched[0].0, sched[0].1), sched[1..])
  }

  /** Every step of the schedule finds its thread's differences in range. */
  ghost predicate FitsAlong<T>(cap: nat, s: U.Queue<T>, sched: U.Schedule<T>)
    requires U.Inv(cap, s) && U.ValidSchedule(|s.threads|, sched)
    decreases |sched|
  {
    sched == [] ||
    (&& Fits(cap, s, sched[0].0)
     && (U.NextExtends(cap, s, sched[0].0, sched[0].1);
         FitsAlong(cap, U.Next(cap, s, sched[0].0, sched[0].1), sched[1..])))
  }

  /** The program's run is the unbounded run seen through its words, so every promise made for
      the unbounded queue holds of the 64-bit queue, from any reachable state and over any
      number of wraps of its counters. */
  lemma {:induction false} WordRunAgrees<T>(k: nat, s: U.Queue<T>, sched: U.Schedule<T>)
    requires k <= 63 && U.Inv(Pow2(k), s) && U.ValidSchedule(|s.threads|, sched)
    requires FitsAlong(Pow2(k), s, sched)
    ensures |ToWords(s).slots| == Pow2(k) && |ToWords(s).threads| == |s.threads|
    ensures Exec(k, ToWords(s), sched) == ToWords(U.Exec(Pow2(k), s, sched))
    decreases |sched|
  {
    if sched != [] {
      WordStepAgrees(k, s, sched[0].0, sched[0].1);
      U.NextExtends(Pow2(k), s, sched[0].0, sched[0].1);
      WordRunAgrees(k, U.Next(Pow2(k), s, sched[0].0, sched[0].1), sched[1..]);
    }
  }

  /** ApproxSize compares the raw words, so it reports the size of the counters exactly when
      its two loads fall in the same lap of the word. */
  lemma SizeAgreesWithinALap<T>(k: nat, w: Queue<T>, t: nat, residue: T, tail: nat, head: nat)
    requires k <= 63 && |w.slots| == Pow2(k) && t < |w.threads|
    requires w.threads[t] == SizeLoadHead(Wrap(tail)) && w.head == Wrap(head)
    requires head - 0x8000_0000_0000_0000 < tail <= head + Pow2(k)
    ensures var result := Next(k, w, t, U.Step(residue)).threads[t];
      && result.Idle? && result.last.Size?
      && (result.last.size == (if tail >= head then tail - head else 0) <==>
          tail / 0x1_0000_0000_0000_0000 == head / 0x1_0000_0000_0000_0000)
  {
    assert Pow2(k) <= HALF by { Pow2Word(k); }
    assert tail == WORD * (tail / WORD) + Wrap(tail);
    assert head == WORD * (head / WORD) + Wrap(head);
  }
}
