/** The slot ring that both bounded queues are built on.

    Positions are unbounded counters here; `MpmcWords` shows that the 64-bit words of the
    program take the same branches.  Position `p` lives in slot `p % cap`.  Beside the words
    the program keeps (`tail` and the slots), the ring records two histories, indexed by
    position: `items[p]` is the item whose producer won position `p`, and `stages[p]` says
    how far that position has got. */
module SlotRing {
  import opened Arith

  datatype Slot<T> = Slot(sequence: int, storage: T)

  /** The life of one position, with the thread that has it in hand. */
  datatype Stage =
    | Claimed(owner: nat)   // a producer won the position and has not written the item yet
    | Stored(owner: nat)    // the item is in the slot, not yet published
    | Published          // a consumer may take it
    | Taken(owner: nat)     // a consumer owns the position and has not read the item yet
    | Drained(owner: nat)   // the item was moved out, the slot is not yet given back
    | Released           // the slot is free for position p + cap

  datatype Ring<T> = Ring(tail: nat, slots: seq<Slot<T>>, items: seq<T>, stages: seq<Stage>)

  predicate HoldsItem(st: Stage) {
    st.Stored? || st.Published? || st.Taken?
  }

  /** The slot of a position.  A negative position stands for the initial, never used lap. */
  function SlotAt<T>(cap: nat, r: Ring<T>, p: int): Slot<T>
    requires 0 < cap == |r.slots|
  {
    r.slots[p % cap]
  }

  /** The sequence number that the slot of `p` shows while `p` is its latest occupant. */
  function SequenceOf(cap: nat, stages: seq<Stage>, p: int): int
    requires p < |stages|
  {
    if p < 0 then p + cap else
      match stages[p]
      case Claimed(_) => p
      case Stored(_) => p
      case Published => p + 1
      case Taken(_) => p + 1
      case Drained(_) => p + 1
      case Released => p + cap
  }

  ghost predicate Latest<T>(cap: nat, r: Ring<T>, p: int) {
    r.tail - cap <= p < r.tail
  }

  /** What every reachable ring satisfies: positions more than one lap back are released, and
      each slot is exactly as its latest occupant left it. */
  ghost predicate RingInv<T>(cap: nat, r: Ring<T>) {
    && 2 <= cap == |r.slots|
    && |r.items| == |r.stages| == r.tail
    && (forall p {:trigger r.stages[p]} :: 0 <= p < r.tail - cap ==> r.stages[p].Released?)
    && (forall p {:trigger SlotAt(cap, r, p)} :: Latest(cap, r, p) ==>
          SlotAt(cap, r, p).sequence == SequenceOf(cap, r.stages, p))
    && (forall p {:trigger SlotAt(cap, r, p)} :: 0 <= p && Latest(cap, r, p) && HoldsItem(r.stages[p]) ==>
          SlotAt(cap, r, p).storage == r.items[p])
  }

  lemma SlotsDiffer(cap: nat, p: int, q: int)
    requires 0 < cap
    requires p != q && -(cap as int) < p - q < cap
    ensures p % cap != q % cap
  {
    var a, b := p / cap, q / cap;
    assert p == cap * a + p % cap && q == cap * b + q % cap;
    if a < b { MulStep(cap, a, b); }
    if b < a { MulStep(cap, b, a); }
  }

  lemma SlotsAgree(cap: nat, p: int, q: int)
    requires 0 < cap && q == p + cap
    ensures p % cap == q % cap
  {
    var a, b := p / cap, q / cap;
    assert p == cap * a + p % cap && q == cap * b + q % cap;
    assert cap * (a + 1) == cap * a + cap;
    DivisionUnique(cap, a + 1, p % cap, b, q % cap);
  }

  /** Has the consumer of position `p` given the slot back (or was there never one)? */
  predicate GivenBack<T>(r: Ring<T>, p: int) {
    p < 0 || (p < |r.stages| && r.stages[p].Released?)
  }

  predicate IsPublished<T>(r: Ring<T>, p: nat) {
    p < |r.stages| && !r.stages[p].Claimed? && !r.stages[p].Stored?
  }

  /** The latest position that shares its slot with `pos`. */
  lemma LatestOccupant(cap: nat, tail: nat, pos: nat) returns (q: int)
    requires 0 < cap && pos <= tail
    ensures tail - cap <= q < tail && q % cap == pos % cap
    ensures pos == tail ==> q == tail - cap
    ensures pos < tail ==> q == pos || pos + cap <= q
  {
    if pos == tail {
      q := tail - cap;
      SlotsAgree(cap, q, pos);
    } else {
      q := pos;
      while q + cap < tail
        invariant pos <= q < tail && q % cap == pos % cap && (q == pos || pos + cap <= q)
        decreases tail - q
      {
        SlotsAgree(cap, q, q + cap);
        q := q + cap;
      }
    }
  }

  /** What a producer reads off the sequence number of its slot, however many laps its position
      is behind. */
  lemma ProducerVerdict<T>(cap: nat, r: Ring<T>, pos: nat)
    requires RingInv(cap, r) && pos <= r.tail
    ensures SlotAt(cap, r, pos).sequence < pos <==> pos == r.tail && !GivenBack(r, pos - cap)
    ensures SlotAt(cap, r, pos).sequence == pos <==>
      if pos == r.tail then GivenBack(r, pos - cap) else !IsPublished(r, pos)
    ensures SlotAt(cap, r, pos).sequence > pos <==> pos < r.tail && IsPublished(r, pos)
  {
    var q := LatestOccupant(cap, r.tail, pos);
    assert SlotAt(cap, r, q) == SlotAt(cap, r, pos);
    assert Latest(cap, r, q);
  }

  // ---- what a thread does to the ring ----

  function WithSequence<T>(cap: nat, r: Ring<T>, p: nat, sequence: int, stage: Stage): Ring<T>
    requires 0 < cap == |r.slots| && p < |r.stages|
  {
    r.(slots := r.slots[p % cap := r.slots[p % cap].(sequence := sequence)],
       stages := r.stages[p := stage])
  }

  function WithStorage<T>(cap: nat, r: Ring<T>, p: nat, storage: T, stage: Stage): Ring<T>
    requires 0 < cap == |r.slots| && p < |r.stages|
  {
    r.(slots := r.slots[p % cap := r.slots[p % cap].(storage := storage)],
       stages := r.stages[p := stage])
  }

  function Claim<T>(r: Ring<T>, item: T, owner: nat): Ring<T> {
    r.(tail := r.tail + 1, items := r.items + [item], stages := r.stages + [Claimed(owner)])
  }

  lemma ClaimKeepsRing<T>(cap: nat, r: Ring<T>, item: T, owner: nat)
    requires RingInv(cap, r)
    requires SlotAt(cap, r, r.tail).sequence == r.tail
    ensures RingInv(cap, Claim(r, item, owner))
  {
    var r' := Claim(r, item, owner);
    SlotsAgree(cap, r.tail - cap, r.tail);
    assert SlotAt(cap, r, r.tail - cap) == SlotAt(cap, r, r.tail);
    assert r.tail >= cap ==> r.stages[r.tail - cap].Released?;
    forall p | Latest(cap, r', p)
      ensures SlotAt(cap, r', p).sequence == SequenceOf(cap, r'.stages, p)
      ensures 0 <= p && HoldsItem(r'.stages[p]) ==> SlotAt(cap, r', p).storage == r'.items[p]
    {
      assert SlotAt(cap, r', p) == SlotAt(cap, r, p);
    }
  }

  /** A store into the slot of a latest position leaves every other latest position's slot alone. */
  lemma OtherSlotsUntouched<T>(cap: nat, r: Ring<T>, r': Ring<T>, p: nat)
    requires 0 < cap == |r.slots| == |r'.slots| && r'.tail == r.tail
    requires Latest(cap, r, p)
    requires forall i :: 0 <= i < cap && i != p % cap ==> r'.slots[i] == r.slots[i]
    ensures forall q :: Latest(cap, r', q) && q != p ==> SlotAt(cap, r', q) == SlotAt(cap, r, q)
  {
    forall q | Latest(cap, r', q) && q != p ensures SlotAt(cap, r', q) == SlotAt(cap, r, q) {
      SlotsDiffer(cap, p, q);
    }
  }

  lemma SequenceStoreKeepsRing<T>(cap: nat, r: Ring<T>, p: nat, sequence: int, stage: Stage)
    requires RingInv(cap, r) && Latest(cap, r, p)
    requires sequence == SequenceOf(cap, r.stages[p := stage], p)
    requires HoldsItem(stage) ==> HoldsItem(r.stages[p])
    ensures RingInv(cap, WithSequence(cap, r, p, sequence, stage))
  {
    var r' := WithSequence(cap, r, p, sequence, stage);
    OtherSlotsUntouched(cap, r, r', p);
    forall q | Latest(cap, r', q)
      ensures SlotAt(cap, r', q).sequence == SequenceOf(cap, r'.stages, q)
      ensures 0 <= q && HoldsItem(r'.stages[q]) ==> SlotAt(cap, r', q).storage == r'.items[q]
    {
      assert SlotAt(cap, r, q).sequence == SequenceOf(cap, r.stages, q);
    }
  }

  lemma StorageStoreKeepsRing<T>(cap: nat, r: Ring<T>, p: nat, storage: T, stage: Stage)
    requires RingInv(cap, r) && Latest(cap, r, p)
    requires SequenceOf(cap, r.stages, p) == SequenceOf(cap, r.stages[p := stage], p)
    requires HoldsItem(stage) ==> storage == r.items[p]
    ensures RingInv(cap, WithStorage(cap, r, p, storage, stage))
  {
    var r' := WithStorage(cap, r, p, storage, stage);
    OtherSlotsUntouched(cap, r, r', p);
    forall q | Latest(cap, r', q)
      ensures SlotAt(cap, r', q).sequence == SequenceOf(cap, r'.stages, q)
      ensures 0 <= q && HoldsItem(r'.stages[q]) ==> SlotAt(cap, r', q).storage == r'.items[q]
    {
      assert SlotAt(cap, r, q).sequence == SequenceOf(cap, r.stages, q);
    }
  }

  lemma TakeKeepsRing<T>(cap: nat, r: Ring<T>, p: nat, owner: nat)
    requires RingInv(cap, r) && p < r.tail && r.stages[p].Published?
    ensures RingInv(cap, r.(stages := r.stages[p := Taken(owner)]))
  {
    var r' := r.(stages := r.stages[p := Taken(owner)]);
    forall q | Latest(cap, r', q)
      ensures SlotAt(cap, r', q).sequence == SequenceOf(cap, r'.stages, q)
      ensures 0 <= q && HoldsItem(r'.stages[q]) ==> SlotAt(cap, r', q).storage == r'.items[q]
    {
      assert SlotAt(cap, r', q) == SlotAt(cap, r, q);
    }
  }

  lemma FreshRing<T>(cap: nat, r: Ring<T>)
    requires 2 <= cap == |r.slots| && r.tail == 0 && r.items == [] && r.stages == []
    requires forall i :: 0 <= i < cap ==> r.slots[i].sequence == i
    ensures RingInv(cap, r)
  {
    forall p | Latest(cap, r, p) ensures SlotAt(cap, r, p).sequence == SequenceOf(cap, r.stages, p) {
      SlotsAgree(cap, p, p + cap);
      DivisionOf(cap, p + cap, 0, p + cap);
    }
  }
}
