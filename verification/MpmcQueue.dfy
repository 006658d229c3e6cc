/** The multi-producer multi-consumer queue as an object, one call of one thread at a time seen from
    within.  Between any two atomic operations of the call the other threads take any number of
    steps of their own.  The object records the run of the step machine that its operations make, so
    a call is held to be a run in which its thread does exactly that call. */
module MpmcQueue {
  import opened SlotRing
  import opened Mpmc

  class MPMCQueue<T(0,!new)> {
    const capacity: nat
    const blank: T
    var head: nat
    var tail: nat
    var slots: seq<Slot<T>>
    /** Where each thread stands, and the histories. */
    var threads: seq<Pc<T>>
    var items: seq<T>
    var stages: seq<Stage>
    var delivered: map<nat, T>
    var producers: seq<nat>
    var consumers: seq<nat>
    /** How many steps the other threads, and spurious failures, may still take. */
    var others: nat
    ghost const start: Queue<T>
    ghost var run: Schedule<T>

    function View(): Queue<T>
      reads this
    {
      Queue(head, Ring(tail, slots, items, stages), threads, delivered, producers, consumers)
    }

    /** The state is the one that the recorded run leads to. */
    ghost predicate Valid()
      reads this
    {
      Inv(capacity, start) && ValidSchedule(|start.threads|, run) && View() == Exec(capacity, start, run)
    }

    constructor (capacity: nat, threadCount: nat, others: nat)
      requires 2 <= capacity
      ensures Valid() && Init(capacity, View()) && start == View() && run == []
      ensures this.capacity == capacity && |threads| == threadCount
    {
      this.capacity := capacity;
      head, tail := 0, 0;
      var nothing: T := *;
      blank := nothing;
      var fresh_ := seq(capacity, i => Slot(i, nothing));
      slots := seq(capacity, _ => Slot(0, nothing));
      threads := seq(threadCount, _ => Idle(Nothing));
      items, stages, delivered, producers, consumers := [], [], map[], [], [];
      this.others := others;
      run := [];
      start := Queue(0, Ring(0, fresh_, [], []), seq(threadCount, _ => Idle(Nothing)), map[], [], []);
      new;
      for i := 0 to capacity
        invariant run == [] && |slots| == capacity && View() == start.(ring := start.ring.(slots := slots))
        invariant forall j {:trigger slots[j]} :: 0 <= j < capacity ==>
          slots[j] == Slot(if j < i then j else 0, nothing)
      {
        slots := slots[i := slots[i].(sequence := i)];
      }
      assert slots == start.ring.slots;
      InitInv(capacity, View());
    }

    /** How often thread `t` has gone round its retry loop. */
    ghost function RoundsOf(t: nat, sched: Schedule<T>): nat {
      if Inv(capacity, start) && ValidSchedule(|start.threads|, sched) && t < |start.threads| then
        Rounds(capacity, start, sched, t) else 0
    }

    lemma Recorded(t: nat, a: Action<T>)
      requires Valid() && t < |threads|
      ensures CanStep(capacity, View(), t) && Inv(capacity, View()) && Inv(capacity, Next(capacity, View(), t, a))
      ensures |start.threads| == |threads| && ValidSchedule(|start.threads|, run + [(t, a)])
      ensures Exec(capacity, start, run + [(t, a)]) == Next(capacity, View(), t, a)
      ensures Own(run + [(t, a)], t) == Own(run, t) + [a]
      ensures forall v :: 0 <= v < |threads| ==>
        RoundsOf(v, run + [(t, a)]) == RoundsOf(v, run) +
          if v == t && a.Step? && (threads[t].EnqueueLoadSequence? || threads[t].DequeueLoadSequence?) then 1 else 0
    {
      hide Inv, Exec, Own, RoundsOf, CanStep, Next;
      RecordedStep(t, a);
      OwnSnoc(run, t, a);
      forall v | 0 <= v < |threads|
        ensures RoundsOf(v, run + [(t, a)]) == RoundsOf(v, run) +
          if v == t && a.Step? && (threads[t].EnqueueLoadSequence? || threads[t].DequeueLoadSequence?) then 1 else 0
      {
        RecordedRound(t, a, v);
      }
    }

    lemma RecordedStep(t: nat, a: Action<T>)
      requires Valid() && t < |threads|
      ensures CanStep(capacity, View(), t) && Inv(capacity, View()) && Inv(capacity, Next(capacity, View(), t, a))
      ensures |start.threads| == |threads| && ValidSchedule(|start.threads|, run + [(t, a)])
      ensures Exec(capacity, start, run + [(t, a)]) == Next(capacity, View(), t, a)
    {
      hide Next, Own, RoundsOf;
      NextExtends(capacity, View(), t, a);
      hide Inv, CanStep, Exec;
      ExecSnoc(capacity, start, run, t, a);
    }

    lemma RecordedRound(t: nat, a: Action<T>, v: nat)
      requires Valid() && t < |threads| && v < |threads|
      ensures RoundsOf(v, run + [(t, a)]) == RoundsOf(v, run) +
        if v == t && a.Step? && (threads[t].EnqueueLoadSequence? || threads[t].DequeueLoadSequence?) then 1 else 0
    {
      hide Inv, Next, CanStep, Own;
      RoundsSnoc(capacity, start, run, v, t, a);
    }

    // ---- the other threads ----

    /** What a call may rely on while others move. */
    ghost predicate OthersMoved(before: Queue<T>, runBefore: Schedule<T>, t: nat)
      reads this
    {
      Valid() && Undisturbed(before, runBefore, View(), run, t) && RoundsOf(t, run) == RoundsOf(t, runBefore)
    }

    method OthersRun(t: nat)
      requires Valid() && t < |threads|
      modifies this
      ensures OthersMoved(old(View()), old(run), t) && t < |threads|
      ensures others <= old(others) && (others == old(others) ==> View() == old(View()))
    {
      hide Inv, Exec, Next, CanStep, Own, RoundsOf, Undisturbed;
      ghost var before, runBefore := View(), run;
      Still(t);
      var more: bool := *;
      while others > 0 && more
        invariant OthersMoved(before, runBefore, t) && t < |threads|
        invariant others <= old(others) && (others == old(others) ==> View() == before)
        decreases others
      {
        var u: nat, a: Action<T> := *, *;
        if u < |threads| && u != t {
          TakeStep(u, t, a, before, runBefore);
        }
        others := others - 1;
        more := *;
      }
    }

    lemma Still(t: nat)
      requires Valid() && t < |threads|
      ensures OthersMoved(View(), run, t)
    {
    }

    method TakeStep(u: nat, t: nat, a: Action<T>, ghost before: Queue<T>, ghost runBefore: Schedule<T>)
      requires OthersMoved(before, runBefore, t) && u < |threads| && t < |threads| && u != t
      modifies this`head, this`tail, this`slots, this`threads, this`items, this`stages, this`delivered, this`producers,
        this`consumers, this`run
      ensures OthersMoved(before, runBefore, t) && |threads| == |old(threads)|
    {
      hide Inv, Exec, Next, CanStep, Undisturbed, Own, RoundsOf;
      Recorded(u, a);
      StaysUndisturbed(capacity, before, runBefore, View(), run, t, u, a);
      var s := Next(capacity, View(), u, a);
      OtherLeavesThread(capacity, View(), u, t, a);
      Become(s);
      run := run + [(u, a)];
    }

    method Become(s: Queue<T>)
      modifies this`head, this`tail, this`slots, this`threads, this`items, this`stages, this`delivered, this`producers,
        this`consumers
      ensures View() == s
    {
      head, tail, slots, items, stages := s.head, s.ring.tail, s.ring.slots, s.ring.items, s.ring.stages;
      threads, delivered, producers, consumers := s.threads, s.delivered, s.producers, s.consumers;
    }

    // ---- the operations of one thread ----

    /** The thread has taken its step `a`. */
    ghost predicate Took(before: Queue<T>, runBefore: Schedule<T>, t: nat, a: Action<T>)
      reads this
    {
      && Valid() && CanStep(capacity, before, t) && View() == Next(capacity, before, t, a)
        && run == runBefore + [(t, a)]
      && Own(run, t) == Own(runBefore, t) + [a] && t < |before.threads|
      && RoundsOf(t, run) == RoundsOf(t, runBefore) +
           if a.Step? && (before.threads[t].EnqueueLoadSequence? || before.threads[t].DequeueLoadSequence?) then 1
             else 0
    }

    method BeginEnqueue(t: nat, item: T)
      requires Valid() && t < |threads| && threads[t].Idle?
      modifies this`threads, this`run
      ensures Took(old(View()), old(run), t, CallEnqueue(item)) && threads == old(threads)[t := EnqueueLoadTail(item)]
    {
      hide Inv, Exec, Own, RoundsOf;
      Recorded(t, CallEnqueue(item));
      threads := threads[t := EnqueueLoadTail(item)];
      run := run + [(t, CallEnqueue(item))];
    }

    method LoadTail(t: nat, item: T) returns (pos: nat)
      requires Valid() && t < |threads| && threads[t] == EnqueueLoadTail(item)
      modifies this`threads, this`run
      ensures Took(old(View()), old(run), t, Step(blank))
      ensures pos == tail && threads == old(threads)[t := EnqueueLoadSequence(item, pos)]
    {
      hide Inv, Exec, Own, RoundsOf;
      Recorded(t, Step(blank));
      pos := tail;
      threads := threads[t := EnqueueLoadSequence(item, pos)];
      run := run + [(t, Step(blank))];
    }

    /** The sequence load and the comparison: below, the tail's slot has not been given back; above,
        the tail has moved past the position. */
    method CheckForEnqueue(t: nat, item: T, pos: nat) returns (diff: int)
      requires Valid() && t < |threads| && threads[t] == EnqueueLoadSequence(item, pos)
      modifies this`threads, this`run
      ensures Took(old(View()), old(run), t, Step(blank))
      ensures diff < 0 ==> pos == tail && pos >= capacity && !GivenBack(View().ring, pos - capacity)
      ensures diff > 0 ==> pos < tail
      ensures threads == old(threads)[t := if diff == 0 then EnqueueCas(item, pos) else if diff < 0 then Idle(Full)
        else EnqueueLoadTail(item)]
    {
      hide Inv, Exec, Own, RoundsOf;
      Recorded(t, Step(blank));
      PositionOf(View(), t);
      EnqueueVerdict(capacity, View(), pos);
      var seq_ := slots[pos % capacity].sequence;
      diff := seq_ - pos;
      threads := threads[t := if diff == 0 then EnqueueCas(item, pos) else if diff < 0 then Idle(Full)
        else EnqueueLoadTail(item)];
      run := run + [(t, Step(blank))];
      assert View() == Next(capacity, old(View()), t, Step(blank));
    }

    lemma PositionOf(s: Queue<T>, t: nat)
      requires Inv(capacity, s) && t < |s.threads|
      ensures capacity == |s.ring.slots| > 0
      ensures s.threads[t].EnqueueLoadSequence? ==> s.threads[t].pos <= s.ring.tail
      ensures s.threads[t].DequeueLoadSequence? ==> s.threads[t].pos <= s.head
      ensures s.threads[t].DequeueCas? && s.threads[t].pos == s.head ==> s.head < |s.ring.stages|
    {
      assert PcInv(capacity, s, t, s.threads[t]);
    }

    /** compare_exchange_weak on the tail; it fails when the tail has moved, or spuriously. */
    lemma CasTailIs(s: Queue<T>, t: nat, a: Action<T>)
      requires CanStep(capacity, s, t) && s.threads[t].EnqueueCas? && (a.Step? || a.FailSpuriously?)
      ensures var EnqueueCas(item, pos) := s.threads[t];
        Next(capacity, s, t, a) ==
          if s.ring.tail == pos && a.Step? then
            s.(ring := s.ring.(tail := pos + 1, items := s.ring.items + [item], stages := s.ring.stages + [Claimed(t)]),
               threads := s.threads[t := EnqueueWrite(item, pos)], producers := s.producers + [t])
          else s.(threads := s.threads[t := EnqueueLoadSequence(item, s.ring.tail)])
    {
    }

    method CasTail(t: nat, item: T, pos: nat, spurious: bool) returns (won: bool, expected: nat)
      requires Valid() && t < |threads| && threads[t] == EnqueueCas(item, pos)
      modifies this`tail, this`items, this`stages, this`producers, this`threads, this`run
      ensures Took(old(View()), old(run), t, if spurious then FailSpuriously else Step(blank))
      ensures won <==> old(tail) == pos && !spurious
      ensures won ==> tail == pos + 1 && producers == old(producers) + [t] && items == old(items) + [item]
                      && threads == old(threads)[t := EnqueueWrite(item, pos)]
      ensures !won ==> expected == tail == old(tail) && producers == old(producers) && items == old(items)
                       && threads == old(threads)[t := EnqueueLoadSequence(item, expected)]
    {
      hide Inv, Exec, Own, RoundsOf, CanStep, Next;
      ghost var a := if spurious then FailSpuriously else Step(blank);
      Recorded(t, a);
      CasTailIs(View(), t, a);
      won, expected := tail == pos && !spurious, tail;
      if won {
        tail, items, stages, producers := pos + 1, items + [item], stages + [Claimed(t)], producers + [t];
        threads := threads[t := EnqueueWrite(item, pos)];
      } else {
        threads := threads[t := EnqueueLoadSequence(item, expected)];
      }
      run := run + [(t, a)];
      assert View() == Next(capacity, old(View()), t, a);
    }

    method WriteStorage(t: nat, item: T, pos: nat)
      requires Valid() && t < |threads| && threads[t] == EnqueueWrite(item, pos)
      modifies this`slots, this`stages, this`threads, this`run
      ensures Took(old(View()), old(run), t, Step(blank)) && threads == old(threads)[t := EnqueuePublish(item, pos)]
    {
      hide Inv, Exec, Own, RoundsOf;
      Recorded(t, Step(blank));
      InHand(View(), t);
      slots := slots[pos % capacity := slots[pos % capacity].(storage := item)];
      stages := stages[pos := Stored(t)];
      threads := threads[t := EnqueuePublish(item, pos)];
      run := run + [(t, Step(blank))];
      assert View() == Next(capacity, old(View()), t, Step(blank));
    }

    /** A thread that owns a position owns one that was won. */
    lemma InHand(s: Queue<T>, t: nat)
      requires Inv(capacity, s) && t < |s.threads| && Owns(s.threads[t])
      ensures capacity == |s.ring.slots| > 0 && s.threads[t].pos < s.ring.tail == |s.ring.stages| == |s.ring.items|
      ensures s.threads[t].EnqueuePublish? ==> s.ring.items[s.threads[t].pos] == s.threads[t].item
      ensures s.threads[t].DequeueRelease? ==>
        s.ring.items[s.threads[t].pos] == s.threads[t].value && s.threads[t].pos !in s.delivered
    {
      assert PcInv(capacity, s, t, s.threads[t]);
    }

    lemma PublishIs(s: Queue<T>, t: nat)
      requires CanStep(capacity, s, t) && s.threads[t].EnqueuePublish? && s.threads[t].pos < |s.ring.stages|
        && capacity == |s.ring.slots| > 0
      ensures var EnqueuePublish(item, pos) := s.threads[t];
        Next(capacity, s, t, Step(blank)) == s.(
          ring := s.ring.(slots := s.ring.slots[pos % capacity := s.ring.slots[pos % capacity].(sequence := pos + 1)],
                          stages := s.ring.stages[pos := Published]),
          threads := s.threads[t := Idle(Enqueued)])
    {
    }

    method PublishSlot(t: nat, item: T, pos: nat)
      requires Valid() && t < |threads| && threads[t] == EnqueuePublish(item, pos)
      modifies this`slots, this`stages, this`threads, this`run
      ensures Took(old(View()), old(run), t, Step(blank)) && threads == old(threads)[t := Idle(Enqueued)]
      ensures pos < |items| && items[pos] == item && IsPublished(View().ring, pos)
    {
      hide Inv, Exec, Own, RoundsOf, CanStep, Next;
      Recorded(t, Step(blank));
      InHand(View(), t);
      PublishIs(View(), t);
      slots := slots[pos % capacity := slots[pos % capacity].(sequence := pos + 1)];
      stages := stages[pos := Published];
      threads := threads[t := Idle(Enqueued)];
      run := run + [(t, Step(blank))];
      assert View() == Next(capacity, old(View()), t, Step(blank));
    }

    method BeginDequeue(t: nat)
      requires Valid() && t < |threads| && threads[t].Idle?
      modifies this`threads, this`run
      ensures Took(old(View()), old(run), t, CallDequeue) && threads == old(threads)[t := DequeueLoadHead]
    {
      hide Inv, Exec, Own, RoundsOf;
      Recorded(t, CallDequeue);
      threads := threads[t := DequeueLoadHead];
      run := run + [(t, CallDequeue)];
    }

    method LoadHead(t: nat) returns (pos: nat)
      requires Valid() && t < |threads| && threads[t] == DequeueLoadHead
      modifies this`threads, this`run
      ensures Took(old(View()), old(run), t, Step(blank)) && pos == head
        && threads == old(threads)[t := DequeueLoadSequence(pos)]
    {
      hide Inv, Exec, Own, RoundsOf;
      Recorded(t, Step(blank));
      pos := head;
      threads := threads[t := DequeueLoadSequence(pos)];
      run := run + [(t, Step(blank))];
    }

    method CheckForDequeue(t: nat, pos: nat) returns (diff: int)
      requires Valid() && t < |threads| && threads[t] == DequeueLoadSequence(pos)
      modifies this`threads, this`run
      ensures Took(old(View()), old(run), t, Step(blank))
      ensures diff < 0 ==> pos == head && !IsPublished(View().ring, pos)
      ensures diff > 0 ==> pos < head
      ensures threads == old(threads)[t := if diff == 0 then DequeueCas(pos) else if diff < 0 then Idle(Empty)
        else DequeueLoadHead]
    {
      hide Inv, Exec, Own, RoundsOf;
      Recorded(t, Step(blank));
      PositionOf(View(), t);
      DequeueVerdict(capacity, View(), pos);
      var seq_ := slots[pos % capacity].sequence;
      diff := seq_ - (pos + 1);
      threads := threads[t := if diff == 0 then DequeueCas(pos) else if diff < 0 then Idle(Empty) else DequeueLoadHead];
      run := run + [(t, Step(blank))];
      assert View() == Next(capacity, old(View()), t, Step(blank));
    }

    method CasHead(t: nat, pos: nat, spurious: bool) returns (won: bool, expected: nat)
      requires Valid() && t < |threads| && threads[t] == DequeueCas(pos)
      modifies this`head, this`stages, this`consumers, this`threads, this`run
      ensures Took(old(View()), old(run), t, if spurious then FailSpuriously else Step(blank))
      ensures won <==> old(head) == pos && !spurious
      ensures won ==>
        head == pos + 1 && consumers == old(consumers) + [t] && threads == old(threads)[t := DequeueRead(pos)]
      ensures !won ==>
        expected == head == old(head) && consumers == old(consumers)
        && threads == old(threads)[t := DequeueLoadSequence(expected)]
    {
      hide Inv, Exec, Own, RoundsOf, CanStep;
      ghost var a := if spurious then FailSpuriously else Step(blank);
      Recorded(t, a);
      PositionOf(View(), t);
      won, expected := head == pos && !spurious, head;
      if won {
        head, stages, consumers := pos + 1, stages[pos := Taken(t)], consumers + [t];
        threads := threads[t := DequeueRead(pos)];
      } else {
        threads := threads[t := DequeueLoadSequence(expected)];
      }
      run := run + [(t, a)];
      assert View() == Next(capacity, old(View()), t, a);
    }

    /** Moves the item out; what the move leaves in the slot is arbitrary. */
    method ReadStorage(t: nat, pos: nat) returns (value: T, ghost residue_: T)
      requires Valid() && t < |threads| && threads[t] == DequeueRead(pos)
      modifies this`slots, this`stages, this`threads, this`run
      ensures Took(old(View()), old(run), t, Step(residue_)) && threads == old(threads)[t := DequeueRelease(value, pos)]
    {
      hide Inv, Exec, Own, RoundsOf;
      var residue: T := *;
      residue_ := residue;
      Recorded(t, Step(residue));
      InHand(View(), t);
      value := slots[pos % capacity].storage;
      slots := slots[pos % capacity := slots[pos % capacity].(storage := residue)];
      stages := stages[pos := Drained(t)];
      threads := threads[t := DequeueRelease(value, pos)];
      run := run + [(t, Step(residue))];
      assert View() == Next(capacity, old(View()), t, Step(residue));
    }

    lemma ReleaseIs(s: Queue<T>, t: nat)
      requires CanStep(capacity, s, t) && s.threads[t].DequeueRelease? && s.threads[t].pos < |s.ring.stages|
        && capacity == |s.ring.slots| > 0
      ensures var DequeueRelease(value, pos) := s.threads[t];
        Next(capacity, s, t, Step(blank)) == s.(
          ring := s.ring.(slots := s.ring.slots[pos % capacity :=
            s.ring.slots[pos % capacity].(sequence := pos + capacity)],
                          stages := s.ring.stages[pos := Released]),
          threads := s.threads[t := Idle(Dequeued(value))], delivered := s.delivered[pos := value])
    {
    }

    method ReleaseSlot(t: nat, value: T, pos: nat)
      requires Valid() && t < |threads| && threads[t] == DequeueRelease(value, pos)
      modifies this`slots, this`stages, this`threads, this`delivered, this`run
      ensures Took(old(View()), old(run), t, Step(blank)) && threads == old(threads)[t := Idle(Dequeued(value))]
      ensures pos < |items| && items[pos] == value && pos !in old(delivered)
        && delivered == old(delivered)[pos := value]
    {
      hide Inv, Exec, Own, RoundsOf, CanStep, Next;
      Recorded(t, Step(blank));
      InHand(View(), t);
      ReleaseIs(View(), t);
      slots := slots[pos % capacity := slots[pos % capacity].(sequence := pos + capacity)];
      stages, delivered := stages[pos := Released], delivered[pos := value];
      threads := threads[t := Idle(Dequeued(value))];
      run := run + [(t, Step(blank))];
      assert View() == Next(capacity, old(View()), t, Step(blank));
    }

    // ---- the calls ----

    /** The thread is within its call: since `before` it has made that call and nothing else, and won
        at most the position `tailWon` at the tail and `headWon` at the head (-1 for none). */
    ghost predicate Calling(before: Queue<T>, runBefore: Schedule<T>, t: nat, call: Action<T>, tailWon: int,
        headWon: int)
      reads this
    {
      Valid() && Part(before, runBefore, View(), run, t, call, tailWon, headWon)
    }

    method OthersRunOn(ghost before: Queue<T>, ghost runBefore: Schedule<T>, t: nat, ghost call: Action<T>,
        ghost tailWon: int, ghost headWon: int)
      requires Calling(before, runBefore, t, call, tailWon, headWon) && t < |threads|
      modifies this
      ensures Calling(before, runBefore, t, call, tailWon, headWon) && t < |threads| && threads[t] == old(threads[t])
      ensures tail >= old(tail) && head >= old(head) && old(items) <= items
      ensures RoundsOf(t, run) == RoundsOf(t, old(run)) && Own(run, t) == Own(old(run), t)
      ensures others <= old(others) && (others == old(others) ==> View() == old(View()))
    {
      hide Inv, Exec, Own, RoundsOf;
      OthersRun(t);
      PartOthers(before, runBefore, old(View()), old(run), View(), run, t, call, tailWon, headWon);
    }

    /** The swap of the tail; it fails only for a position that others have moved past, or spuriously. */
    method TryClaimTail(ghost before: Queue<T>, ghost runBefore: Schedule<T>, t: nat, item: T, pos: nat)
        returns (won: bool, expected: nat)
      requires Calling(before, runBefore, t, CallEnqueue(item), -1, -1) && t < |threads|
        && threads[t] == EnqueueCas(item, pos) && pos <= tail
      modifies this
      ensures t < |threads| && Calling(before, runBefore, t, CallEnqueue(item), if won then |producers| - 1 else -1, -1)
      ensures won ==> threads[t] == EnqueueWrite(item, pos) && tail == pos + 1
      ensures !won ==> threads[t] == EnqueueLoadSequence(item, expected) && expected == tail >= pos
      ensures RoundsOf(t, run) == RoundsOf(t, old(run)) && others <= old(others)
      ensures !won ==> Failed(t) == old(Failed(t)) + 1 || (expected != pos && Failed(t) == old(Failed(t)))
      ensures won ==> Failed(t) == old(Failed(t))
      ensures !won && pos == old(tail) ==> others < old(others)
    {
      hide Inv, Exec, Own, RoundsOf, Part, CanStep, Next;
      OthersRunOn(before, runBefore, t, CallEnqueue(item), -1, -1);
      var spurious: bool := *;
      spurious := spurious && others > 0;
      if spurious {
        others := others - 1;
      }
      ghost var s, r := View(), run;
      won, expected := CasTail(t, item, pos, spurious);
      ghost var a := if spurious then FailSpuriously else Step(blank);
      FailuresSnoc(Own(r, t), a);
      if won {
        PartWonTail(before, runBefore, s, r, View(), run, t, CallEnqueue(item), a);
      } else {
        PartQuiet(before, runBefore, s, r, View(), run, t, CallEnqueue(item), -1, -1, a);
      }
    }

    ghost function Failed(t: nat): nat
      reads this
    {
      Failures(Own(run, t))
    }

    lemma FailuresSnoc(actions: seq<Action<T>>, a: Action<T>)
      ensures Failures(actions + [a]) == Failures(actions) + if a.FailSpuriously? then 1 else 0
    {
      assert (actions + [a])[..|actions|] == actions;
    }

    /** Enqueue from its call to its first sequence load. */
    method StartEnqueue(t: nat, item: T) returns (pos: nat)
      requires Valid() && t < |threads| && threads[t].Idle?
      modifies this
      ensures t < |threads| && Calling(old(View()), old(run), t, CallEnqueue(item), -1, -1)
      ensures threads[t] == EnqueueLoadSequence(item, pos) && old(tail) <= pos == tail && others <= old(others)
      ensures RoundsOf(t, run) == RoundsOf(t, old(run)) && Failed(t) == old(Failed(t))
    {
      hide Inv, Exec, Own, RoundsOf, Part, CanStep, Next;
      ghost var b, rb := View(), run;
      BeginEnqueue(t, item);
      PartBegin(b, rb, View(), run, t, CallEnqueue(item));
      FailuresSnoc(Own(rb, t), CallEnqueue(item));
      pos := ReloadTail(b, rb, t, item);
    }

    method ReloadTail(ghost b: Queue<T>, ghost rb: Schedule<T>, t: nat, item: T) returns (pos: nat)
      requires t < |threads| && Calling(b, rb, t, CallEnqueue(item), -1, -1) && threads[t] == EnqueueLoadTail(item)
      modifies this
      ensures t < |threads| && Calling(b, rb, t, CallEnqueue(item), -1, -1)
      ensures threads[t] == EnqueueLoadSequence(item, pos) && b.ring.tail <= pos == tail && old(tail) <= tail
        && others <= old(others)
      ensures RoundsOf(t, run) == RoundsOf(t, old(run)) && Failed(t) == old(Failed(t))
    {
      hide Inv, Exec, Own, RoundsOf, CanStep, Next;
      OthersRunOn(b, rb, t, CallEnqueue(item), -1, -1);
      ghost var s, r := View(), run;
      pos := LoadTail(t, item);
      FailuresSnoc(Own(r, t), Step(blank));
      PartQuiet(b, rb, s, r, View(), run, t, CallEnqueue(item), -1, -1, Step(blank));
    }

    /** Enqueue after the swap of the tail was won. */
    method Deliver(ghost b: Queue<T>, ghost rb: Schedule<T>, t: nat, item: T, pos: nat)
      requires t < |threads| && Calling(b, rb, t, CallEnqueue(item), pos, -1) && threads[t] == EnqueueWrite(item, pos)
      modifies this
      ensures t < |threads| && Calling(b, rb, t, CallEnqueue(item), pos, -1) && threads[t] == Idle(Enqueued)
      ensures pos < |items| && items[pos] == item && IsPublished(View().ring, pos)
      ensures RoundsOf(t, run) == RoundsOf(t, old(run)) && Failed(t) == old(Failed(t)) && tail >= old(tail)
    {
      hide Inv, Exec, Own, RoundsOf, Part, CanStep, Next;
      OthersRunOn(b, rb, t, CallEnqueue(item), pos, -1);
      ghost var s1, r1 := View(), run;
      WriteStorage(t, item, pos);
      FailuresSnoc(Own(r1, t), Step(blank));
      PartQuiet(b, rb, s1, r1, View(), run, t, CallEnqueue(item), pos, -1, Step(blank));
      OthersRunOn(b, rb, t, CallEnqueue(item), pos, -1);
      ghost var s2, r2 := View(), run;
      PublishSlot(t, item, pos);
      FailuresSnoc(Own(r2, t), Step(blank));
      PartQuiet(b, rb, s2, r2, View(), run, t, CallEnqueue(item), pos, -1, Step(blank));
    }

    /** The sequence load of one round, after others have moved; `decided` is the state it sees. */
    method CheckTail(ghost b: Queue<T>, ghost rb: Schedule<T>, t: nat, item: T, pos: nat)
        returns (diff: int, ghost decided: Schedule<T>)
      requires t < |threads| && Calling(b, rb, t, CallEnqueue(item), -1, -1)
        && threads[t] == EnqueueLoadSequence(item, pos)
      modifies this
      ensures t < |threads| && Calling(b, rb, t, CallEnqueue(item), -1, -1) && tail >= old(tail)
        && others <= old(others)
      ensures threads[t] == if diff == 0 then EnqueueCas(item, pos) else if diff < 0 then Idle(Full)
        else EnqueueLoadTail(item)
      ensures RoundsOf(t, run) == RoundsOf(t, old(run)) + 1 && Failed(t) == old(Failed(t))
      ensures diff > 0 ==> pos < tail && (others == old(others) ==> pos < old(tail))
      ensures others == old(others) ==> tail == old(tail)
      ensures diff < 0 ==> FoundFull(rb, decided, t, item)
    {
      hide Inv, Exec, Own, RoundsOf, CanStep, Next;
      OthersRunOn(b, rb, t, CallEnqueue(item), -1, -1);
      decided := run;
      ghost var s := View();
      SameThreads();
      diff := CheckForEnqueue(t, item, pos);
      FailuresSnoc(Own(decided, t), Step(blank));
      PartQuiet(b, rb, s, decided, View(), run, t, CallEnqueue(item), -1, -1, Step(blank));
    }

    lemma SameThreads()
      requires Valid()
      ensures |start.threads| == |threads|
    {
    }

    /** The run so far leads to a state in which the thread is at its sequence load for the tail, and
        the tail's slot has not been given back; the thread's next step is that load. */
    ghost predicate FoundFull(runBefore: Schedule<T>, decided: Schedule<T>, t: nat, item: T)
      reads this
    {
      && Inv(capacity, start) && ValidSchedule(|start.threads|, decided) && t < |start.threads|
      && runBefore <= decided && decided + [(t, Step(blank))] <= run
      && (var d := Exec(capacity, start, decided);
          && d.threads[t] == EnqueueLoadSequence(item, d.ring.tail)
          && d.ring.tail >= capacity && !GivenBack(d.ring, d.ring.tail - capacity))
    }

    /** The call, whatever the others do meanwhile: a run in which the thread makes this call and does
        nothing else.  True: it has won exactly one position, where its item stands published.  False:
        it has won none, and its last sequence load found the queue full.  The call returns, and each
        round after the first is paid for by a position that somebody won, or by a spurious failure. */
    method Enqueue(t: nat, item: T) returns (ok: bool, ghost at: nat, ghost decided: Schedule<T>)
      requires Valid() && t < |threads| && threads[t].Idle?
      modifies this
      ensures t < |threads| && Calling(old(View()), old(run), t, CallEnqueue(item), if ok then at else -1, -1)
      ensures threads[t] == Idle(if ok then Enqueued else Full)
      ensures ok ==> at < |items| && items[at] == item && IsPublished(View().ring, at)
      ensures !ok ==> FoundFull(old(run), decided, t, item)
      ensures RoundsOf(t, run) - RoundsOf(t, old(run)) <= 1 + (tail - old(tail)) + (Failed(t) - old(Failed(t)))
    {
      hide Inv, Exec, Own, RoundsOf, Part, CanStep, Next, FoundFull, Failed;
      ghost var b, rb := View(), run;
      ghost var r0, f0 := RoundsOf(t, run), Failed(t);
      var pos: nat := StartEnqueue(t, item);
      ghost var budget := others;
      while true
        invariant t < |threads| && Calling(b, rb, t, CallEnqueue(item), -1, -1)
          && threads[t] == EnqueueLoadSequence(item, pos)
        invariant b.ring.tail <= pos <= tail && others <= budget && (pos < tail ==> others < budget)
        invariant RoundsOf(t, run) - r0 <= (pos - b.ring.tail) + (Failed(t) - f0)
        decreases budget
      {
        var diff;
        diff, decided := CheckTail(b, rb, t, item, pos);
        if diff == 0 {
          var won, expected := TryClaimTail(b, rb, t, item, pos);
          if won {
            at := pos;
            WonHere(pos);
            Deliver(b, rb, t, item, pos);
            return true, at, decided;
          }
          pos := expected;
        } else if diff < 0 {
          return false, 0, decided;
        } else {
          pos := ReloadTail(b, rb, t, item);
        }
        budget := others;
      }
    }

    lemma WonHere(pos: nat)
      requires Valid() && tail == pos + 1
      ensures |producers| - 1 == pos
    {
    }

    // ---- Dequeue ----

    method TryClaimHead(ghost before: Queue<T>, ghost runBefore: Schedule<T>, t: nat, pos: nat)
        returns (won: bool, expected: nat)
      requires Calling(before, runBefore, t, CallDequeue, -1, -1) && t < |threads| && threads[t] == DequeueCas(pos)
        && pos <= head
      modifies this
      ensures t < |threads| && Calling(before, runBefore, t, CallDequeue, -1, if won then |consumers| - 1 else -1)
      ensures won ==> threads[t] == DequeueRead(pos) && head == pos + 1
      ensures !won ==> threads[t] == DequeueLoadSequence(expected) && expected == head >= pos
      ensures RoundsOf(t, run) == RoundsOf(t, old(run)) && others <= old(others)
      ensures !won ==> Failed(t) == old(Failed(t)) + 1 || (expected != pos && Failed(t) == old(Failed(t)))
      ensures won ==> Failed(t) == old(Failed(t))
      ensures !won && pos == old(head) ==> others < old(others)
    {
      hide Inv, Exec, Own, RoundsOf, Part, CanStep, Next;
      OthersRunOn(before, runBefore, t, CallDequeue, -1, -1);
      var spurious: bool := *;
      spurious := spurious && others > 0;
      if spurious {
        others := others - 1;
      }
      ghost var s, r := View(), run;
      won, expected := CasHead(t, pos, spurious);
      ghost var a := if spurious then FailSpuriously else Step(blank);
      FailuresSnoc(Own(r, t), a);
      if won {
        PartWonHead(before, runBefore, s, r, View(), run, t, CallDequeue, a);
      } else {
        PartQuiet(before, runBefore, s, r, View(), run, t, CallDequeue, -1, -1, a);
      }
    }

    method StartDequeue(t: nat) returns (pos: nat)
      requires Valid() && t < |threads| && threads[t].Idle?
      modifies this
      ensures t < |threads| && Calling(old(View()), old(run), t, CallDequeue, -1, -1)
      ensures threads[t] == DequeueLoadSequence(pos) && old(head) <= pos == head && others <= old(others)
      ensures RoundsOf(t, run) == RoundsOf(t, old(run)) && Failed(t) == old(Failed(t))
    {
      hide Inv, Exec, Own, RoundsOf, Part, CanStep, Next;
      ghost var b, rb := View(), run;
      BeginDequeue(t);
      PartBegin(b, rb, View(), run, t, CallDequeue);
      FailuresSnoc(Own(rb, t), CallDequeue);
      pos := ReloadHead(b, rb, t);
    }

    method ReloadHead(ghost b: Queue<T>, ghost rb: Schedule<T>, t: nat) returns (pos: nat)
      requires t < |threads| && Calling(b, rb, t, CallDequeue, -1, -1) && threads[t] == DequeueLoadHead
      modifies this
      ensures t < |threads| && Calling(b, rb, t, CallDequeue, -1, -1)
      ensures threads[t] == DequeueLoadSequence(pos) && b.head <= pos == head && old(head) <= head
        && others <= old(others)
      ensures RoundsOf(t, run) == RoundsOf(t, old(run)) && Failed(t) == old(Failed(t))
    {
      hide Inv, Exec, Own, RoundsOf, CanStep, Next;
      OthersRunOn(b, rb, t, CallDequeue, -1, -1);
      ghost var s, r := View(), run;
      pos := LoadHead(t);
      FailuresSnoc(Own(r, t), Step(blank));
      PartQuiet(b, rb, s, r, View(), run, t, CallDequeue, -1, -1, Step(blank));
    }

    /** Dequeue after the swap of the head was won. */
    method Fetch(ghost b: Queue<T>, ghost rb: Schedule<T>, t: nat, pos: nat) returns (value: T)
      requires t < |threads| && Calling(b, rb, t, CallDequeue, -1, pos) && threads[t] == DequeueRead(pos)
      modifies this
      ensures t < |threads| && Calling(b, rb, t, CallDequeue, -1, pos) && threads[t] == Idle(Dequeued(value))
      ensures pos < |items| && items[pos] == value && pos in delivered && delivered[pos] == value
      ensures RoundsOf(t, run) == RoundsOf(t, old(run)) && Failed(t) == old(Failed(t)) && head >= old(head)
    {
      hide Inv, Exec, Own, RoundsOf, Part, CanStep, Next;
      OthersRunOn(b, rb, t, CallDequeue, -1, pos);
      ghost var s1, r1 := View(), run;
      ghost var residue;
      value, residue := ReadStorage(t, pos);
      FailuresSnoc(Own(r1, t), Step(residue));
      PartQuiet(b, rb, s1, r1, View(), run, t, CallDequeue, -1, pos, Step(residue));
      GiveBack(b, rb, t, value, pos);
    }

    /** The last step of Dequeue: the slot is released for the next lap. */
    method GiveBack(ghost b: Queue<T>, ghost rb: Schedule<T>, t: nat, value: T, pos: nat)
      requires t < |threads| && Calling(b, rb, t, CallDequeue, -1, pos) && threads[t] == DequeueRelease(value, pos)
      modifies this
      ensures t < |threads| && Calling(b, rb, t, CallDequeue, -1, pos) && threads[t] == Idle(Dequeued(value))
      ensures pos < |items| && items[pos] == value && pos in delivered && delivered[pos] == value
      ensures RoundsOf(t, run) == RoundsOf(t, old(run)) && Failed(t) == old(Failed(t)) && head >= old(head)
    {
      hide Inv, Exec, Own, RoundsOf, Part, CanStep, Next;
      OthersRunOn(b, rb, t, CallDequeue, -1, pos);
      ghost var s2, r2 := View(), run;
      ReleaseSlot(t, value, pos);
      FailuresSnoc(Own(r2, t), Step(blank));
      PartQuiet(b, rb, s2, r2, View(), run, t, CallDequeue, -1, pos, Step(blank));
    }

    method CheckHead(ghost b: Queue<T>, ghost rb: Schedule<T>, t: nat, pos: nat)
        returns (diff: int, ghost decided: Schedule<T>)
      requires t < |threads| && Calling(b, rb, t, CallDequeue, -1, -1) && threads[t] == DequeueLoadSequence(pos)
      modifies this
      ensures t < |threads| && Calling(b, rb, t, CallDequeue, -1, -1) && head >= old(head) && others <= old(others)
      ensures threads[t] == if diff == 0 then DequeueCas(pos) else if diff < 0 then Idle(Empty) else DequeueLoadHead
      ensures RoundsOf(t, run) == RoundsOf(t, old(run)) + 1 && Failed(t) == old(Failed(t))
      ensures diff > 0 ==> pos < head && (others == old(others) ==> pos < old(head))
      ensures others == old(others) ==> head == old(head)
      ensures diff < 0 ==> FoundEmpty(rb, decided, t)
    {
      hide Inv, Exec, Own, RoundsOf, CanStep, Next;
      OthersRunOn(b, rb, t, CallDequeue, -1, -1);
      decided := run;
      ghost var s := View();
      SameThreads();
      diff := CheckForDequeue(t, pos);
      FailuresSnoc(Own(decided, t), Step(blank));
      PartQuiet(b, rb, s, decided, View(), run, t, CallDequeue, -1, -1, Step(blank));
    }

    /** The run so far leads to a state in which the thread is at its sequence load for the head, and
        that position is not published; the thread's next step is that load. */
    ghost predicate FoundEmpty(runBefore: Schedule<T>, decided: Schedule<T>, t: nat)
      reads this
    {
      && Inv(capacity, start) && ValidSchedule(|start.threads|, decided) && t < |start.threads|
      && runBefore <= decided && decided + [(t, Step(blank))] <= run
      && (var d := Exec(capacity, start, decided);
          d.threads[t] == DequeueLoadSequence(d.head) && !IsPublished(d.ring, d.head))
    }

    /** Likewise.  True: the thread has won exactly one position, and the value is that position's item.
        False: it has won none, and its last sequence load found the head unpublished. */
    method Dequeue(t: nat) returns (ok: bool, value: T, ghost at: nat, ghost decided: Schedule<T>)
      requires Valid() && t < |threads| && threads[t].Idle?
      modifies this
      ensures t < |threads| && Calling(old(View()), old(run), t, CallDequeue, -1, if ok then at else -1)
      ensures threads[t] == Idle(if ok then Dequeued(value) else Empty)
      ensures ok ==> at < |items| && items[at] == value && at in delivered && delivered[at] == value
      ensures !ok ==> FoundEmpty(old(run), decided, t)
      ensures RoundsOf(t, run) - RoundsOf(t, old(run)) <= 1 + (head - old(head)) + (Failed(t) - old(Failed(t)))
    {
      hide Inv, Exec, Own, RoundsOf, Part, CanStep, Next, FoundEmpty, Failed;
      ghost var b, rb := View(), run;
      ghost var r0, f0 := RoundsOf(t, run), Failed(t);
      value := *;
      var pos: nat := StartDequeue(t);
      ghost var budget := others;
      while true
        invariant t < |threads| && Calling(b, rb, t, CallDequeue, -1, -1) && threads[t] == DequeueLoadSequence(pos)
        invariant b.head <= pos <= head && others <= budget && (pos < head ==> others < budget)
        invariant RoundsOf(t, run) - r0 <= (pos - b.head) + (Failed(t) - f0)
        decreases budget
      {
        var diff;
        diff, decided := CheckHead(b, rb, t, pos);
        if diff == 0 {
          var won, expected := TryClaimHead(b, rb, t, pos);
          if won {
            at := pos;
            TookHere(pos);
            value := Fetch(b, rb, t, pos);
            return true, value, at, decided;
          }
          pos := expected;
        } else if diff < 0 {
          return false, value, 0, decided;
        } else {
          pos := ReloadHead(b, rb, t);
        }
        budget := others;
      }
    }

    lemma TookHere(pos: nat)
      requires Valid() && head == pos + 1
      ensures |consumers| - 1 == pos
    {
    }
  }

  /** What one call's thread has done between the two states. */
  ghost predicate Part<T(!new)>(before: Queue<T>, runBefore: Schedule<T>, s: Queue<T>, run: Schedule<T>, t: nat,
      call: Action<T>, tailWon: int, headWon: int)
  {
    && |s.threads| == |before.threads| && t < |s.threads|
    && runBefore <= run && OneCall(Own(runBefore, t), Own(run, t), call)
    && before.producers <= s.producers && before.consumers <= s.consumers
    && before.ring.tail <= s.ring.tail && before.head <= s.head && before.ring.items <= s.ring.items
    && (tailWon == -1 || |before.producers| <= tailWon < |s.producers|)
    && (headWon == -1 || |before.consumers| <= headWon < |s.consumers|)
    && (forall p :: |before.producers| <= p < |s.producers| ==> (s.producers[p] == t <==> p == tailWon))
    && (forall p :: |before.consumers| <= p < |s.consumers| ==> (s.consumers[p] == t <==> p == headWon))
  }

  lemma PartOthers<T(!new)>(before: Queue<T>, rb: Schedule<T>, s: Queue<T>, r: Schedule<T>, s': Queue<T>,
      r': Schedule<T>, t: nat, call: Action<T>, tailWon: int, headWon: int)
    requires Part(before, rb, s, r, t, call, tailWon, headWon) && Undisturbed(s, r, s', r', t)
    ensures Part(before, rb, s', r', t, call, tailWon, headWon)
  {
    hide Own;
  }

  lemma PartBegin<T(!new)>(before: Queue<T>, rb: Schedule<T>, s: Queue<T>, r: Schedule<T>, t: nat, call: Action<T>)
    requires s == before.(threads := s.threads) && |s.threads| == |before.threads| && t < |s.threads|
    requires rb <= r && Own(r, t) == Own(rb, t) + [call]
    ensures Part(before, rb, s, r, t, call, -1, -1)
  {
    hide Own;
  }

  lemma PartQuiet<T(!new)>(before: Queue<T>, rb: Schedule<T>, s: Queue<T>, r: Schedule<T>, s': Queue<T>,
      r': Schedule<T>, t: nat, call: Action<T>, tailWon: int, headWon: int, a: Action<T>)
    requires Part(before, rb, s, r, t, call, tailWon, headWon) && (a.Step? || a.FailSpuriously?)
    requires s'.producers == s.producers && s'.consumers == s.consumers && s'.head == s.head
      && s'.ring.tail == s.ring.tail
    requires s'.ring.items == s.ring.items && |s'.threads| == |s.threads|
    requires r <= r' && Own(r', t) == Own(r, t) + [a]
    ensures Part(before, rb, s', r', t, call, tailWon, headWon)
  {
    hide Own;
  }

  lemma PartWonTail<T(!new)>(before: Queue<T>, rb: Schedule<T>, s: Queue<T>, r: Schedule<T>, s': Queue<T>,
      r': Schedule<T>, t: nat, call: Action<T>, a: Action<T>)
    requires Part(before, rb, s, r, t, call, -1, -1) && a.Step?
    requires s'.producers == s.producers + [t] && s'.consumers == s.consumers && s'.head == s.head
      && s'.ring.tail >= s.ring.tail
    requires s.ring.items <= s'.ring.items && |s'.threads| == |s.threads|
    requires r <= r' && Own(r', t) == Own(r, t) + [a]
    ensures Part(before, rb, s', r', t, call, |s.producers|, -1)
  {
    hide Own;
  }

  lemma PartWonHead<T(!new)>(before: Queue<T>, rb: Schedule<T>, s: Queue<T>, r: Schedule<T>, s': Queue<T>,
      r': Schedule<T>, t: nat, call: Action<T>, a: Action<T>)
    requires Part(before, rb, s, r, t, call, -1, -1) && a.Step?
    requires s'.consumers == s.consumers + [t] && s'.producers == s.producers && s'.head >= s.head
      && s'.ring.tail == s.ring.tail
    requires s.ring.items <= s'.ring.items && |s'.threads| == |s.threads|
    requires r <= r' && Own(r', t) == Own(r, t) + [a]
    ensures Part(before, rb, s', r', t, call, -1, |s.consumers|)
  {
    hide Own;
  }

  /** Nothing is done in the name of `t` between the two states. */
  ghost predicate Undisturbed<T(!new)>(before: Queue<T>, runBefore: Schedule<T>, s: Queue<T>, run: Schedule<T>, t: nat)
  {
    && |s.threads| == |before.threads| && t < |s.threads| && s.threads[t] == before.threads[t]
    && runBefore <= run && Own(run, t) == Own(runBefore, t)
    && before.producers <= s.producers && before.consumers <= s.consumers
    && before.ring.tail <= s.ring.tail && before.head <= s.head && before.ring.items <= s.ring.items
    && (forall p :: |before.producers| <= p < |s.producers| ==> s.producers[p] != t)
    && (forall p :: |before.consumers| <= p < |s.consumers| ==> s.consumers[p] != t)
  }

  lemma OtherWins<T>(cap: nat, s: Queue<T>, u: nat, a: Action<T>)
    requires CanStep(cap, s, u)
    ensures var r := Next(cap, s, u, a);
      && (r.producers == s.producers || r.producers == s.producers + [u])
      && (r.consumers == s.consumers || r.consumers == s.consumers + [u])
  {
  }

  lemma OtherGrows<T>(cap: nat, s: Queue<T>, u: nat, a: Action<T>)
    requires CanStep(cap, s, u)
    ensures var r := Next(cap, s, u, a);
      s.ring.tail <= r.ring.tail && s.head <= r.head && s.ring.items <= r.ring.items
  {
  }

  lemma OwnSkips<T>(sched: Schedule<T>, u: nat, t: nat, a: Action<T>)
    requires u != t
    ensures Own(sched + [(u, a)], t) == Own(sched, t)
  {
  }

  lemma StaysUndisturbed<T(!new)>(cap: nat, before: Queue<T>, runBefore: Schedule<T>, s: Queue<T>, run: Schedule<T>,
      t: nat, u: nat, a: Action<T>)
    requires Undisturbed(before, runBefore, s, run, t) && CanStep(cap, s, u) && u != t
    ensures Undisturbed(before, runBefore, Next(cap, s, u, a), run + [(u, a)], t)
  {
    hide Next, CanStep, Own;
    OtherLeavesThread(cap, s, u, t, a);
    OtherWins(cap, s, u, a);
    OtherGrows(cap, s, u, a);
    OwnSkips(run, u, t, a);
  }
}
