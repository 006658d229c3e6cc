/** The multi-producer single-consumer queue as an object, one call at a time seen from within.  Between
    any two atomic operations of the consumer's Dequeue the producers take any number of steps; between
    any two of a producer's Enqueue the other producers and the consumer do.  The object records the run
    of the step machine that its operations make, so a call is held to be a run in which the consumer, or
    the producer, makes exactly the steps of this one call. */
module MpscQueue {
  import opened SlotRing
  import opened Mpsc

  /** The steps of the consumer in a run. */
  function ConsumerSteps<T>(sched: seq<Move<T>>): nat {
    if sched == [] then 0
    else ConsumerSteps(sched[..|sched| - 1]) + if sched[|sched| - 1].ByConsumer? then 1 else 0
  }

  /** The actions of producer `t` in a run, in order. */
  function Own<T>(sched: seq<Move<T>>, t: nat): seq<Action<T>> {
    if sched == [] then []
    else
      var n := |sched| - 1;
      Own(sched[..n], t) + if sched[n].ByProducer? && sched[n].t == t then [sched[n].action] else []
  }

  /** Between the two the producer has made exactly the call `call`, and gone on with it. */
  predicate OneCall<T(==)>(before: seq<Action<T>>, after: seq<Action<T>>, call: Action<T>) {
    && before + [call] <= after
    && forall i :: |before| < i < |after| ==> after[i].Step? || after[i].FailSpuriously?
  }

  /** The producer's next step is a swap of the tail that succeeds, unless it fails spuriously. */
  predicate AtTail<T>(s: Queue<T>, t: nat) {
    t < |s.producers| && s.producers[t].Cas? && s.producers[t].pos == s.ring.tail
  }

  /** The positions that producer `t` wins in a run, in order. */
  ghost function Won<T>(cap: nat, s: Queue<T>, sched: seq<Move<T>>, t: nat): seq<nat>
    requires Inv(cap, s) && ValidSchedule(|s.producers|, sched)
    decreases |sched|
  {
    if sched == [] then []
    else
      var n := |sched| - 1;
      var d := Exec(cap, s, sched[..n]);
      Won(cap, s, sched[..n], t) + if sched[n] == ByProducer(t, Step) && AtTail(d, t) then [d.ring.tail] else []
  }

  lemma OneMore<T>(cap: nat, s: Queue<T>, sched: seq<Move<T>>, t: nat, m: Move<T>)
    requires Inv(cap, s) && ValidSchedule(|s.producers|, sched) && (m.ByProducer? ==> m.t < |s.producers|)
    ensures ValidSchedule(|s.producers|, sched + [m])
    ensures Own(sched + [m], t) == Own(sched, t) + if m.ByProducer? && m.t == t then [m.action] else []
    ensures var d := Exec(cap, s, sched);
      Won(cap, s, sched + [m], t) ==
        Won(cap, s, sched, t) + if m == ByProducer(t, Step) && AtTail(d, t) then [d.ring.tail] else []
  {
    hide Inv, Exec;
    assert (sched + [m])[..|sched|] == sched;
  }

  /** Since `runBefore` the producer has made one call of Enqueue and nothing else, and won the position
      `at` for its item, or none yet (-1). */
  ghost predicate Part<T>(cap: nat, start: Queue<T>, runBefore: seq<Move<T>>, run: seq<Move<T>>, t: nat, item: T,
      at: int)
  {
    && Inv(cap, start) && ValidSchedule(|start.producers|, runBefore) && ValidSchedule(|start.producers|, run)
    && t < |start.producers| && runBefore <= run && OneCall(Own(runBefore, t), Own(run, t), CallEnqueue(item))
    && Won(cap, start, run, t) == Won(cap, start, runBefore, t) + (if at < 0 then [] else [at])
    && var b, s := Exec(cap, start, runBefore), Exec(cap, start, run);
       b.ring.items <= s.ring.items && (at >= 0 ==> |b.ring.items| <= at < |s.ring.items| && s.ring.items[at] == item)
  }

  lemma PartBegins<T>(cap: nat, start: Queue<T>, run: seq<Move<T>>, t: nat, item: T)
    requires Inv(cap, start) && ValidSchedule(|start.producers|, run) && t < |start.producers|
    requires !Exec(cap, start, run).producers[t].Cas?
    ensures Part(cap, start, run, run + [ByProducer(t, CallEnqueue(item))], t, item, -1)
  {
    hide Inv, Exec, Won, Own;
    OneMore(cap, start, run, t, ByProducer(t, CallEnqueue(item)));
    ExecSnoc(cap, start, run, ByProducer(t, CallEnqueue(item)));
  }

  lemma PartOfOthers<T>(cap: nat, start: Queue<T>, runBefore: seq<Move<T>>, run: seq<Move<T>>, t: nat, item: T,
      at: int, m: Move<T>)
    requires Part(cap, start, runBefore, run, t, item, at)
    requires m.ByProducer? ==> m.t != t && m.t < |start.producers|
    ensures Part(cap, start, runBefore, run + [m], t, item, at)
  {
    hide Inv, Exec, Won, Own;
    OneMore(cap, start, run, t, m);
    ExecSnoc(cap, start, run, m);
  }

  lemma PartGoesOn<T>(cap: nat, start: Queue<T>, runBefore: seq<Move<T>>, run: seq<Move<T>>, t: nat, item: T,
      at: int, a: Action<T>)
    requires Part(cap, start, runBefore, run, t, item, at) && (a.Step? || a.FailSpuriously?)
    requires var s := Exec(cap, start, run);
      a.Step? && AtTail(s, t) ==> at < 0 && s.producers[t].item == item
    ensures var s := Exec(cap, start, run);
      Part(cap, start, runBefore, run + [ByProducer(t, a)], t, item, if a.Step? && AtTail(s, t) then s.ring.tail
        else at)
  {
    hide Inv, Exec, Won, Own;
    OneMore(cap, start, run, t, ByProducer(t, a));
    ExecSnoc(cap, start, run, ByProducer(t, a));
    var s := Exec(cap, start, run);
    assert |s.ring.items| == s.ring.tail by { AllCounted(cap, s); }
    if a.Step? && AtTail(s, t) {
      ProducerNextKeepsInv(cap, s, t, a);
      ProducerPuts(cap, s, t, a);
    }
  }

  lemma AllCounted<T>(cap: nat, s: Queue<T>)
    requires Inv(cap, s)
    ensures |s.ring.items| == |s.ring.stages| == s.ring.tail
  {
  }

  class MPSCQueue<T(0)> {
    const capacity: nat
    const blank: T
    var dequeuePos: nat
    var enqueuePos: nat
    var slots: seq<Slot<T>>
    /** Where each producer and the consumer stand, and the histories. */
    var producers: seq<Producer<T>>
    var consumer: Consumer<T>
    var items: seq<T>
    var stages: seq<Stage>
    var delivered: seq<T>
    /** How many steps the others, and spurious failures, may still take while a producer makes a call. */
    var others: nat
    ghost const start: Queue<T>
    ghost var run: seq<Move<T>>

    function View(): Queue<T>
      reads this
    {
      Queue(dequeuePos, Ring(enqueuePos, slots, items, stages), producers, consumer, delivered)
    }

    /** The state is the one that the recorded run leads to. */
    ghost predicate Valid()
      reads this
    {
      Inv(capacity, start) && ValidSchedule(|start.producers|, run) && View() == Exec(capacity, start, run)
    }

    constructor (capacity: nat, producerCount: nat, others: nat)
      requires 2 <= capacity
      ensures Valid() && Init(capacity, View()) && start == View() && run == []
      ensures this.capacity == capacity && |producers| == producerCount
    {
      this.capacity := capacity;
      dequeuePos, enqueuePos := 0, 0;
      var nothing: T := *;
      blank := nothing;
      var fresh_ := seq(capacity, i => Slot(i, nothing));
      slots := seq(capacity, _ => Slot(0, nothing));
      producers := seq(producerCount, _ => Idle(Nothing));
      consumer, items, stages, delivered := Waiting(NoCall), [], [], [];
      this.others := others;
      run := [];
      start := Queue(0, Ring(0, fresh_, [], []), seq(producerCount, _ => Idle(Nothing)), Waiting(NoCall), []);
      new;
      for i := 0 to capacity
        invariant run == [] && |slots| == capacity && View() == start.(ring := start.ring.(slots := slots))
        invariant forall j {:trigger slots[j]} :: 0 <= j < capacity ==>
          slots[j] == Slot(if j < i then j else 0, nothing)
      {
        slots := slots[i := slots[i].(sequence := i)];
      }
      assert slots == start.ring.slots;
      InitInv(capacity, View());
    }

    lemma Recorded(m: Move<T>)
      requires Valid() && (m.ByProducer? ==> m.t < |producers|)
      ensures Inv(capacity, View()) && |start.producers| == |producers|
      ensures ValidSchedule(|start.producers|, run + [m])
        && Exec(capacity, start, run + [m]) == Apply(capacity, View(), m)
      ensures ConsumerSteps(run + [m]) == ConsumerSteps(run) + if m.ByConsumer? then 1 else 0
    {
      ExecSnoc(capacity, start, run, m);
      assert (run + [m])[..|run|] == run;
    }

    // ---- the producers ----

    /** The run has gone on, without the consumer. */
    ghost predicate Onward(runBefore: seq<Move<T>>, itemsBefore: seq<T>)
      reads this
    {
      Valid() && runBefore <= run && ConsumerSteps(run) == ConsumerSteps(runBefore) && itemsBefore <= items
    }

    /** Any steps of any producers. */
    method ProducersRun()
      requires Valid()
      modifies this`enqueuePos, this`slots, this`producers, this`items, this`stages, this`run
      ensures Onward(old(run), old(items))
    {
      hide Inv, Exec, ConsumerSteps;
      var n: nat := *;
      while n > 0
        invariant Onward(old(run), old(items))
      {
        var t: nat, a: Action<T> := *, *;
        if t < |producers| {
          ProducerMove(t, a);
        }
        n := n - 1;
      }
    }

    method ProducerMove(t: nat, a: Action<T>)
      requires Valid() && t < |producers|
      modifies this`enqueuePos, this`slots, this`producers, this`items, this`stages, this`run
      ensures Onward(old(run), old(items))
    {
      hide Inv, Exec, ConsumerSteps;
      Recorded(ByProducer(t, a));
      ProducerNextKeepsInv(capacity, View(), t, a);
      LeavesConsumer(View(), t, a);
      var s := ProducerNext(capacity, View(), t, a);
      hide ProducerNext, CanStep;
      enqueuePos, slots, items, stages := s.ring.tail, s.ring.slots, s.ring.items, s.ring.stages;
      producers := s.producers;
      run := run + [ByProducer(t, a)];
      assert View() == s;
    }

    lemma LeavesConsumer(s: Queue<T>, t: nat, a: Action<T>)
      requires CanStep(capacity, s, t)
      ensures var r := ProducerNext(capacity, s, t, a);
        r.head == s.head && r.consumer == s.consumer && r.delivered == s.delivered && s.ring.items <= r.ring.items
    {
    }

    // ---- the consumer's atomic operations ----

    /** The consumer has taken its next step. */
    ghost predicate Took(runBefore: seq<Move<T>>)
      reads this
    {
      Valid() && |run| == |runBefore| + 1 && runBefore <= run && run[|runBefore|].ByConsumer?
        && ConsumerSteps(run) == ConsumerSteps(runBefore) + 1
    }

    method BeginDequeue()
      requires Valid() && consumer.Waiting?
      modifies this`consumer, this`run
      ensures Took(old(run)) && consumer == LoadPosition
    {
      hide Inv, Exec, ConsumerSteps;
      Recorded(ByConsumer(blank));
      ConsumerNextKeepsInv(capacity, View(), blank);
      consumer := LoadPosition;
      run := run + [ByConsumer(blank)];
    }

    method LoadDequeuePos() returns (pos: nat)
      requires Valid() && consumer.LoadPosition?
      modifies this`consumer, this`run
      ensures Took(old(run)) && pos == dequeuePos && consumer == Examine(pos)
    {
      hide Inv, Exec, ConsumerSteps;
      Recorded(ByConsumer(blank));
      ConsumerNextKeepsInv(capacity, View(), blank);
      pos := dequeuePos;
      consumer := Examine(pos);
      run := run + [ByConsumer(blank)];
    }

    /** The sequence load and the comparison: there is an item exactly when the position is published. */
    method ExamineSlot(pos: nat) returns (found: bool)
      requires Valid() && consumer == Examine(pos)
      modifies this`consumer, this`stages, this`run
      ensures Took(old(run)) && pos == dequeuePos && found == IsPublished(old(View()).ring, pos)
      ensures consumer == if found then Read(pos) else Waiting(Nothing_)
    {
      hide Inv, Exec, ConsumerSteps;
      Recorded(ByConsumer(blank));
      ConsumerNextKeepsInv(capacity, View(), blank);
      ConsumerVerdict(capacity, View());
      AtHand();
      found := slots[pos % capacity].sequence - (pos + 1) == 0;
      if found {
        stages := stages[pos := Taken(0)];
      }
      consumer := if found then Read(pos) else Waiting(Nothing_);
      run := run + [ByConsumer(blank)];
      assert View() == ConsumerNext(capacity, old(View()), blank);
    }

    lemma AtHand()
      requires Valid()
      ensures capacity == |slots| > 0
      ensures consumer.Examine? || consumer.Read? || consumer.Release? || consumer.StorePosition? ==>
        consumer.pos == dequeuePos
      ensures consumer.StorePosition? ==> dequeuePos < |items| && items[dequeuePos] == consumer.value
    {
    }

    method ReadStorage(pos: nat) returns (value: T)
      requires Valid() && consumer == Read(pos)
      modifies this`consumer, this`slots, this`stages, this`run
      ensures Took(old(run)) && consumer == Release(value, pos)
    {
      hide Inv, Exec, ConsumerSteps;
      var residue: T := *;
      Recorded(ByConsumer(residue));
      ConsumerNextKeepsInv(capacity, View(), residue);
      value := slots[pos % capacity].storage;
      slots := slots[pos % capacity := slots[pos % capacity].(storage := residue)];
      stages := stages[pos := Drained(0)];
      consumer := Release(value, pos);
      run := run + [ByConsumer(residue)];
      assert View() == ConsumerNext(capacity, old(View()), residue);
    }

    method ReleaseSlot(value: T, pos: nat)
      requires Valid() && consumer == Release(value, pos)
      modifies this`consumer, this`slots, this`stages, this`run
      ensures Took(old(run)) && consumer == StorePosition(value, pos)
    {
      hide Inv, Exec, ConsumerSteps;
      Recorded(ByConsumer(blank));
      ConsumerNextKeepsInv(capacity, View(), blank);
      slots := slots[pos % capacity := slots[pos % capacity].(sequence := pos + capacity)];
      stages := stages[pos := Released];
      consumer := StorePosition(value, pos);
      run := run + [ByConsumer(blank)];
      assert View() == ConsumerNext(capacity, old(View()), blank);
    }

    method StoreDequeuePos(value: T, pos: nat)
      requires Valid() && consumer == StorePosition(value, pos)
      modifies this`consumer, this`dequeuePos, this`delivered, this`run
      ensures Took(old(run)) && consumer == Waiting(Received(value)) && dequeuePos == pos + 1
      ensures pos == old(dequeuePos) < |items| && items[pos] == value && delivered == old(delivered) + [value]
    {
      hide Inv, Exec, ConsumerSteps;
      Recorded(ByConsumer(blank));
      ConsumerNextKeepsInv(capacity, View(), blank);
      AtHand();
      dequeuePos, delivered := pos + 1, delivered + [value];
      consumer := Waiting(Received(value));
      run := run + [ByConsumer(blank)];
      assert View() == ConsumerNext(capacity, old(View()), blank);
    }

    // ---- Dequeue ----

    /** The run up to `decided` leads to the consumer's sequence load for `pos`, which is its next step;
        `found` tells whether that position is published there. */
    ghost predicate Examined(runBefore: seq<Move<T>>, decided: seq<Move<T>>, pos: nat, found: bool)
      reads this
    {
      && Inv(capacity, start) && ValidSchedule(|start.producers|, decided)
      && runBefore <= decided <= run && |decided| < |run| && run[|decided|].ByConsumer?
      && (var d := Exec(capacity, start, decided); d.consumer == Examine(pos) && found == IsPublished(d.ring, pos))
    }

    /** The call, whatever the producers do meanwhile: a run in which the consumer makes exactly the
        steps of one Dequeue, three if it finds nothing and six if it does.  It returns the next item
        in claim order and appends it to what was delivered, exactly when the consumer's position is
        published at the sequence load; otherwise nothing is consumed. */
    method Dequeue() returns (ok: bool, value: T, ghost decided: seq<Move<T>>)
      requires Valid() && consumer.Waiting?
      modifies this
      ensures Valid() && old(run) <= run && ConsumerSteps(run) == ConsumerSteps(old(run)) + if ok then 6 else 3
      ensures Examined(old(run), decided, old(dequeuePos), ok)
      ensures consumer == Waiting(if ok then Received(value) else Nothing_)
      ensures dequeuePos == if ok then old(dequeuePos) + 1 else old(dequeuePos)
      ensures delivered == if ok then old(delivered) + [value] else old(delivered)
      ensures ok ==> old(dequeuePos) < |items| && items[old(dequeuePos)] == value
    {
      hide Inv, Exec, ConsumerSteps;
      value := *;
      var pos;
      ok, pos, decided := Look();
      if ok {
        value := Fetch(pos);
      }
    }

    /** The first three steps. */
    method Look() returns (found: bool, pos: nat, ghost decided: seq<Move<T>>)
      requires Valid() && consumer.Waiting?
      modifies this`enqueuePos, this`slots, this`producers, this`items, this`stages, this`consumer, this`run
      ensures Valid() && old(run) <= run && ConsumerSteps(run) == ConsumerSteps(old(run)) + 3 && pos == dequeuePos
      ensures Examined(old(run), decided, pos, found) && consumer == if found then Read(pos) else Waiting(Nothing_)
    {
      hide Inv, Exec, ConsumerSteps;
      BeginDequeue();
      ProducersRun();
      pos := LoadDequeuePos();
      ProducersRun();
      decided := run;
      found := ExamineSlot(pos);
    }

    /** The last three. */
    method Fetch(pos: nat) returns (value: T)
      requires Valid() && consumer == Read(pos)
      modifies this
      ensures Valid() && old(run) <= run && ConsumerSteps(run) == ConsumerSteps(old(run)) + 3
      ensures consumer == Waiting(Received(value)) && pos == old(dequeuePos) && dequeuePos == pos + 1
      ensures delivered == old(delivered) + [value] && pos < |items| && items[pos] == value
    {
      hide Inv, Exec, ConsumerSteps;
      ProducersRun();
      value := ReadStorage(pos);
      ProducersRun();
      ReleaseSlot(value, pos);
      ProducersRun();
      StoreDequeuePos(value, pos);
    }

    // ---- a producer's atomic operations ----

    /** The producer has taken its next step. */
    ghost predicate Moved(before: Queue<T>, runBefore: seq<Move<T>>, t: nat, a: Action<T>)
      reads this
    {
      && Valid() && CanStep(capacity, before, t) && View() == ProducerNext(capacity, before, t, a)
      && run == runBefore + [ByProducer(t, a)]
    }

    lemma MayStep(t: nat, a: Action<T>)
      requires Valid() && t < |producers|
      ensures Inv(capacity, View()) && CanStep(capacity, View(), t) && |start.producers| == |producers|
      ensures ValidSchedule(|start.producers|, run + [ByProducer(t, a)])
      ensures Exec(capacity, start, run + [ByProducer(t, a)]) == ProducerNext(capacity, View(), t, a)
    {
      hide Inv, ProducerNext;
      Recorded(ByProducer(t, a));
      ProducerNextKeepsInv(capacity, View(), t, a);
    }

    method BeginEnqueue(t: nat, item: T)
      requires Valid() && t < |producers| && producers[t].Idle?
      modifies this`producers, this`run
      ensures Moved(old(View()), old(run), t, CallEnqueue(item)) && producers == old(producers)[t := LoadTail(item)]
    {
      hide Inv, Exec;
      MayStep(t, CallEnqueue(item));
      producers := producers[t := LoadTail(item)];
      run := run + [ByProducer(t, CallEnqueue(item))];
    }

    method LoadEnqueuePos(t: nat, item: T) returns (pos: nat)
      requires Valid() && t < |producers| && producers[t] == LoadTail(item)
      modifies this`producers, this`run
      ensures Moved(old(View()), old(run), t, Step) && pos == enqueuePos
      ensures producers == old(producers)[t := LoadSequence(item, pos)]
    {
      hide Inv, Exec;
      MayStep(t, Step);
      pos := enqueuePos;
      producers := producers[t := LoadSequence(item, pos)];
      run := run + [ByProducer(t, Step)];
    }

    /** The sequence load and the comparison. */
    method CheckSlot(t: nat, item: T, pos: nat) returns (diff: int)
      requires Valid() && t < |producers| && producers[t] == LoadSequence(item, pos)
      modifies this`producers, this`run
      ensures Moved(old(View()), old(run), t, Step)
      ensures diff < 0 <==> FoundFull(capacity, old(View()), pos)
      ensures diff > 0 ==> pos < enqueuePos
      ensures producers == old(producers)[t := if diff == 0 then Cas(item, pos) else if diff < 0 then Idle(Full)
        else LoadTail(item)]
    {
      hide Inv, Exec;
      MayStep(t, Step);
      InRange(t);
      ProducerVerdict(capacity, View().ring, pos);
      diff := slots[pos % capacity].sequence - pos;
      producers := producers[t := if diff == 0 then Cas(item, pos) else if diff < 0 then Idle(Full)
        else LoadTail(item)];
      run := run + [ByProducer(t, Step)];
      assert View() == ProducerNext(capacity, old(View()), t, Step);
    }

    lemma InRange(t: nat)
      requires Valid() && t < |producers|
      ensures 2 <= capacity == |slots| && RingInv(capacity, View().ring) && |items| == |stages| == enqueuePos
      ensures producers[t].LoadSequence? || producers[t].Cas? ==> producers[t].pos <= enqueuePos
      ensures producers[t].Write? || producers[t].Publish? ==> producers[t].pos < enqueuePos
    {
      assert ProducerInv(capacity, View(), t, producers[t]);
    }

    method SwapEnqueuePos(t: nat, item: T, pos: nat, spurious: bool) returns (won: bool, expected: nat)
      requires Valid() && t < |producers| && producers[t] == Cas(item, pos)
      modifies this`enqueuePos, this`items, this`stages, this`producers, this`run
      ensures Moved(old(View()), old(run), t, if spurious then FailSpuriously else Step)
      ensures won <==> old(enqueuePos) == pos && !spurious
      ensures expected == old(enqueuePos) >= pos && (!won ==> enqueuePos == expected)
      ensures producers == old(producers)[t := if won then Write(item, pos) else LoadSequence(item, expected)]
    {
      hide Inv, Exec, RingInv;
      ghost var a := if spurious then FailSpuriously else Step;
      MayStep(t, a);
      InRange(t);
      won, expected := enqueuePos == pos && !spurious, enqueuePos;
      if won {
        enqueuePos, items, stages := pos + 1, items + [item], stages + [Claimed(t)];
        producers := producers[t := Write(item, pos)];
      } else {
        producers := producers[t := LoadSequence(item, expected)];
      }
      run := run + [ByProducer(t, a)];
      assert View() == ProducerNext(capacity, old(View()), t, a);
    }

    method WriteStorage(t: nat, item: T, pos: nat)
      requires Valid() && t < |producers| && producers[t] == Write(item, pos)
      modifies this`slots, this`stages, this`producers, this`run
      ensures Moved(old(View()), old(run), t, Step) && producers == old(producers)[t := Publish(item, pos)]
    {
      hide Inv, Exec, RingInv;
      MayStep(t, Step);
      InRange(t);
      slots := slots[pos % capacity := slots[pos % capacity].(storage := item)];
      stages := stages[pos := Stored(t)];
      producers := producers[t := Publish(item, pos)];
      run := run + [ByProducer(t, Step)];
      assert View() == ProducerNext(capacity, old(View()), t, Step);
    }

    method PublishSlot(t: nat, item: T, pos: nat)
      requires Valid() && t < |producers| && producers[t] == Publish(item, pos)
      modifies this`slots, this`stages, this`producers, this`run
      ensures Moved(old(View()), old(run), t, Step) && producers == old(producers)[t := Idle(Enqueued)]
      ensures IsPublished(View().ring, pos)
    {
      hide Inv, Exec, RingInv;
      MayStep(t, Step);
      InRange(t);
      slots := slots[pos % capacity := slots[pos % capacity].(sequence := pos + 1)];
      stages := stages[pos := Published];
      producers := producers[t := Idle(Enqueued)];
      run := run + [ByProducer(t, Step)];
      assert View() == ProducerNext(capacity, old(View()), t, Step);
    }

    // ---- Enqueue ----

    /** The producer is within its call. */
    ghost predicate Calling(runBefore: seq<Move<T>>, t: nat, item: T, at: int)
      reads this
    {
      Valid() && Part(capacity, start, runBefore, run, t, item, at) && t < |producers|
    }

    /** Any steps of the consumer and of the other producers. */
    method OthersRun(ghost runBefore: seq<Move<T>>, t: nat, ghost item: T, ghost at: int)
      requires Calling(runBefore, t, item, at)
      modifies this
      ensures Calling(runBefore, t, item, at) && producers[t] == old(producers[t]) && old(run) <= run
      ensures enqueuePos >= old(enqueuePos)
      ensures others <= old(others) && (others == old(others) ==> View() == old(View()))
    {
      hide Inv, Exec, Part;
      var more: bool := *;
      while others > 0 && more
        invariant Calling(runBefore, t, item, at) && producers[t] == old(producers[t]) && old(run) <= run
        invariant enqueuePos >= old(enqueuePos)
        invariant others <= old(others) && (others == old(others) ==> View() == old(View()))
        decreases others
      {
        var m: Move<T> := *;
        if m.ByConsumer? || (m.ByProducer? && m.t != t && m.t < |producers|) {
          OtherMoves(runBefore, t, item, at, m);
        }
        others := others - 1;
        more := *;
      }
    }

    method OtherMoves(ghost runBefore: seq<Move<T>>, t: nat, ghost item: T, ghost at: int, m: Move<T>)
      requires Calling(runBefore, t, item, at) && (m.ByProducer? ==> m.t != t && m.t < |producers|)
      modifies this`enqueuePos, this`dequeuePos, this`slots, this`producers, this`consumer, this`items, this`stages,
        this`delivered, this`run
      ensures Calling(runBefore, t, item, at) && producers[t] == old(producers[t]) && old(run) <= run
      ensures enqueuePos >= old(enqueuePos)
    {
      hide Inv, Exec, Part;
      Recorded(m);
      PartOfOthers(capacity, start, runBefore, run, t, item, at, m);
      LeavesProducer(View(), m, t);
      var s: Queue<T>;
      if m.ByProducer? {
        ProducerNextKeepsInv(capacity, View(), m.t, m.action);
        s := ProducerNext(capacity, View(), m.t, m.action);
      } else {
        ConsumerNextKeepsInv(capacity, View(), m.residue);
        s := ConsumerNext(capacity, View(), m.residue);
      }
      hide ProducerNext, ConsumerNext, CanStep, ConsumerCanStep;
      enqueuePos, dequeuePos, slots, items, stages := s.ring.tail, s.head, s.ring.slots, s.ring.items, s.ring.stages;
      producers, consumer, delivered := s.producers, s.consumer, s.delivered;
      run := run + [m];
      assert View() == s;
    }

    lemma LeavesProducer(s: Queue<T>, m: Move<T>, t: nat)
      requires Inv(capacity, s) && t < |s.producers| && (m.ByProducer? ==> m.t != t && m.t < |s.producers|)
      ensures var r := Apply(capacity, s, m); r.producers[t] == s.producers[t] && s.ring.tail <= r.ring.tail
    {
      AllCounted(capacity, s);
      AllCounted(capacity, Apply(capacity, s, m));
      hide Inv;
    }

    /** The run so far leads to a state in which the producer is at its sequence load for the tail and the
        tail's slot has not been given back; its next step is that load. */
    ghost predicate SawFull(runBefore: seq<Move<T>>, decided: seq<Move<T>>, t: nat, item: T)
      reads this
    {
      && Inv(capacity, start) && ValidSchedule(|start.producers|, decided) && t < |start.producers|
      && runBefore <= decided && decided + [ByProducer(t, Step)] <= run
      && (var d := Exec(capacity, start, decided);
          && d.producers[t] == LoadSequence(item, d.ring.tail)
          && d.ring.tail >= capacity && !GivenBack(d.ring, d.ring.tail - capacity))
    }

    /** The call, whatever the others do meanwhile: a run in which the producer makes this one call.  True:
        it has won exactly one position, where its item stands published.  False: it has won none, and
        its last sequence load found the queue full. */
    method Enqueue(t: nat, item: T) returns (ok: bool, ghost at: nat, ghost decided: seq<Move<T>>)
      requires Valid() && t < |producers| && producers[t].Idle?
      modifies this
      ensures Calling(old(run), t, item, if ok then at else -1)
      ensures producers[t] == Idle(if ok then Enqueued else Full)
      ensures ok ==> IsPublished(View().ring, at)
      ensures !ok ==> SawFull(old(run), decided, t, item)
    {
      hide Inv, Exec, Part, SawFull;
      ghost var rb := run;
      StartEnqueue(t, item);
      var pos: nat := ReloadEnqueuePos(rb, t, item);
      ghost var budget := others;
      while true
        invariant Calling(rb, t, item, -1) && producers[t] == LoadSequence(item, pos)
        invariant pos <= enqueuePos && others <= budget && (pos < enqueuePos ==> others < budget)
        decreases budget
      {
        var diff;
        diff, decided := Check(rb, t, item, pos);
        if diff == 0 {
          var won;
          won, pos := TryClaim(rb, t, item, pos);
          if won {
            at := pos;
            Deliver(rb, t, item, pos);
            return true, at, decided;
          }
        } else if diff < 0 {
          return false, 0, decided;
        } else {
          pos := ReloadEnqueuePos(rb, t, item);
        }
        budget := others;
      }
    }

    method StartEnqueue(t: nat, item: T)
      requires Valid() && t < |producers| && producers[t].Idle?
      modifies this`producers, this`run
      ensures Calling(old(run), t, item, -1) && producers[t] == LoadTail(item)
    {
      hide Inv, Exec, Part;
      MayStep(t, CallEnqueue(item));
      PartBegins(capacity, start, run, t, item);
      BeginEnqueue(t, item);
    }

    method ReloadEnqueuePos(ghost rb: seq<Move<T>>, t: nat, item: T) returns (pos: nat)
      requires Calling(rb, t, item, -1) && producers[t] == LoadTail(item)
      modifies this
      ensures Calling(rb, t, item, -1) && producers[t] == LoadSequence(item, pos)
      ensures pos == enqueuePos && others <= old(others)
    {
      hide Inv, Exec, Part;
      OthersRun(rb, t, item, -1);
      PartGoesOn(capacity, start, rb, run, t, item, -1, Step);
      pos := LoadEnqueuePos(t, item);
    }

    /** The sequence load of one round, after others have moved; `decided` is the run up to it. */
    method Check(ghost rb: seq<Move<T>>, t: nat, item: T, pos: nat) returns (diff: int, ghost decided: seq<Move<T>>)
      requires Calling(rb, t, item, -1) && producers[t] == LoadSequence(item, pos)
      modifies this
      ensures Calling(rb, t, item, -1) && others <= old(others) && enqueuePos >= old(enqueuePos)
      ensures producers[t] == if diff == 0 then Cas(item, pos) else if diff < 0 then Idle(Full) else LoadTail(item)
      ensures diff > 0 ==> pos < enqueuePos && (others == old(others) ==> pos < old(enqueuePos))
      ensures others == old(others) ==> enqueuePos == old(enqueuePos)
      ensures diff < 0 ==> SawFull(rb, decided, t, item)
    {
      hide Inv, Exec, Part;
      OthersRun(rb, t, item, -1);
      decided := run;
      RunBefore(rb, t, item, -1);
      PartGoesOn(capacity, start, rb, run, t, item, -1, Step);
      diff := CheckSlot(t, item, pos);
    }

    lemma RunBefore(rb: seq<Move<T>>, t: nat, item: T, at: int)
      requires Calling(rb, t, item, at)
      ensures rb <= run && t < |start.producers|
    {
    }

    /** The swap of the tail; it fails only for a position that others have moved past, or spuriously. */
    method TryClaim(ghost rb: seq<Move<T>>, t: nat, item: T, pos: nat) returns (won: bool, now: nat)
      requires Calling(rb, t, item, -1) && producers[t] == Cas(item, pos) && pos <= enqueuePos
      modifies this
      ensures Calling(rb, t, item, if won then now else -1) && others <= old(others)
      ensures won ==> now == pos && producers[t] == Write(item, pos)
      ensures !won ==> producers[t] == LoadSequence(item, now) && now == enqueuePos
      ensures !won && pos == old(enqueuePos) ==> others < old(others)
    {
      hide Inv, Exec, Part;
      OthersRun(rb, t, item, -1);
      var spurious: bool := *;
      spurious := spurious && others > 0;
      if spurious {
        others := others - 1;
      }
      PartGoesOn(capacity, start, rb, run, t, item, -1, if spurious then FailSpuriously else Step);
      won, now := SwapEnqueuePos(t, item, pos, spurious);
    }

    /** Enqueue after the swap was won: the item is stored and published. */
    method Deliver(ghost rb: seq<Move<T>>, t: nat, item: T, pos: nat)
      requires Calling(rb, t, item, pos) && producers[t] == Write(item, pos)
      modifies this
      ensures Calling(rb, t, item, pos) && producers[t] == Idle(Enqueued) && IsPublished(View().ring, pos)
    {
      hide Inv, Exec, Part;
      OthersRun(rb, t, item, pos);
      PartGoesOn(capacity, start, rb, run, t, item, pos, Step);
      WriteStorage(t, item, pos);
      OthersRun(rb, t, item, pos);
      PartGoesOn(capacity, start, rb, run, t, item, pos, Step);
      PublishSlot(t, item, pos);
    }
  }
}
