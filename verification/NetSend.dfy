/** Send, the write loop and the completion handler as code, one thread's call seen from within: between
    any two of its operations on the connection the other threads, the handlers and the peer take any
    number of steps; `others` bounds how many.  The object records the run of the step machine that
    its operations make, so a call is held to be a run in which its thread does exactly that call. */
module NetSend {
  import opened Bytes
  import opened SendLoop

  class NetServer {
    const conn: TcpConnection
    /** Is the connection in the table of connections? */
    var registered: bool
    var outstanding: seq<ByteBuffer>
    /** Where each thread stands, and the histories. */
    var threads: seq<Pc>
    var accepted: seq<ByteBuffer>
    var started: seq<ByteBuffer>
    var written: seq<ByteBuffer>
    var failures: nat
    var owner: Owner
    var abandoned: bool
    var others: nat
    ghost const start: State
    ghost var run: seq<Event>

    function View(): State
      reads this, conn
    {
      State(conn.View(), registered, threads, outstanding, accepted, started, written, failures, owner, abandoned)
    }

    /** The state is the one that the recorded run leads to. */
    ghost predicate Valid()
      reads this, conn
    {
      Inv(start) && View() == Exec(start, run)
    }

    constructor (threadCount: nat, others: nat)
      ensures Valid() && Init(View()) && start == View() && run == [] && fresh(conn) && |threads| == threadCount
    {
      conn := new TcpConnection();
      registered := true;
      outstanding, accepted, started, written := [], [], [], [];
      threads := seq(threadCount, _ => Idle);
      failures, owner, abandoned := 0, Nobody, false;
      this.others := others;
      run := [];
      start := State(Connection(true, [], false), true, seq(threadCount, _ => Idle), [], [], [], [], 0, Nobody, false);
      new;
      InitInv(View());
    }

    /** The thread's attempts to begin a write, so far. */
    ghost function TriesOf(t: nat): nat
      reads this
    {
      Tries(start, run, t)
    }

    lemma Recorded(e: Event, t: nat)
      requires Valid()
      ensures Inv(View()) && Inv(Next(View(), e)) && Exec(start, run + [e]) == Next(View(), e)
      ensures Own(run + [e], t) == Own(run, t) + if By(e, t) then [e] else []
      ensures Tries(start, run + [e], t) == Tries(start, run, t) + if e == Event.Step(t) && t < |threads|
        && threads[t].Begin? then 1 else 0
    {
      ExecKeepsInv(start, run);
      NextKeepsInv(View(), e);
      ExecSnoc(start, run, e);
      TriesSnoc(start, run, t, e);
    }

    // ---- the others ----

    /** What a call may rely on while others move: nothing is done in the name of `t`. */
    ghost predicate OthersMoved(before: State, runBefore: seq<Event>, t: nat, tries: nat)
      reads this, conn
    {
      && Valid() && |threads| == |before.threads| && t < |threads| && threads[t] == before.threads[t]
      && runBefore <= run && Own(run, t) == Own(runBefore, t) && TriesOf(t) == tries
      && before.accepted <= accepted && |before.started| <= |started|
    }

    /** Any events but those of thread `t`. */
    method OthersRun(t: nat)
      requires Valid() && t < |threads|
      modifies this, conn
      ensures OthersMoved(old(View()), old(run), t, old(TriesOf(t))) && t < |threads|
      ensures others <= old(others) && (others == old(others) ==> View() == old(View()))
    {
      hide Inv, Next, Exec, Own, Tries;
      var more: bool := *;
      while others > 0 && more
        invariant OthersMoved(old(View()), old(run), t, old(TriesOf(t))) && t < |threads|
        invariant others <= old(others) && (others == old(others) ==> View() == old(View()))
        decreases others
      {
        var e: Event := *;
        if !By(e, t) {
          Happen(e, t);
        }
        others := others - 1;
        more := *;
      }
    }

    method Happen(e: Event, t: nat)
      requires Valid() && t < |threads| && !By(e, t)
      modifies this, conn
      ensures OthersMoved(old(View()), old(run), t, old(TriesOf(t))) && t < |threads| && others == old(others)
    {
      hide Inv, Exec, Own, Tries;
      Recorded(e, t);
      OtherThreadsStand(View(), e, t);
      var s := Next(View(), e);
      hide Next;
      Become(s);
      run := run + [e];
    }

    method Become(s: State)
      modifies this`registered, this`outstanding, this`threads, this`accepted, this`started, this`written,
        this`failures,
               this`owner, this`abandoned, conn
      ensures View() == s
    {
      conn.connected, conn.sendQueue, conn.writeInProgress := s.conn.connected, s.conn.sendQueue, s.conn.writing;
      outstanding, threads, accepted, started := s.outstanding, s.threads, s.accepted, s.started;
      written, failures, owner, abandoned, registered := s.written, s.failures, s.owner, s.abandoned, s.registered;
    }

    lemma OtherThreadsStand(s: State, e: Event, t: nat)
      requires t < |s.threads| && !By(e, t)
      ensures var r := Next(s, e);
        |r.threads| == |s.threads| && r.threads[t] == s.threads[t] && s.accepted <= r.accepted
          && |s.started| <= |r.started|
    {
      hide StepNext;
      if e.Step? && e.t < |s.threads| { StepMovesOne(s, e.t); }
    }

    // ---- the operations of one thread ----

    /** The thread has taken its next step. */
    ghost predicate Took(before: State, runBefore: seq<Event>, t: nat, tries: nat)
      reads this, conn
    {
      && Valid() && t < |before.threads| && View() == StepNext(before, t) && run == runBefore + [Event.Step(t)]
      && Own(run, t) == Own(runBefore, t) + [Event.Step(t)]
      && TriesOf(t) == tries + if before.threads[t].Begin? then 1 else 0
    }

    method TryBegin(t: nat) returns (ok: bool)
      requires Valid() && t < |threads| && threads[t].Begin?
      modifies conn`writeInProgress, this`owner, this`abandoned, this`threads, this`run
      ensures Took(old(View()), old(run), t, old(TriesOf(t))) && ok == !old(conn.writeInProgress)
      ensures threads == old(threads)[t := if ok then Pc.Pop else Idle]
    {
      hide Inv, Exec, Own, Tries;
      Recorded(Event.Step(t), t);
      ok := conn.TryBeginWrite();
      if ok {
        owner, abandoned := Thread(t), false;
      }
      threads := threads[t := if ok then Pc.Pop else Idle];
      run := run + [Event.Step(t)];
    }

    method TryPop(t: nat) returns (ok: bool, packet: ByteBuffer)
      requires Valid() && t < |threads| && threads[t].Pop?
      modifies conn`sendQueue, this`threads, this`run
      ensures Took(old(View()), old(run), t, old(TriesOf(t)))
      ensures ok == (old(conn.sendQueue) != [])
        && threads == old(threads)[t := if ok then Writing(packet) else EndEmpty]
      ensures !ok ==> conn.sendQueue == []
    {
      hide Inv, Exec, Own, Tries;
      Recorded(Event.Step(t), t);
      ok, packet := conn.TryPopSend();
      threads := threads[t := if ok then Writing(packet) else EndEmpty];
      run := run + [Event.Step(t)];
    }

    method End(t: nat)
      requires Valid() && t < |threads| && (threads[t].EndEmpty? || threads[t].Completed?)
      modifies conn`writeInProgress, this`owner, this`abandoned, this`threads, this`run
      ensures Took(old(View()), old(run), t, old(TriesOf(t)))
      ensures threads == old(threads)[t := if old(threads[t]).EndEmpty? then CheckPending else Pc.Begin]
    {
      hide Inv, Exec, Own, Tries;
      Recorded(Event.Step(t), t);
      conn.EndWrite();
      owner, abandoned := Nobody, false;
      threads := threads[t := if threads[t].EndEmpty? then CheckPending else Pc.Begin];
      run := run + [Event.Step(t)];
    }

    method CheckForPending(t: nat) returns (pending: bool)
      requires Valid() && t < |threads| && threads[t].CheckPending?
      modifies this`threads, this`run
      ensures Took(old(View()), old(run), t, old(TriesOf(t))) && pending == (conn.sendQueue != [])
      ensures threads == old(threads)[t := if pending then Pc.Begin else Idle]
    {
      hide Inv, Exec, Own, Tries;
      Recorded(Event.Step(t), t);
      pending := conn.HasPendingSend();
      threads := threads[t := if pending then Pc.Begin else Idle];
      run := run + [Event.Step(t)];
    }

    method AsyncWrite(t: nat, packet: ByteBuffer)
      requires Valid() && t < |threads| && threads[t] == Writing(packet)
      modifies this`outstanding, this`started, this`owner, this`threads, this`run
      ensures Took(old(View()), old(run), t, old(TriesOf(t))) && outstanding == [packet]
        && started == old(started) + [packet]
      ensures threads == old(threads)[t := Idle]
    {
      hide Inv, Exec, Own, Tries;
      Recorded(Event.Step(t), t);
      NoneOutstanding(View(), t);
      outstanding, started, owner := outstanding + [packet], started + [packet], Owner.Write;
      threads := threads[t := Idle];
      run := run + [Event.Step(t)];
    }

    lemma NoneOutstanding(s: State, t: nat)
      requires Inv(s) && t < |s.threads| && s.threads[t].Writing?
      ensures s.outstanding == []
    {
    }

    /** The lookup of the connection by its id. */
    method Find(t: nat, packet: ByteBuffer) returns (found: bool)
      requires Valid() && t < |threads| && threads[t] == Finding(packet)
      modifies this`threads, this`run
      ensures Took(old(View()), old(run), t, old(TriesOf(t))) && found == registered
      ensures threads == old(threads)[t := if found then Checking(packet) else Idle]
    {
      hide Inv, Exec, Own, Tries;
      Recorded(Event.Step(t), t);
      found := registered;
      threads := threads[t := if found then Checking(packet) else Idle];
      run := run + [Event.Step(t)];
    }

    method LoadConnected(t: nat, packet: ByteBuffer) returns (ok: bool)
      requires Valid() && t < |threads| && threads[t] == Checking(packet)
      modifies this`threads, this`run
      ensures Took(old(View()), old(run), t, old(TriesOf(t))) && ok == conn.connected
      ensures threads == old(threads)[t := if ok then Pushing(packet) else Idle]
    {
      hide Inv, Exec, Own, Tries;
      Recorded(Event.Step(t), t);
      ok := conn.connected;
      threads := threads[t := if ok then Pushing(packet) else Idle];
      run := run + [Event.Step(t)];
    }

    method Push(t: nat, packet: ByteBuffer) returns (ok: bool)
      requires Valid() && t < |threads| && threads[t] == Pushing(packet)
      modifies conn`sendQueue, this`accepted, this`threads, this`run
      ensures Took(old(View()), old(run), t, old(TriesOf(t))) && ok == (|old(conn.sendQueue)| < 1024)
      ensures threads == old(threads)[t := if ok then Pc.Begin else Idle]
      ensures accepted == if ok then old(accepted) + [packet] else old(accepted)
    {
      hide Inv, Exec, Own, Tries;
      Recorded(Event.Step(t), t);
      ok := |conn.sendQueue| < MAX_PENDING;
      if ok {
        conn.sendQueue := conn.sendQueue + [packet];
        accepted := accepted + [packet];
      }
      threads := threads[t := if ok then Pc.Begin else Idle];
      run := run + [Event.Step(t)];
    }

    method Close(t: nat)
      requires Valid() && t < |threads| && threads[t].Failed?
      modifies conn`connected, this`threads, this`run
      ensures Took(old(View()), old(run), t, old(TriesOf(t))) && threads == old(threads)[t := Removing]
        && !conn.connected
    {
      hide Inv, Exec, Own, Tries;
      Recorded(Event.Step(t), t);
      conn.Disconnect();
      threads := threads[t := Removing];
      run := run + [Event.Step(t)];
    }

    method RemoveConnection(t: nat)
      requires Valid() && t < |threads| && threads[t].Removing?
      modifies this`registered, this`threads, this`run
      ensures Took(old(View()), old(run), t, old(TriesOf(t))) && threads == old(threads)[t := EndFailed] && !registered
    {
      hide Inv, Exec, Own, Tries;
      Recorded(Event.Step(t), t);
      registered := false;
      threads := threads[t := EndFailed];
      run := run + [Event.Step(t)];
    }

    method EndAfterFailure(t: nat)
      requires Valid() && t < |threads| && threads[t].EndFailed?
      modifies conn`writeInProgress, this`owner, this`abandoned, this`threads, this`run
      ensures Took(old(View()), old(run), t, old(TriesOf(t))) && threads == old(threads)[t := Idle]
      ensures !conn.connected && !registered && failures > 0 && old(conn.writeInProgress)
    {
      hide Inv, Exec, Own, Tries;
      Recorded(Event.Step(t), t);
      FailedHolds(View(), t);
      conn.EndWrite();
      owner, abandoned := Nobody, true;
      threads := threads[t := Idle];
      run := run + [Event.Step(t)];
    }

    lemma FailedHolds(s: State, t: nat)
      requires Inv(s) && t < |s.threads| && s.threads[t].EndFailed?
      ensures !s.conn.connected && !s.registered && s.failures > 0 && s.conn.writing
    {
    }

    // ---- the calls ----

    /** Since the start of the call the thread has done `first` and then only its own steps. */
    ghost predicate Calling(before: State, runBefore: seq<Event>, t: nat, first: seq<Event>)
      reads this, conn
    {
      && Valid() && |threads| == |before.threads| && t < |threads|
      && runBefore <= run && StepsAfter(Own(runBefore, t), Own(run, t), first, t)
      && before.accepted <= accepted && |before.started| <= |started|
    }

    /** The others move within a call. */
    method OthersRunOn(ghost before: State, ghost runBefore: seq<Event>, t: nat, ghost first: seq<Event>)
      requires Calling(before, runBefore, t, first) && t < |threads|
      modifies this, conn
      ensures Calling(before, runBefore, t, first) && t < |threads| && threads[t] == old(threads[t]) && old(run) <= run
      ensures TriesOf(t) == old(TriesOf(t)) && old(accepted) <= accepted && |old(started)| <= |started|
      ensures others <= old(others) && (others == old(others) ==> View() == old(View()))
    {
      hide Inv, Exec, Own, Tries, Next;
      OthersRun(t);
    }

    /** After a pop that found nothing: a packet is pending only if others have pushed it since. */
    method GiveUp(ghost before: State, ghost runBefore: seq<Event>, t: nat, ghost first: seq<Event>)
        returns (pending: bool)
      requires Calling(before, runBefore, t, first) && t < |threads| && threads[t].EndEmpty? && conn.sendQueue == []
      modifies this, conn
      ensures Calling(before, runBefore, t, first) && t < |threads|
        && threads[t] == (if pending then Pc.Begin else Idle)
      ensures TriesOf(t) == old(TriesOf(t)) && old(accepted) <= accepted && old(run) <= run
      ensures others <= old(others) && (pending ==> others < old(others) && |old(accepted)| < |accepted|)
    {
      hide Inv, StepNext, Exec, Own, Tries, Next;
      ghost var empty := View();
      assert Inv(empty) by { ExecKeepsInv(start, run); }
      OthersRunOn(before, runBefore, t, first);
      End(t);
      OthersRunOn(before, runBefore, t, first);
      pending := CheckForPending(t);
      if pending {
        assert Inv(View()) by { ExecKeepsInv(start, run); }
        PendingMeansAccepted(empty, View(), t);
      }
    }

    /** The write loop returns whatever the others do, and every round after the first is paid for by a
        packet that another thread has pushed meanwhile. */
    method WriteLoop(ghost before: State, ghost runBefore: seq<Event>, t: nat, ghost first: seq<Event>)
      requires Calling(before, runBefore, t, first) && t < |threads| && threads[t].Begin?
      modifies this, conn
      ensures Calling(before, runBefore, t, first) && t < |threads| && threads[t] == Idle
      ensures 1 <= TriesOf(t) - old(TriesOf(t)) <= 1 + |accepted| - |old(accepted)|
      ensures old(accepted) <= accepted && old(run) <= run && others <= old(others)
      decreases others
    {
      hide Inv, StepNext, Exec, Own, Tries, Next;
      var again := OneRound(before, runBefore, t, first);
      if again {
        WriteLoop(before, runBefore, t, first);
      }
    }

    /** One round of the write loop. */
    method OneRound(ghost before: State, ghost runBefore: seq<Event>, t: nat, ghost first: seq<Event>)
        returns (again: bool)
      requires Calling(before, runBefore, t, first) && t < |threads| && threads[t].Begin?
      modifies this, conn
      ensures Calling(before, runBefore, t, first) && t < |threads| && threads[t] == (if again then Pc.Begin else Idle)
      ensures TriesOf(t) == old(TriesOf(t)) + 1
      ensures old(accepted) <= accepted && old(run) <= run && others <= old(others)
      ensures again ==> others < old(others) && |old(accepted)| < |accepted|
    {
      hide Calling, Tries;
      OthersRunOn(before, runBefore, t, first);
      again := false;
      var began := StepBegin(before, runBefore, t, first);
      if began {
        OthersRunOn(before, runBefore, t, first);
        var popped, packet := StepPop(before, runBefore, t, first);
        if popped {
          WritePacket(before, runBefore, t, first, packet);
        } else {
          again := GiveUp(before, runBefore, t, first);
        }
      }
    }

    /** The packet taken is handed to the socket. */
    method WritePacket(ghost before: State, ghost runBefore: seq<Event>, t: nat, ghost first: seq<Event>,
        packet: ByteBuffer)
      requires Calling(before, runBefore, t, first) && t < |threads| && threads[t] == Writing(packet)
      modifies this, conn
      ensures Calling(before, runBefore, t, first) && t < |threads| && threads[t] == Idle
      ensures TriesOf(t) == old(TriesOf(t)) && old(accepted) <= accepted && old(run) <= run && others <= old(others)
    {
      hide Inv, StepNext, Exec, Own, Tries, Next, StepsAfter;
      OthersRunOn(before, runBefore, t, first);
      StepWrite(before, runBefore, t, first, packet);
    }

    method StepBegin(ghost before: State, ghost runBefore: seq<Event>, t: nat, ghost first: seq<Event>)
        returns (began: bool)
      requires Calling(before, runBefore, t, first) && t < |threads| && threads[t].Begin?
      modifies this`owner, this`abandoned, this`threads, this`run, conn`writeInProgress
      ensures Calling(before, runBefore, t, first) && t < |threads| && threads[t] == (if began then Pc.Pop else Idle)
      ensures TriesOf(t) == old(TriesOf(t)) + 1 && old(run) <= run
    {
      hide Inv, StepNext, Exec, Own, Tries, Next;
      began := TryBegin(t);
    }

    method StepPop(ghost before: State, ghost runBefore: seq<Event>, t: nat, ghost first: seq<Event>)
        returns (popped: bool, packet: ByteBuffer)
      requires Calling(before, runBefore, t, first) && t < |threads| && threads[t].Pop?
      modifies this`threads, this`run, conn`sendQueue
      ensures Calling(before, runBefore, t, first) && t < |threads|
        && threads[t] == (if popped then Writing(packet) else EndEmpty)
      ensures TriesOf(t) == old(TriesOf(t)) && old(run) <= run && (!popped ==> conn.sendQueue == [])
    {
      hide Inv, StepNext, Exec, Own, Tries, Next;
      popped, packet := TryPop(t);
    }

    method StepWrite(ghost before: State, ghost runBefore: seq<Event>, t: nat, ghost first: seq<Event>,
        packet: ByteBuffer)
      requires Calling(before, runBefore, t, first) && t < |threads| && threads[t] == Writing(packet)
      modifies this`outstanding, this`started, this`owner, this`threads, this`run
      ensures Calling(before, runBefore, t, first) && t < |threads| && threads[t] == Idle
      ensures TriesOf(t) == old(TriesOf(t)) && old(run) <= run
    {
      hide Inv, StepNext, Exec, Own, Tries, Next;
      AsyncWrite(t, packet);
    }

    /** StartWriteLoop: a run in which the thread only takes its steps, and tries at least once to begin
        a write. */
    method StartWriteLoop(t: nat)
      requires Valid() && t < |threads| && threads[t].Begin?
      modifies this, conn
      ensures Calling(old(View()), old(run), t, []) && t < |threads| && threads[t] == Idle
      ensures 1 <= TriesOf(t) - old(TriesOf(t)) <= 1 + |accepted| - |old(accepted)|
    {
      WriteLoop(View(), run, t, []);
    }

    /** The run up to `decided` leads to the step in which the thread's EnqueueSend decides, its next. */
    ghost predicate Decided(runBefore: seq<Event>, decided: seq<Event>, t: nat, packet: ByteBuffer, ok: bool, at: nat)
      reads this
    {
      && runBefore <= decided && decided + [Event.Step(t)] <= run
      && (var d := Exec(start, decided);
          && t < |d.threads|
          && if ok then d.threads[t] == Pushing(packet) && |d.conn.sendQueue| < 1024 && |d.accepted| == at
             else (d.threads[t] == Finding(packet) && !d.registered) ||
                  (d.threads[t] == Checking(packet) && !d.conn.connected) ||
                  (d.threads[t] == Pushing(packet) && |d.conn.sendQueue| >= 1024))
    }

    /** The call, whatever the others do meanwhile: a run in which the thread makes this one call.  True:
        the packet was pushed into a queue below the backpressure line, behind all that was accepted
        before, and the write loop was started for it.  False: the connection was not in the table, was
        closed, or its queue full, when the thread looked, and no write was begun. */
    method Send(t: nat, packet: ByteBuffer) returns (ok: bool, ghost at: nat, ghost decided: seq<Event>)
      requires Valid() && t < |threads| && threads[t].Idle?
      modifies this, conn
      ensures Calling(old(View()), old(run), t, [Event.Send(t, packet)]) && t < |threads| && threads[t] == Idle
      ensures Decided(old(run), decided, t, packet, ok, at)
      ensures ok ==> |old(accepted)| <= at < |accepted| && accepted[at] == packet
      ensures if ok then 1 <= TriesOf(t) - old(TriesOf(t)) <= |accepted| - |old(accepted)|
        else TriesOf(t) == old(TriesOf(t))
    {
      hide Inv, StepNext, Exec, Own, Tries, Next;
      ghost var before, runBefore, first := View(), run, [Event.Send(t, packet)];
      BeginSend(t, packet);
      OthersRunOn(before, runBefore, t, first);
      at, decided := 0, run;
      ok := Find(t, packet);
      if !ok {
        return;
      }
      ok, at, decided := EnqueueAndWrite(before, runBefore, t, first, packet);
    }

    /** The rest of Send on a connection found: EnqueueSend, and then the write loop. */
    method EnqueueAndWrite(ghost before: State, ghost runBefore: seq<Event>, t: nat, ghost first: seq<Event>,
        packet: ByteBuffer)
      returns (ok: bool, ghost at: nat, ghost decided: seq<Event>)
      requires Calling(before, runBefore, t, first) && t < |threads| && threads[t] == Checking(packet)
      modifies this, conn
      ensures Calling(before, runBefore, t, first) && t < |threads| && threads[t] == Idle
      ensures Decided(runBefore, decided, t, packet, ok, at) && old(accepted) <= accepted && old(run) <= run
      ensures ok ==> |old(accepted)| <= at < |accepted| && accepted[at] == packet
      ensures if ok then 1 <= TriesOf(t) - old(TriesOf(t)) <= |accepted| - |old(accepted)|
        else TriesOf(t) == old(TriesOf(t))
    {
      hide Inv, StepNext, Exec, Own, Tries, Next;
      OthersRunOn(before, runBefore, t, first);
      at, decided := 0, run;
      ok := LoadConnected(t, packet);
      if !ok {
        return;
      }
      ok, at, decided := PushAndWrite(before, runBefore, t, first, packet);
    }

    /** The rest of Send on a connection found open: the packet is pushed, and then the write loop run. */
    method PushAndWrite(ghost before: State, ghost runBefore: seq<Event>, t: nat, ghost first: seq<Event>,
        packet: ByteBuffer)
      returns (ok: bool, ghost at: nat, ghost decided: seq<Event>)
      requires Calling(before, runBefore, t, first) && t < |threads| && threads[t] == Pushing(packet)
      modifies this, conn
      ensures Calling(before, runBefore, t, first) && t < |threads| && threads[t] == Idle
      ensures Decided(runBefore, decided, t, packet, ok, at) && old(accepted) <= accepted && old(run) <= run
      ensures ok ==> |old(accepted)| <= at < |accepted| && accepted[at] == packet
      ensures if ok then 1 <= TriesOf(t) - old(TriesOf(t)) <= |accepted| - |old(accepted)|
        else TriesOf(t) == old(TriesOf(t))
    {
      hide Inv, StepNext, Exec, Own, Tries, Next;
      OthersRunOn(before, runBefore, t, first);
      at, decided := |accepted|, run;
      ok := Push(t, packet);
      if ok {
        WriteLoop(before, runBefore, t, first);
      }
    }

    method BeginSend(t: nat, packet: ByteBuffer)
      requires Valid() && t < |threads| && threads[t].Idle?
      modifies this`threads, this`run
      ensures Calling(old(View()), old(run), t, [Event.Send(t, packet)])
        && threads == old(threads)[t := Finding(packet)]
      ensures TriesOf(t) == old(TriesOf(t))
    {
      hide Inv, Exec, Own, Tries;
      Recorded(Event.Send(t, packet), t);
      threads := threads[t := Finding(packet)];
      run := run + [Event.Send(t, packet)];
    }

    /** The handler of an outstanding write, given its error code: a run in which the thread starts this handler
        and otherwise only takes its steps.  Exactly after an error it closes the connection and takes it
        out of the table, while the thread still holds the write flag, and then releases the flag;
        otherwise the flag is released and the loop goes on. */
    method OnWritten(t: nat, failed: bool) returns (ghost closed: seq<Event>)
      requires Valid() && t < |threads| && threads[t].Idle? && outstanding != []
      modifies this, conn
      ensures Calling(old(View()), old(run), t, [Complete(t, 0, !failed)]) && t < |threads| && threads[t] == Idle
      ensures failed ==> !conn.connected && !registered && failures > 0
      ensures failed ==> TriesOf(t) == old(TriesOf(t)) && ReleasedClosed(old(run), closed, t)
      ensures !failed ==> 1 <= TriesOf(t) - old(TriesOf(t)) <= 1 + |accepted| - |old(accepted)|
    {
      hide Inv, StepNext, Exec, Own, Tries, Next;
      ghost var before, runBefore, first := View(), run, [Complete(t, 0, !failed)];
      StartHandler(t, failed);
      OthersRunOn(before, runBefore, t, first);
      if failed {
        closed := GiveBackClosed(before, runBefore, t, first);
        return;
      }
      End(t);
      closed := run;
      WriteLoop(before, runBefore, t, first);
    }

    /** The handler is called: the write is not outstanding any more. */
    method StartHandler(t: nat, failed: bool)
      requires Valid() && t < |threads| && threads[t].Idle? && outstanding != []
      modifies this`outstanding, this`written, this`failures, this`owner, this`threads, this`run
      ensures Calling(old(View()), old(run), t, [Complete(t, 0, !failed)])
        && threads == old(threads)[t := if failed then Failed else Completed]
      ensures TriesOf(t) == old(TriesOf(t))
    {
      hide Inv, Exec, Own, Tries;
      Recorded(Complete(t, 0, !failed), t);
      var packet := outstanding[0];
      outstanding, owner := outstanding[1..], Thread(t);
      if failed {
        failures := failures + 1;
      } else {
        written := written + [packet];
      }
      threads := threads[t := if failed then Failed else Completed];
      run := run + [Complete(t, 0, !failed)];
      assert View().outstanding == old(outstanding)[..0] + old(outstanding)[1..];
    }

    /** The handler of a failed write. */
    method GiveBackClosed(ghost before: State, ghost runBefore: seq<Event>, t: nat, ghost first: seq<Event>)
        returns (ghost closed: seq<Event>)
      requires Calling(before, runBefore, t, first) && t < |threads| && threads[t].Failed?
      modifies this, conn
      ensures Calling(before, runBefore, t, first) && t < |threads| && threads[t] == Idle
      ensures TriesOf(t) == old(TriesOf(t)) && ReleasedClosed(runBefore, closed, t)
      ensures !conn.connected && !registered && failures > 0
    {
      hide Inv, StepNext, Exec, Own, Tries, Next;
      Close(t);
      OthersRunOn(before, runBefore, t, first);
      RemoveConnection(t);
      OthersRunOn(before, runBefore, t, first);
      closed := run;
      EndAfterFailure(t);
    }

    /** In the state that `closed` leads to the connection is closed and not in the table any more, the
        flag is set, and the thread's next step is the release. */
    ghost predicate ReleasedClosed(runBefore: seq<Event>, closed: seq<Event>, t: nat)
      reads this
    {
      && runBefore <= closed && closed + [Event.Step(t)] <= run
      && (var d := Exec(start, closed);
          && t < |d.threads| && d.threads[t] == EndFailed
          && !d.conn.connected && !d.registered && d.conn.writing)
    }
  }
}
