/** The per-connection send path: any number of threads call Send and run completion handlers,
    interleaved step by step; each atomic operation and each critical section of TcpConnection is
    one step.  An asynchronous write stays outstanding until a thread runs its handler. */
module SendLoop {
  import opened Collections
  import opened Bytes

  const MAX_PENDING: nat := 1024

  // ---- the connection ----

  datatype Connection = Connection(connected: bool, sendQueue: seq<ByteBuffer>, writing: bool)

  class TcpConnection {
    var connected: bool
    var sendQueue: seq<ByteBuffer>
    var writeInProgress: bool

    function View(): Connection
      reads this
    {
      Connection(connected, sendQueue, writeInProgress)
    }

    constructor ()
      ensures View() == Connection(true, [], false)
    {
      connected, sendQueue, writeInProgress := true, [], false;
    }

    method Disconnect()
      modifies this`connected
      ensures !connected
    {
      if !connected {
        return;
      }
      connected := false;
    }

    /** Without interference between its two steps: accepted exactly when connected and below the
        backpressure line, and then last in the queue. */
    method EnqueueSend(packet: ByteBuffer) returns (ok: bool)
      modifies this`sendQueue
      ensures ok <==> old(connected) && |old(sendQueue)| < 1024
      ensures sendQueue == if ok then old(sendQueue) + [packet] else old(sendQueue)
    {
      if !connected {
        return false;
      }
      if |sendQueue| >= MAX_PENDING {
        return false;
      }
      sendQueue := sendQueue + [packet];
      return true;
    }

    method TryPopSend() returns (ok: bool, packet: ByteBuffer)
      modifies this`sendQueue
      ensures ok <==> old(sendQueue) != []
      ensures if ok then old(sendQueue) == [packet] + sendQueue else sendQueue == []
    {
      if sendQueue == [] {
        return false, [];
      }
      packet := sendQueue[0];
      sendQueue := sendQueue[1..];
      return true, packet;
    }

    method TryBeginWrite() returns (ok: bool)
      modifies this`writeInProgress
      ensures ok <==> !old(writeInProgress)
      ensures writeInProgress
    {
      ok := !writeInProgress;
      writeInProgress := true;
    }

    method EndWrite()
      modifies this`writeInProgress
      ensures !writeInProgress
    {
      writeInProgress := false;
    }

    method HasPendingSend() returns (pending: bool)
      ensures pending <==> sendQueue != []
    {
      pending := sendQueue != [];
    }
  }

  // ---- the threads ----

  datatype Pc =
    | Idle
    | Finding(packet: ByteBuffer)    // Send: about to look the connection up by its id
    | Checking(packet: ByteBuffer)   // EnqueueSend: about to load the connected flag
    | Pushing(packet: ByteBuffer)    // EnqueueSend: about to lock, check the size and push
    | Begin                          // StartWriteLoop: about to call TryBeginWrite
    | Pop                            // about to call TryPopSend
    | Writing(packet: ByteBuffer)    // about to call async_write
    | EndEmpty                       // nothing popped: about to call EndWrite
    | CheckPending                   // about to call HasPendingSend
    | Completed                      // handler of a successful write: about to call EndWrite
    | Failed                         // handler of a failed write: about to disconnect
    | Removing                       // then to take the connection out of the table
    | EndFailed                      // and then to call EndWrite

  /** Who set the write flag last, while it is set. */
  datatype Owner = Nobody | Thread(t: nat) | Write

  /** `registered`: the connection is in the server's table.  `outstanding` are the asynchronous writes
      under way.  The rest is history: the packets accepted
      by EnqueueSend, those handed to async_write, those written without error, the flag's owner,
      and whether the flag was last released by the handler of a failed write. */
  datatype State = State(
    conn: Connection,
    registered: bool,
    threads: seq<Pc>,
    outstanding: seq<ByteBuffer>,
    accepted: seq<ByteBuffer>,
    started: seq<ByteBuffer>,
    written: seq<ByteBuffer>,
    failures: nat,
    owner: Owner,
    abandoned: bool)

  datatype Event =
    | Send(t: nat, packet: ByteBuffer)   // an idle thread calls Send
    | Step(t: nat)                       // a thread takes its next step
    | Complete(t: nat, i: nat, ok: bool) // an idle thread starts the handler of an outstanding write
    | Disconnect                         // anyone closes the connection
    | Remove                             // whoever has closed it takes it out of the table

  function Hand(s: State, t: nat, pc: Pc): State
    requires t < |s.threads|
  {
    s.(threads := s.threads[t := pc])
  }

  function StepNext(s: State, t: nat): State
    requires t < |s.threads|
  {
    match s.threads[t]
    case Idle => s
    case Finding(p) => Hand(s, t, if s.registered then Checking(p) else Idle)
    case Checking(p) => Hand(s, t, if s.conn.connected then Pushing(p) else Idle)
    case Pushing(p) =>
      if |s.conn.sendQueue| >= MAX_PENDING then Hand(s, t, Idle)
      else Hand(s.(conn := s.conn.(sendQueue := s.conn.sendQueue + [p]), accepted := s.accepted + [p]), t, Begin)
    case Begin =>
      if s.conn.writing then Hand(s, t, Idle)
      else Hand(s.(conn := s.conn.(writing := true), owner := Thread(t), abandoned := false), t, Pop)
    case Pop =>
      if s.conn.sendQueue == [] then Hand(s, t, EndEmpty)
      else Hand(s.(conn := s.conn.(sendQueue := s.conn.sendQueue[1..])), t, Writing(s.conn.sendQueue[0]))
    case Writing(p) =>
      Hand(s.(outstanding := s.outstanding + [p], started := s.started + [p], owner := Write), t, Idle)
    case EndEmpty => Hand(s.(conn := s.conn.(writing := false), owner := Nobody, abandoned := false), t, CheckPending)
    case CheckPending => Hand(s, t, if s.conn.sendQueue != [] then Begin else Idle)
    case Completed => Hand(s.(conn := s.conn.(writing := false), owner := Nobody, abandoned := false), t, Begin)
    case Failed => Hand(s.(conn := s.conn.(connected := false)), t, Removing)
    case Removing => Hand(s.(registered := false), t, EndFailed)
    case EndFailed => Hand(s.(conn := s.conn.(writing := false), owner := Nobody, abandoned := true), t, Idle)
  }

  function Next(s: State, e: Event): State {
    match e
    case Send(t, p) => if t < |s.threads| && s.threads[t].Idle? then Hand(s, t, Finding(p)) else s
    case Step(t) => if t < |s.threads| then StepNext(s, t) else s
    case Complete(t, i, ok) =>
      if t < |s.threads| && s.threads[t].Idle? && i < |s.outstanding| then
        var p := s.outstanding[i];
        var s' := s.(outstanding := s.outstanding[..i] + s.outstanding[i + 1..], owner := Thread(t));
        if ok then Hand(s'.(written := s.written + [p]), t, Completed)
          else Hand(s'.(failures := s.failures + 1), t, Failed)
      else s
    case Disconnect => s.(conn := s.conn.(connected := false))
    case Remove => if s.conn.connected then s else s.(registered := false)
  }

  function Exec(s: State, events: seq<Event>): State
    decreases |events|
  {
    if events == [] then s else Exec(Next(s, events[0]), events[1..])
  }

  predicate Init(s: State) {
    && s.conn == Connection(true, [], false) && s.registered
    && (forall t :: 0 <= t < |s.threads| ==> s.threads[t].Idle?)
    && s.outstanding == s.accepted == s.started == s.written == []
    && s.failures == 0 && s.owner.Nobody? && !s.abandoned
  }

  /** A step moves one thread, and the histories only grow. */
  lemma StepMovesOne(s: State, t: nat)
    requires t < |s.threads|
    ensures var s' := StepNext(s, t);
      && |s'.threads| == |s.threads| && s'.threads == s.threads[t := s'.threads[t]]
      && s.accepted <= s'.accepted && |s.started| <= |s'.started|
  {
    assert s.threads == s.threads[t := s.threads[t]];
    if Sending(s.threads[t]) { SendMovesOne(s, t); } else { HandlerMovesOne(s, t); }
  }

  predicate Sending(pc: Pc) {
    pc.Finding? || pc.Checking? || pc.Pushing? || pc.Begin? || pc.Pop? || pc.Writing?
  }

  lemma SendMovesOne(s: State, t: nat)
    requires t < |s.threads| && Sending(s.threads[t])
    ensures var s' := StepNext(s, t);
      |s'.threads| == |s.threads| && s'.threads == s.threads[t := s'.threads[t]] && s.accepted <= s'.accepted
        && |s.started| <= |s'.started|
  {
    var s' := StepNext(s, t);
    assert s' == Hand(s', t, s'.threads[t]) && s'.threads == s.threads[t := s'.threads[t]];
  }

  lemma HandlerMovesOne(s: State, t: nat)
    requires t < |s.threads| && !Sending(s.threads[t])
    ensures var s' := StepNext(s, t);
      |s'.threads| == |s.threads| && s'.threads == s.threads[t := s'.threads[t]] && s.accepted <= s'.accepted
        && |s.started| <= |s'.started|
  {
    assert s.threads == s.threads[t := s.threads[t]];
  }

  // ---- the invariant ----

  /** The thread is between a successful TryBeginWrite and its EndWrite or async_write. */
  predicate Holds(pc: Pc) {
    pc.Pop? || pc.Writing? || pc.EndEmpty? || pc.Completed? || pc.Failed? || pc.Removing? || pc.EndFailed?
  }

  /** The write flag is set exactly while one thread or one outstanding write owns it. */
  predicate FlagOk(s: State) {
    && (s.conn.writing <==> !s.owner.Nobody?)
    && (forall t {:trigger s.threads[t]} :: 0 <= t < |s.threads| ==> (Holds(s.threads[t]) <==> s.owner == Thread(t)))
    && (s.owner.Thread? ==> s.owner.t < |s.threads|)
    && |s.outstanding| == (if s.owner.Write? then 1 else 0)
  }

  /** The packet popped but not yet handed to async_write. */
  function InHand(s: State): seq<ByteBuffer> {
    if s.owner.Thread? && s.owner.t < |s.threads| && s.threads[s.owner.t].Writing?
    then [s.threads[s.owner.t].packet] else []
  }

  predicate OrderOk(s: State) {
    && s.accepted == s.started + InHand(s) + s.conn.sendQueue
    && (s.failures == 0 ==> s.started == s.written + s.outstanding)
    && |s.written| + |s.outstanding| + s.failures == |s.started|
    && |s.conn.sendQueue| <= MAX_PENDING
  }

  ghost predicate SomeoneWillLook(s: State) {
    exists t :: 0 <= t < |s.threads| && (s.threads[t].Begin? || s.threads[t].CheckPending?)
  }

  /** After a failed write the connection is closed and then taken out of the table. */
  predicate FailureOk(s: State, pc: Pc) {
    && (pc.Failed? || pc.Removing? || pc.EndFailed? ==> s.failures > 0)
    && (pc.Removing? || pc.EndFailed? ==> !s.conn.connected)
    && (pc.EndFailed? ==> !s.registered)
  }

  /** No lost wakeup: queued packets have an owner of the flag, or a thread about to look, unless the
      flag was last released after a failed write, which closed the connection. */
  ghost predicate WakeOk(s: State) {
    && (s.conn.sendQueue != [] ==> s.conn.writing || SomeoneWillLook(s) || s.abandoned)
    && (s.abandoned ==> !s.conn.connected && !s.conn.writing && s.failures > 0)
    && (forall t {:trigger s.threads[t]} :: 0 <= t < |s.threads| ==> FailureOk(s, s.threads[t]))
    && (!s.registered ==> !s.conn.connected)
  }

  ghost predicate Inv(s: State) {
    FlagOk(s) && OrderOk(s) && WakeOk(s)
  }

  lemma InitInv(s: State)
    requires Init(s)
    ensures Inv(s)
  {
  }

  /** A thread's step changes who owns the flag only if the thread takes it, releases it or hands it
      to a write. */
  lemma StepKeepsFlag(s: State, t: nat)
    requires FlagOk(s) && t < |s.threads|
    ensures FlagOk(StepNext(s, t))
  {
    match s.threads[t]
    case Begin => TakeKeepsFlag(s, t);
    case Writing(_) => HandOverKeepsFlag(s, t);
    case EndEmpty => ReleaseKeepsFlag(s, t);
    case Completed => ReleaseKeepsFlag(s, t);
    case EndFailed => ReleaseKeepsFlag(s, t);
    case _ => QuietKeepsFlag(s, t);
  }

  lemma TakeKeepsFlag(s: State, t: nat)
    requires FlagOk(s) && t < |s.threads| && s.threads[t].Begin?
    ensures FlagOk(StepNext(s, t))
  {
  }

  lemma HandOverKeepsFlag(s: State, t: nat)
    requires FlagOk(s) && t < |s.threads| && s.threads[t].Writing?
    ensures FlagOk(StepNext(s, t))
  {
  }

  lemma ReleaseKeepsFlag(s: State, t: nat)
    requires FlagOk(s) && t < |s.threads|
      && (s.threads[t].EndEmpty? || s.threads[t].Completed? || s.threads[t].EndFailed?)
    ensures FlagOk(StepNext(s, t))
  {
  }

  lemma QuietKeepsFlag(s: State, t: nat)
    requires FlagOk(s) && t < |s.threads|
    requires s.threads[t].Idle? || s.threads[t].Finding? || s.threads[t].Checking? || s.threads[t].Pushing?
      || s.threads[t].Pop?
      || s.threads[t].CheckPending? || s.threads[t].Failed? || s.threads[t].Removing?
    ensures FlagOk(StepNext(s, t))
  {
    assert Holds(StepNext(s, t).threads[t]) == Holds(s.threads[t]);
  }

  lemma CompleteKeepsFlag(s: State, t: nat, i: nat, ok: bool)
    requires FlagOk(s)
    ensures FlagOk(Next(s, Complete(t, i, ok)))
  {
  }

  /** The thread that owns the flag is the only one whose packet is in hand. */
  lemma StepKeepsHand(s: State, t: nat)
    requires FlagOk(s) && t < |s.threads|
    ensures InHand(StepNext(s, t)) ==
      if s.threads[t].Writing? then []
      else if s.threads[t].Pop? && s.conn.sendQueue != [] then [s.conn.sendQueue[0]]
      else InHand(s)
  {
    hide FlagOk, InHand, StepNext;
    if Sending(s.threads[t]) { SendKeepsHand(s, t); } else { HandlerKeepsHand(s, t); }
  }

  lemma SendKeepsHand(s: State, t: nat)
    requires FlagOk(s) && t < |s.threads| && Sending(s.threads[t])
    ensures InHand(StepNext(s, t)) ==
      if s.threads[t].Writing? then []
      else if s.threads[t].Pop? && s.conn.sendQueue != [] then [s.conn.sendQueue[0]]
      else InHand(s)
  {
  }

  lemma HandlerKeepsHand(s: State, t: nat)
    requires FlagOk(s) && t < |s.threads| && !Sending(s.threads[t])
    ensures InHand(StepNext(s, t)) == InHand(s)
  {
  }

  lemma StepKeepsOrder(s: State, t: nat)
    requires FlagOk(s) && OrderOk(s) && t < |s.threads|
    ensures OrderOk(StepNext(s, t))
  {
    hide FlagOk, OrderOk, StepNext;
    match s.threads[t]
    case Pushing(_) => PushKeepsOrder(s, t);
    case Pop => PopKeepsOrder(s, t);
    case Writing(_) => WriteKeepsOrder(s, t);
    case _ => QuietKeepsOrder(s, t);
  }

  lemma PushKeepsOrder(s: State, t: nat)
    requires FlagOk(s) && OrderOk(s) && t < |s.threads| && s.threads[t].Pushing?
    ensures OrderOk(StepNext(s, t))
  {
    StepKeepsHand(s, t);
    hide FlagOk, InHand;
    var p := s.threads[t].packet;
    assert s.started + InHand(s) + (s.conn.sendQueue + [p]) == s.accepted + [p];
  }

  lemma PopKeepsOrder(s: State, t: nat)
    requires FlagOk(s) && OrderOk(s) && t < |s.threads| && s.threads[t].Pop?
    ensures OrderOk(StepNext(s, t))
  {
    StepKeepsHand(s, t);
    assert InHand(s) == [];
    hide FlagOk, InHand;
    assert s.started + [] + s.conn.sendQueue == s.started + s.conn.sendQueue;
  }

  lemma WriteKeepsOrder(s: State, t: nat)
    requires FlagOk(s) && OrderOk(s) && t < |s.threads| && s.threads[t].Writing?
    ensures OrderOk(StepNext(s, t))
  {
    StepKeepsHand(s, t);
    var p, s' := s.threads[t].packet, StepNext(s, t);
    assert InHand(s) == [p] && s.outstanding == [];
    hide FlagOk, InHand;
    assert s.started + [p] + s.conn.sendQueue == s'.started + [] + s.conn.sendQueue;
    assert s.written + (s.outstanding + [p]) == (s.written + s.outstanding) + [p];
  }

  lemma QuietKeepsOrder(s: State, t: nat)
    requires FlagOk(s) && OrderOk(s) && t < |s.threads| && !s.threads[t].Pushing? && !s.threads[t].Pop?
      && !s.threads[t].Writing?
    ensures OrderOk(StepNext(s, t))
  {
    StepKeepsHand(s, t);
    QuietSteps(s, t);
    hide FlagOk, InHand, StepNext;
  }

  predicate SamePackets(s: State, r: State) {
    && r.conn.sendQueue == s.conn.sendQueue && r.outstanding == s.outstanding && r.accepted == s.accepted
    && r.started == s.started && r.written == s.written && r.failures == s.failures
  }

  /** All other steps leave the packets where they are. */
  lemma QuietSteps(s: State, t: nat)
    requires t < |s.threads| && !s.threads[t].Pushing? && !s.threads[t].Pop? && !s.threads[t].Writing?
    ensures SamePackets(s, StepNext(s, t))
  {
    hide StepNext, SamePackets;
    if Sending(s.threads[t]) { QuietSendSteps(s, t); } else { QuietHandlerSteps(s, t); }
  }

  lemma QuietSendSteps(s: State, t: nat)
    requires t < |s.threads| && (s.threads[t].Finding? || s.threads[t].Checking? || s.threads[t].Begin?)
    ensures SamePackets(s, StepNext(s, t))
  {
  }

  lemma QuietHandlerSteps(s: State, t: nat)
    requires t < |s.threads| && !Sending(s.threads[t])
    ensures SamePackets(s, StepNext(s, t))
  {
  }

  lemma CompleteKeepsOrder(s: State, t: nat, i: nat, ok: bool)
    requires FlagOk(s) && OrderOk(s)
    ensures OrderOk(Next(s, Complete(t, i, ok)))
  {
    if t < |s.threads| && s.threads[t].Idle? && i < |s.outstanding| {
      assert s.owner.Write? && s.outstanding == [s.outstanding[i]] && InHand(s) == [];
      var s' := Next(s, Complete(t, i, ok));
      assert InHand(s') == [] && s'.outstanding == [];
      hide FlagOk, InHand;
      assert s.written + [s.outstanding[i]] == s.written + s.outstanding;
      assert s'.written + [] == s'.written;
    }
  }

  /** A thread about to look stays one until it takes its own step. */
  lemma LooksOn(s: State, s': State, t: nat)
    requires t < |s.threads| == |s'.threads| && s'.threads == s.threads[t := s'.threads[t]]
    ensures SomeoneWillLook(s) && !s.threads[t].Begin? && !s.threads[t].CheckPending? ==> SomeoneWillLook(s')
    ensures s'.threads[t].Begin? || s'.threads[t].CheckPending? ==> SomeoneWillLook(s')
  {
    if SomeoneWillLook(s) {
      var u :| 0 <= u < |s.threads| && (s.threads[u].Begin? || s.threads[u].CheckPending?);
      assert u != t ==> s'.threads[u] == s.threads[u];
    }
  }

  lemma StepKeepsWake(s: State, t: nat)
    requires Inv(s) && t < |s.threads|
    ensures WakeOk(StepNext(s, t))
  {
    hide Inv, WakeOk, StepNext;
    if Sending(s.threads[t]) { SendKeepsWake(s, t); } else { HandlerKeepsWake(s, t); }
  }

  lemma SendKeepsWake(s: State, t: nat)
    requires Inv(s) && t < |s.threads| && Sending(s.threads[t])
    ensures WakeOk(StepNext(s, t))
  {
    StepMovesOne(s, t);
    LooksOn(s, StepNext(s, t), t);
    assert Holds(s.threads[t]) ==> s.conn.writing && s.owner == Thread(t);
    hide FlagOk, OrderOk, SomeoneWillLook;
  }

  lemma HandlerKeepsWake(s: State, t: nat)
    requires Inv(s) && t < |s.threads| && !Sending(s.threads[t])
    ensures WakeOk(StepNext(s, t))
  {
    StepMovesOne(s, t);
    LooksOn(s, StepNext(s, t), t);
    assert Holds(s.threads[t]) ==> s.conn.writing && s.owner == Thread(t);
    hide FlagOk, OrderOk, SomeoneWillLook;
  }

  lemma OtherKeepsWake(s: State, e: Event)
    requires Inv(s) && !e.Step?
    ensures WakeOk(Next(s, e))
  {
    var s' := Next(s, e);
    assert !e.Disconnect? && !e.Remove? && e.t < |s.threads| ==> s'.threads == s.threads[e.t := s'.threads[e.t]];
    if !e.Disconnect? && !e.Remove? && e.t < |s.threads| {
      LooksOn(s, s', e.t);
    }
    assert e.Complete? && e.i < |s.outstanding| ==> s.conn.writing;
    assert SomeoneWillLook(s) && (e.Disconnect? || e.Remove?) ==> SomeoneWillLook(s');
    hide FlagOk, OrderOk, SomeoneWillLook;
  }

  lemma OtherKeepsFlagAndOrder(s: State, e: Event)
    requires FlagOk(s) && OrderOk(s) && (e.Send? || e.Disconnect? || e.Remove?)
    ensures FlagOk(Next(s, e)) && OrderOk(Next(s, e))
  {
    assert InHand(Next(s, e)) == InHand(s);
  }

  lemma NextKeepsInv(s: State, e: Event)
    requires Inv(s)
    ensures Inv(Next(s, e)) && |Next(s, e).threads| == |s.threads|
  {
    hide FlagOk, OrderOk, WakeOk, StepNext;
    match e
    case Step(t) =>
      if t < |s.threads| {
        StepKeepsFlag(s, t);
        StepKeepsOrder(s, t);
        StepKeepsWake(s, t);
        StepMovesOne(s, t);
      }
    case Complete(t, i, ok) =>
      CompleteKeepsFlag(s, t, i, ok);
      CompleteKeepsOrder(s, t, i, ok);
      OtherKeepsWake(s, e);
    case _ =>
      OtherKeepsWake(s, e);
      OtherKeepsFlagAndOrder(s, e);
  }

  lemma {:induction false} ExecKeepsInv(s: State, events: seq<Event>)
    requires Inv(s)
    ensures Inv(Exec(s, events)) && |Exec(s, events).threads| == |s.threads|
    decreases |events|
  {
    hide Inv;
    if events != [] {
      NextKeepsInv(s, events[0]);
      ExecKeepsInv(Next(s, events[0]), events[1..]);
    }
  }

  lemma {:induction false} ExecSnoc(s: State, events: seq<Event>, e: Event)
    ensures Exec(s, events + [e]) == Next(Exec(s, events), e)
    decreases |events|
  {
    hide Next;
    if events == [] {
      assert (events + [e])[1..] == [];
    } else {
      ExecSnoc(Next(s, events[0]), events[1..], e);
      assert (events + [e])[1..] == events[1..] + [e];
    }
  }

  // ---- one thread's part of a run ----

  predicate By(e: Event, t: nat) {
    !e.Disconnect? && !e.Remove? && e.t == t
  }

  /** The events of thread `t`, in order. */
  function Own(events: seq<Event>, t: nat): seq<Event> {
    if events == [] then []
    else
      var n := |events| - 1;
      Own(events[..n], t) + if By(events[n], t) then [events[n]] else []
  }

  /** Between the two the thread has taken steps only, after `first`, if any. */
  predicate StepsAfter(before: seq<Event>, after: seq<Event>, first: seq<Event>, t: nat) {
    before + first <= after && forall i :: |before| + |first| <= i < |after| ==> after[i] == Step(t)
  }

  /** How often the thread has tried to begin a write. */
  function Tries(s: State, events: seq<Event>, t: nat): nat {
    if events == [] then 0
    else
      var n := |events| - 1;
      var r := Exec(s, events[..n]);
      Tries(s, events[..n], t) + if events[n] == Step(t) && t < |r.threads| && r.threads[t].Begin? then 1 else 0
  }

  lemma TriesSnoc(s: State, events: seq<Event>, t: nat, e: Event)
    ensures var r := Exec(s, events);
      Tries(s, events + [e], t) == Tries(s, events, t) + if e == Step(t) && t < |r.threads| && r.threads[t].Begin? then
        1 else 0
    ensures Own(events + [e], t) == Own(events, t) + if By(e, t) then [e] else []
  {
    hide Exec;
    assert (events + [e])[..|events|] == events;
  }

  /** A packet is in the queue after it was empty only because one has been accepted since. */
  lemma PendingMeansAccepted(s: State, r: State, t: nat)
    requires Inv(s) && Inv(r) && t < |s.threads| && s.threads[t].EndEmpty? && s.conn.sendQueue == []
    requires |s.started| <= |r.started| && r.conn.sendQueue != []
    ensures |s.accepted| < |r.accepted|
  {
  }

  // ---- what every run keeps ----

  predicate AtRest(s: State) {
    s.outstanding == [] && forall t :: 0 <= t < |s.threads| ==> s.threads[t].Idle?
  }

  /** Over every run of any number of senders: at most one write is outstanding, and none while a
      thread is inside the write loop; packets reach the wire in the order EnqueueSend accepted
      them; and a waiting packet is never forgotten unless a write has failed. */
  lemma EveryRunIsInOrder(s: State, events: seq<Event>)
    requires Init(s)
    ensures var r := Exec(s, events);
      && |r.outstanding| <= 1
      && (forall t, u :: 0 <= t < u < |r.threads| ==> !(Holds(r.threads[t]) && Holds(r.threads[u])))
      && (r.outstanding != [] ==> forall t :: 0 <= t < |r.threads| ==> !Holds(r.threads[t]))
      && IsPrefix(r.started, r.accepted)
      && (r.failures == 0 ==> IsPrefix(r.written, r.accepted))
      && (r.conn.sendQueue != [] ==> r.conn.writing || SomeoneWillLook(r) || (r.abandoned && !r.conn.connected))
  {
    hide Init, Exec, Inv, SomeoneWillLook;
    InitInv(s);
    ExecKeepsInv(s, events);
    InvMeans(Exec(s, events));
  }

  lemma InvMeans(r: State)
    requires Inv(r)
    ensures |r.outstanding| <= 1
    ensures forall t, u :: 0 <= t < u < |r.threads| ==> !(Holds(r.threads[t]) && Holds(r.threads[u]))
    ensures r.outstanding != [] ==> forall t :: 0 <= t < |r.threads| ==> !Holds(r.threads[t])
    ensures IsPrefix(r.started, r.accepted) && (r.failures == 0 ==> IsPrefix(r.written, r.accepted))
    ensures r.conn.sendQueue != [] ==> r.conn.writing || SomeoneWillLook(r) || (r.abandoned && !r.conn.connected)
  {
    Prefixes(r.started, InHand(r), r.conn.sendQueue);
    Prefixes(r.written, r.outstanding, InHand(r) + r.conn.sendQueue);
    assert r.written + r.outstanding + (InHand(r) + r.conn.sendQueue) ==
      r.written + r.outstanding + InHand(r) + r.conn.sendQueue;
    hide InHand, SomeoneWillLook;
  }

  lemma Prefixes(a: seq<ByteBuffer>, b: seq<ByteBuffer>, c: seq<ByteBuffer>)
    ensures IsPrefix(a, a + b + c)
  {
  }

  /** When every thread is idle and no write is outstanding, everything accepted has been handed to
      the wire, exactly unless the last write loop to end was that of a failed write and left
      packets behind; without failures everything accepted has been written. */
  lemma NothingIsLeftUnsent(s: State, events: seq<Event>)
    requires Init(s) && AtRest(Exec(s, events))
    ensures var r := Exec(s, events);
      && !r.conn.writing
      && r.accepted == r.started + r.conn.sendQueue
      && (r.conn.sendQueue != [] ==> r.abandoned && r.failures > 0 && !r.conn.connected)
      && (r.failures == 0 ==> r.conn.sendQueue == [] && r.written == r.accepted)
  {
    hide Init, Exec, Inv;
    InitInv(s);
    ExecKeepsInv(s, events);
    RestMeans(Exec(s, events));
  }

  // ---- errors close the connection ----

  /** The write that the event completes has failed. */
  predicate IsError(s: State, e: Event) {
    e.Complete? && !e.ok && e.t < |s.threads| && s.threads[e.t].Idle? && e.i < |s.outstanding|
  }

  /** How many writes have failed in a run. */
  function Errors(s: State, events: seq<Event>): nat
    decreases |events|
  {
    if events == [] then 0
    else (if IsError(s, events[0]) then 1 else 0) + Errors(Next(s, events[0]), events[1..])
  }

  /** Within the error branch of the handler. */
  predicate InErrorBranch(pc: Pc) {
    pc.Failed? || pc.Removing? || pc.EndFailed?
  }

  ghost predicate SomeoneCloses(s: State) {
    exists t :: 0 <= t < |s.threads| && InErrorBranch(s.threads[t])
  }

  predicate Closed(s: State) {
    !s.conn.connected && !s.registered
  }

  lemma StepCloses(s: State, t: nat)
    requires t < |s.threads| && FailureOk(s, s.threads[t])
    ensures var s' := StepNext(s, t);
      && s'.failures == s.failures && (Closed(s) ==> Closed(s')) && t < |s'.threads|
      && (InErrorBranch(s.threads[t]) ==> InErrorBranch(s'.threads[t]) || Closed(s'))
      && (!InErrorBranch(s.threads[t]) ==>
            !InErrorBranch(s'.threads[t]) && s'.conn.connected == s.conn.connected && s'.registered == s.registered)
  {
    hide FailureOk;
    if Sending(s.threads[t]) { SendStepCloses(s, t); } else { HandlerStepCloses(s, t); }
  }

  lemma SendStepCloses(s: State, t: nat)
    requires t < |s.threads| && Sending(s.threads[t])
    ensures var s' := StepNext(s, t);
      && s'.failures == s.failures && t < |s'.threads| && !InErrorBranch(s'.threads[t])
      && s'.conn.connected == s.conn.connected && s'.registered == s.registered
  {
  }

  lemma HandlerStepCloses(s: State, t: nat)
    requires t < |s.threads| && !Sending(s.threads[t]) && FailureOk(s, s.threads[t])
    ensures var s' := StepNext(s, t);
      && s'.failures == s.failures && (Closed(s) ==> Closed(s')) && t < |s'.threads|
      && (InErrorBranch(s.threads[t]) ==> InErrorBranch(s'.threads[t]) || Closed(s'))
      && (!InErrorBranch(s.threads[t]) ==>
            !InErrorBranch(s'.threads[t]) && s'.conn.connected == s.conn.connected && s'.registered == s.registered)
  {
  }

  /** The others stay where they are, so whoever is in the error branch stays there but for its own steps. */
  lemma ClosesOn(s: State, s': State, t: nat)
    requires t < |s.threads| == |s'.threads| && s'.threads == s.threads[t := s'.threads[t]]
    ensures SomeoneCloses(s) ==> SomeoneCloses(s') || InErrorBranch(s.threads[t])
    ensures InErrorBranch(s'.threads[t]) ==> SomeoneCloses(s')
    ensures SomeoneCloses(s') ==> SomeoneCloses(s) || InErrorBranch(s'.threads[t])
  {
    if SomeoneCloses(s) {
      var u :| 0 <= u < |s.threads| && InErrorBranch(s.threads[u]);
      assert u != t ==> s'.threads[u] == s.threads[u];
    }
    if SomeoneCloses(s') {
      var u :| 0 <= u < |s'.threads| && InErrorBranch(s'.threads[u]);
      assert u != t ==> s.threads[u] == s'.threads[u];
    }
  }

  /** After an error somebody is about to close the connection until it is closed; before any, and before
      a Disconnect, it is open and in the table. */
  ghost predicate ErrorOk(s: State, disconnected: bool) {
    && (s.failures > 0 ==> Closed(s) || SomeoneCloses(s))
    && (s.failures == 0 && !disconnected ==> s.conn.connected && s.registered && !SomeoneCloses(s))
  }

  lemma StepKeepsError(s: State, t: nat, disconnected: bool)
    requires Inv(s) && ErrorOk(s, disconnected) && t < |s.threads|
    ensures ErrorOk(StepNext(s, t), disconnected) && StepNext(s, t).failures == s.failures
  {
    assert FailureOk(s, s.threads[t]);
    hide Inv, StepNext, SomeoneCloses, FailureOk;
    StepMovesOne(s, t);
    StepCloses(s, t);
    ClosesOn(s, StepNext(s, t), t);
  }

  lemma NextKeepsError(s: State, e: Event, disconnected: bool)
    requires Inv(s) && ErrorOk(s, disconnected)
    ensures var s' := Next(s, e);
      && ErrorOk(s', disconnected || e.Disconnect?)
      && s'.failures == s.failures + if IsError(s, e) then 1 else 0
  {
    hide StepNext;
    match e
    case Step(t) =>
      if t < |s.threads| { StepKeepsError(s, t, disconnected); }
    case Disconnect =>
      hide Inv;
      assert SomeoneCloses(s) ==> SomeoneCloses(Next(s, e));
    case Remove =>
      hide Inv;
      assert SomeoneCloses(s) <==> SomeoneCloses(Next(s, e));
    case Send(t, _) =>
      hide Inv, SomeoneCloses;
      if t < |s.threads| && s.threads[t].Idle? { ClosesOn(s, Next(s, e), t); }
    case Complete(t, _, _) =>
      hide Inv, SomeoneCloses;
      if t < |s.threads| && s.threads[t].Idle? { ClosesOn(s, Next(s, e), t); }
  }

  /** Over every run: once a write has failed, the connection is closed and out of the table or some thread is
      within the error branch of its handler, and at rest it is closed; without a failed write, and
      unless somebody disconnects, it is open and in the table. */
  lemma ErrorsClose(s: State, events: seq<Event>)
    requires Init(s)
    ensures var r := Exec(s, events);
      Errors(s, events) > 0 ==> (!r.conn.connected && !r.registered) || exists t ::
        0 <= t < |r.threads| && (r.threads[t].Failed? || r.threads[t].Removing? || r.threads[t].EndFailed?)
    ensures var r := Exec(s, events); Errors(s, events) > 0 && AtRest(r) ==> !r.conn.connected && !r.registered
    ensures var r := Exec(s, events);
      Errors(s, events) == 0 && (forall i :: 0 <= i < |events| ==> !events[i].Disconnect?) ==>
        r.conn.connected && r.registered
  {
    InitInv(s);
    ExecKeepsError(s, events, false);
    hide Inv, Exec, Errors;
    var r := Exec(s, events);
    if SomeoneCloses(r) {
      var t :| 0 <= t < |r.threads| && InErrorBranch(r.threads[t]);
    }
  }

  lemma {:induction false} ExecKeepsError(s: State, events: seq<Event>, disconnected: bool)
    requires Inv(s) && ErrorOk(s, disconnected)
    ensures ErrorOk(Exec(s, events), disconnected || exists i :: 0 <= i < |events| && events[i].Disconnect?)
    ensures Exec(s, events).failures == s.failures + Errors(s, events)
    decreases |events|
  {
    hide Inv, ErrorOk, Next, IsError;
    if events != [] {
      NextKeepsInv(s, events[0]);
      NextKeepsError(s, events[0], disconnected);
      ExecKeepsError(Next(s, events[0]), events[1..], disconnected || events[0].Disconnect?);
      DisconnectsOf(events);
    }
  }

  lemma DisconnectsOf(events: seq<Event>)
    requires events != []
    ensures (exists i :: 0 <= i < |events| && events[i].Disconnect?) <==>
      events[0].Disconnect? || exists i :: 0 <= i < |events[1..]| && events[1..][i].Disconnect?
  {
    if i :| 0 < i < |events| && events[i].Disconnect? {
      assert events[1..][i - 1].Disconnect?;
    }
  }

  lemma NextStaysClosed(s: State, e: Event)
    ensures !s.conn.connected ==> !Next(s, e).conn.connected
    ensures !s.registered ==> !Next(s, e).registered
  {
    if e.Step? && e.t < |s.threads| {
      hide StepNext;
      if Sending(s.threads[e.t]) { SendStepCloses(s, e.t); } else { HandlerStaysClosed(s, e.t); }
    }
  }

  lemma HandlerStaysClosed(s: State, t: nat)
    requires t < |s.threads| && !Sending(s.threads[t])
    ensures !s.conn.connected ==> !StepNext(s, t).conn.connected
    ensures !s.registered ==> !StepNext(s, t).registered
  {
  }

  lemma {:induction false} StaysClosed(s: State, events: seq<Event>)
    ensures !s.conn.connected ==> !Exec(s, events).conn.connected
    ensures !s.registered ==> !Exec(s, events).registered
    decreases |events|
  {
    hide Next;
    if events != [] {
      NextStaysClosed(s, events[0]);
      StaysClosed(Next(s, events[0]), events[1..]);
    }
  }

  lemma {:induction false} ExecAppend(s: State, a: seq<Event>, b: seq<Event>)
    ensures Exec(s, a + b) == Exec(Exec(s, a), b)
    decreases |a|
  {
    hide Next;
    if a == [] {
      assert a + b == b;
    } else {
      assert (a + b)[1..] == a[1..] + b;
      ExecAppend(Next(s, a[0]), a[1..], b);
    }
  }

  /** Closing is final, whatever follows: after a Disconnect, and after it a Remove, as the handler of a failed
      read makes them, the connection is closed and out of the table for good. */
  lemma ClosingIsFinal(s: State, before: seq<Event>, between: seq<Event>, after: seq<Event>)
    ensures var r := Exec(s, before + [Disconnect] + between + [Remove] + after); !r.conn.connected && !r.registered
  {
    hide Exec;
    var first := before + [Disconnect];
    ExecAppend(s, first + between + [Remove], after);
    ExecSnoc(s, before, Disconnect);
    ExecAppend(s, first, between);
    ExecSnoc(s, first + between, Remove);
    StaysClosed(Exec(s, first), between);
    StaysClosed(Exec(s, first + between + [Remove]), after);
  }

  // ---- the write loop comes to rest ----

  /** What a thread may still do; a nonempty queue sends a thread that is about to look around again. */
  function Rank(pc: Pc, queued: bool, threads: nat): nat {
    match pc
    case Idle => 0
    case Finding(_) => 13 + 4 * threads
    case Checking(_) => 12 + 4 * threads
    case Pushing(_) => 11 + 4 * threads
    case Begin => 4
    case Pop => 3
    case Writing(_) => 8
    case EndEmpty => if queued then 6 else 2
    case CheckPending => if queued then 5 else 1
    case Completed => 5
    case Failed => 6
    case Removing => 5
    case EndFailed => 4
  }

  function Ranks(threads: seq<Pc>, queued: bool, n: nat): nat {
    if threads == [] then 0
    else Ranks(threads[..|threads| - 1], queued, n) + Rank(threads[|threads| - 1], queued, n)
  }

  function Measure(s: State): nat {
    Ranks(s.threads, s.conn.sendQueue != [], |s.threads|) + 6 * |s.conn.sendQueue| + 7 * |s.outstanding|
  }

  lemma {:induction false} RanksUpdate(threads: seq<Pc>, t: nat, pc: Pc, queued: bool, n: nat)
    requires t < |threads|
    ensures Ranks(threads[t := pc], queued, n) ==
      Ranks(threads, queued, n) - Rank(threads[t], queued, n) + Rank(pc, queued, n)
    decreases |threads|
  {
    var m := |threads| - 1;
    if t == m {
      assert threads[t := pc][..m] == threads[..m];
    } else {
      assert threads[t := pc][..m] == threads[..m][t := pc];
      RanksUpdate(threads[..m], t, pc, queued, n);
    }
  }

  lemma {:induction false} RanksQueued(threads: seq<Pc>, n: nat)
    ensures Ranks(threads, false, n) <= Ranks(threads, true, n) <= Ranks(threads, false, n) + 4 * |threads|
    decreases |threads|
  {
    if threads != [] {
      RanksQueued(threads[..|threads| - 1], n);
    }
  }

  /** An event in which the send path moves on without a new call to Send. */
  predicate Effective(s: State, e: Event) {
    match e
    case Step(t) => t < |s.threads| && !s.threads[t].Idle?
    case Complete(t, i, _) => t < |s.threads| && s.threads[t].Idle? && i < |s.outstanding|
    case _ => false
  }

  lemma StepShape(s: State, t: nat)
    requires t < |s.threads| && !s.threads[t].Idle?
    ensures var s' := StepNext(s, t);
      && |s'.threads| == |s.threads| && s'.threads == s.threads[t := s'.threads[t]]
      && (s'.conn.sendQueue == [] || s.conn.sendQueue != [] || s.threads[t].Pushing?)
  {
    hide StepNext;
    StepMovesOne(s, t);
    StepQueues(s, t);
  }

  lemma StepQueues(s: State, t: nat)
    requires t < |s.threads|
    ensures StepNext(s, t).conn.sendQueue == [] || s.conn.sendQueue != [] || s.threads[t].Pushing?
  {
  }

  /** The weight of one thread, the queue and the outstanding writes. */
  function Weight(s: State, pc: Pc, queued: bool): nat {
    Rank(pc, queued, |s.threads|) + 6 * |s.conn.sendQueue| + 7 * |s.outstanding|
  }

  lemma StepRanks(s: State, t: nat)
    requires t < |s.threads| && !s.threads[t].Idle? && !s.threads[t].Pushing?
    ensures var s' := StepNext(s, t); var queued := s'.conn.sendQueue != [];
      |s'.threads| > t && Weight(s', s'.threads[t], queued) < Weight(s, s.threads[t], queued)
  {
    hide StepNext;
    StepMovesOne(s, t);
    if s.threads[t].Pop? || s.threads[t].Writing? {
      HandOverRanks(s, t);
    } else {
      QuietSteps(s, t);
      QuietRanks(s, t);
    }
  }

  lemma QuietRanks(s: State, t: nat)
    requires t < |s.threads| && !s.threads[t].Idle? && !s.threads[t].Pushing? && !s.threads[t].Pop?
      && !s.threads[t].Writing?
    ensures var s' := StepNext(s, t); var queued := s.conn.sendQueue != [];
      |s'.threads| == |s.threads| && Rank(s'.threads[t], queued, |s.threads|) < Rank(s.threads[t], queued, |s.threads|)
  {
    hide StepNext, Rank;
    if Sending(s.threads[t]) { QuietSendRanks(s, t); } else { QuietHandlerRanks(s, t); }
  }

  lemma QuietSendRanks(s: State, t: nat)
    requires t < |s.threads| && (s.threads[t].Finding? || s.threads[t].Checking? || s.threads[t].Begin?)
    ensures var s' := StepNext(s, t); var queued := s.conn.sendQueue != [];
      |s'.threads| == |s.threads| && Rank(s'.threads[t], queued, |s.threads|) < Rank(s.threads[t], queued, |s.threads|)
  {
  }

  lemma QuietHandlerRanks(s: State, t: nat)
    requires t < |s.threads| && !s.threads[t].Idle? && !Sending(s.threads[t])
    ensures var s' := StepNext(s, t); var queued := s.conn.sendQueue != [];
      |s'.threads| == |s.threads| && Rank(s'.threads[t], queued, |s.threads|) < Rank(s.threads[t], queued, |s.threads|)
  {
  }

  lemma HandOverRanks(s: State, t: nat)
    requires t < |s.threads| && (s.threads[t].Pop? || s.threads[t].Writing?)
    ensures var s' := StepNext(s, t); var queued := s'.conn.sendQueue != [];
      Weight(s', s'.threads[t], queued) < Weight(s, s.threads[t], queued)
  {
  }

  /** A push pays for the threads that it may send around again. */
  lemma PushRanks(s: State, t: nat)
    requires t < |s.threads| && s.threads[t].Pushing?
    ensures var s' := StepNext(s, t); var queued := s'.conn.sendQueue != [];
      Weight(s', s'.threads[t], queued) + 4 * |s.threads| < Weight(s, s.threads[t], queued)
  {
  }

  lemma StepDecreases(s: State, t: nat)
    requires t < |s.threads| && !s.threads[t].Idle?
    ensures Measure(StepNext(s, t)) < Measure(s)
  {
    var s' := StepNext(s, t);
    StepShape(s, t);
    if s.threads[t].Pushing? {
      PushRanks(s, t);
    } else {
      StepRanks(s, t);
    }
    RanksUpdate(s.threads, t, s'.threads[t], s'.conn.sendQueue != [], |s.threads|);
    RanksQueued(s.threads, |s.threads|);
    hide Ranks, Rank, StepNext;
  }

  lemma EffectiveDecreases(s: State, e: Event)
    requires Effective(s, e)
    ensures Measure(Next(s, e)) < Measure(s) && |Next(s, e).threads| == |s.threads|
  {
    if e.Step? { StepDecreases(s, e.t); } else { OutcomeDecreases(s, e); }
  }

  lemma OutcomeDecreases(s: State, e: Event)
    requires Effective(s, e) && !e.Step?
    ensures Measure(Next(s, e)) < Measure(s) && |Next(s, e).threads| == |s.threads|
  {
    hide Ranks;
    var s' := Next(s, e);
    RanksUpdate(s.threads, e.t, s'.threads[e.t], s.conn.sendQueue != [], |s.threads|);
  }

  predicate AllEffective(s: State, events: seq<Event>)
    decreases |events|
  {
    events == [] || (Effective(s, events[0]) && AllEffective(Next(s, events[0]), events[1..]))
  }

  lemma {:induction false} EffectiveRunsEnd(s: State, events: seq<Event>)
    requires AllEffective(s, events)
    ensures |events| + Measure(Exec(s, events)) <= Measure(s)
    decreases |events|
  {
    hide Measure, Next, Effective;
    if events != [] {
      EffectiveDecreases(s, events[0]);
      EffectiveRunsEnd(Next(s, events[0]), events[1..]);
    }
  }

  lemma RestMeans(r: State)
    requires Inv(r)
    ensures AtRest(r) ==> !r.conn.writing && r.accepted == r.started + r.conn.sendQueue
    ensures AtRest(r) && r.conn.sendQueue != [] ==> r.abandoned && r.failures > 0 && !r.conn.connected
    ensures AtRest(r) && r.failures == 0 ==> r.conn.sendQueue == [] && r.written == r.accepted
  {
  }

  /** Once no new Send arrives, threads and handlers together can take only boundedly many steps, and
      as long as the connection is not at rest one of them can: so it comes to rest, with nothing
      left unsent unless a write failed. */
  lemma ComesToRest(s: State, before: seq<Event>, events: seq<Event>)
    requires Init(s) && |s.threads| > 0 && AllEffective(Exec(s, before), events)
    ensures |events| <= Measure(Exec(s, before))
    ensures var r := Exec(Exec(s, before), events); AtRest(r) <==> forall e :: !Effective(r, e)
    ensures var r := Exec(Exec(s, before), events);
      AtRest(r) && r.failures == 0 ==> r.conn.sendQueue == [] && r.written == r.accepted
  {
    hide Exec, Measure, Init, Inv, AllEffective;
    EffectiveRunsEnd(Exec(s, before), events);
    InitInv(s);
    ExecKeepsInv(s, before);
    ExecKeepsInv(Exec(s, before), events);
    var r := Exec(Exec(s, before), events);
    RestMeans(r);
    if !AtRest(r) {
      if t :| 0 <= t < |r.threads| && !r.threads[t].Idle? {
        assert Effective(r, Step(t));
      } else {
        assert Effective(r, Complete(0, 0, true));
      }
    }
  }
}
