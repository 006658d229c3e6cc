/** The timer queue with lazy cancellation, driven by one thread.  A callback is the list of the
    calls it makes back into the queue; whatever the program's callbacks compute, every run in
    which each Tick returns makes such calls.  A call to Schedule says how much time passed on the
    clock before it.  The priority queue is the sequence of its tasks in popping order. */
module Timers {
  import opened Collections

  datatype Callback = Null | Script(ops: seq<Op>)

  datatype Op =
    | Schedule(elapsed: nat, delay: int, callback: Callback)
    | Cancel(id: nat)

  const INVALID_ID: nat := 0

  datatype TimerTask = TimerTask(id: nat, deadline: int, sequence: nat, callback: Callback)

  /** operator> of TimerTask. */
  predicate Greater(a: TimerTask, b: TimerTask) {
    if a.deadline != b.deadline then a.deadline > b.deadline else a.sequence > b.sequence
  }

  predicate Sorted(tasks: seq<TimerTask>) {
    forall i, j :: 0 <= i < j < |tasks| ==> Greater(tasks[j], tasks[i])
  }

  function Push(tasks: seq<TimerTask>, task: TimerTask): (r: seq<TimerTask>) {
    if tasks != [] && Greater(task, tasks[0]) then [tasks[0]] + Push(tasks[1..], task) else [task] + tasks
  }

  /** A callback invocation: the task and the `now` of the Tick that ran it. */
  datatype Firing = Firing(task: TimerTask, now: int)

  /** The last four are history: the tasks created, the callbacks run and the cancelled tasks dropped,
      in order, and for each task created how many callbacks had been run before. */
  datatype State = State(
    tasks: seq<TimerTask>,
    cancelled: set<nat>,
    nextId: nat,
    nextSequence: nat,
    clock: int,
    issued: seq<TimerTask>,
    fired: seq<Firing>,
    discarded: seq<TimerTask>,
    issuedAfter: seq<nat>)

  // ---- what each call does ----

  function DoSchedule(s: State, elapsed: nat, delay: int, callback: Callback): State {
    if callback.Null? then s
    else
      var now := s.clock + elapsed;
      var task := TimerTask(s.nextId, now + delay, s.nextSequence, callback);
      s.(tasks := Push(s.tasks, task), nextId := s.nextId + 1, nextSequence := s.nextSequence + 1,
         clock := now, issued := s.issued + [task], issuedAfter := s.issuedAfter + [|s.fired|])
  }

  function Do(s: State, op: Op): State {
    match op
    case Schedule(elapsed, delay, callback) => DoSchedule(s, elapsed, delay, callback)
    case Cancel(id) => s.(cancelled := s.cancelled + {id})
  }

  function DoAll(s: State, ops: seq<Op>): State
    decreases |ops|
  {
    if ops == [] then s else DoAll(Do(s, ops[0]), ops[1..])
  }

  predicate Expired(s: State, now: int) {
    s.tasks != [] && s.tasks[0].deadline <= now
  }

  /** One round of the dispatch loop: pop the first task and drop it or run it. */
  function Round(s: State, now: int): State
    requires Expired(s, now)
  {
    var task := s.tasks[0];
    var s' := s.(tasks := s.tasks[1..]);
    if task.id in s.cancelled then s'.(cancelled := s.cancelled - {task.id}, discarded := s.discarded + [task])
    else
      var s'' := s'.(fired := s.fired + [Firing(task, now)]);
      if task.callback.Null? then s'' else DoAll(s'', task.callback.ops)
  }

  function Dispatch(s: State, now: int): (r: State)
    ensures !Expired(r, now)
    decreases Weight(s.tasks)
  {
    if Expired(s, now) then RoundDecreases(s, now); Dispatch(Round(s, now), now) else s
  }

  // ---- dispatching ends ----

  function CallbackWeight(callback: Callback): nat
    decreases callback
  {
    match callback
    case Null => 0
    case Script(ops) => OpsWeight(ops)
  }

  function OpsWeight(ops: seq<Op>): nat
    decreases ops
  {
    if ops == [] then 0 else OpWeight(ops[0]) + OpsWeight(ops[1..])
  }

  function OpWeight(op: Op): nat
    decreases op
  {
    match op
    case Schedule(_, _, callback) => 1 + CallbackWeight(callback)
    case Cancel(_) => 0
  }

  function Weight(tasks: seq<TimerTask>): nat {
    if tasks == [] then 0 else 1 + CallbackWeight(tasks[0].callback) + Weight(tasks[1..])
  }

  lemma {:induction false} PushWeight(tasks: seq<TimerTask>, task: TimerTask)
    ensures Weight(Push(tasks, task)) == Weight(tasks) + 1 + CallbackWeight(task.callback)
    decreases |tasks|
  {
    if tasks != [] && Greater(task, tasks[0]) {
      PushWeight(tasks[1..], task);
      assert Push(tasks, task)[1..] == Push(tasks[1..], task);
    } else {
      assert Push(tasks, task)[1..] == tasks;
    }
  }

  lemma {:induction false} DoAllWeight(s: State, ops: seq<Op>)
    ensures Weight(DoAll(s, ops).tasks) <= Weight(s.tasks) + OpsWeight(ops)
    decreases |ops|
  {
    if ops != [] {
      match ops[0] {
        case Schedule(elapsed, delay, callback) =>
          PushWeight(s.tasks, TimerTask(s.nextId, s.clock + elapsed + delay, s.nextSequence, callback));
        case Cancel(_) =>
      }
      DoAllWeight(Do(s, ops[0]), ops[1..]);
    }
  }

  lemma RoundDecreases(s: State, now: int)
    requires Expired(s, now)
    ensures Weight(Round(s, now).tasks) < Weight(s.tasks)
  {
    var task := s.tasks[0];
    if task.id !in s.cancelled && task.callback.Script? {
      DoAllWeight(s.(tasks := s.tasks[1..], fired := s.fired + [Firing(task, now)]), task.callback.ops);
    }
  }

  // ---- what every run keeps ----

  /** A call from outside; a Tick says how much time passed on the clock before it. */
  datatype Call = Op(op: Op) | Tick(elapsed: nat, now: int)

  function Make(s: State, call: Call): State {
    match call
    case Op(op) => Do(s, op)
    case Tick(elapsed, now) => Dispatch(s.(clock := s.clock + elapsed), now)
  }

  function MakeAll(s: State, calls: seq<Call>): State
    decreases |calls|
  {
    if calls == [] then s else MakeAll(Make(s, calls[0]), calls[1..])
  }

  function Start(clock: int): State {
    State([], {}, 1, 0, clock, [], [], [], [])
  }

  function TasksOf(fired: seq<Firing>): (tasks: seq<TimerTask>)
    ensures |tasks| == |fired|
  {
    seq(|fired|, i requires 0 <= i < |fired| => fired[i].task)
  }

  /** Every task created is pending, run or dropped, once; none has run before its deadline. */
  ghost predicate Inv(s: State) {
    && Sorted(s.tasks)
    && s.nextId == s.nextSequence + 1 && |s.issued| == s.nextSequence
    && (forall i :: 0 <= i < |s.issued| ==> s.issued[i].id == i + 1 && s.issued[i].sequence == i)
    && multiset(s.tasks) + multiset(TasksOf(s.fired)) + multiset(s.discarded) == multiset(s.issued)
    && (forall i :: 0 <= i < |s.fired| ==> s.fired[i].task.deadline <= s.fired[i].now)
  }

  lemma {:induction false} PushKeepsSorted(tasks: seq<TimerTask>, task: TimerTask)
    requires Sorted(tasks) && forall i :: 0 <= i < |tasks| ==> tasks[i].sequence != task.sequence
    ensures Sorted(Push(tasks, task)) && multiset(Push(tasks, task)) == multiset(tasks) + multiset{task}
    ensures forall x :: x in Push(tasks, task) <==> x in tasks || x == task
    decreases |tasks|
  {
    if tasks != [] {
      assert tasks == [tasks[0]] + tasks[1..];
      if Greater(task, tasks[0]) {
        PushKeepsSorted(tasks[1..], task);
        var pushed := Push(tasks[1..], task);
        assert Push(tasks, task) == [tasks[0]] + pushed;
        hide Push;
        forall i | 0 <= i < |pushed| ensures Greater(pushed[i], tasks[0]) {
          assert pushed[i] in tasks[1..] || pushed[i] == task;
        }
      }
    }
  }

  /** A pending task is the one issued under its id. */
  lemma PendingIsIssued(s: State, task: TimerTask)
    requires Inv(s) && task in s.tasks
    ensures 0 < task.id <= |s.issued| && task == s.issued[task.id - 1]
  {
    assert task in multiset(s.issued);
    var i :| 0 <= i < |s.issued| && s.issued[i] == task;
  }

  /** The task that a call of Schedule creates. */
  function Created(s: State, op: Op): TimerTask
    requires op.Schedule?
  {
    TimerTask(s.nextId, s.clock + op.elapsed + op.delay, s.nextSequence, op.callback)
  }

  lemma CreatedIsNew(s: State, op: Op)
    requires Inv(s) && op.Schedule?
    ensures var task := Created(s, op); var pushed := Push(s.tasks, task);
      && Sorted(pushed) && multiset(pushed) == multiset(s.tasks) + multiset{task}
      && (forall x :: x in pushed <==> x in s.tasks || x == task)
  {
    var task := Created(s, op);
    forall i | 0 <= i < |s.tasks| ensures s.tasks[i].sequence != task.sequence {
      PendingIsIssued(s, s.tasks[i]);
    }
    PushKeepsSorted(s.tasks, task);
  }

  lemma IssueOne(issued: seq<TimerTask>, task: TimerTask)
    requires forall i :: 0 <= i < |issued| ==> issued[i].id == i + 1 && issued[i].sequence == i
    requires task.id == |issued| + 1 && task.sequence == |issued|
    ensures forall i :: 0 <= i < |issued + [task]| ==>
      (issued + [task])[i].id == i + 1 && (issued + [task])[i].sequence == i
    ensures multiset(issued + [task]) == multiset(issued) + multiset{task}
  {
  }

  lemma DoKeepsInv(s: State, op: Op)
    requires Inv(s)
    ensures Inv(Do(s, op))
  {
    if op.Schedule? && op.callback.Script? {
      CreatedIsNew(s, op);
      IssueOne(s.issued, Created(s, op));
      hide Push, Sorted;
    }
  }

  /** A timer scheduled gets an id never given out before, and is pending beside all the others with
      the deadline `delay` from now. */
  lemma ScheduleAdds(s: State, elapsed: nat, delay: int, callback: Callback)
    requires Inv(s) && callback.Script?
    ensures s.nextId > 0 && forall i :: 0 <= i < |s.issued| ==> s.issued[i].id != s.nextId
    ensures var r := DoSchedule(s, elapsed, delay, callback);
      multiset(r.tasks) == multiset(s.tasks) + multiset{TimerTask(s.nextId, r.clock + delay, s.nextSequence, callback)}
  {
    hide Push, Inv, Sorted;
    CreatedIsNew(s, Schedule(elapsed, delay, callback));
    IdsAreNew(s);
  }

  lemma IdsAreNew(s: State)
    requires Inv(s)
    ensures s.nextId > 0 && forall i :: 0 <= i < |s.issued| ==> s.issued[i].id != s.nextId
  {
    hide Sorted;
  }

  lemma {:induction false} DoAllKeepsInv(s: State, ops: seq<Op>)
    requires Inv(s)
    ensures Inv(DoAll(s, ops))
    decreases |ops|
  {
    hide Inv;
    if ops != [] {
      DoKeepsInv(s, ops[0]);
      DoAllKeepsInv(Do(s, ops[0]), ops[1..]);
    }
  }

  /** The state in which the callback of the first task runs. */
  function Popped(s: State, now: int): State
    requires s.tasks != []
  {
    s.(tasks := s.tasks[1..], fired := s.fired + [Firing(s.tasks[0], now)])
  }

  lemma PopKeepsInv(s: State, now: int)
    requires Inv(s) && Expired(s, now)
    ensures Inv(Popped(s, now))
    ensures Inv(s.(tasks := s.tasks[1..], discarded := s.discarded + [s.tasks[0]]))
  {
    assert s.tasks == [s.tasks[0]] + s.tasks[1..];
    assert TasksOf(s.fired + [Firing(s.tasks[0], now)]) == TasksOf(s.fired) + [s.tasks[0]];
  }

  lemma RoundKeepsInv(s: State, now: int)
    requires Inv(s) && Expired(s, now)
    ensures Inv(Round(s, now))
  {
    PopKeepsInv(s, now);
    var task := s.tasks[0];
    if task.id !in s.cancelled && task.callback.Script? {
      DoAllKeepsInv(Popped(s, now), task.callback.ops);
    }
  }

  lemma {:induction false} DispatchKeepsInv(s: State, now: int)
    requires Inv(s)
    ensures Inv(Dispatch(s, now))
    decreases Weight(s.tasks)
  {
    hide Inv, Round, Weight;
    if Expired(s, now) {
      RoundKeepsInv(s, now);
      RoundDecreases(s, now);
      DispatchKeepsInv(Round(s, now), now);
    }
  }

  lemma {:induction false} MakeAllKeepsInv(s: State, calls: seq<Call>)
    requires Inv(s)
    ensures Inv(MakeAll(s, calls))
    decreases |calls|
  {
    hide Dispatch, Do;
    if calls != [] {
      match calls[0] {
        case Op(op) => DoKeepsInv(s, op);
        case Tick(elapsed, now) => DispatchKeepsInv(s.(clock := s.clock + elapsed), now);
      }
      hide Inv;
      MakeAllKeepsInv(Make(s, calls[0]), calls[1..]);
    }
  }

  lemma DistinctCounts(issued: seq<TimerTask>, task: TimerTask)
    requires forall i :: 0 <= i < |issued| ==> issued[i].id == i + 1
    ensures multiset(issued)[task] <= 1
    decreases |issued|
  {
    if issued != [] {
      assert issued == issued[..|issued| - 1] + [issued[|issued| - 1]];
      DistinctCounts(issued[..|issued| - 1], task);
    }
  }

  /** Over every run whatever: each timer created is, once, either pending, fired or dropped; so
      none fires twice, and none fires before its deadline. */
  lemma FiresAtMostOnceAndNeverEarly(clock: int, calls: seq<Call>, id: nat)
    requires 0 < id < MakeAll(Start(clock), calls).nextId
    ensures var s := MakeAll(Start(clock), calls);
      id <= |s.issued| &&
      var task := s.issued[id - 1];
      && task.id == id
      && multiset(s.tasks)[task] + multiset(TasksOf(s.fired))[task] + multiset(s.discarded)[task] == 1
      && (forall i :: 0 <= i < |s.fired| ==> s.fired[i].task.deadline <= s.fired[i].now)
  {
    MakeAllKeepsInv(Start(clock), calls);
    var s := MakeAll(Start(clock), calls);
    hide MakeAll;
    DistinctCounts(s.issued, s.issued[id - 1]);
    assert s.issued[id - 1] in multiset(s.issued);
  }

  lemma NothingExpiredNothingDue(s: State, now: int)
    requires Sorted(s.tasks) && !Expired(s, now)
    ensures forall t :: t in s.tasks ==> t.deadline > now
  {
    forall i | 0 <= i < |s.tasks| ensures s.tasks[i].deadline > now {
      assert i > 0 ==> Greater(s.tasks[i], s.tasks[0]);
    }
  }

  lemma IssuedIsSomewhere(s: State, task: TimerTask)
    requires Inv(s) && task in s.issued
    ensures task in s.tasks || task in TasksOf(s.fired) || task in s.discarded
  {
    assert task in multiset(s.issued);
  }

  /** A task that is pending has not been run or dropped. */
  lemma PendingOnce(s: State, task: TimerTask)
    requires Inv(s) && task in s.tasks
    ensures task !in TasksOf(s.fired) && task !in s.discarded
  {
    DistinctCounts(s.issued, task);
    assert task in multiset(s.tasks);
    assert task in TasksOf(s.fired) ==> task in multiset(TasksOf(s.fired));
    assert task in s.discarded ==> task in multiset(s.discarded);
  }

  /** The task's callback was run, or the task dropped, between the two states. */
  ghost predicate FiredSince(s: State, r: State, task: TimerTask) {
    exists i :: |s.fired| <= i < |r.fired| && r.fired[i].task == task
  }

  ghost predicate DroppedSince(s: State, r: State, task: TimerTask) {
    exists i :: |s.discarded| <= i < |r.discarded| && r.discarded[i] == task
  }

  lemma GoneSince(s: State, r: State, task: TimerTask)
    requires Inv(s) && Inv(r) && IsPrefix(s.issued, r.issued) && IsPrefix(s.fired, r.fired)
    requires IsPrefix(s.discarded, r.discarded) && task in s.tasks && task !in r.tasks
    ensures FiredSince(s, r, task) || DroppedSince(s, r, task)
  {
    PendingIsIssued(s, task);
    PendingOnce(s, task);
    assert task == r.issued[task.id - 1];
    IssuedIsSomewhere(r, task);
    hide Inv;
    if task in TasksOf(r.fired) {
      var i :| 0 <= i < |r.fired| && TasksOf(r.fired)[i] == task;
      forall j | 0 <= j < |s.fired| ensures s.fired[j].task != task {
        assert TasksOf(s.fired)[j] in TasksOf(s.fired);
      }
      assert r.fired[i].task == task;
    } else {
      var i :| 0 <= i < |r.discarded| && r.discarded[i] == task;
    }
  }

  // ---- what callbacks do ----

  /** The calls that create a timer: those of Schedule with a callback. */
  function Creating(ops: seq<Op>): (calls: seq<Op>)
    ensures forall k :: 0 <= k < |calls| ==> calls[k].Schedule?
  {
    if ops == [] then []
    else (if ops[0].Schedule? && ops[0].callback.Script? then [ops[0]] else []) + Creating(ops[1..])
  }

  /** The ids that are cancelled. */
  function Marks(ops: seq<Op>): set<nat> {
    set i | 0 <= i < |ops| && ops[i].Cancel? :: ops[i].id
  }

  /** The time that passes up to the last of the calls. */
  function Elapsed(calls: seq<Op>): nat {
    if calls == [] then 0
    else Elapsed(calls[..|calls| - 1]) + (if calls[|calls| - 1].Schedule? then calls[|calls| - 1].elapsed else 0)
  }

  /** From `s` to `r` exactly the timers of `calls` were created, one for each and in their order, with the next
      ids and sequence numbers, each due its delay after the time of its call. */
  ghost predicate Creates(s: State, r: State, calls: seq<Op>) {
    && |r.issued| == |s.issued| + |calls| && r.issued[..|s.issued|] == s.issued
    && r.nextId == s.nextId + |calls| && r.nextSequence == s.nextSequence + |calls|
    && r.clock == s.clock + Elapsed(calls)
    && forall k {:trigger calls[k]} :: 0 <= k < |calls| ==>
         calls[k].Schedule? && r.issued[|s.issued| + k] == TimerTask(s.nextId + k,
           s.clock + Elapsed(calls[..k + 1]) + calls[k].delay, s.nextSequence + k, calls[k].callback)
  }

  lemma {:induction false} ElapsedAppend(a: seq<Op>, b: seq<Op>)
    ensures Elapsed(a + b) == Elapsed(a) + Elapsed(b)
    decreases |b|
  {
    if b == [] {
      assert a + b == a;
    } else {
      var n := |b| - 1;
      assert (a + b)[..|a| + n] == a + b[..n];
      ElapsedAppend(a, b[..n]);
    }
  }

  lemma CreatesMore(s: State, m: State, r: State, a: seq<Op>, b: seq<Op>)
    requires Creates(s, m, a) && Creates(m, r, b)
    ensures Creates(s, r, a + b)
  {
    hide Elapsed;
    var n := |s.issued|;
    assert r.issued[..n] == r.issued[..|m.issued|][..n] == s.issued;
    ElapsedAppend(a, b);
    forall k | 0 <= k < |a + b|
      ensures (a + b)[k].Schedule? && r.issued[n + k] == TimerTask(s.nextId + k,
        s.clock + Elapsed((a + b)[..k + 1]) + (a + b)[k].delay, s.nextSequence + k, (a + b)[k].callback)
    {
      if k < |a| {
        assert (a + b)[k] == a[k] && (a + b)[..k + 1] == a[..k + 1];
        assert r.issued[n + k] == r.issued[..|m.issued|][n + k] == m.issued[n + k];
      } else {
        var j := k - |a|;
        assert (a + b)[k] == b[j] && (a + b)[..k + 1] == a + b[..j + 1];
        ElapsedAppend(a, b[..j + 1]);
        assert r.issued[n + k] == r.issued[|m.issued| + j];
      }
    }
  }

  lemma DoCreates(s: State, op: Op)
    ensures var r := Do(s, op);
      Creates(s, r, Creating([op])) && r.fired == s.fired && r.discarded == s.discarded &&
      r.cancelled == s.cancelled + Marks([op])
  {
    var calls := Creating([op]);
    assert [op][1..] == [] && Creating([]) == [];
    if op.Schedule? && op.callback.Script? {
      assert calls == [op] && calls[..0] == [] && calls[..1] == calls;
      assert Elapsed(calls) == op.elapsed;
    } else {
      assert calls == [];
    }
    if op.Cancel? { assert [op][0].Cancel?; }
  }

  lemma OneCallFirst(ops: seq<Op>)
    requires ops != []
    ensures Creating(ops) == Creating([ops[0]]) + Creating(ops[1..])
    ensures Marks(ops) == Marks([ops[0]]) + Marks(ops[1..])
  {
    assert [ops[0]][1..] == [];
    hide Creating;
    forall id | id in Marks(ops) ensures id in Marks([ops[0]]) + Marks(ops[1..]) {
      var i :| 0 <= i < |ops| && ops[i].Cancel? && ops[i].id == id;
      assert if i == 0 then [ops[0]][0] == ops[i] else ops[1..][i - 1] == ops[i];
    }
    forall id | id in Marks(ops[1..]) ensures id in Marks(ops) {
      var i :| 0 <= i < |ops[1..]| && ops[1..][i].Cancel? && ops[1..][i].id == id;
      assert ops[i + 1] == ops[1..][i];
    }
    forall id | id in Marks([ops[0]]) ensures id in Marks(ops) {
      assert ops[0].Cancel?;
    }
  }

  /** A callback makes all its calls, in order: exactly the timers of its calls of Schedule are created, exactly
      the ids of its calls of Cancel are marked, and nothing is run or dropped. */
  lemma {:induction false} CallsTakeEffect(s: State, ops: seq<Op>)
    ensures var r := DoAll(s, ops);
      Creates(s, r, Creating(ops)) && r.fired == s.fired && r.discarded == s.discarded &&
      r.cancelled == s.cancelled + Marks(ops)
    decreases |ops|
  {
    if ops == [] {
      assert Creating(ops) == [];
    } else {
      var m := Do(s, ops[0]);
      hide Do, Creating, Creates, Marks;
      DoCreates(s, ops[0]);
      CallsTakeEffect(m, ops[1..]);
      OneCallFirst(ops);
      CreatesMore(s, m, DoAll(s, ops), Creating([ops[0]]), Creating(ops[1..]));
    }
  }

  /** One call is that call's change, and the calls of a callback are made one after the other. */
  lemma {:induction false} CallsInOrder(s: State, first: seq<Op>, second: seq<Op>)
    ensures DoAll(s, first + second) == DoAll(DoAll(s, first), second)
    ensures |first| == 1 ==> DoAll(s, first) == Do(s, first[0])
    decreases |first|
  {
    hide Do;
    if first == [] {
      assert first + second == second;
    } else {
      assert (first + second)[1..] == first[1..] + second;
      CallsInOrder(Do(s, first[0]), first[1..], second);
    }
  }

  /** The calls made by the callbacks of these firings, in order. */
  function CallsOf(fired: seq<Firing>): seq<Op> {
    if fired == [] then []
    else
      (match fired[0].task.callback case Null => [] case Script(ops) => ops) + CallsOf(fired[1..])
  }

  lemma {:induction false} CallsOfAppend(a: seq<Firing>, b: seq<Firing>)
    ensures CallsOf(a + b) == CallsOf(a) + CallsOf(b)
    decreases |a|
  {
    if a == [] {
      assert a + b == b;
    } else {
      assert (a + b)[1..] == a[1..] + b;
      CallsOfAppend(a[1..], b);
    }
  }

  lemma {:induction false} CallsAppend(a: seq<Op>, b: seq<Op>)
    ensures Creating(a + b) == Creating(a) + Creating(b)
    ensures Marks(a + b) == Marks(a) + Marks(b)
    decreases |a|
  {
    hide Creating, Marks;
    if a == [] {
      assert a + b == b;
      assert Creating(a) == [] by { NoCalls(); }
      assert Marks(a) == {} by { NoCalls(); }
    } else {
      assert (a + b)[1..] == a[1..] + b && (a + b)[0] == a[0];
      OneCallFirst(a);
      OneCallFirst(a + b);
      CallsAppend(a[1..], b);
    }
  }

  lemma NoCalls()
    ensures Creating([]) == [] && Marks([]) == {}
  {
  }

  /** What was dropped from `s` to `r`, and what is still marked, was marked before or by `ops`. */
  ghost predicate DropsMarked(s: State, r: State, ops: seq<Op>) {
    && r.cancelled <= s.cancelled + Marks(ops)
    && |s.discarded| <= |r.discarded| && r.discarded[..|s.discarded|] == s.discarded
    && forall i :: |s.discarded| <= i < |r.discarded| ==> r.discarded[i].id in s.cancelled + Marks(ops)
  }

  lemma DropsMore(s: State, m: State, r: State, a: seq<Op>, b: seq<Op>)
    requires DropsMarked(s, m, a) && DropsMarked(m, r, b)
    ensures DropsMarked(s, r, a + b)
  {
    CallsAppend(a, b);
    hide Marks, Creating;
    assert r.discarded[..|s.discarded|] == r.discarded[..|m.discarded|][..|s.discarded|] == s.discarded;
    forall i | |s.discarded| <= i < |r.discarded| ensures r.discarded[i].id in s.cancelled + Marks(a + b) {
      if i < |m.discarded| {
        assert r.discarded[i] == r.discarded[..|m.discarded|][i] == m.discarded[i];
      }
    }
  }

  /** From `s` to `r` exactly the calls `ops` took effect, and nothing else was created, marked or dropped. */
  ghost predicate TookEffect(s: State, r: State, ops: seq<Op>) {
    Creates(s, r, Creating(ops)) && DropsMarked(s, r, ops)
  }

  lemma TookMore(s: State, m: State, r: State, a: seq<Op>, b: seq<Op>)
    requires TookEffect(s, m, a) && TookEffect(m, r, b)
    ensures TookEffect(s, r, a + b)
  {
    hide Creating, Creates, Marks, DropsMarked;
    CallsAppend(a, b);
    CreatesMore(s, m, r, Creating(a), Creating(b));
    DropsMore(s, m, r, a, b);
  }

  lemma RoundTakesEffect(s: State, now: int)
    requires Expired(s, now)
    ensures var r := Round(s, now);
      && |s.fired| <= |r.fired| <= |s.fired| + 1 && r.fired[..|s.fired|] == s.fired
      && (|r.fired| > |s.fired| ==> r.fired[|s.fired|] == Firing(s.tasks[0], now))
      && TookEffect(s, r, CallsOf(r.fired[|s.fired|..]))
  {
    var task, r := s.tasks[0], Round(s, now);
    NoCalls();
    hide Creating, Marks;
    if task.id in s.cancelled {
      assert r.fired[|s.fired|..] == [];
    } else {
      var firing := Firing(task, now);
      if task.callback.Script? {
        CallsTakeEffect(Popped(s, now), task.callback.ops);
      }
      assert r.fired == s.fired + [firing];
      assert r.fired[|s.fired|..] == [firing] && [firing][1..] == [];
      var ops := match task.callback case Null => [] case Script(ops) => ops;
      assert CallsOf([firing]) == ops + [] == ops;
    }
  }

  /** Over a whole Tick, callbacks of timers are run that are due at its time, exactly the calls they make take
      effect, in order, and no timer is dropped whose own id was not cancelled. */
  lemma {:induction false} DispatchTakesEffect(s: State, now: int)
    ensures var r := Dispatch(s, now);
      && |s.fired| <= |r.fired| && r.fired[..|s.fired|] == s.fired
      && (forall i :: |s.fired| <= i < |r.fired| ==> r.fired[i].task.deadline <= now && r.fired[i].now == now)
      && TookEffect(s, r, CallsOf(r.fired[|s.fired|..]))
    decreases Weight(s.tasks)
  {
    hide Round, Weight, TookEffect;
    var r := Dispatch(s, now);
    if Expired(s, now) {
      RoundDecreases(s, now);
      RoundTakesEffect(s, now);
      var m := Round(s, now);
      DispatchTakesEffect(m, now);
      var a, b := m.fired[|s.fired|..], r.fired[|m.fired|..];
      assert r.fired[..|s.fired|] == r.fired[..|m.fired|][..|s.fired|] == s.fired;
      assert r.fired[|s.fired|..] == a + b;
      assert r.fired == m.fired + b;
      CallsOfAppend(a, b);
      TookMore(s, m, r, CallsOf(a), CallsOf(b));
    } else {
      NothingTakesEffect(s, now);
    }
  }

  lemma NothingTakesEffect(s: State, now: int)
    requires !Expired(s, now)
    ensures var r := Dispatch(s, now); r.fired == s.fired && TookEffect(s, r, CallsOf(r.fired[|s.fired|..]))
  {
    NoCalls();
    assert s.fired[|s.fired|..] == [];
  }

  /** After Tick(now) nothing that remains is due, and every task that was due has been run in it, or dropped
      because its own id had been cancelled, before or by a callback run in it. */
  lemma TickLeavesNothingDue(s: State, elapsed: nat, now: int)
    requires Inv(s)
    ensures var r := Make(s, Tick(elapsed, now));
      |s.fired| <= |r.fired| && forall t :: t in r.tasks ==> t.deadline > now
    ensures var r := Make(s, Tick(elapsed, now)); var marked := s.cancelled + Marks(CallsOf(r.fired[|s.fired|..]));
      forall t :: t in s.tasks && t.deadline <= now ==> FiredSince(s, r, t) || (DroppedSince(s, r, t) && t.id in marked)
  {
    hide Inv, Dispatch, Expired, TookEffect, FiredSince, DroppedSince, Marks, CallsOf;
    var s' := s.(clock := s.clock + elapsed);
    ClockKeepsInv(s, elapsed);
    DispatchKeepsInv(s', now);
    DispatchTakesEffect(s', now);
    DispatchEnds(s', now);
    var r := Dispatch(s', now);
    AllGone(s', r, now, CallsOf(r.fired[|s.fired|..]));
    SinceSame(s, s', r);
  }

  lemma ClockKeepsInv(s: State, elapsed: nat)
    requires Inv(s)
    ensures Inv(s.(clock := s.clock + elapsed))
  {
  }

  lemma SinceSame(s: State, s': State, r: State)
    requires s'.fired == s.fired && s'.discarded == s.discarded
    ensures forall t :: FiredSince(s', r, t) <==> FiredSince(s, r, t)
    ensures forall t :: DroppedSince(s', r, t) <==> DroppedSince(s, r, t)
  {
  }

  lemma DispatchEnds(s: State, now: int)
    ensures !Expired(Dispatch(s, now), now)
  {
  }

  lemma AllGone(s: State, r: State, now: int, ops: seq<Op>)
    requires Inv(s) && Inv(r) && !Expired(r, now) && TookEffect(s, r, ops)
    requires |s.fired| <= |r.fired| && r.fired[..|s.fired|] == s.fired
    ensures forall t :: t in r.tasks ==> t.deadline > now
    ensures forall t :: t in s.tasks && t.deadline <= now ==>
      FiredSince(s, r, t) || (DroppedSince(s, r, t) && t.id in s.cancelled + Marks(ops))
  {
    NothingExpiredNothingDue(r, now) by { assert Sorted(r.tasks); }
    hide Inv, Marks, Creating, Sorted;
    forall t | t in s.tasks && t.deadline <= now
      ensures FiredSince(s, r, t) || (DroppedSince(s, r, t) && t.id in s.cancelled + Marks(ops))
    {
      GoneSince(s, r, t);
    }
  }

  /** The calls made from outside, in order. */
  function FromOutside(calls: seq<Call>): seq<Op> {
    if calls == [] then []
    else FromOutside(calls[..|calls| - 1]) + (match calls[|calls| - 1] case Op(op) => [op] case Tick(_, _) => [])
  }

  /** The books of a whole run. */
  ghost predicate Accounted(s: State, ops: seq<Op>) {
    && |s.issued| == |Creating(ops)| + |Creating(CallsOf(s.fired))|
    && s.cancelled <= Marks(ops) + Marks(CallsOf(s.fired))
    && forall i :: 0 <= i < |s.discarded| ==> s.discarded[i].id in Marks(ops) + Marks(CallsOf(s.fired))
  }

  lemma OpAccounted(s: State, ops: seq<Op>, op: Op)
    requires Accounted(s, ops)
    ensures Accounted(Do(s, op), ops + [op])
  {
    DoCreates(s, op);
    CallsAppend(ops, [op]);
    hide Marks, Creating, Do;
  }

  lemma DispatchAccounted(s: State, now: int, ops: seq<Op>)
    requires Accounted(s, ops)
    ensures Accounted(Dispatch(s, now), ops)
  {
    DispatchTakesEffect(s, now);
    var r := Dispatch(s, now);
    hide Dispatch, Marks, Creating, CallsOf;
    assert r.fired == s.fired + r.fired[|s.fired|..];
    CallsOfAppend(s.fired, r.fired[|s.fired|..]);
    CallsAppend(CallsOf(s.fired), CallsOf(r.fired[|s.fired|..]));
    forall i | 0 <= i < |r.discarded| ensures r.discarded[i].id in Marks(ops) + Marks(CallsOf(r.fired)) {
      if i < |s.discarded| {
        assert r.discarded[i] == r.discarded[..|s.discarded|][i] == s.discarded[i];
      }
    }
  }

  /** Over every run: as many timers are created as calls of Schedule with a callback are made, from outside and by
      the callbacks run; and no timer is dropped whose own id is not cancelled by such a call. */
  lemma EveryCallCounts(clock: int, calls: seq<Call>)
    ensures var s := MakeAll(Start(clock), calls);
      && |s.issued| == |Creating(FromOutside(calls))| + |Creating(CallsOf(s.fired))|
      && forall i :: 0 <= i < |s.discarded| ==>
           s.discarded[i].id in Marks(FromOutside(calls)) + Marks(CallsOf(s.fired))
  {
    AllAccounted(clock, calls);
  }

  lemma {:induction false} AllAccounted(clock: int, calls: seq<Call>)
    ensures Accounted(MakeAll(Start(clock), calls), FromOutside(calls))
    decreases |calls|
  {
    if calls == [] {
      NoCalls();
      assert CallsOf([]) == [];
    } else {
      hide Accounted, Make;
      var n := |calls| - 1;
      var s := MakeAll(Start(clock), calls[..n]);
      AllAccounted(clock, calls[..n]);
      assert calls == calls[..n] + [calls[n]];
      MakeAllAppend(calls[..n], [calls[n]], Start(clock));
      assert [calls[n]][1..] == [];
      CallAccounted(s, FromOutside(calls[..n]), calls[n]);
    }
  }

  lemma CallAccounted(s: State, ops: seq<Op>, call: Call)
    requires Accounted(s, ops)
    ensures Accounted(Make(s, call), ops + match call case Op(op) => [op] case Tick(_, _) => [])
  {
    match call
    case Op(op) =>
      OpAccounted(s, ops, op);
    case Tick(elapsed, now) =>
      assert ops + [] == ops;
      ClockAccounted(s, elapsed, ops);
      DispatchAccounted(s.(clock := s.clock + elapsed), now, ops);
  }

  lemma ClockAccounted(s: State, elapsed: nat, ops: seq<Op>)
    requires Accounted(s, ops)
    ensures Accounted(s.(clock := s.clock + elapsed), ops)
  {
  }

  // ---- cancellation ----

  ghost predicate HasFired(s: State, id: nat) {
    exists i :: 0 <= i < |s.fired| && s.fired[i].task.id == id
  }

  /** The timer has not fired and cannot: it is marked, or it is no longer pending. */
  ghost predicate Doomed(s: State, id: nat) {
    && !HasFired(s, id)
    && (id in s.cancelled || (0 < id < s.nextId && forall i :: 0 <= i < |s.tasks| ==> s.tasks[i].id != id))
  }

  lemma DoKeepsDoomed(s: State, op: Op, id: nat)
    requires Inv(s) && Doomed(s, id)
    ensures Doomed(Do(s, op), id)
  {
    if op.Schedule? && op.callback.Script? {
      var task := Created(s, op);
      CreatedIsNew(s, op);
      var r := Do(s, op);
      forall i | 0 <= i < |r.tasks| && id !in r.cancelled ensures r.tasks[i].id != id {
        assert r.tasks[i] in s.tasks || r.tasks[i] == task;
      }
    }
  }

  lemma {:induction false} DoAllKeepsDoomed(s: State, ops: seq<Op>, id: nat)
    requires Inv(s) && Doomed(s, id)
    ensures Doomed(DoAll(s, ops), id)
    decreases |ops|
  {
    hide Inv, Doomed;
    if ops != [] {
      DoKeepsInv(s, ops[0]);
      DoKeepsDoomed(s, ops[0], id);
      DoAllKeepsDoomed(Do(s, ops[0]), ops[1..], id);
    }
  }

  lemma RoundKeepsDoomed(s: State, now: int, id: nat)
    requires Inv(s) && Doomed(s, id) && Expired(s, now)
    ensures Doomed(Round(s, now), id)
  {
    var task := s.tasks[0];
    if task.id in s.cancelled {
      PendingIsIssued(s, task);
      forall i | 0 < i < |s.tasks| ensures s.tasks[i].id != task.id {
        PendingIsIssued(s, s.tasks[i]);
        assert Greater(s.tasks[i], s.tasks[0]);
      }
    } else {
      var s' := Popped(s, now);
      PopKeepsInv(s, now);
      assert Doomed(s', id);
      if task.callback.Script? {
        DoAllKeepsDoomed(s', task.callback.ops, id);
      }
    }
  }

  lemma {:induction false} DispatchKeepsDoomed(s: State, now: int, id: nat)
    requires Inv(s) && Doomed(s, id)
    ensures Doomed(Dispatch(s, now), id)
    decreases Weight(s.tasks)
  {
    hide Inv, Doomed, Round, Weight;
    if Expired(s, now) {
      RoundKeepsInv(s, now);
      RoundKeepsDoomed(s, now, id);
      RoundDecreases(s, now);
      DispatchKeepsDoomed(Round(s, now), now, id);
    }
  }

  lemma {:induction false} StaysDoomed(s: State, calls: seq<Call>, id: nat)
    requires Inv(s) && Doomed(s, id)
    ensures Doomed(MakeAll(s, calls), id)
    decreases |calls|
  {
    hide Dispatch, Do;
    if calls != [] {
      MakeAllKeepsInv(s, calls[..1]);
      assert MakeAll(s, calls[..1]) == Make(s, calls[0]);
      match calls[0] {
        case Op(op) => DoKeepsDoomed(s, op, id);
        case Tick(elapsed, now) => DispatchKeepsDoomed(s.(clock := s.clock + elapsed), now, id);
      }
      hide Inv, Doomed;
      StaysDoomed(Make(s, calls[0]), calls[1..], id);
    }
  }

  /** A timer cancelled before it fires never fires, whatever happens afterwards: not even one
      whose id has yet to be handed out. */
  lemma CancelledNeverFires(clock: int, before: seq<Call>, id: nat, after: seq<Call>)
    requires !HasFired(MakeAll(Start(clock), before), id)
    ensures !HasFired(MakeAll(Make(MakeAll(Start(clock), before), Op(Cancel(id))), after), id)
  {
    MakeAllKeepsInv(Start(clock), before);
    var s := MakeAll(Start(clock), before);
    DoKeepsInv(s, Cancel(id));
    StaysDoomed(Do(s, Cancel(id)), after, id);
  }

  // ---- the order of firing ----

  /** No call made from here on, by the callback or by those it schedules, has a negative delay. */
  predicate Forward(callback: Callback)
    decreases callback
  {
    callback.Null? || AllForward(callback.ops)
  }

  predicate AllForward(ops: seq<Op>)
    decreases ops
  {
    ops == [] || (OpForward(ops[0]) && AllForward(ops[1..]))
  }

  predicate OpForward(op: Op)
    decreases op
  {
    op.Schedule? ==> op.delay >= 0 && Forward(op.callback)
  }

  /** What has fired is in order, before all that is pending, and not ahead of the clock. */
  ghost predicate Ordered(s: State) {
    && Sorted(TasksOf(s.fired))
    && (forall i, j :: 0 <= i < |s.fired| && 0 <= j < |s.tasks| ==> Greater(s.tasks[j], s.fired[i].task))
    && (forall i :: 0 <= i < |s.fired| ==>
      s.fired[i].task.deadline <= s.clock && s.fired[i].task.sequence < s.nextSequence)
    && (forall j :: 0 <= j < |s.tasks| ==> Forward(s.tasks[j].callback))
  }

  lemma DoKeepsOrdered(s: State, op: Op)
    requires Inv(s) && Ordered(s) && OpForward(op)
    ensures Ordered(Do(s, op))
  {
    if op.Schedule? && op.callback.Script? {
      var task := Created(s, op);
      CreatedIsNew(s, op);
      hide Push, Inv, Forward;
      var r := Do(s, op);
      forall j | 0 <= j < |r.tasks| ensures r.tasks[j] in s.tasks || r.tasks[j] == task {
        assert r.tasks[j] in r.tasks;
      }
    }
  }

  lemma {:induction false} DoAllKeepsOrdered(s: State, ops: seq<Op>)
    requires Inv(s) && Ordered(s) && AllForward(ops)
    ensures Ordered(DoAll(s, ops))
    decreases |ops|
  {
    hide Inv, Ordered;
    if ops != [] {
      DoKeepsInv(s, ops[0]);
      DoKeepsOrdered(s, ops[0]);
      DoAllKeepsOrdered(Do(s, ops[0]), ops[1..]);
    }
  }

  lemma PopKeepsOrdered(s: State, now: int)
    requires Inv(s) && Ordered(s) && Expired(s, now) && now <= s.clock
    ensures Ordered(Popped(s, now))
    ensures Ordered(s.(tasks := s.tasks[1..], cancelled := s.cancelled - {s.tasks[0].id},
      discarded := s.discarded + [s.tasks[0]]))
  {
    PendingIsIssued(s, s.tasks[0]);
    hide Forward;
    assert TasksOf(s.fired + [Firing(s.tasks[0], now)]) == TasksOf(s.fired) + [s.tasks[0]];
  }

  lemma RoundKeepsOrdered(s: State, now: int)
    requires Inv(s) && Ordered(s) && Expired(s, now) && now <= s.clock
    ensures Ordered(Round(s, now)) && Round(s, now).clock >= s.clock
  {
    PopKeepsInv(s, now);
    PopKeepsOrdered(s, now);
    var task := s.tasks[0];
    assert Forward(task.callback);
    hide Inv, Ordered;
    if task.id !in s.cancelled && task.callback.Script? {
      DoAllKeepsOrdered(Popped(s, now), task.callback.ops);
      CallsTakeEffect(Popped(s, now), task.callback.ops);
    }
  }

  lemma {:induction false} DispatchKeepsOrdered(s: State, now: int)
    requires Inv(s) && Ordered(s) && now <= s.clock
    ensures Ordered(Dispatch(s, now))
    decreases Weight(s.tasks)
  {
    hide Inv, Ordered, Round, Weight;
    if Expired(s, now) {
      RoundKeepsInv(s, now);
      RoundKeepsOrdered(s, now);
      RoundDecreases(s, now);
      DispatchKeepsOrdered(Round(s, now), now);
    }
  }

  /** Delays are not negative, and no Tick is given a time that the clock has yet to reach. */
  predicate Timely(s: State, calls: seq<Call>)
    decreases |calls|
  {
    calls == [] ||
    (&& (match calls[0] case Op(op) => OpForward(op) case Tick(elapsed, now) => now <= s.clock + elapsed)
     && Timely(Make(s, calls[0]), calls[1..]))
  }

  lemma {:induction false} MakeAllKeepsOrdered(s: State, calls: seq<Call>)
    requires Inv(s) && Ordered(s) && Timely(s, calls)
    ensures Ordered(MakeAll(s, calls))
    decreases |calls|
  {
    hide Dispatch, Do;
    if calls != [] {
      match calls[0] {
        case Op(op) =>
          DoKeepsInv(s, op);
          DoKeepsOrdered(s, op);
        case Tick(elapsed, now) =>
          DispatchKeepsInv(s.(clock := s.clock + elapsed), now);
          DispatchKeepsOrdered(s.(clock := s.clock + elapsed), now);
      }
      hide Inv, Ordered;
      MakeAllKeepsOrdered(Make(s, calls[0]), calls[1..]);
    }
  }

  /** Over all ticks of a run with a monotone clock and non-negative delays, callbacks that schedule
      included, the timers fire in the order of (deadline, sequence). */
  lemma FiresInOrder(clock: int, calls: seq<Call>)
    requires Timely(Start(clock), calls)
    ensures var fired := MakeAll(Start(clock), calls).fired;
      forall i, j :: 0 <= i < j < |fired| ==>
        fired[i].task.deadline < fired[j].task.deadline ||
        (fired[i].task.deadline == fired[j].task.deadline && fired[i].task.sequence < fired[j].task.sequence)
  {
    hide MakeAll, Timely;
    MakeAllKeepsOrdered(Start(clock), calls);
    var fired := MakeAll(Start(clock), calls).fired;
    var tasks := TasksOf(fired);
    forall i, j | 0 <= i < j < |fired|
      ensures fired[i].task.deadline < fired[j].task.deadline ||
        (fired[i].task.deadline == fired[j].task.deadline && fired[i].task.sequence < fired[j].task.sequence)
    {
      assert Greater(tasks[j], tasks[i]);
    }
  }

  /** Scheduled alone and due at once, a timer is fired by the next Tick. */
  lemma FiresAlone(s: State, elapsed: nat, delay: int, ticked: nat, now: int)
    requires s.tasks == [] && s.cancelled == {} && s.clock + elapsed + delay <= now
    ensures var task := TimerTask(s.nextId, s.clock + elapsed + delay, s.nextSequence, Script([]));
      MakeAll(s, [Op(Schedule(elapsed, delay, Script([]))), Tick(ticked, now)])
      == State([], {}, s.nextId + 1, s.nextSequence + 1, s.clock + elapsed + ticked, s.issued + [task],
        s.fired + [Firing(task, now)], s.discarded,
               s.issuedAfter + [|s.fired|])
  {
    var task := TimerTask(s.nextId, s.clock + elapsed + delay, s.nextSequence, Script([]));
    var s1 := Do(s, Schedule(elapsed, delay, Script([])));
    var s2 := s1.(clock := s1.clock + ticked);
    assert s2.tasks == [task];
    var s3 := Round(s2, now);
    assert s3.tasks == [];
    assert Dispatch(s2, now) == Dispatch(s3, now) == s3;
    var calls := [Op(Schedule(elapsed, delay, Script([]))), Tick(ticked, now)];
    assert calls[1..] == [Tick(ticked, now)] && calls[1..][1..] == [];
    assert MakeAll(s1, calls[1..]) == MakeAll(s3, []) == s3;
  }

  lemma {:induction false} MakeAllAppend(first: seq<Call>, second: seq<Call>, s: State)
    ensures MakeAll(s, first + second) == MakeAll(MakeAll(s, first), second)
    decreases |first|
  {
    if first == [] {
      assert first + second == second;
    } else {
      assert (first + second)[1..] == first[1..] + second;
      MakeAllAppend(first[1..], second, Make(s, first[0]));
    }
  }

  lemma NotSorted(a: TimerTask, b: TimerTask)
    requires !Greater(b, a)
    ensures !Sorted([a, b])
  {
    assert [a, b][0] == a && [a, b][1] == b;
  }

  /** Each of the two conditions is needed: whatever the clock, the deadlines and the ticks, a timer that
      becomes due before one that has already fired fires after it. */
  lemma LateArrivalBreaksOrder(clock: int, elapsed: nat, delay: int, ticked: nat, now: int, elapsed': nat, delay': int,
      ticked': nat, now': int)
    returns (first: seq<Call>, second: seq<Call>)
    requires clock + elapsed + delay <= now && clock + elapsed + ticked + elapsed' + delay' <= now'
    requires ticked + elapsed' + delay' < delay
    ensures first == [Op(Schedule(elapsed, delay, Script([]))), Tick(ticked, now)]
    ensures second == [Op(Schedule(elapsed', delay', Script([]))), Tick(ticked', now')]
    ensures !Sorted(TasksOf(MakeAll(Start(clock), first + second).fired))
  {
    first, second := [Op(Schedule(elapsed, delay, Script([]))), Tick(ticked, now)],
      [Op(Schedule(elapsed', delay', Script([]))), Tick(ticked', now')];
    MakeAllAppend(first, second, Start(clock));
    FiresAlone(Start(clock), elapsed, delay, ticked, now);
    var s := MakeAll(Start(clock), first);
    FiresAlone(s, elapsed', delay', ticked', now');
    hide MakeAll, Dispatch, Do, Sorted;
    var one := TimerTask(1, clock + elapsed + delay, 0, Script([]));
    var two := TimerTask(2, clock + elapsed + ticked + elapsed' + delay', 1, Script([]));
    var fired := MakeAll(Start(clock), first + second).fired;
    assert fired == [Firing(one, now), Firing(two, now')];
    assert TasksOf(fired) == [one, two];
    NotSorted(one, two);
  }

  // ---- exactly when the order of firing is kept ----

  /** How many callbacks had been run when the task was created. */
  function FiredBefore(issuedAfter: seq<nat>, task: TimerTask): nat {
    if 0 < task.id <= |issuedAfter| then issuedAfter[task.id - 1] else 0
  }

  /** A task created after the first `before` firings is behind the ones from there on up to `count`; those
      before have a smaller sequence number. */
  ghost predicate Behind(fired: seq<Firing>, count: nat, before: nat, task: TimerTask)
    requires count <= |fired|
  {
    && before <= count
    && (forall i :: 0 <= i < before ==> fired[i].task.sequence < task.sequence)
    && (forall i :: before <= i < count ==> Greater(task, fired[i].task))
  }

  /** Every task is behind all that fired while it was pending. */
  ghost predicate Following(s: State) {
    && |s.issuedAfter| == |s.issued|
    && (forall j :: 0 <= j < |s.fired| ==>
      0 < s.fired[j].task.id <= |s.issued| && s.fired[j].task.sequence == s.fired[j].task.id - 1)
    && (forall k :: 0 <= k < |s.tasks| ==> 0 < s.tasks[k].id <= |s.issued| && s.tasks[k].sequence == s.tasks[k].id - 1)
    && (forall j :: 0 <= j < |s.fired| ==>
      Behind(s.fired, j, FiredBefore(s.issuedAfter, s.fired[j].task), s.fired[j].task))
    && (forall k :: 0 <= k < |s.tasks| ==>
      Behind(s.fired, |s.fired|, FiredBefore(s.issuedAfter, s.tasks[k]), s.tasks[k]))
  }

  lemma BehindAsBefore(fired: seq<Firing>, firing: Firing, count: nat, before: nat, task: TimerTask)
    requires count <= |fired| && Behind(fired, count, before, task)
    ensures Behind(fired + [firing], count, before, task)
  {
    hide Greater;
    forall i | 0 <= i < count ensures (fired + [firing])[i] == fired[i] { }
  }

  lemma BehindOneMore(fired: seq<Firing>, firing: Firing, before: nat, task: TimerTask)
    requires Behind(fired, |fired|, before, task) && Greater(task, firing.task)
    ensures Behind(fired + [firing], |fired| + 1, before, task)
  {
    hide Greater;
    forall i | 0 <= i < |fired| ensures (fired + [firing])[i] == fired[i] { }
  }

  lemma DoKeepsFollowing(s: State, op: Op)
    requires Inv(s) && Following(s)
    ensures Following(Do(s, op))
  {
    if op.Schedule? && op.callback.Script? {
      var task, r := Created(s, op), Do(s, op);
      CreatedIsNew(s, op);
      hide Push, Sorted, Greater;
      assert |s.issued| == s.nextSequence && task.id == |s.issued| + 1;
      assert Behind(s.fired, |s.fired|, |s.fired|, task);
      hide Inv;
      forall k | 0 <= k < |r.tasks| ensures r.tasks[k] in s.tasks || r.tasks[k] == task {
        assert r.tasks[k] in r.tasks;
      }
      hide Behind;
    }
  }

  lemma {:induction false} DoAllKeepsFollowing(s: State, ops: seq<Op>)
    requires Inv(s) && Following(s)
    ensures Following(DoAll(s, ops))
    decreases |ops|
  {
    hide Inv, Following;
    if ops != [] {
      DoKeepsInv(s, ops[0]);
      DoKeepsFollowing(s, ops[0]);
      DoAllKeepsFollowing(Do(s, ops[0]), ops[1..]);
    }
  }

  lemma PopKeepsFollowing(s: State, now: int)
    requires Inv(s) && Following(s) && s.tasks != []
    ensures Following(Popped(s, now))
  {
    hide Behind, Greater;
    var firing, r := Firing(s.tasks[0], now), Popped(s, now);
    forall j | 0 <= j < |r.fired|
      ensures Behind(r.fired, j, FiredBefore(s.issuedAfter, r.fired[j].task), r.fired[j].task)
    {
      var task := if j < |s.fired| then s.fired[j].task else s.tasks[0];
      BehindAsBefore(s.fired, firing, j, FiredBefore(s.issuedAfter, task), task);
    }
    forall k | 0 <= k < |r.tasks| ensures Behind(r.fired, |r.fired|, FiredBefore(s.issuedAfter, r.tasks[k]), r.tasks[k])
    {
      assert r.tasks[k] == s.tasks[k + 1];
      BehindOneMore(s.fired, firing, FiredBefore(s.issuedAfter, s.tasks[k + 1]), s.tasks[k + 1]);
    }
  }

  lemma DropKeepsFollowing(s: State, cancelled: set<nat>, discarded: seq<TimerTask>)
    requires Following(s) && s.tasks != []
    ensures Following(s.(tasks := s.tasks[1..], cancelled := cancelled, discarded := discarded))
  {
    hide Behind;
  }

  lemma RoundKeepsFollowing(s: State, now: int)
    requires Inv(s) && Following(s) && Expired(s, now)
    ensures Following(Round(s, now))
  {
    PopKeepsInv(s, now);
    PopKeepsFollowing(s, now);
    hide Inv, Following;
    var task := s.tasks[0];
    DropKeepsFollowing(s, s.cancelled - {task.id}, s.discarded + [task]);
    if task.id !in s.cancelled && task.callback.Script? {
      DoAllKeepsFollowing(Popped(s, now), task.callback.ops);
    }
  }

  lemma {:induction false} DispatchKeepsFollowing(s: State, now: int)
    requires Inv(s) && Following(s)
    ensures Following(Dispatch(s, now))
    decreases Weight(s.tasks)
  {
    hide Inv, Following, Round, Weight;
    if Expired(s, now) {
      RoundKeepsInv(s, now);
      RoundKeepsFollowing(s, now);
      RoundDecreases(s, now);
      DispatchKeepsFollowing(Round(s, now), now);
    }
  }

  lemma {:induction false} MakeAllKeepsFollowing(s: State, calls: seq<Call>)
    requires Inv(s) && Following(s)
    ensures Following(MakeAll(s, calls))
    decreases |calls|
  {
    hide Dispatch, Do;
    if calls != [] {
      match calls[0] {
        case Op(op) =>
          DoKeepsInv(s, op);
          DoKeepsFollowing(s, op);
        case Tick(elapsed, now) =>
          DispatchKeepsInv(s.(clock := s.clock + elapsed), now);
          DispatchKeepsFollowing(s.(clock := s.clock + elapsed), now);
      }
      hide Inv, Following;
      MakeAllKeepsFollowing(Make(s, calls[0]), calls[1..]);
    }
  }

  /** No timer that fired was created after one of a later deadline had fired. */
  ghost predicate InTime(s: State) {
    forall i, j {:trigger s.fired[i], s.fired[j]} ::
      0 <= j < |s.fired| && 0 <= i < |s.fired| && i < FiredBefore(s.issuedAfter, s.fired[j].task) ==>
        s.fired[i].task.deadline <= s.fired[j].task.deadline
  }

  lemma SortedIffInTime(s: State)
    requires Following(s)
    ensures Sorted(TasksOf(s.fired)) <==> InTime(s)
  {
    var tasks := TasksOf(s.fired);
    if Sorted(tasks) {
      forall i, j | 0 <= j < |s.fired| && 0 <= i < |s.fired| && i < FiredBefore(s.issuedAfter, s.fired[j].task)
        ensures s.fired[i].task.deadline <= s.fired[j].task.deadline
      {
        assert Behind(s.fired, j, FiredBefore(s.issuedAfter, s.fired[j].task), s.fired[j].task);
        assert Greater(tasks[j], tasks[i]);
      }
    }
    if InTime(s) {
      forall i, j | 0 <= i < j < |tasks| ensures Greater(tasks[j], tasks[i]) {
        assert tasks[i] == s.fired[i].task && tasks[j] == s.fired[j].task;
        assert Behind(s.fired, j, FiredBefore(s.issuedAfter, s.fired[j].task), s.fired[j].task);
      }
    }
  }

  /** Over every run whatever: the timers fire in the order of (deadline, sequence) exactly when none
      that fires was created after one of a later deadline had fired. */
  lemma FiresInOrderExactlyInTime(clock: int, calls: seq<Call>)
    ensures var s := MakeAll(Start(clock), calls); Sorted(TasksOf(s.fired)) <==> InTime(s)
  {
    MakeAllKeepsFollowing(Start(clock), calls);
    hide MakeAll, Following;
    SortedIffInTime(MakeAll(Start(clock), calls));
  }

  // ---- the queue ----

  class TimerQueue {
    var tasks: seq<TimerTask>
    var cancelledTimers: set<nat>
    var nextId: nat
    var nextSequence: nat
    var clock: int
    ghost var issued: seq<TimerTask>
    ghost var fired: seq<Firing>
    ghost var discarded: seq<TimerTask>
    ghost var issuedAfter: seq<nat>

    ghost function View(): State
      reads this
    {
      State(tasks, cancelledTimers, nextId, nextSequence, clock, issued, fired, discarded, issuedAfter)
    }

    constructor (now: int)
      ensures View() == Start(now) && Inv(View())
    {
      tasks, cancelledTimers, nextId, nextSequence, clock := [], {}, 1, 0, now;
      issued, fired, discarded, issuedAfter := [], [], [], [];
    }

    /** A null callback gives the invalid id and changes nothing; otherwise the id is a new one. */
    method Schedule(elapsed: nat, delay: int, callback: Callback) returns (id: nat)
      requires Inv(View())
      modifies this
      ensures Inv(View()) && View() == DoSchedule(old(View()), elapsed, delay, callback)
      ensures id == if callback.Null? then INVALID_ID else old(nextId)
    {
      hide Inv, Push;
      DoKeepsInv(View(), Op.Schedule(elapsed, delay, callback));
      if callback.Null? {
        id := INVALID_ID;
        assert View() == old(View());
        return;
      }
      id := nextId;
      nextId := nextId + 1;
      clock := clock + elapsed;
      var task := TimerTask(id, clock + delay, nextSequence, callback);
      nextSequence := nextSequence + 1;
      tasks := Push(tasks, task);
      issued, issuedAfter := issued + [task], issuedAfter + [|fired|];
      assert View() == DoSchedule(old(View()), elapsed, delay, callback);
    }

    /** True exactly when the id was not marked already, whether or not such a timer is pending. */
    method Cancel(id: nat) returns (marked: bool)
      requires Inv(View())
      modifies this`cancelledTimers
      ensures Inv(View()) && View() == Do(old(View()), Op.Cancel(id))
      ensures marked <==> id !in old(cancelledTimers)
    {
      marked := id !in cancelledTimers;
      cancelledTimers := cancelledTimers + {id};
    }

    method RunCallback(callback: Callback)
      requires Inv(View()) && callback.Script?
      modifies this
      ensures Inv(View()) && View() == DoAll(old(View()), callback.ops)
      ensures Creates(old(View()), View(), Creating(callback.ops)) && fired == old(fired) && discarded == old(discarded)
      ensures cancelledTimers == old(cancelledTimers) + Marks(callback.ops)
    {
      hide Inv, DoSchedule, Creates, Creating, Marks;
      CallsTakeEffect(View(), callback.ops);
      var i := 0;
      while i < |callback.ops|
        invariant 0 <= i <= |callback.ops|
        invariant Inv(View()) && DoAll(View(), callback.ops[i..]) == DoAll(old(View()), callback.ops)
      {
        match callback.ops[i] {
          case Schedule(elapsed, delay, cb) => var _ := Schedule(elapsed, delay, cb);
          case Cancel(id) => var _ := Cancel(id);
        }
        assert callback.ops[i..][1..] == callback.ops[i + 1..];
        i := i + 1;
      }
    }

    /** The dispatch loop.  When it returns, no pending task is due. */
    method Tick(now: int)
      requires Inv(View())
      modifies this
      ensures Inv(View()) && View() == Dispatch(old(View()), now)
      ensures forall t :: t in tasks ==> t.deadline > now
      ensures |old(fired)| <= |fired| && fired[..|old(fired)|] == old(fired)
      ensures TookEffect(old(View()), View(), CallsOf(fired[|old(fired)|..]))
    {
      hide Inv, Weight, Dispatch, DoAll, Round, TookEffect;
      DispatchTakesEffect(View(), now);
      while tasks != [] && tasks[0].deadline <= now
        invariant Inv(View()) && Dispatch(View(), now) == Dispatch(old(View()), now)
        decreases Weight(tasks)
      {
        ghost var before := View();
        RoundDecreases(before, now);
        RoundKeepsInv(before, now);
        PopKeepsInv(before, now);
        DispatchRound(before, now);
        var task := tasks[0];
        tasks := tasks[1..];
        RoundIs(before, now);
        if task.id in cancelledTimers {
          cancelledTimers := cancelledTimers - {task.id};
          discarded := discarded + [task];
        } else {
          fired := fired + [Firing(task, now)];
          assert View() == Popped(before, now);
          if task.callback.Script? {
            RunCallback(task.callback);
          }
        }
        assert View() == Round(before, now);
      }
      DispatchDone(View(), now);
    }
  }

  lemma RoundIs(s: State, now: int)
    requires Expired(s, now)
    ensures var task := s.tasks[0];
      Round(s, now) ==
        if task.id in s.cancelled then
          s.(tasks := s.tasks[1..], cancelled := s.cancelled - {task.id}, discarded := s.discarded + [task])
        else if task.callback.Null? then Popped(s, now)
        else DoAll(Popped(s, now), task.callback.ops)
  {
  }

  lemma DispatchDone(s: State, now: int)
    requires Inv(s) && !Expired(s, now)
    ensures Dispatch(s, now) == s && forall t :: t in s.tasks ==> t.deadline > now
  {
    NothingExpiredNothingDue(s, now);
  }

  lemma DispatchRound(s: State, now: int)
    requires Expired(s, now)
    ensures Dispatch(s, now) == Dispatch(Round(s, now), now)
  {
  }
}
