/** The event bus.  Handlers run inside Publish and may call back: a handler is any code that
    subscribes, unsubscribes, clears and publishes, in any order, as often as it likes, nested
    publications ending at some depth.  The bus keeps a history of what happens to its handlers. */
module EventBus {
  datatype SubscriptionToken = SubscriptionToken(id: nat, type_: nat)

  class HandlerEntry {
    const id: nat
    var active: bool

    constructor (id: nat)
      ensures this.id == id && active
    {
      this.id := id;
      active := true;
    }
  }

  type HandlerList = seq<HandlerEntry>

  /** What happens to a handler; `publication` numbers the calls of Publish. */
  datatype BusEvent =
    | Subscribed(entry: HandlerEntry)
    | SwitchedOff(entry: HandlerEntry)
    | Invoked(publication: nat, entry: HandlerEntry)

  /** The active handlers of a list, in its order. */
  function Active(handlers: HandlerList): (r: HandlerList)
    reads handlers
    ensures forall i :: 0 <= i < |r| ==> r[i] in handlers && r[i].active
    ensures forall i :: 0 <= i < |handlers| && handlers[i].active ==> handlers[i] in r
  {
    if handlers == [] then []
    else
      var before := Active(handlers[..|handlers| - 1]);
      var last := handlers[|handlers| - 1];
      if last.active then before + [last] else before
  }

  /** The handlers at the chosen places, in order. */
  function Chosen(handlers: HandlerList, places: seq<bool>): HandlerList
    requires |places| <= |handlers|
  {
    if places == [] then []
    else
      var n := |places| - 1;
      Chosen(handlers, places[..n]) + if places[n] then [handlers[n]] else []
  }

  /** The handlers that a publication has run, in order. */
  function InvokedBy(history: seq<BusEvent>, publication: nat): HandlerList {
    if history == [] then []
    else
      var n := |history| - 1;
      InvokedBy(history[..n], publication) +
        if history[n].Invoked? && history[n].publication == publication then [history[n].entry] else []
  }

  /** Whether the handler's turn, at this place of the history, finds it active. */
  predicate OnAt(history: seq<BusEvent>, entry: HandlerEntry, turn: nat)
    requires turn <= |history|
  {
    SwitchedOff(entry) !in history[..turn]
  }

  /** A handler that is on at its turn is run there, before the next turn; one that is off takes no time. */
  ghost predicate TurnOk(history: seq<BusEvent>, entry: HandlerEntry, publication: nat, turn: nat, next: nat)
    requires turn <= |history|
  {
    if OnAt(history, entry, turn) then turn < next <= |history| && history[turn] == Invoked(publication, entry)
      else next == turn
  }

  /** The turns of a publication over its snapshot: places in the history, from where it begins. */
  ghost predicate TurnsOk(snapshot: HandlerList, begin: nat, history: seq<BusEvent>, publication: nat, turns: seq<nat>)
  {
    && |turns| <= |snapshot| && begin <= |history|
    && (forall i {:trigger turns[i]} :: 0 <= i < |turns| ==> begin <= turns[i] <= |history|)
    && (forall i {:trigger NextTurn(history, turns, i)} :: 0 <= i < |turns| ==>
      TurnOk(history, snapshot[i], publication, turns[i], NextTurn(history, turns, i)))
    && (|turns| > 0 ==> turns[0] == begin)
  }

  /** Where the following turn is, or the end of the publication. */
  function NextTurn(history: seq<BusEvent>, turns: seq<nat>, i: nat): nat
    requires i < |turns|
  {
    if i + 1 < |turns| then turns[i + 1] else |history|
  }

  /** Which handlers of the snapshot are on at their turns. */
  ghost function OnAtTurns(snapshot: HandlerList, history: seq<BusEvent>, turns: seq<nat>): (places: seq<bool>)
    requires |turns| <= |snapshot| && forall i :: 0 <= i < |turns| ==> turns[i] <= |history|
    ensures |places| == |turns|
  {
    seq(|turns|, i requires 0 <= i < |turns| => OnAt(history, snapshot[i], turns[i]))
  }

  type Topology = map<nat, HandlerList>

  /** Lists hold entries in the order of registration, each under an id of its own. */
  ghost predicate ListsOk(handlers: Topology, nextId: nat, entries: set<HandlerEntry>) {
    && nextId > 0
    && (forall t, i {:trigger handlers[t][i]} :: t in handlers && 0 <= i < |handlers[t]| ==>
          handlers[t][i] in entries && 0 < handlers[t][i].id < nextId)
    && (forall t, i, j {:trigger handlers[t][i], handlers[t][j]} :: t in handlers && 0 <= i < j < |handlers[t]| ==>
          handlers[t][i].id < handlers[t][j].id)
    && (forall t, u, i, j {:trigger handlers[t][i], handlers[u][j]} ::
          t in handlers && u in handlers && t != u && 0 <= i < |handlers[t]| && 0 <= j < |handlers[u]| ==>
          handlers[t][i].id != handlers[u][j].id)
  }

  lemma AppendKeepsLists(handlers: Topology, nextId: nat, entries: set<HandlerEntry>, t: nat, entry: HandlerEntry)
    requires ListsOk(handlers, nextId, entries) && entry.id == nextId
    ensures var list := if t in handlers then handlers[t] else [];
      ListsOk(handlers[t := list + [entry]], nextId + 1, entries + {entry})
  {
  }

  /** An id names one entry, under one type. */
  lemma IdNamesOne(handlers: Topology, nextId: nat, entries: set<HandlerEntry>, t: nat, i: nat)
    requires ListsOk(handlers, nextId, entries) && t in handlers && i < |handlers[t]|
    ensures forall u, j :: u in handlers && 0 <= j < |handlers[u]| && handlers[u][j].id == handlers[t][i].id ==>
      u == t && j == i
    ensures forall u :: u in handlers && u != t ==> handlers[t][i] !in handlers[u]
  {
  }

  lemma ListMembers(handlers: Topology, nextId: nat, entries: set<HandlerEntry>, t: nat)
    requires ListsOk(handlers, nextId, entries) && t in handlers
    ensures forall e :: e in handlers[t] ==> e in entries
  {
  }

  lemma ActiveAppend(list: HandlerList, entry: HandlerEntry)
    ensures Active(list + [entry]) == Active(list) + if entry.active then [entry] else []
  {
    assert (list + [entry])[..|list|] == list;
  }

  class EventBus {
    var handlers: Topology
    var snapshots: Topology
    var nextId: nat
    /** Every entry ever made; a publication under way may still hold entries that Clear dropped. */
    ghost var entries: set<HandlerEntry>
    ghost var history: seq<BusEvent>
    ghost var publications: nat

    /** A handler is active until it is switched off. */
    ghost predicate FlagsOk()
      reads this`history, this`entries, this`publications, entries
    {
      && (forall k {:trigger history[k]} :: 0 <= k < |history| ==> history[k].entry in entries)
      && (forall e {:trigger e.active} :: e in entries ==> (e.active <==> SwitchedOff(e) !in history))
      && (forall k {:trigger history[k]} :: 0 <= k < |history| && history[k].Invoked? ==>
        history[k].publication < publications)
    }

    /** Every type's snapshot is the registration-ordered filter of its active handlers. */
    ghost predicate Valid()
      reads this, entries
    {
      && ListsOk(handlers, nextId, entries)
      && handlers.Keys == snapshots.Keys
      && (forall t :: t in handlers ==> snapshots[t] == Active(handlers[t]))
      && FlagsOk()
    }

    constructor ()
      ensures Valid() && fresh(entries) && handlers == map[] && nextId == 1 && history == []
    {
      handlers, snapshots, nextId := map[], map[], 1;
      entries, history, publications := {}, [], 0;
    }

    function HandlersOf(type_: nat): HandlerList
      reads this
    {
      if type_ in handlers then handlers[type_] else []
    }

    method SubscribeInternal(type_: nat) returns (token: SubscriptionToken, entry: HandlerEntry)
      requires Valid()
      modifies this
      ensures Valid() && fresh(entry) && entry.active && token == SubscriptionToken(entry.id, type_)
      ensures entry.id == old(nextId) && nextId == old(nextId) + 1
      ensures handlers == old(handlers)[type_ := old(HandlersOf(type_)) + [entry]]
      ensures snapshots == old(snapshots)[type_ := old(Active(HandlersOf(type_))) + [entry]]
      ensures entries == old(entries) + {entry}
      ensures history == old(history) + [Subscribed(entry)] && publications == old(publications)
    {
      hide ListsOk, Active, FlagsOk;
      entry := new HandlerEntry(nextId);
      token := SubscriptionToken(nextId, type_);
      Append(type_, entry);
      RebuildSnapshot(type_);
    }

    /** The first part of SubscribeInternal: the id is used up and the entry appended to its type's list. */
    method Append(type_: nat, entry: HandlerEntry)
      requires Valid() && entry.id == nextId && entry.active && entry !in entries
      modifies this`nextId, this`handlers, this`entries, this`history
      ensures ListsOk(handlers, nextId, entries) && FlagsOk() && nextId == old(nextId) + 1
      ensures handlers == old(handlers)[type_ := old(HandlersOf(type_)) + [entry]]
      ensures Active(handlers[type_]) == old(Active(HandlersOf(type_))) + [entry]
      ensures entries == old(entries) + {entry} && history == old(history) + [Subscribed(entry)]
    {
      hide ListsOk, Active, FlagsOk;
      AppendKeepsLists(handlers, nextId, entries, type_, entry);
      ActiveAppend(HandlersOf(type_), entry);
      AppendSubscribed(entry);
      nextId := nextId + 1;
      handlers := handlers[type_ := HandlersOf(type_) + [entry]];
    }

    ghost method AppendSubscribed(entry: HandlerEntry)
      requires FlagsOk() && entry.active && entry !in entries
      modifies this`entries, this`history
      ensures FlagsOk() && entries == old(entries) + {entry} && history == old(history) + [Subscribed(entry)]
    {
      entries := entries + {entry};
      history := history + [Subscribed(entry)];
    }

    /** The handler with the token's id under the token's type, if there is one, is switched off; no
        other handler is affected, and neither is any snapshot taken before. */
    method Unsubscribe(token: SubscriptionToken)
      requires Valid()
      modifies this`snapshots, this`history, entries
      ensures Valid()
      ensures forall e :: e in entries ==>
        e.active == (old(e.active) && !(token.id != 0 && e in HandlersOf(token.type_) && e.id == token.id))
      ensures forall t :: t in snapshots && t != token.type_ ==> snapshots[t] == old(snapshots[t])
      ensures old(history) <= history && forall k :: |old(history)| <= k < |history| ==> history[k].SwitchedOff?
    {
      hide ListsOk, Active, FlagsOk;
      if token.id == 0 {
        return;
      }
      if token.type_ !in handlers {
        return;
      }
      var list := handlers[token.type_];
      ListMembers(handlers, nextId, entries, token.type_);
      var i := 0;
      while i < |list|
        invariant 0 <= i <= |list|
        invariant forall j :: 0 <= j < i ==> list[j].id != token.id
      {
        if list[i].id == token.id {
          SwitchOff(token.type_, i);
          return;
        }
        i := i + 1;
      }
      RebuildSnapshot(token.type_);
    }

    /** The loop's hit, and the rebuild after it. */
    method SwitchOff(type_: nat, i: nat)
      requires Valid() && type_ in handlers && i < |handlers[type_]| && handlers[type_][i] in entries
      modifies this`snapshots, this`history, handlers[type_][i]
      ensures Valid() && !handlers[type_][i].active
      ensures forall u, j :: u in handlers && 0 <= j < |handlers[u]| && handlers[u][j].id == handlers[type_][i].id ==>
        u == type_ && j == i
      ensures forall t :: t in snapshots && t != type_ ==> snapshots[t] == old(snapshots[t])
      ensures history == old(history) + [SwitchedOff(handlers[type_][i])]
    {
      hide ListsOk, Active, FlagsOk;
      IdNamesOne(handlers, nextId, entries, type_, i);
      TurnOff(handlers[type_][i]);
      forall t | t in handlers && t != type_ ensures Active(handlers[t]) == old(Active(handlers[t])) { }
      RebuildSnapshot(type_);
    }

    method TurnOff(entry: HandlerEntry)
      requires FlagsOk() && entry in entries
      modifies this`history, entry`active
      ensures FlagsOk() && !entry.active && history == old(history) + [SwitchedOff(entry)]
    {
      entry.active := false;
      history := history + [SwitchedOff(entry)];
    }

    /** The ids start again at 1; publications under way keep their entries. */
    method Clear()
      requires Valid()
      modifies this`handlers, this`snapshots, this`nextId
      ensures Valid() && handlers == map[] && snapshots == map[] && nextId == 1
    {
      hide FlagsOk;
      handlers, snapshots := map[], map[];
      nextId := 1;
    }

    method RebuildSnapshot(type_: nat)
      modifies this`snapshots
      ensures type_ !in handlers ==> snapshots == old(snapshots)
      ensures type_ in handlers ==> snapshots == old(snapshots)[type_ := Active(handlers[type_])]
    {
      if type_ !in handlers {
        return;
      }
      var list := handlers[type_];
      var snapshot: HandlerList := [];
      for i := 0 to |list|
        invariant snapshot == Active(list[..i])
      {
        assert list[..i + 1][..i] == list[..i];
        if list[i].active {
          snapshot := snapshot + [list[i]];
        }
      }
      assert list[..|list|] == list;
      snapshots := snapshots[type_ := snapshot];
    }

    /** What code that runs on the bus leaves behind: entries are only added, and what it publishes has
        numbers of its own. */
    ghost predicate RanOn(entriesBefore: set<HandlerEntry>, historyBefore: seq<BusEvent>, publicationsBefore: nat)
      reads this, entries
    {
      && Valid() && entriesBefore <= entries && historyBefore <= history && publicationsBefore <= publications
      && (forall k :: |historyBefore| <= k < |history| && history[k].Invoked? ==>
        history[k].publication >= publicationsBefore)
    }

    /** A handler is invoked: whatever its code is, it is recorded first. */
    method Invoke(entry: HandlerEntry, ghost publication: nat, depth: nat)
      requires Valid() && entry in entries && publication < publications
      modifies this, entries
      ensures RanOn(old(entries), old(history) + [Invoked(publication, entry)], old(publications))
        && fresh(entries - old(entries))
      decreases depth, 1
    {
      hide ListsOk, Active, FlagsOk;
      Record(entry, publication);
      RunHandler(depth);
    }

    ghost method Record(entry: HandlerEntry, publication: nat)
      requires Valid() && entry in entries && publication < publications
      modifies this`history
      ensures Valid() && history == old(history) + [Invoked(publication, entry)]
    {
      hide ListsOk, Active;
      history := history + [Invoked(publication, entry)];
    }

    /** The code of a handler. */
    method RunHandler(depth: nat)
      requires Valid()
      modifies this, entries
      ensures RanOn(old(entries), old(history), old(publications)) && fresh(entries - old(entries))
      decreases depth, 0
    {
      hide ListsOk, Active, FlagsOk;
      var n: nat := *;
      while n > 0
        invariant RanOn(old(entries), old(history), old(publications)) && fresh(entries - old(entries))
      {
        var choice: nat, type_: nat, id: nat := *, *, *;
        if choice == 0 {
          var _, _ := SubscribeInternal(type_);
        } else if choice == 1 {
          Unsubscribe(SubscriptionToken(id, type_));
        } else if choice == 2 {
          Clear();
        } else if depth > 0 {
          var _, _ := PublishInternal(type_, depth - 1);
        }
        n := n - 1;
      }
    }

    /** Publishing runs, in order, exactly those handlers of the type's snapshot that have not been
        switched off before their turn; the turns follow one another from where the publication
        begins, a handler that is on is run at its turn, and one that is off takes no time.  So it never
        runs a handler subscribed or switched off meanwhile, and misses none that stays on. */
    method PublishInternal(type_: nat, depth: nat) returns (invoked: HandlerList, ghost turns: seq<nat>)
      requires Valid()
      modifies this, entries
      ensures RanOn(old(entries), old(history), old(publications)) && fresh(entries - old(entries))
      ensures type_ !in old(snapshots) ==> invoked == [] && turns == [] && history == old(history)
      ensures type_ in old(snapshots) ==>
        |turns| == |old(snapshots[type_])|
          && TurnsOk(old(snapshots[type_]), |old(history)|, history, old(publications), turns)
        && (forall k :: 0 <= k < |turns| ==> turns[k] <= |history|)
        && invoked == Chosen(old(snapshots[type_]), OnAtTurns(old(snapshots[type_]), history, turns))
      ensures InvokedBy(history, old(publications)) == invoked
      decreases depth, 2
    {
      hide ListsOk, Active, FlagsOk, TurnsOk, Chosen, OnAtTurns, InvokedBy, OnAt;
      invoked, turns := [], [];
      ghost var me, begin := publications, |history|;
      BeginPublication();
      if type_ !in snapshots {
        return;
      }
      var snapshot := snapshots[type_];
      SnapshotMembers(type_);
      NoTurns(snapshot, begin, history, me);
      ghost var mine := entries;
      var i := 0;
      while i < |snapshot|
        invariant RanOn(mine, old(history), me) && me < publications && mine == old(entries) && fresh(entries - mine)
        invariant 0 <= i <= |snapshot| && |turns| == i && TurnsDone(snapshot, begin, me, turns, invoked)
        invariant forall k :: 0 <= k < |snapshot| ==> snapshot[k] in mine
      {
        var entry := snapshot[i];
        ghost var now := history;
        ActiveMeansOn(entry);
        if entry.active {
          Invoke(entry, me, depth);
          RunTurn(snapshot, begin, now, history, me, turns, invoked);
          invoked := invoked + [entry];
        } else {
          SkipTurn(snapshot, begin, now, me, turns, invoked);
        }
        turns := turns + [|now|];
        i := i + 1;
      }
    }

    ghost predicate TurnsDone(snapshot: HandlerList, begin: nat, publication: nat, turns: seq<nat>,
        invoked: HandlerList)
      reads this
    {
      TurnsDoneIn(snapshot, begin, history, publication, turns, invoked)
    }

    ghost method BeginPublication()
      requires Valid()
      modifies this`publications
      ensures Valid() && publications == old(publications) + 1 && InvokedBy(history, old(publications)) == []
    {
      NoneInvoked(history, publications);
      hide ListsOk, Active, InvokedBy;
      publications := publications + 1;
    }

    lemma SnapshotMembers(type_: nat)
      requires Valid() && type_ in snapshots
      ensures forall k :: 0 <= k < |snapshots[type_]| ==> snapshots[type_][k] in entries
    {
      ListMembers(handlers, nextId, entries, type_);
      assert snapshots[type_] == Active(handlers[type_]);
      hide ListsOk, FlagsOk;
    }

    lemma ActiveMeansOn(entry: HandlerEntry)
      requires Valid() && entry in entries
      ensures entry.active <==> OnAt(history, entry, |history|)
    {
      hide ListsOk, Active;
      assert history[..|history|] == history;
    }

    /** After Clear, a token from before switches off a handler subscribed since exactly when that one is
        the subscription of the token's number and of the token's type, counted from the Clear. */
    method StaleToken(token: SubscriptionToken, types: seq<nat>) returns (made: HandlerList)
      requires Valid()
      modifies this, entries
      ensures Valid() && |made| == |types|
      ensures forall i :: 0 <= i < |types| ==> fresh(made[i]) && made[i].id == i + 1
      ensures forall i :: 0 <= i < |types| ==> (!made[i].active <==> token == SubscriptionToken(i + 1, types[i]))
    {
      hide Valid;
      made := SubscribeAnew(types);
      forall i | 0 <= i < |made| ensures made[i] in HandlersOf(token.type_) <==> types[i] == token.type_ {
        if types[i] != token.type_ { OneTypeOnly(types[i], token.type_, made[i]); }
      }
      hide HandlersOf;
      Unsubscribe(token);
    }

    /** Clear, and then a handler for each of the types. */
    method SubscribeAnew(types: seq<nat>) returns (made: HandlerList)
      requires Valid()
      modifies this
      ensures Valid() && |made| == |types| && fresh(entries - old(entries))
      ensures forall i :: 0 <= i < |types| ==> fresh(made[i]) && made[i].id == i + 1 && made[i].active
      ensures forall i :: 0 <= i < |types| ==> made[i] in entries && made[i] in HandlersOf(types[i])
    {
      hide ListsOk, Active, FlagsOk;
      Clear();
      made := [];
      while |made| < |types|
        invariant |made| <= |types| && Valid() && nextId == |made| + 1 && fresh(entries - old(entries))
          && old(entries) <= entries
        invariant forall i :: 0 <= i < |made| ==> fresh(made[i]) && made[i].id == i + 1 && made[i].active
        invariant forall i :: 0 <= i < |made| ==> made[i] in entries && made[i] in HandlersOf(types[i])
      {
        var _, entry := SubscribeInternal(types[|made|]);
        made := made + [entry];
      }
    }

    lemma OneTypeOnly(t: nat, u: nat, entry: HandlerEntry)
      requires Valid() && t != u && entry in HandlersOf(t)
      ensures entry !in HandlersOf(u)
    {
      var i :| 0 <= i < |handlers[t]| && handlers[t][i] == entry;
      IdNamesOne(handlers, nextId, entries, t, i);
      hide ListsOk, Active, FlagsOk;
    }
  }

  // ---- the turns of a publication ----

  /** The turns so far and what has been run at them. */
  ghost predicate TurnsDoneIn(snapshot: HandlerList, begin: nat, history: seq<BusEvent>, publication: nat,
      turns: seq<nat>, invoked: HandlerList)
  {
    && TurnsOk(snapshot, begin, history, publication, turns)
    && |turns| <= |snapshot| && (forall k :: 0 <= k < |turns| ==> turns[k] <= |history|)
    && invoked == Chosen(snapshot, OnAtTurns(snapshot, history, turns))
    && InvokedBy(history, publication) == invoked
    && begin <= |history| && (turns == [] ==> begin == |history|)
  }

  lemma NoTurns(snapshot: HandlerList, begin: nat, history: seq<BusEvent>, publication: nat)
    requires begin == |history| && InvokedBy(history, publication) == []
    ensures TurnsDoneIn(snapshot, begin, history, publication, [], [])
  {
  }

  lemma {:induction false} NoneInvoked(history: seq<BusEvent>, publication: nat)
    requires forall k :: 0 <= k < |history| && history[k].Invoked? ==> history[k].publication != publication
    ensures InvokedBy(history, publication) == []
    decreases |history|
  {
    if history != [] {
      NoneInvoked(history[..|history| - 1], publication);
    }
  }

  lemma {:induction false} InvokedSame(before: seq<BusEvent>, after: seq<BusEvent>, publication: nat)
    requires before <= after
    requires forall k :: |before| <= k < |after| && after[k].Invoked? ==> after[k].publication != publication
    ensures InvokedBy(after, publication) == InvokedBy(before, publication)
    decreases |after|
  {
    if |after| > |before| {
      InvokedSame(before, after[..|after| - 1], publication);
    } else {
      assert after == before;
    }
  }

  lemma InvokedOnce(history: seq<BusEvent>, publication: nat, entry: HandlerEntry)
    ensures InvokedBy(history + [Invoked(publication, entry)], publication) == InvokedBy(history, publication) + [entry]
  {
    assert (history + [Invoked(publication, entry)])[..|history|] == history;
  }

  lemma OnAtStays(before: seq<BusEvent>, after: seq<BusEvent>, entry: HandlerEntry, turn: nat)
    requires before <= after && turn <= |before|
    ensures OnAt(after, entry, turn) == OnAt(before, entry, turn)
  {
    assert after[..turn] == before[..turn];
  }

  lemma TurnsLonger(snapshot: HandlerList, begin: nat, before: seq<BusEvent>, after: seq<BusEvent>, publication: nat,
      turns: seq<nat>)
    requires TurnsOk(snapshot, begin, before, publication, turns) && before <= after && |turns| < |snapshot|
    requires turns == [] ==> begin == |before|
    requires if OnAt(before, snapshot[|turns|], |before|) then
      |before| < |after| && after[|before|] == Invoked(publication, snapshot[|turns|])
             else after == before
    ensures TurnsOk(snapshot, begin, after, publication, turns + [|before|])
  {
    hide TurnOk, NextTurn, OnAt;
    var longer := turns + [|before|];
    assert longer[0] == begin;
    forall i | 0 <= i < |longer| ensures TurnOk(after, snapshot[i], publication, longer[i], NextTurn(after, longer, i))
    {
      if i < |turns| {
        TurnOfLonger(before, after, snapshot[i], publication, turns, i);
      } else {
        LastTurn(before, after, snapshot[i], publication, turns);
      }
    }
  }

  lemma TurnOfLonger(before: seq<BusEvent>, after: seq<BusEvent>, entry: HandlerEntry, publication: nat,
      turns: seq<nat>, i: nat)
    requires i < |turns| && turns[i] <= |before| && before <= after
    requires TurnOk(before, entry, publication, turns[i], NextTurn(before, turns, i))
    ensures TurnOk(after, entry, publication, (turns + [|before|])[i], NextTurn(after, turns + [|before|], i))
  {
    hide OnAt;
    OnAtStays(before, after, entry, turns[i]);
  }

  lemma LastTurn(before: seq<BusEvent>, after: seq<BusEvent>, entry: HandlerEntry, publication: nat, turns: seq<nat>)
    requires before <= after
    requires if OnAt(before, entry, |before|) then |before| < |after| && after[|before|] == Invoked(publication, entry)
      else after == before
    ensures TurnOk(after, entry, publication, |before|, NextTurn(after, turns + [|before|], |turns|))
  {
    hide OnAt;
    OnAtStays(before, after, entry, |before|);
  }

  lemma ChosenLonger(snapshot: HandlerList, before: seq<BusEvent>, after: seq<BusEvent>, turns: seq<nat>)
    requires |turns| < |snapshot| && before <= after && forall k :: 0 <= k < |turns| ==> turns[k] <= |before|
    ensures Chosen(snapshot, OnAtTurns(snapshot, after, turns + [|before|])) ==
      Chosen(snapshot, OnAtTurns(snapshot, before, turns)) + if OnAt(before, snapshot[|turns|], |before|) then
        [snapshot[|turns|]] else []
  {
    hide OnAt, Chosen, OnAtTurns;
    PlacesLonger(snapshot, before, after, turns);
    ChosenOneMore(snapshot, OnAtTurns(snapshot, before, turns), OnAt(before, snapshot[|turns|], |before|));
  }

  lemma PlacesLonger(snapshot: HandlerList, before: seq<BusEvent>, after: seq<BusEvent>, turns: seq<nat>)
    requires |turns| < |snapshot| && before <= after && forall k :: 0 <= k < |turns| ==> turns[k] <= |before|
    ensures OnAtTurns(snapshot, after, turns + [|before|]) ==
      OnAtTurns(snapshot, before, turns) + [OnAt(before, snapshot[|turns|], |before|)]
  {
    hide OnAt;
    var longer, places := turns + [|before|], OnAtTurns(snapshot, before, turns);
    hide OnAtTurns;
    forall i | 0 <= i < |longer| ensures OnAt(after, snapshot[i], longer[i]) ==
      (places + [OnAt(before, snapshot[|turns|], |before|)])[i]
    {
      OnAtStays(before, after, snapshot[i], longer[i]);
      if i < |turns| { PlaceIs(snapshot, before, turns, i); }
    }
    SamePlaces(snapshot, after, longer, places + [OnAt(before, snapshot[|turns|], |before|)]);
  }

  lemma PlaceIs(snapshot: HandlerList, history: seq<BusEvent>, turns: seq<nat>, i: nat)
    requires |turns| <= |snapshot| && (forall k :: 0 <= k < |turns| ==> turns[k] <= |history|) && i < |turns|
    ensures OnAtTurns(snapshot, history, turns)[i] == OnAt(history, snapshot[i], turns[i])
  {
    hide OnAt;
  }

  lemma SamePlaces(snapshot: HandlerList, history: seq<BusEvent>, turns: seq<nat>, places: seq<bool>)
    requires |turns| == |places| <= |snapshot| && forall i :: 0 <= i < |turns| ==> turns[i] <= |history|
    requires forall i :: 0 <= i < |turns| ==> OnAt(history, snapshot[i], turns[i]) == places[i]
    ensures OnAtTurns(snapshot, history, turns) == places
  {
    hide OnAt;
  }

  lemma ChosenOneMore(handlers: HandlerList, places: seq<bool>, on: bool)
    requires |places| < |handlers|
    ensures Chosen(handlers, places + [on]) == Chosen(handlers, places) + if on then [handlers[|places|]] else []
  {
    assert (places + [on])[..|places|] == places;
  }

  /** The handler is on at its turn, and has been run there. */
  lemma RunTurn(snapshot: HandlerList, begin: nat, before: seq<BusEvent>, after: seq<BusEvent>, publication: nat,
      turns: seq<nat>, invoked: HandlerList)
    requires TurnsDoneIn(snapshot, begin, before, publication, turns, invoked) && |turns| < |snapshot|
    requires OnAt(before, snapshot[|turns|], |before|) && before + [Invoked(publication, snapshot[|turns|])] <= after
    requires forall k :: |before| < k < |after| && after[k].Invoked? ==> after[k].publication != publication
    ensures TurnsDoneIn(snapshot, begin, after, publication, turns + [|before|], invoked + [snapshot[|turns|]])
  {
    hide OnAt, TurnsOk, Chosen, OnAtTurns, InvokedBy;
    var e := snapshot[|turns|];
    assert after[|before|] == (before + [Invoked(publication, e)])[|before|];
    TurnsLonger(snapshot, begin, before, after, publication, turns);
    ChosenLonger(snapshot, before, after, turns);
    InvokedOnce(before, publication, e);
    InvokedSame(before + [Invoked(publication, e)], after, publication);
  }

  /** The handler is off at its turn, and nothing happens. */
  lemma SkipTurn(snapshot: HandlerList, begin: nat, history: seq<BusEvent>, publication: nat, turns: seq<nat>,
      invoked: HandlerList)
    requires TurnsDoneIn(snapshot, begin, history, publication, turns, invoked) && |turns| < |snapshot|
    requires !OnAt(history, snapshot[|turns|], |history|)
    ensures TurnsDoneIn(snapshot, begin, history, publication, turns + [|history|], invoked)
  {
    hide OnAt, TurnsOk, Chosen, OnAtTurns, InvokedBy;
    TurnsLonger(snapshot, begin, history, history, publication, turns);
    ChosenLonger(snapshot, history, history, turns);
  }

  lemma {:induction false} ChosenAre(handlers: HandlerList, places: seq<bool>, e: HandlerEntry)
    requires |places| <= |handlers|
    ensures e in Chosen(handlers, places) <==> exists i :: 0 <= i < |places| && places[i] && handlers[i] == e
    decreases |places|
  {
    if places != [] {
      var n := |places| - 1;
      var front := places[..n];
      ChosenAre(handlers, front, e);
      if i :| 0 <= i < |places| && places[i] && handlers[i] == e {
        assert i < n ==> front[i];
      }
      if i :| 0 <= i < |front| && front[i] && handlers[i] == e {
        assert places[i];
      }
    }
  }

  /** What a publication runs lies between the handlers of the snapshot that are not switched off up to
      its end and those that were not before it began. */
  lemma RunsAllThatStay(snapshot: HandlerList, begin: nat, history: seq<BusEvent>, publication: nat, turns: seq<nat>,
      e: HandlerEntry)
    requires |turns| == |snapshot| && TurnsOk(snapshot, begin, history, publication, turns)
    ensures e in snapshot && SwitchedOff(e) !in history ==> e in Chosen(snapshot, OnAtTurns(snapshot, history, turns))
    ensures e in Chosen(snapshot, OnAtTurns(snapshot, history, turns)) ==>
      e in snapshot && SwitchedOff(e) !in history[..begin]
  {
    var places := OnAtTurns(snapshot, history, turns);
    ChosenAre(snapshot, places, e);
    if i :| 0 <= i < |snapshot| && snapshot[i] == e && SwitchedOff(e) !in history {
      assert OnAt(history, snapshot[i], turns[i]) && places[i];
    }
    if i :| 0 <= i < |places| && places[i] && snapshot[i] == e {
      assert OnAt(history, e, turns[i]) && begin <= turns[i];
      assert forall k :: 0 <= k < begin ==> history[..turns[i]][k] == history[k];
    }
  }
}
