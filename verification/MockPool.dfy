/**
 The pool of API-mock listeners (ApiMockServerPool.ts): which entry owns which
 port, over every interleaving of the awaits inside `start` and `stop`.

 Each start makes a new listener, so a listener is a number here with the phase of
 its one life. A port belongs to the listener that is `Open` on it.
 */
module MockPool {
  import opened JsMap
  import opened Wrappers

  datatype Phase = Starting | Open | Draining | Closed

  datatype Listener = Listener(serverId: string, port: nat, phase: Phase)

  datatype EntryState = Running | DrainingEntry | Stopped

  datatype Entry = Entry(port: nat, state: EntryState, listener: nat)

  datatype State = State(entries: OrderedMap<string, Entry>, listeners: map<nat, Listener>, next: nat)

  function Init(): State {
    State(Empty(), map[], 0)
  }

  datatype Reply =
    | Pending(listener: nat)       // the call goes on after its await
    | Done                         // the call has returned
    | AlreadyRunning(port: nat)    // the rest are throws
    | PortOwned(owner: string)
    | ListenFailed
    | NotFound

  /** `listener.isRunning()`. */
  predicate IsOpen(s: State, l: nat) {
    l in s.listeners && s.listeners[l].phase == Open
  }

  predicate IsRunning(s: State, id: string) {
    id in s.entries.vals && IsOpen(s, s.entries.vals[id].listener)
  }

  /** An entry that still reserves its port. */
  predicate Holds(s: State, id: string) {
    id in s.entries.vals && (s.entries.vals[id].state != Stopped || IsRunning(s, id))
  }

  predicate OwnsPort(s: State, k: string, id: string, port: nat) {
    Holds(s, k) && s.entries.vals[k].port == port && k != id
  }

  /** The first entry in map order, other than `id`, that holds the port. */
  function PortOwner(s: State, keys: seq<string>, id: string, port: nat): Option<string> {
    if keys == [] then None
    else if OwnsPort(s, keys[0], id, port) then Some(keys[0])
    else PortOwner(s, keys[1..], id, port)
  }

  function SetPhase(s: State, l: nat, phase: Phase): State {
    if l in s.listeners then s.(listeners := s.listeners[l := s.listeners[l].(phase := phase)]) else s
  }

  function Restated(s: State, id: string, state: EntryState): State {
    if id in s.entries.vals then s.(entries := Put(s.entries, id, s.entries.vals[id].(state := state))) else s
  }

  datatype Outcome = Outcome(state: State, reply: Reply)

  /** `start` up to the listener's await. */
  function DoBeginStart(s: State, id: string, port: nat): Outcome {
    if IsRunning(s, id) then Outcome(s, AlreadyRunning(s.entries.vals[id].port))
    else
      var owner := PortOwner(s, s.entries.keys, id, port);
      if owner.Some? then Outcome(s, PortOwned(owner.value))
      else Outcome(s.(listeners := s.listeners[s.next := Listener(id, port, Starting)], next := s.next + 1), Pending(s.next))
  }

  predicate PortFree(s: State, port: nat) {
    forall l | l in s.listeners :: s.listeners[l].phase == Open ==> s.listeners[l].port != port
  }

  /** The rest of `start`; `listens` is false when the listener fails for any reason but a port open here. */
  function DoEndStart(s: State, l: nat, listens: bool): Outcome {
    if l !in s.listeners || s.listeners[l].phase != Starting then Outcome(s, NotFound)
    else
      var id, port := s.listeners[l].serverId, s.listeners[l].port;
      if listens && PortFree(s, port)
      then Outcome(SetPhase(s, l, Open).(entries := Put(s.entries, id, Entry(port, Running, l))), Done)
      else Outcome(SetPhase(s, l, Closed), ListenFailed)
  }

  /** `stop` up to the listener's await. */
  function DoBeginStop(s: State, id: string): Outcome {
    if id !in s.entries.vals then Outcome(s, NotFound)
    else if !IsRunning(s, id) then Outcome(Restated(s, id, Stopped), Done)
    else
      var l := s.entries.vals[id].listener;
      Outcome(SetPhase(Restated(s, id, DrainingEntry), l, Draining), Pending(l))
  }

  /** The rest of `stop`: it writes the entry it began with, which may have been replaced since. */
  function DoEndStop(s: State, id: string, l: nat): Outcome {
    if l !in s.listeners || s.listeners[l].phase != Draining then Outcome(s, NotFound)
    else
      var t := SetPhase(s, l, Closed);
      Outcome(if id in s.entries.vals && s.entries.vals[id].listener == l then Restated(t, id, Stopped) else t, Done)
  }

  datatype Event =
    | BeginStart(id: string, port: nat)
    | EndStart(listener: nat, listens: bool)
    | BeginStop(id: string)
    | EndStop(id: string, listener: nat)

  function Step(s: State, e: Event): State {
    match e
    case BeginStart(id, port) => DoBeginStart(s, id, port).state
    case EndStart(l, listens) => DoEndStart(s, l, listens).state
    case BeginStop(id) => DoBeginStop(s, id).state
    case EndStop(id, l) => DoEndStop(s, id, l).state
  }

  /** Events, oldest first, from an empty pool. */
  function Run(events: seq<Event>): State {
    if events == [] then Init() else Step(Run(events[..|events| - 1]), events[|events| - 1])
  }

  /** The entries of `ids` restated, their listeners set to `phase`. */
  function Marked(s: State, ids: set<string>, state: EntryState, phase: Phase): State {
    var vals := map k | k in s.entries.vals :: if k in ids then s.entries.vals[k].(state := state) else s.entries.vals[k];
    var listeners := map l | l in s.listeners ::
      var me := s.listeners[l];
      if me.serverId in ids && Owns(s, me.serverId, l) then me.(phase := phase) else me;
    assert forall k :: k in vals <==> k in s.entries.vals;
    State(RawMap(s.entries.keys, vals), listeners, s.next)
  }

  predicate Owns(s: State, k: string, l: nat) {
    k in s.entries.vals && s.entries.vals[k].listener == l
  }

  function RunningIds(s: State): set<string> {
    set k | k in s.entries.vals && IsRunning(s, k)
  }

  /** Every entry tells its own listener's id, port and phase. */
  ghost predicate EntriesMatch(s: State) {
    forall k | k in s.entries.vals ::
      var e := s.entries.vals[k];
      && e.listener in s.listeners
      && s.listeners[e.listener].serverId == k
      && s.listeners[e.listener].port == e.port
      && s.listeners[e.listener].phase != Starting
      && (e.state == Running <==> s.listeners[e.listener].phase == Open)
  }

  lemma MarkNone(s: State, state: EntryState, phase: Phase)
    ensures Marked(s, {}, state, phase) == s
  {
    assert Marked(s, {}, state, phase).entries.vals == s.entries.vals;
    assert Marked(s, {}, state, phase).listeners == s.listeners;
  }

  lemma MarkBegin(s: State, ids: set<string>, k: string)
    requires EntriesMatch(s) && ids <= RunningIds(s) && k in RunningIds(s) - ids
    ensures DoBeginStop(Marked(s, ids, DrainingEntry, Draining), k)
         == Outcome(Marked(s, ids + {k}, DrainingEntry, Draining), Pending(s.entries.vals[k].listener))
  {
    hide NoDup, RawMap.Valid;
    var m, l := Marked(s, ids, DrainingEntry, Draining), s.entries.vals[k].listener;
    assert k in m.entries.vals && m.entries.vals[k] == s.entries.vals[k] && m.listeners[l] == s.listeners[l];
    var t, want := DoBeginStop(m, k).state, Marked(s, ids + {k}, DrainingEntry, Draining);
    assert t.entries.vals == want.entries.vals;
    assert t.listeners == want.listeners;
  }

  lemma MarkEnd(s: State, all: set<string>, ids: set<string>, k: string)
    requires EntriesMatch(s) && all <= RunningIds(s) && ids <= all && k in all - ids
    ensures var m := Marked(s, all, DrainingEntry, Draining);
      && IsDraining(Marked(m, ids, Stopped, Closed), s.entries.vals[k].listener)
      && DoEndStop(Marked(m, ids, Stopped, Closed), k, s.entries.vals[k].listener).state == Marked(m, ids + {k}, Stopped, Closed)
  {
    hide NoDup, RawMap.Valid;
    var m, l := Marked(s, all, DrainingEntry, Draining), s.entries.vals[k].listener;
    var n := Marked(m, ids, Stopped, Closed);
    assert n.listeners[l] == m.listeners[l] == s.listeners[l].(phase := Draining);
    var t, want := DoEndStop(n, k, l).state, Marked(m, ids + {k}, Stopped, Closed);
    assert t.entries.vals == want.entries.vals;
    assert t.listeners == want.listeners;
  }

  predicate IsDraining(s: State, l: nat) {
    l in s.listeners && s.listeners[l].phase == Draining
  }

  lemma MarkTwice(s: State, ids: set<string>)
    ensures Marked(Marked(s, ids, DrainingEntry, Draining), ids, Stopped, Closed) == Marked(s, ids, Stopped, Closed)
  {
    var a, b := Marked(Marked(s, ids, DrainingEntry, Draining), ids, Stopped, Closed), Marked(s, ids, Stopped, Closed);
    assert a.entries.vals == b.entries.vals && a.listeners == b.listeners;
  }

  // ---- The pool as written ----

  class ApiMockServerPool {
    var entries: OrderedMap<string, Entry>
    var listeners: map<nat, Listener>
    var next: nat

    ghost function Now(): State
      reads this
    {
      State(entries, listeners, next)
    }

    constructor ()
      ensures Now() == Init()
    {
      entries, listeners, next := Empty(), map[], 0;
    }

    method FindPortOwner(id: string, port: nat) returns (owner: Option<string>)
      ensures owner == PortOwner(Now(), entries.keys, id, port)
    {
      assert entries.keys[0..] == entries.keys;
      for i := 0 to |entries.keys|
        invariant PortOwner(Now(), entries.keys, id, port) == PortOwner(Now(), entries.keys[i..], id, port)
      {
        var k := entries.keys[i];
        var e := entries.vals[k];
        assert entries.keys[i..][0] == k && entries.keys[i..][1..] == entries.keys[i + 1..];
        if e.port == port && k != id && (e.state != Stopped || (e.listener in listeners && listeners[e.listener].phase == Open)) {
          return Some(k);
        }
      }
      return None;
    }

    method StartBegin(id: string, port: nat) returns (reply: Reply)
      modifies this
      ensures Outcome(Now(), reply) == DoBeginStart(old(Now()), id, port)
    {
      if id in entries.vals && IsOpen(State(entries, listeners, next), entries.vals[id].listener) {
        return AlreadyRunning(entries.vals[id].port);
      }
      var owner := FindPortOwner(id, port);
      if owner.Some? {
        return PortOwned(owner.value);
      }
      listeners := listeners[next := Listener(id, port, Starting)];
      next := next + 1;
      return Pending(next - 1);
    }

    method StartEnd(l: nat, listens: bool) returns (reply: Reply)
      requires l in listeners && listeners[l].phase == Starting
      modifies this
      ensures Outcome(Now(), reply) == DoEndStart(old(Now()), l, listens)
    {
      var id, port := listeners[l].serverId, listeners[l].port;
      if !listens || !PortFree(State(entries, listeners, next), port) {
        listeners := listeners[l := listeners[l].(phase := Closed)];
        return ListenFailed;
      }
      listeners := listeners[l := listeners[l].(phase := Open)];
      entries := Put(entries, id, Entry(port, Running, l));
      return Done;
    }

    method StopBegin(id: string) returns (reply: Reply)
      modifies this
      ensures Outcome(Now(), reply) == DoBeginStop(old(Now()), id)
    {
      if id !in entries.vals {
        return NotFound;
      }
      var entry := entries.vals[id];
      if !IsOpen(State(entries, listeners, next), entry.listener) {
        entries := Put(entries, id, entry.(state := Stopped));
        return Done;
      }
      entries := Put(entries, id, entry.(state := DrainingEntry));
      listeners := listeners[entry.listener := listeners[entry.listener].(phase := Draining)];
      return Pending(entry.listener);
    }

    method StopEnd(id: string, l: nat)
      requires l in listeners && listeners[l].phase == Draining
      modifies this
      ensures Now() == DoEndStop(old(Now()), id, l).state
    {
      listeners := listeners[l := listeners[l].(phase := Closed)];
      if id in entries.vals && entries.vals[id].listener == l {
        entries := Put(entries, id, entries.vals[id].(state := Stopped));
      }
    }

    /** All stops begin before any of them ends. */
    method StopAll()
      requires EntriesMatch(Now())
      modifies this
      ensures Now() == Marked(old(Now()), RunningIds(old(Now())), Stopped, Closed)
    {
      hide NoDup, RawMap.Valid, Marked, EntriesMatch, DoBeginStop, DoEndStop;
      ghost var was := Now();
      var running := FindRunning();
      ghost var all := RunningIds(was);
      FirstsAll(running);
      assert Firsts(running, |running|) == all;
      assert forall j | 0 <= j < |running| :: running[j] in all;
      MarkNone(was, DrainingEntry, Draining);
      var begun: seq<nat> := [];
      for i := 0 to |running|
        invariant |begun| == i
        invariant forall j | 0 <= j < i :: Owns(was, running[j], begun[j])
        invariant Now() == Marked(was, Firsts(running, i), DrainingEntry, Draining)
      {
        MarkBegin(was, Firsts(running, i), running[i]);
        FirstsGrow(running, i);
        var reply := StopBegin(running[i]);
        begun := begun + [reply.listener];
      }
      ghost var m := Now();
      MarkNone(m, Stopped, Closed);
      for i := 0 to |running|
        invariant Now() == Marked(m, Firsts(running, i), Stopped, Closed)
      {
        MarkEnd(was, all, Firsts(running, i), running[i]);
        assert Owns(was, running[i], begun[i]);
        FirstsGrow(running, i);
        StopEnd(running[i], begun[i]);
      }
      MarkTwice(was, all);
    }

    method FindRunning() returns (ids: seq<string>)
      ensures NoDup(ids)
      ensures forall k :: k in ids <==> k in RunningIds(Now())
    {
      ids := [];
      for i := 0 to |entries.keys|
        invariant forall k :: k in ids <==> k in entries.keys[..i] && IsRunning(Now(), k)
        invariant NoDup(ids)
      {
        var k := entries.keys[i];
        assert k !in entries.keys[..i];
        if IsOpen(State(entries, listeners, next), entries.vals[k].listener) {
          ids := ids + [k];
        }
      }
    }
  }

  ghost function Firsts(ids: seq<string>, i: nat): set<string>
    requires i <= |ids|
  {
    set k | k in ids[..i]
  }

  lemma FirstsGrow(ids: seq<string>, i: nat)
    requires i < |ids| && NoDup(ids)
    ensures ids[i] !in Firsts(ids, i)
    ensures Firsts(ids, i + 1) == Firsts(ids, i) + {ids[i]}
    ensures forall k | k in Firsts(ids, i) :: k in ids
  {
    assert ids[..i + 1] == ids[..i] + [ids[i]];
  }

  lemma FirstsAll(ids: seq<string>)
    ensures forall k :: k in Firsts(ids, |ids|) <==> k in ids
    ensures Firsts(ids, 0) == {}
  {
    assert ids[..|ids|] == ids;
  }

  // ---- Ownership over every run ----

  /** The rest of a start that will listen, on a free port, for an id whose server runs by now. */
  predicate Replaces(s: State, e: Event) {
    && e.EndStart? && e.listens
    && e.listener in s.listeners && s.listeners[e.listener].phase == Starting
    && PortFree(s, s.listeners[e.listener].port)
    && IsRunning(s, s.listeners[e.listener].serverId)
  }

  /** The open listener such an event drops from its entry. */
  function LostBy(s: State, e: Event): set<nat> {
    if Replaces(s, e) then {s.entries.vals[s.listeners[e.listener].serverId].listener} else {}
  }

  function Lost(events: seq<Event>): set<nat> {
    if events == [] then {}
    else Lost(events[..|events| - 1]) + LostBy(Run(events[..|events| - 1]), events[|events| - 1])
  }

  ghost predicate OpenKnown(s: State, lost: set<nat>) {
    && (forall l | l in s.listeners :: l < s.next)
    && (forall l | l in s.listeners && s.listeners[l].phase == Open :: Owns(s, s.listeners[l].serverId, l) || l in lost)
    && (forall l | l in lost :: IsOpen(s, l) && !Owns(s, s.listeners[l].serverId, l))
  }

  ghost predicate PortsApart(s: State) {
    forall j, l | j in s.listeners && l in s.listeners ::
      s.listeners[j].phase == Open && s.listeners[l].phase == Open && s.listeners[j].port == s.listeners[l].port ==> j == l
  }

  ghost predicate Sound(s: State, lost: set<nat>) {
    EntriesMatch(s) && OpenKnown(s, lost) && PortsApart(s)
  }

  lemma BeginStartSound(s: State, id: string, port: nat, lost: set<nat>)
    requires Sound(s, lost)
    ensures Sound(DoBeginStart(s, id, port).state, lost)
  {
  }

  lemma EndStartPorts(s: State, l: nat, listens: bool)
    requires PortsApart(s)
    ensures PortsApart(DoEndStart(s, l, listens).state)
  {
    hide NoDup, RawMap.Valid, Put;
  }

  lemma EndStartSound(s: State, l: nat, listens: bool, lost: set<nat>)
    requires Sound(s, lost)
    ensures Sound(DoEndStart(s, l, listens).state, lost + LostBy(s, EndStart(l, listens)))
  {
    EndStartPorts(s, l, listens);
    EndStartEntries(s, l, listens);
    EndStartOpen(s, l, listens, lost);
    hide NoDup, RawMap.Valid, EntriesMatch, OpenKnown, PortsApart, DoEndStart, LostBy;
  }

  lemma EndStartEntries(s: State, l: nat, listens: bool)
    requires EntriesMatch(s)
    ensures EntriesMatch(DoEndStart(s, l, listens).state)
  {
    hide NoDup, RawMap.Valid, PortFree;
  }

  lemma EndStartOpen(s: State, l: nat, listens: bool, lost: set<nat>)
    requires EntriesMatch(s) && OpenKnown(s, lost)
    ensures OpenKnown(DoEndStart(s, l, listens).state, lost + LostBy(s, EndStart(l, listens)))
  {
    hide NoDup, RawMap.Valid, PortFree;
    var t, more := DoEndStart(s, l, listens).state, LostBy(s, EndStart(l, listens));
    if more == {} {
      assert lost + more == lost;
    }
  }

  lemma BeginStopEntries(s: State, id: string)
    requires EntriesMatch(s)
    ensures EntriesMatch(DoBeginStop(s, id).state)
  {
    hide NoDup, RawMap.Valid;
  }

  lemma BeginStopOpen(s: State, id: string, lost: set<nat>)
    requires EntriesMatch(s) && OpenKnown(s, lost)
    ensures OpenKnown(DoBeginStop(s, id).state, lost)
  {
    hide NoDup, RawMap.Valid;
  }

  lemma BeginStopPorts(s: State, id: string)
    requires PortsApart(s)
    ensures PortsApart(DoBeginStop(s, id).state)
  {
    hide NoDup, RawMap.Valid;
  }

  lemma BeginStopSound(s: State, id: string, lost: set<nat>)
    requires Sound(s, lost)
    ensures Sound(DoBeginStop(s, id).state, lost)
  {
    hide DoBeginStop, EntriesMatch, OpenKnown, PortsApart;
    BeginStopEntries(s, id);
    BeginStopOpen(s, id, lost);
    BeginStopPorts(s, id);
  }

  lemma EndStopEntries(s: State, id: string, l: nat)
    requires EntriesMatch(s)
    ensures EntriesMatch(DoEndStop(s, id, l).state)
  {
    hide NoDup, RawMap.Valid;
  }

  lemma EndStopOpen(s: State, id: string, l: nat, lost: set<nat>)
    requires EntriesMatch(s) && OpenKnown(s, lost)
    ensures OpenKnown(DoEndStop(s, id, l).state, lost)
  {
    hide NoDup, RawMap.Valid;
  }

  lemma EndStopPorts(s: State, id: string, l: nat)
    requires PortsApart(s)
    ensures PortsApart(DoEndStop(s, id, l).state)
  {
    hide NoDup, RawMap.Valid;
  }

  lemma EndStopSound(s: State, id: string, l: nat, lost: set<nat>)
    requires Sound(s, lost)
    ensures Sound(DoEndStop(s, id, l).state, lost)
  {
    hide DoEndStop, EntriesMatch, OpenKnown, PortsApart;
    EndStopEntries(s, id, l);
    EndStopOpen(s, id, l, lost);
    EndStopPorts(s, id, l);
  }

  lemma {:induction false} RunSound(events: seq<Event>)
    ensures Sound(Run(events), Lost(events))
  {
    if events == [] {
    } else {
      var prefix, e := events[..|events| - 1], events[|events| - 1];
      RunSound(prefix);
      var s, lost := Run(prefix), Lost(prefix);
      hide Sound;
      match e
      case BeginStart(id, port) =>
        BeginStartSound(s, id, port, lost);
        assert lost + {} == lost;
      case EndStart(l, listens) => EndStartSound(s, l, listens, lost);
      case BeginStop(id) =>
        BeginStopSound(s, id, lost);
        assert lost + {} == lost;
      case EndStop(id, l) =>
        EndStopSound(s, id, l, lost);
        assert lost + {} == lost;
    }
  }

  /**
   Every run: the open listeners are those of running entries and, besides, the
   ones dropped while open; ports of open listeners differ, and an entry tells its
   listener's port.
   */
  lemma OpenListeners(events: seq<Event>, l: nat)
    ensures var s := Run(events);
      && (IsOpen(s, l) <==> l in Lost(events) || exists k :: IsRunning(s, k) && Owns(s, k, l))
      && (l in Lost(events) ==> !exists k :: Owns(s, k, l))
      && (forall k | IsRunning(s, k) && Owns(s, k, l) ::
            s.entries.vals[k].port == s.listeners[l].port && s.entries.vals[k].state == Running)
      && (forall j | IsOpen(s, l) && IsOpen(s, j) && s.listeners[j].port == s.listeners[l].port :: j == l)
  {
    RunSound(events);
    hide NoDup, RawMap.Valid, Run, Lost;
    var s := Run(events);
    if IsOpen(s, l) && l !in Lost(events) {
      assert IsRunning(s, s.listeners[l].serverId) && Owns(s, s.listeners[l].serverId, l);
    }
  }

  /** A dropped listener stays open for good: no later event closes it. */
  lemma LostForGood(events: seq<Event>, e: Event)
    ensures Lost(events) <= Lost(events + [e])
    ensures forall l | l in Lost(events) :: IsOpen(Run(events + [e]), l)
  {
    assert (events + [e])[..|events|] == events;
    RunSound(events + [e]);
    hide Run, EntriesMatch, PortsApart;
  }

  // ---- When the pool can reach every open listener ----

  /** Every open listener is its own entry's, so a stop of its id closes it. */
  ghost predicate AllOwned(s: State) {
    forall l | IsOpen(s, l) :: Owns(s, s.listeners[l].serverId, l)
  }

  lemma OwnedMeansNoneLost(events: seq<Event>)
    ensures AllOwned(Run(events)) <==> Lost(events) == {}
  {
    RunSound(events);
    hide NoDup, RawMap.Valid, Run, Lost, EntriesMatch, PortsApart;
    if l :| l in Lost(events) {
      assert IsOpen(Run(events), l);
    }
  }

  /** In any reachable state where all are owned, a step keeps that exactly when it replaces no running server; one it replaces is on another port. */
  lemma StaysOwnedExactly(events: seq<Event>, e: Event)
    requires AllOwned(Run(events))
    ensures AllOwned(Run(events + [e])) <==> !Replaces(Run(events), e)
    ensures Replaces(Run(events), e) ==>
      var s := Run(events); var l := s.listeners[e.listener]; s.entries.vals[l.serverId].port != l.port
  {
    OwnedMeansNoneLost(events);
    OwnedMeansNoneLost(events + [e]);
    assert (events + [e])[..|events|] == events;
    RunSound(events);
    hide NoDup, RawMap.Valid, Run, AllOwned, OpenKnown, PortsApart;
  }

  predicate NoneReplaces(events: seq<Event>) {
    events == [] ||
    (NoneReplaces(events[..|events| - 1]) && !Replaces(Run(events[..|events| - 1]), events[|events| - 1]))
  }

  /** After any run the pool reaches every open listener exactly when nothing in it replaced a running server: once lost is lost for good. */
  lemma {:induction false} AllOwnedExactly(events: seq<Event>)
    ensures AllOwned(Run(events)) <==> NoneReplaces(events)
  {
    OwnedMeansNoneLost(events);
    if events != [] {
      AllOwnedExactly(events[..|events| - 1]);
      OwnedMeansNoneLost(events[..|events| - 1]);
      hide AllOwned, Run, Replaces;
    }
  }

  // ---- Starts of one id that do not overlap ----

  predicate NoneStarting(s: State, id: string) {
    forall l | l in s.listeners :: s.listeners[l].serverId == id ==> s.listeners[l].phase != Starting
  }

  predicate StartsApart(events: seq<Event>) {
    events == [] ||
    (var e := events[|events| - 1];
     && StartsApart(events[..|events| - 1])
     && (e.BeginStart? ==> NoneStarting(Run(events[..|events| - 1]), e.id)))
  }

  ghost predicate OneStarting(s: State) {
    && (forall l | l in s.listeners :: l < s.next)
    && (forall l | l in s.listeners && s.listeners[l].phase == Starting :: !IsRunning(s, s.listeners[l].serverId))
    && (forall j, l | j in s.listeners && l in s.listeners && s.listeners[j].serverId == s.listeners[l].serverId ::
          s.listeners[j].phase == Starting && s.listeners[l].phase == Starting ==> j == l)
    && (forall k | k in s.entries.vals :: s.entries.vals[k].listener in s.listeners
          && s.listeners[s.entries.vals[k].listener].serverId == k)
  }

  lemma BeginOneStarting(s: State, id: string, port: nat)
    requires OneStarting(s) && NoneStarting(s, id)
    ensures OneStarting(DoBeginStart(s, id, port).state)
  {
    hide NoDup, RawMap.Valid, PortOwner;
  }

  lemma EndOneStarting(s: State, l: nat, listens: bool)
    requires OneStarting(s)
    ensures OneStarting(DoEndStart(s, l, listens).state)
    ensures LostBy(s, EndStart(l, listens)) == {}
  {
    hide NoDup, RawMap.Valid, PortFree;
  }

  lemma BeginStopOneStarting(s: State, id: string)
    requires OneStarting(s)
    ensures OneStarting(DoBeginStop(s, id).state)
  {
    hide NoDup, RawMap.Valid;
  }

  lemma EndStopOneStarting(s: State, id: string, l: nat)
    requires OneStarting(s)
    ensures OneStarting(DoEndStop(s, id, l).state)
  {
    hide NoDup, RawMap.Valid;
  }

  lemma StepOneStarting(s: State, e: Event)
    requires OneStarting(s)
    requires e.BeginStart? ==> NoneStarting(s, e.id)
    ensures OneStarting(Step(s, e))
    ensures LostBy(s, e) == {}
  {
    hide OneStarting, NoneStarting, DoBeginStart, DoEndStart, DoBeginStop, DoEndStop;
    match e
    case BeginStart(id, port) => BeginOneStarting(s, id, port);
    case EndStart(l, listens) => EndOneStarting(s, l, listens);
    case BeginStop(id) => BeginStopOneStarting(s, id);
    case EndStop(id, l) => EndStopOneStarting(s, id, l);
  }

  lemma {:induction false} ApartLosesNone(events: seq<Event>)
    requires StartsApart(events)
    ensures OneStarting(Run(events))
    ensures Lost(events) == {}
  {
    if events == [] {
    } else {
      ApartLosesNone(events[..|events| - 1]);
      hide OneStarting, Step, LostBy;
      StepOneStarting(Run(events[..|events| - 1]), events[|events| - 1]);
    }
  }

  function ReservedPorts(s: State): set<nat> {
    set k | k in s.entries.vals && Holds(s, k) :: s.entries.vals[k].port
  }

  /** If starts of one id never overlap, the pool can reach every open listener, and reserves its port. */
  lemma PoolOwnsAll(events: seq<Event>, l: nat)
    requires StartsApart(events)
    ensures var s := Run(events);
      IsOpen(s, l) ==>
        && IsRunning(s, s.listeners[l].serverId)
        && s.entries.vals[s.listeners[l].serverId].listener == l
        && s.listeners[l].port in ReservedPorts(s)
  {
    RunSound(events);
    ApartLosesNone(events);
    hide NoDup, RawMap.Valid, Run, Lost, PortsApart;
    var s := Run(events);
    if IsOpen(s, l) {
      assert Owns(s, s.listeners[l].serverId, l);
      assert Holds(s, s.listeners[l].serverId);
    }
  }

  /** No two running servers share a port. */
  lemma RunningPortsDiffer(events: seq<Event>, j: string, k: string)
    requires IsRunning(Run(events), j) && IsRunning(Run(events), k) && j != k
    ensures Run(events).entries.vals[j].port != Run(events).entries.vals[k].port
  {
    RunSound(events);
    hide NoDup, RawMap.Valid, Run, Lost;
  }

  lemma {:induction false} PortOwnerFinds(s: State, keys: seq<string>, id: string, port: nat)
    ensures var owner := PortOwner(s, keys, id, port);
      && (owner.Some? ==> owner.value in keys && OwnsPort(s, owner.value, id, port))
      && (owner == None ==> forall k | k in keys :: !OwnsPort(s, k, id, port))
  {
    if keys != [] {
      PortOwnerFinds(s, keys[1..], id, port);
    }
  }

  /** A start is refused exactly when its server runs or another entry holds the port, and a refusal changes nothing. */
  lemma StartRefused(s: State, id: string, port: nat)
    ensures var o := DoBeginStart(s, id, port);
      && (!o.reply.Pending? ==> o.state == s)
      && (o.reply.Pending? <==> !IsRunning(s, id) && !exists k :: OwnsPort(s, k, id, port))
      && (o.reply.PortOwned? ==> OwnsPort(s, o.reply.owner, id, port))
      && (o.reply.AlreadyRunning? <==> IsRunning(s, id))
      && (o.reply.AlreadyRunning? ==> o.reply.port == s.entries.vals[id].port)
      && (o.reply.Pending? ==> var l := o.reply.listener; l !in s.listeners || l == s.next)
      && (o.reply.Pending? ==> o.state.listeners == s.listeners[o.reply.listener := Listener(id, port, Starting)] && o.state.entries == s.entries)
  {
    PortOwnerFinds(s, s.entries.keys, id, port);
    hide NoDup, PortOwner;
  }

  /** A start that listens makes its entry running on its port; one that does not leaves the entries alone. */
  lemma StartEnds(s: State, l: nat, listens: bool)
    requires l in s.listeners && s.listeners[l].phase == Starting
    ensures var o, me := DoEndStart(s, l, listens), s.listeners[l];
      && (o.reply == Done || o.reply == ListenFailed)
      && (o.reply == Done <==> listens && forall k | IsOpen(s, k) :: s.listeners[k].port != me.port)
      && (o.reply == Done ==> IsOpen(o.state, l) && o.state.entries.vals == s.entries.vals[me.serverId := Entry(me.port, Running, l)])
      && (o.reply == ListenFailed ==> !IsOpen(o.state, l) && o.state.entries == s.entries)
      && forall k | k != l :: IsOpen(o.state, k) <==> IsOpen(s, k)
  {
    hide NoDup, RawMap.Valid;
  }

  /**
   Stopping a running server: its socket closes at once, its port stays reserved
   against other ids until the drain ends, and only then is it free.
   */
  lemma StopReserves(events: seq<Event>, id: string, other: string)
    requires IsRunning(Run(events), id) && other != id
    ensures var s := Run(events); var l, port := s.entries.vals[id].listener, s.entries.vals[id].port;
      var draining, reply := DoBeginStop(s, id).state, DoBeginStop(s, id).reply;
      var stopped := DoEndStop(draining, id, l).state;
      && reply == Pending(l) && !IsOpen(draining, l)
      && draining.entries.vals[id] == Entry(port, DrainingEntry, l)
      && port in ReservedPorts(draining) && !DoBeginStart(draining, other, port).reply.Pending?
      && stopped.entries.vals[id] == Entry(port, Stopped, l) && stopped.listeners[l].phase == Closed && !Holds(stopped, id)
  {
    var s := Run(events);
    RunSound(events);
    hide NoDup, RawMap.Valid, Run, Lost, PortOwner, OpenKnown, PortsApart;
    var draining := DoBeginStop(s, id).state;
    StartRefused(draining, other, s.entries.vals[id].port);
    hide DoBeginStart;
    assert Holds(draining, id);
    assert OwnsPort(draining, id, other, s.entries.vals[id].port);
  }

  /** Stopping what does not run answers at once and opens or closes nothing. */
  lemma StopOfStopped(s: State, id: string)
    requires !IsRunning(s, id)
    ensures var o := DoBeginStop(s, id);
      && (o.reply == NotFound <==> id !in s.entries.vals) && (o.reply == Done <==> id in s.entries.vals)
      && o.state.listeners == s.listeners
      && (id in s.entries.vals ==> o.state.entries.vals == s.entries.vals[id := s.entries.vals[id].(state := Stopped)])
  {
    hide NoDup, RawMap.Valid;
  }

  /** While nothing has replaced a running server, a port open under another id is always refused. */
  lemma OpenPortRefused(events: seq<Event>, id: string, port: nat, l: nat)
    requires NoneReplaces(events)
    requires var s := Run(events); IsOpen(s, l) && s.listeners[l].port == port && s.listeners[l].serverId != id
    ensures !DoBeginStart(Run(events), id, port).reply.Pending?
  {
    var s := Run(events);
    AllOwnedExactly(events);
    RunSound(events);
    StartRefused(s, id, port);
    hide NoDup, RawMap.Valid, Run, NoneReplaces, DoBeginStart, OpenKnown, PortsApart;
    assert OwnsPort(s, s.listeners[l].serverId, id, port);
  }

  const TWICE := [BeginStart("a", 1), BeginStart("a", 2), EndStart(0, true), EndStart(1, true), BeginStop("a")]

  /** Two overlapping starts of one id on different ports: the first listener stays open and no stop finds it. */
  lemma OverlappingStartsLeak()
    ensures IsOpen(Run(TWICE), 0) && !IsRunning(Run(TWICE), "a")
  {
    hide NoDup, RawMap.Valid;
    BothOpen();
    RunPrefix(TWICE, 4);
    hide Run;
    assert TWICE[..5] == TWICE;
  }

  lemma BothOpen()
    ensures var s := Run(TWICE[..4]);
      s.listeners == map[0 := Listener("a", 1, Open), 1 := Listener("a", 2, Open)] && Owns(s, "a", 1)
  {
    hide NoDup, RawMap.Valid, Run;
    RunPrefix(TWICE, 0);
    RunPrefix(TWICE, 1);
    RunPrefix(TWICE, 2);
    RunPrefix(TWICE, 3);
  }

  lemma RunPrefix(events: seq<Event>, k: nat)
    requires k < |events|
    ensures Run(events[..0]) == Init()
    ensures Run(events[..k + 1]) == Step(Run(events[..k]), events[k])
  {
    assert events[..k + 1][..k] == events[..k];
  }
}
