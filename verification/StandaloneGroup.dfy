/**
 Starting a group of mock servers in one process (cli/mockStandalone.ts): all of
 them run, or none does. The pool is private to the call, so each awaited start
 or stop finishes before anything else touches the pool.
 */
module StandaloneGroup {
  import opened JsMap
  import opened MockPool
  import opened Wrappers

  datatype Definition = Definition(id: string, port: nat)

  datatype StartError = Failed(reply: Reply) | RolledBack

  datatype StartResult = StartResult(serverId: string, ok: bool, port: Option<nat>, error: Option<StartError>)

  /** An awaited `pool.start`; `listens` is false when the listener fails other than for a port open in this pool. */
  function Started(s: State, d: Definition, listens: bool): Outcome {
    var b := DoBeginStart(s, d.id, d.port);
    if b.reply.Pending? then DoEndStart(b.state, b.reply.listener, listens) else b
  }

  /** The pool after starting the servers in turn, whatever became of each. */
  function GroupState(servers: seq<Definition>, listens: seq<bool>): State
    requires |servers| == |listens|
  {
    if servers == [] then Init()
    else
      var n := |servers| - 1;
      Started(GroupState(servers[..n], listens[..n]), servers[n], listens[n]).state
  }

  /** What the start of server `i` answered. */
  function ReplyTo(servers: seq<Definition>, listens: seq<bool>, i: nat): Reply
    requires i < |servers| == |listens|
  {
    Started(GroupState(servers[..i], listens[..i]), servers[i], listens[i]).reply
  }

  predicate AllStarted(servers: seq<Definition>, listens: seq<bool>)
    requires |servers| == |listens|
  {
    forall i | 0 <= i < |servers| :: ReplyTo(servers, listens, i) == Done
  }

  // ---- What holds while the group starts ----

  ghost predicate Settled(s: State) {
    && EntriesMatch(s)
    && (forall l | l in s.listeners :: l < s.next)
    && (forall k | k in s.entries.vals :: s.entries.vals[k].state == Running)
    && (forall l | IsOpen(s, l) :: Owns(s, s.listeners[l].serverId, l))
  }

  predicate PortTaken(s: State, port: nat) {
    exists k :: k in s.entries.vals && s.entries.vals[k].port == port
  }

  lemma OwnerIsTaken(s: State, id: string, port: nat)
    requires Settled(s) && id !in s.entries.vals
    ensures PortOwner(s, s.entries.keys, id, port).Some? <==> PortTaken(s, port)
    ensures PortFree(s, port) <== !PortTaken(s, port)
  {
    hide NoDup;
    PortOwnerFinds(s, s.entries.keys, id, port);
    if PortTaken(s, port) {
      var k :| k in s.entries.vals && s.entries.vals[k].port == port;
      assert OwnsPort(s, k, id, port);
    }
    if l :| l in s.listeners && s.listeners[l].phase == Open && s.listeners[l].port == port {
      assert IsOpen(s, l) && Owns(s, s.listeners[l].serverId, l);
    }
  }

  /** A start in a settled pool succeeds exactly for a new id on a free port that listens, and then adds its entry; a failure leaves the entries as they were. */
  lemma StartSettled(s: State, d: Definition, listens: bool)
    requires Settled(s)
    ensures var o := Started(s, d, listens);
      && Settled(o.state)
      && (o.reply == Done <==> d.id !in s.entries.vals && !PortTaken(s, d.port) && listens)
      && (o.reply != Done ==> o.state.entries == s.entries)
      && (o.reply == Done ==> o.state.entries.vals == s.entries.vals[d.id := Entry(d.port, Running, s.next)])
  {
    hide NoDup, RawMap.Valid, PortOwner, PortFree, PortTaken;
    if d.id !in s.entries.vals {
      OwnerIsTaken(s, d.id, d.port);
      StartFresh(s, d, listens);
    }
  }

  lemma StartFresh(s: State, d: Definition, listens: bool)
    requires Settled(s) && d.id !in s.entries.vals
    ensures var o, owner := Started(s, d, listens), PortOwner(s, s.entries.keys, d.id, d.port);
      && Settled(o.state)
      && (owner.Some? ==> o == Outcome(s, PortOwned(owner.value)))
      && (owner == None && PortFree(s, d.port) && listens ==>
            o.reply == Done && o.state.entries.vals == s.entries.vals[d.id := Entry(d.port, Running, s.next)])
      && (o.reply == Done ==> owner == None && listens)
      && (o.reply != Done ==> o.state.entries == s.entries)
  {
    hide NoDup, RawMap.Valid, PortOwner, Settled, EntriesMatch, PortFree, DoEndStart, Put;
    RunsNot(s, d.id);
    if PortOwner(s, s.entries.keys, d.id, d.port) == None {
      StartPending(s, d, listens);
    }
  }

  lemma RunsNot(s: State, id: string)
    requires id !in s.entries.vals
    ensures !IsRunning(s, id)
  {
  }

  /** The listener's part of a start that nothing refused. */
  lemma StartPending(s: State, d: Definition, listens: bool)
    requires Settled(s) && d.id !in s.entries.vals
    ensures var b := s.(listeners := s.listeners[s.next := Listener(d.id, d.port, Starting)], next := s.next + 1);
      var o := DoEndStart(b, s.next, listens);
      && Settled(o.state)
      && (PortFree(b, d.port) <==> PortFree(s, d.port))
      && (PortFree(s, d.port) && listens ==>
            o.reply == Done && o.state.entries.vals == s.entries.vals[d.id := Entry(d.port, Running, s.next)])
      && (o.reply == Done ==> listens)
      && (o.reply != Done ==> o.state.entries == s.entries)
  {
    hide NoDup, RawMap.Valid;
    var b := s.(listeners := s.listeners[s.next := Listener(d.id, d.port, Starting)], next := s.next + 1);
    assert forall l | l in s.listeners :: b.listeners[l] == s.listeners[l];
  }

  predicate Has(s: State, d: Definition) {
    d.id in s.entries.vals && s.entries.vals[d.id].port == d.port
  }

  /** Server `i` is `d`, and its start succeeded. */
  predicate StartedAs(servers: seq<Definition>, listens: seq<bool>, i: nat, d: Definition)
    requires |servers| == |listens|
  {
    i < |servers| && servers[i] == d && ReplyTo(servers, listens, i) == Done
  }

  /** The entries are those of the servers whose start succeeded. */
  ghost predicate FromServers(s: State, servers: seq<Definition>, listens: seq<bool>)
    requires |servers| == |listens|
  {
    forall d :: Has(s, d) <==> exists i :: StartedAs(servers, listens, i, d)
  }

  lemma StartedPrefix(servers: seq<Definition>, listens: seq<bool>, n: nat, i: nat, d: Definition)
    requires i < n <= |servers| == |listens|
    ensures StartedAs(servers[..n], listens[..n], i, d) <==> StartedAs(servers, listens, i, d)
  {
    assert servers[..n][..i] == servers[..i] && listens[..n][..i] == listens[..i];
  }

  lemma {:induction false} GroupLaw(servers: seq<Definition>, listens: seq<bool>)
    requires |servers| == |listens|
    ensures Settled(GroupState(servers, listens))
    ensures FromServers(GroupState(servers, listens), servers, listens)
  {
    if servers == [] {
    } else {
      var n := |servers| - 1;
      var s, t := GroupState(servers[..n], listens[..n]), GroupState(servers, listens);
      GroupLaw(servers[..n], listens[..n]);
      StartSettled(s, servers[n], listens[n]);
      hide NoDup, RawMap.Valid, Settled, PortTaken, Started, Has;
      forall d ensures Has(t, d) <==> exists i :: StartedAs(servers, listens, i, d) {
        StartedHas(s, servers[n], listens[n], d);
        HasNow(servers, listens, s, t, d);
      }
    }
  }

  /** What a start adds. */
  lemma StartedHas(s: State, server: Definition, listens: bool, d: Definition)
    requires Settled(s)
    ensures var o := Started(s, server, listens); Has(o.state, d) <==> Has(s, d) || (o.reply == Done && d == server)
  {
    StartSettled(s, server, listens);
    hide NoDup, RawMap.Valid, Settled, PortTaken, Started;
  }

  lemma HasNow(servers: seq<Definition>, listens: seq<bool>, s: State, t: State, d: Definition)
    requires |servers| == |listens| > 0
    requires FromServers(s, servers[..|servers| - 1], listens[..|servers| - 1])
    requires Has(t, d) <==> Has(s, d) || StartedAs(servers, listens, |servers| - 1, d)
    ensures Has(t, d) <==> exists i :: StartedAs(servers, listens, i, d)
  {
    hide ReplyTo, Has;
    var n := |servers| - 1;
    if Has(s, d) {
      var i :| StartedAs(servers[..n], listens[..n], i, d);
      StartedPrefix(servers, listens, n, i, d);
    }
    if i: nat :| StartedAs(servers, listens, i, d) {
      if i < n {
        StartedPrefix(servers, listens, n, i, d);
        assert StartedAs(servers[..n], listens[..n], i, d);
      } else {
        assert i == n;
      }
    }
  }

  // ---- When the whole group starts ----

  predicate Clash(a: Definition, b: Definition) {
    a.id == b.id || a.port == b.port
  }

  lemma EntryWasStarted(servers: seq<Definition>, listens: seq<bool>, j: nat, d: Definition)
    requires j <= |servers| == |listens|
    ensures Has(GroupState(servers[..j], listens[..j]), d)
       <==> exists i: nat :: i < j && StartedAs(servers, listens, i, d)
  {
    GroupLaw(servers[..j], listens[..j]);
    var s := GroupState(servers[..j], listens[..j]);
    hide GroupState, Has, ReplyTo, Settled;
    if Has(s, d) {
      var i: nat :| StartedAs(servers[..j], listens[..j], i, d);
      StartedPrefix(servers, listens, j, i, d);
    }
    if i: nat :| i < j && StartedAs(servers, listens, i, d) {
      StartedPrefix(servers, listens, j, i, d);
      assert StartedAs(servers[..j], listens[..j], i, d);
    }
  }

  predicate ClashesIn(s: State, d: Definition) {
    d.id in s.entries.vals || PortTaken(s, d.port)
  }

  lemma ClashesMeans(s: State, d: Definition)
    ensures ClashesIn(s, d) <==> exists e :: Has(s, e) && Clash(e, d)
  {
    hide NoDup, RawMap.Valid;
    if ClashesIn(s, d) {
      var k :| k in s.entries.vals && (k == d.id || s.entries.vals[k].port == d.port);
      assert Has(s, Definition(k, s.entries.vals[k].port));
    }
  }

  /** Server `j` starts exactly when it listens and no earlier server that started has its id or its port. */
  lemma StartsWhen(servers: seq<Definition>, listens: seq<bool>, j: nat)
    requires j < |servers| == |listens|
    ensures ReplyTo(servers, listens, j) == Done <==>
      listens[j] && !exists i: nat, e :: i < j && StartedAs(servers, listens, i, e) && Clash(e, servers[j])
  {
    var s, d := GroupState(servers[..j], listens[..j]), servers[j];
    GroupLaw(servers[..j], listens[..j]);
    StartSettled(s, d, listens[j]);
    ClashesMeans(s, d);
    assert ReplyTo(servers, listens, j) == Done <==> listens[j] && !ClashesIn(s, d);
    hide GroupState, ReplyTo, Started, Settled, FromServers, Has, Clash, ClashesIn, StartedAs, NoDup, RawMap.Valid;
    forall e ensures Has(s, e) <==> exists i: nat :: i < j && StartedAs(servers, listens, i, e) {
      EntryWasStarted(servers, listens, j, e);
    }
  }

  ghost predicate NoClash(servers: seq<Definition>) {
    forall i, j | 0 <= i < j < |servers| :: !Clash(servers[i], servers[j])
  }

  /** The whole group starts exactly when ids and ports are pairwise different and every listener listens. */
  lemma {:induction false} AllStartedWhen(servers: seq<Definition>, listens: seq<bool>)
    requires |servers| == |listens|
    ensures AllStarted(servers, listens) <==> NoClash(servers) && forall i | 0 <= i < |servers| :: listens[i]
  {
    hide ReplyTo, Clash;
    if AllStarted(servers, listens) {
      forall j | 0 <= j < |servers| ensures listens[j] && forall i | 0 <= i < j :: !Clash(servers[i], servers[j]) {
        StartsWhen(servers, listens, j);
        assert forall i: nat | i < j :: StartedAs(servers, listens, i, servers[i]);
      }
    } else if NoClash(servers) {
      var j :| 0 <= j < |servers| && ReplyTo(servers, listens, j) != Done;
      StartsWhen(servers, listens, j);
    }
  }

  // ---- The command as written ----

  /**
   All servers run and every result says so with its port, or no listener is open
   and no result is ok, each keeping its own failure or told of the roll-back.
   */
  method StartStandaloneServers(servers: seq<Definition>, listens: seq<bool>)
    returns (pool: ApiMockServerPool, results: seq<StartResult>)
    requires |servers| == |listens|
    ensures fresh(pool)
    ensures |results| == |servers|
    ensures forall i | 0 <= i < |servers| :: results[i].serverId == servers[i].id
    ensures AllStarted(servers, listens) ==>
      && (forall i | 0 <= i < |servers| ::
            && results[i] == StartResult(servers[i].id, true, Some(servers[i].port), None)
            && IsRunning(pool.Now(), servers[i].id)
            && pool.entries.vals[servers[i].id].port == servers[i].port)
      && (forall k | k in pool.entries.vals :: exists i :: 0 <= i < |servers| && servers[i].id == k)
    ensures !AllStarted(servers, listens) ==>
      && (forall i | 0 <= i < |servers| ::
            var reply := ReplyTo(servers, listens, i);
            results[i] == StartResult(servers[i].id, false, None, Some(if reply == Done then RolledBack else Failed(reply))))
      && (forall l :: !IsOpen(pool.Now(), l))
  {
    hide NoDup, RawMap.Valid, DoBeginStart, DoEndStart, Marked, Settled, FromServers, EntriesMatch, GroupState, ReplyTo;
    pool := new ApiMockServerPool();
    NoneYet();
    results := [];
    var allOk := true;
    for n := 0 to |servers|
      invariant |results| == n && fresh(pool)
      invariant pool.Now() == GroupState(servers[..n], listens[..n])
      invariant forall i | 0 <= i < n :: results[i] == FirstResult(servers[i], ReplyTo(servers, listens, i))
      invariant allOk <==> forall i | 0 <= i < n :: ReplyTo(servers, listens, i) == Done
    {
      var d := servers[n];
      NextStart(servers, listens, n);
      PendingStarts(pool.Now(), d);
      var reply := pool.StartBegin(d.id, d.port);
      if reply.Pending? {
        reply := pool.StartEnd(reply.listener, listens[n]);
      }
      results := results + [FirstResult(d, reply)];
      allOk := allOk && reply == Done;
    }
    assert servers[..|servers|] == servers && listens[..|servers|] == listens;
    GroupLaw(servers, listens);
    assert allOk <==> AllStarted(servers, listens);
    ghost var group := pool.Now();
    if allOk {
      GroupRuns(servers, listens);
      return;
    }
    SettledMatches(group);
    pool.StopAll();
    StoppedAll(group);
    results := RollBack(results);
  }

  /** Successful listeners were stopped again, so they are not reported as running. */
  method RollBack(results: seq<StartResult>) returns (reported: seq<StartResult>)
    ensures |reported| == |results|
    ensures forall i | 0 <= i < |results| ::
      reported[i] == if results[i].ok then StartResult(results[i].serverId, false, None, Some(RolledBack)) else results[i]
  {
    reported := results;
    for n := 0 to |results|
      invariant |reported| == |results|
      invariant forall i | n <= i < |results| :: reported[i] == results[i]
      invariant forall i | 0 <= i < n ::
        reported[i] == if results[i].ok then StartResult(results[i].serverId, false, None, Some(RolledBack)) else results[i]
    {
      var r := reported[n];
      if r.ok {
        reported := reported[n := r.(ok := false, port := None, error := Some(RolledBack))];
      }
    }
  }

  function FirstResult(d: Definition, reply: Reply): StartResult {
    if reply == Done then StartResult(d.id, true, Some(d.port), None)
    else StartResult(d.id, false, None, Some(Failed(reply)))
  }

  lemma NoneYet()
    ensures GroupState([], []) == Init()
  {
  }

  lemma NextStart(servers: seq<Definition>, listens: seq<bool>, n: nat)
    requires n < |servers| == |listens|
    ensures var o := Started(GroupState(servers[..n], listens[..n]), servers[n], listens[n]);
      && GroupState(servers[..n + 1], listens[..n + 1]) == o.state
      && ReplyTo(servers, listens, n) == o.reply
  {
    assert servers[..n + 1][..n] == servers[..n] && listens[..n + 1][..n] == listens[..n];
  }

  lemma PendingStarts(s: State, d: Definition)
    ensures var b := DoBeginStart(s, d.id, d.port);
      b.reply.Pending? ==>
        b.reply.listener in b.state.listeners && b.state.listeners[b.reply.listener].phase == Starting
  {
  }

  lemma SettledMatches(s: State)
    requires Settled(s)
    ensures EntriesMatch(s)
  {
  }

  lemma GroupRuns(servers: seq<Definition>, listens: seq<bool>)
    requires |servers| == |listens| && AllStarted(servers, listens)
    ensures var s := GroupState(servers, listens);
      && (forall i | 0 <= i < |servers| :: IsRunning(s, servers[i].id) && s.entries.vals[servers[i].id].port == servers[i].port)
      && (forall k | k in s.entries.vals :: exists i :: 0 <= i < |servers| && servers[i].id == k)
  {
    var s := GroupState(servers, listens);
    GroupLaw(servers, listens);
    hide NoDup, RawMap.Valid, GroupState, ReplyTo;
    forall i | 0 <= i < |servers| ensures Has(s, servers[i]) {
      assert StartedAs(servers, listens, i, servers[i]);
    }
    forall k | k in s.entries.vals ensures exists i :: 0 <= i < |servers| && servers[i].id == k {
      assert Has(s, Definition(k, s.entries.vals[k].port));
    }
  }

  lemma StoppedAll(s: State)
    requires Settled(s)
    ensures forall l :: !IsOpen(Marked(s, RunningIds(s), Stopped, Closed), l)
  {
    hide NoDup, RawMap.Valid;
    var t := Marked(s, RunningIds(s), Stopped, Closed);
    forall l ensures !IsOpen(t, l) {
      if IsOpen(s, l) {
        assert Owns(s, s.listeners[l].serverId, l);
      }
    }
  }
}
