/**
 The protocol keeps the ledger: the effects of every run are legal, and the
 server's maps are at all times the ledger's picture of them.
 */
module ProtocolRefinement {
  import opened JsMap
  import opened Idempotency
  import opened CorrelationStore
  import opened CorrelationProtocol
  import opened Ledger
  import opened Matching
  import opened IdempotencyKeys
  import opened Wrappers

  // ---- The coupling between the maps and the book ----

  /** The waiter lists hold exactly the open parties, each once, under its own id; no list is empty. */
  ghost predicate ListsMatch(waiters: map<string, seq<Waiter>>, open: map<nat, Waiter>) {
    && (forall id :: id in waiters ==> waiters[id] != [] && NoDup(waiters[id]))
    && (forall id, w :: id in waiters && w in waiters[id] ==> w.id == id && w.token in open && open[w.token] == w)
    && (forall t :: t in open ==> open[t].token == t && open[t].id in waiters && open[t] in waiters[open[t].id])
  }

  /** What an open party is elsewhere: a live callback of its bridge, or an unsettled poll. */
  ghost predicate Lives(w: Waiter, callbacks: map<BridgeKey, Callback>, polls: map<nat, string>) {
    match w
    case BridgeWaiter(b, id, t) => (b, id) in callbacks && callbacks[(b, id)].token == t
    case PollWaiter(id, t) => t in polls && polls[t] == id
  }

  ghost predicate PartiesMatch(callbacks: map<BridgeKey, Callback>, polls: map<nat, string>, open: map<nat, Waiter>) {
    && (forall t :: t in open ==> open[t].token == t && Lives(open[t], callbacks, polls))
    && (forall k :: k in callbacks ==> callbacks[k].token in open && open[callbacks[k].token] == BridgeWaiter(k.0, k.1, callbacks[k].token))
    && (forall t :: t in polls ==> t in open && open[t] == PollWaiter(polls[t], t))
  }

  /** Exactly the timed callbacks have an armed timer, and it is their own. */
  ghost predicate TimersMatch(callbacks: map<BridgeKey, Callback>, timers: map<nat, BridgeKey>) {
    && (forall t :: t in timers ==> timers[t] in callbacks && callbacks[timers[t]].token == t && callbacks[timers[t]].timed)
    && (forall k :: k in callbacks && callbacks[k].timed ==> callbacks[k].token in timers && timers[callbacks[k].token] == k)
  }

  ghost predicate TokensBelow(b: Book, next: nat) {
    && b.open.Keys !! b.closed
    && (forall t :: t in b.open || t in b.closed ==> t < next)
  }

  /** The whole coupling, with `waiters` in place of the state's own lists. */
  ghost predicate CoupledWith(s: State, waiters: map<string, seq<Waiter>>, b: Book) {
    && b.paused == s.store.vals && KeyedById(s.store)
    && b.mail == s.queued.vals
    && ListsMatch(waiters, b.open)
    && PartiesMatch(s.callbacks.vals, s.polls, b.open)
    && TimersMatch(s.callbacks.vals, s.timers)
    && TokensBelow(b, s.next)
  }

  ghost predicate Coupled(s: State, b: Book) {
    Quiet(b) && CoupledWith(s, s.waiters, b)
  }

  // ---- One party opened or closed ----

  lemma ListsOpen(waiters: map<string, seq<Waiter>>, open: map<nat, Waiter>, w: Waiter)
    requires ListsMatch(waiters, open) && w.token !in open
    ensures ListsMatch(Register(waiters, w), open[w.token := w])
  {
    var after := Register(waiters, w);
    assert w in after[w.id] by {
      assert after[w.id][|after[w.id]| - 1] == w;
    }
    assert forall x :: x in after[w.id] <==> x == w || x in WaitersOf(waiters, w.id);
  }

  lemma ListsClose(waiters: map<string, seq<Waiter>>, open: map<nat, Waiter>, w: Waiter)
    requires ListsMatch(waiters, open) && w.token in open && open[w.token] == w
    ensures ListsMatch(Deregister(waiters, w), open - {w.token})
  {
    hide Deregister, NoDup;
    var after := Deregister(waiters, w);
    forall id ensures id in after ==> id in waiters && after[id] != [] && NoDup(after[id]) {
      Deregistered(waiters, w, id);
    }
    forall id, x ensures id in after && x in after[id] <==> id in waiters && x in waiters[id] && x != w {
      Deregistered(waiters, w, id);
    }
  }

  /** Deregistering takes the waiter off its list and changes no other list. */
  lemma Deregistered(waiters: map<string, seq<Waiter>>, w: Waiter, id: string)
    requires w.id in waiters && NoDup(waiters[w.id])
    ensures var after := Deregister(waiters, w);
      && (id != w.id && id in waiters ==> id in after && after[id] == waiters[id])
      && (id in after ==> id in waiters && (id == w.id ==> after[id] != [] && NoDup(after[id])))
      && (id == w.id ==> forall x :: id in after && x in after[id] <==> x in waiters[id] && x != w)
  {
    RemoveFirstElements(waiters[w.id], w);
    hide RemoveFirst, NoDup;
  }

  lemma PartiesClose(callbacks: map<BridgeKey, Callback>, polls: map<nat, string>, timers: map<nat, BridgeKey>, open: map<nat, Waiter>, w: Waiter)
    requires PartiesMatch(callbacks, polls, open) && TimersMatch(callbacks, timers)
    requires w.token in open && open[w.token] == w
    ensures w.BridgeWaiter? ==> var k := (w.bridge, w.id);
      && k in callbacks && callbacks[k].token == w.token
      && PartiesMatch(callbacks - {k}, polls, open - {w.token})
      && TimersMatch(callbacks - {k}, if callbacks[k].timed then timers - {w.token} else timers)
      && TimersMatch(callbacks - {k}, timers - {w.token})
    ensures w.PollWaiter? ==> w.token in polls && PartiesMatch(callbacks, polls - {w.token}, open - {w.token})
  {
    assert Lives(open[w.token], callbacks, polls);
  }

  lemma PartiesOpenBridge(callbacks: map<BridgeKey, Callback>, polls: map<nat, string>, timers: map<nat, BridgeKey>, open: map<nat, Waiter>, k: BridgeKey, cb: Callback)
    requires PartiesMatch(callbacks, polls, open) && TimersMatch(callbacks, timers)
    requires k !in callbacks && cb.token !in open
    ensures PartiesMatch(callbacks[k := cb], polls, open[cb.token := BridgeWaiter(k.0, k.1, cb.token)])
    ensures TimersMatch(callbacks[k := cb], if cb.timed then timers[cb.token := k] else timers)
  {
    forall t | t in timers ensures t != cb.token {
      assert callbacks[timers[t]].token in open;
    }
  }

  // ---- Notification ----

  /** The lists as they would be if the waiters `ws` of `id`, about to be called, were still registered. */
  ghost function Restored(waiters: map<string, seq<Waiter>>, id: string, ws: seq<Waiter>): map<string, seq<Waiter>> {
    if ws == [] then waiters else waiters[id := ws]
  }

  /** Midway through a notification: the parties still due are those of `ws`. */
  ghost predicate Waking(s: State, id: string, ws: seq<Waiter>, r: QueuedResume, b: Book) {
    && id !in s.waiters && b.owed == None
    && CoupledWith(s, Restored(s.waiters, id, ws), b)
    && b.due == Tokens(ws)
    && b.letter == if ws == [] then None else Some(r)
  }

  lemma RestoredStep(waiters: map<string, seq<Waiter>>, id: string, ws: seq<Waiter>)
    requires id !in waiters && ws != [] && ws[0].id == id
    ensures Deregister(Restored(waiters, id, ws), ws[0]) == Restored(waiters, id, ws[1..])
  {
    assert RemoveFirst(ws, ws[0]) == ws[1..];
    assert waiters[id := ws] - {id} == waiters;
    assert waiters[id := ws][id := ws[1..]] == waiters[id := ws[1..]];
  }

  ghost function Tokens(ws: seq<Waiter>): set<nat> {
    set w | w in ws :: w.token
  }

  lemma TokensHead(ws: seq<Waiter>)
    ensures Tokens(ws) == {} <==> ws == []
    ensures ws != [] ==> Tokens(ws) == {ws[0].token} + Tokens(ws[1..])
  {
    if ws != [] {
      assert ws[0].token in Tokens(ws);
      assert forall w :: w in ws <==> w == ws[0] || w in ws[1..];
    }
  }

  /** The head of the list is an open party of `id`; without it the rest are still in order. */
  lemma WakeLists(waiters: map<string, seq<Waiter>>, id: string, ws: seq<Waiter>, open: map<nat, Waiter>)
    requires id !in waiters && ws != [] && ListsMatch(Restored(waiters, id, ws), open)
    ensures ws[0].id == id && ws[0].token in open && open[ws[0].token] == ws[0]
    ensures ListsMatch(Restored(waiters, id, ws[1..]), open - {ws[0].token})
    ensures Tokens(ws) - {ws[0].token} == Tokens(ws[1..])
  {
    var lists := Restored(waiters, id, ws);
    assert ws[0] in lists[id];
    ListsClose(lists, open, ws[0]);
    RestoredStep(waiters, id, ws);
    TokensHead(ws);
    forall w | w in ws[1..] ensures w.token != ws[0].token {
      var i :| 0 <= i < |ws[1..]| && ws[1..][i] == w;
      assert ws[i + 1] == w && w in lists[id];
    }
  }

  /** Waking an open party closes what it lives in, and nothing else. */
  lemma WakeParties(s: State, w: Waiter, r: QueuedResume, open: map<nat, Waiter>)
    requires PartiesMatch(s.callbacks.vals, s.polls, open) && TimersMatch(s.callbacks.vals, s.timers)
    requires w.token in open && open[w.token] == w
    ensures var (s1, effects) := Wake(s, w, r);
      && effects == [Delivered(w, r)]
      && s1 == s.(timers := s1.timers, callbacks := s1.callbacks, polls := s1.polls)
      && PartiesMatch(s1.callbacks.vals, s1.polls, open - {w.token}) && TimersMatch(s1.callbacks.vals, s1.timers)
  {
    PartiesClose(s.callbacks.vals, s.polls, s.timers, open, w);
  }

  lemma WakeStep(s: State, id: string, ws: seq<Waiter>, r: QueuedResume, b: Book)
    requires ws != [] && Waking(s, id, ws, r, b)
    ensures var (s1, effects) := Wake(s, ws[0], r);
      && effects == [Delivered(ws[0], r)] && Legal(b, effects[0])
      && Waking(s1, id, ws[1..], r, Enter(b, effects[0]))
  {
    hide ListsMatch, PartiesMatch, TimersMatch, Wake, Restored, Tokens, KeyedById;
    WakeLists(s.waiters, id, ws, b.open);
    WakeParties(s, ws[0], r, b.open);
    TokensHead(ws);
    TokensHead(ws[1..]);
  }

  lemma {:induction false} WakeAllAudited(s: State, id: string, ws: seq<Waiter>, r: QueuedResume, b: Book)
    requires Waking(s, id, ws, r, b)
    ensures var (s1, effects) := WakeAll(s, ws, r);
      Audit(b, effects).Some? && Coupled(s1, Audit(b, effects).value)
    decreases |ws|
  {
    if ws != [] {
      var (s1, first) := Wake(s, ws[0], r);
      WakeStep(s, id, ws, r, b);
      var c := Enter(b, first[0]);
      WakeAllAudited(s1, id, ws[1..], r, c);
      var (s2, rest) := WakeAll(s1, ws[1..], r);
      assert (first + rest)[0] == first[0] && (first + rest)[1..] == rest;
    }
  }

  /** A notification owed to `e` is delivered to all waiting parties, or lies in the mail. */
  lemma NotifyAudited(s: State, e: Entry, r: QueuedResume, b: Book)
    requires CoupledWith(s, s.waiters, b) && b.owed == Some(e) && b.due == {} && b.letter == None
    requires r.executionId == e.executionId && r.workflowId == e.workflowId
    ensures var (s1, effects) := Notify(s, e.correlationId, r);
      && s1.store == s.store && s1.cache == s.cache && s1.ttlMs == s.ttlMs && s1.maxEntries == s.maxEntries
      && Audit(b, effects).Some? && Coupled(s1, Audit(b, effects).value)
  {
    hide ListsMatch, PartiesMatch, TimersMatch, KeyedById, NoDup, RawMap.Valid;
    var id := e.correlationId;
    var ws, eff := WaitersOf(s.waiters, id), Notified(id, r);
    AwaitingIsList(s.waiters, b, id);
    TokensHead(ws);
    AuditOne(b, eff);
    if ws != [] {
      NotifyWakes(s, id, ws, r, Enter(b, eff));
      AuditCons(b, eff, WakeAll(s.(waiters := s.waiters - {id}), ws, r).1);
    }
  }

  lemma NotifyWakes(s: State, id: string, ws: seq<Waiter>, r: QueuedResume, c: Book)
    requires CoupledWith(s, s.waiters, c) && id in s.waiters && ws == s.waiters[id] != []
    requires c.owed == None && c.due == Tokens(ws) && c.letter == Some(r)
    ensures var (s1, effects) := WakeAll(s.(waiters := s.waiters - {id}), ws, r);
      && s1.store == s.store && s1.cache == s.cache && s1.ttlMs == s.ttlMs && s1.maxEntries == s.maxEntries
      && Audit(c, effects).Some? && Coupled(s1, Audit(c, effects).value)
  {
    hide ListsMatch, PartiesMatch, TimersMatch, KeyedById, NoDup, RawMap.Valid;
    var s0 := s.(waiters := s.waiters - {id});
    assert Restored(s0.waiters, id, ws) == s.waiters;
    WakeAllAudited(s0, id, ws, r, c);
    WakeAllKeeps(s0, ws, r);
  }

  lemma AuditCons(b: Book, eff: Effect, rest: seq<Effect>)
    requires Legal(b, eff)
    ensures Audit(b, [eff] + rest) == Audit(Enter(b, eff), rest)
  {
    assert ([eff] + rest)[1..] == rest;
  }

  lemma {:induction false} WakeAllKeeps(s: State, ws: seq<Waiter>, r: QueuedResume)
    ensures var s1 := WakeAll(s, ws, r).0;
      s1.store == s.store && s1.cache == s.cache && s1.ttlMs == s.ttlMs && s1.maxEntries == s.maxEntries
      && s1.waiters == s.waiters && s1.queued == s.queued && s1.next == s.next
    decreases |ws|
  {
    if ws != [] {
      WakeAllKeeps(Wake(s, ws[0], r).0, ws[1..], r);
    }
  }

  lemma NotifyKeepsStore(s: State, id: string, r: QueuedResume)
    ensures Notify(s, id, r).0.store == s.store
  {
    WakeAllKeeps(s.(waiters := s.waiters - {id}), WaitersOf(s.waiters, id), r);
  }

  lemma AwaitingIsList(waiters: map<string, seq<Waiter>>, b: Book, id: string)
    requires ListsMatch(waiters, b.open)
    ensures Awaiting(b, id) == Tokens(WaitersOf(waiters, id))
  {
    forall t | t in Awaiting(b, id) ensures t in Tokens(WaitersOf(waiters, id)) {
      assert b.open[t] in waiters[id];
    }
  }

  // ---- Removal from the store ----

  /** The coupling while a notification to `owed` is outstanding. */
  ghost predicate Owing(s: State, b: Book, owed: Option<Entry>) {
    CoupledWith(s, s.waiters, b) && b.owed == owed && b.due == {} && b.letter == None
  }

  /** The log from `b` is accepted and leaves the book coupled to `s`. */
  ghost predicate Audited(b: Book, effects: seq<Effect>, s: State) {
    Audit(b, effects).Some? && Coupled(s, Audit(b, effects).value)
  }

  lemma AuditOne(b: Book, eff: Effect)
    requires Legal(b, eff)
    ensures Audit(b, [eff]) == Some(Enter(b, eff))
  {
    assert Audit(Enter(b, eff), [eff][1..]) == Some(Enter(b, eff));
  }

  lemma RemovalAudited(s: State, id: string, cause: Cause, b: Book)
    requires Coupled(s, b)
    ensures var (s1, effects) := RemoveEntry(s, id, cause);
      && Audit(b, effects).Some?
      && Owing(s1, Audit(b, effects).value, if id in s.store.vals && Resuming(cause) then Some(s.store.vals[id]) else None)
  {
    hide ListsMatch, PartiesMatch, TimersMatch;
    if id in s.store.vals {
      AuditOne(b, Removed(s.store.vals[id], cause));
    }
  }

  lemma {:induction false} RemovalsAudited(s: State, ids: seq<string>, cause: Cause, b: Book)
    requires Coupled(s, b) && !Resuming(cause)
    ensures var (s1, effects) := RemoveEntries(s, ids, cause); Audited(b, effects, s1)
    decreases |ids|
  {
    hide ListsMatch, PartiesMatch, TimersMatch;
    if ids != [] {
      var (s1, first) := RemoveEntry(s, ids[0], cause);
      RemovalAudited(s, ids[0], cause, b);
      var c := Audit(b, first).value;
      RemovalsAudited(s1, ids[1..], cause, c);
      AuditConcat(b, first, RemoveEntries(s1, ids[1..], cause).1);
    }
  }

  /** Removing a paused entry for resumption and notifying its waiters. */
  lemma ResumptionAudited(s: State, e: Entry, cause: Cause, r: QueuedResume, b: Book)
    requires Coupled(s, b) && Resuming(cause)
    requires e.correlationId in s.store.vals && s.store.vals[e.correlationId] == e
    requires r.executionId == e.executionId && r.workflowId == e.workflowId
    ensures var (s1, removed) := RemoveEntry(s, e.correlationId, cause);
      var (s2, notified) := Notify(s1, e.correlationId, r);
      Audited(b, removed + notified, s2)
  {
    hide ListsMatch, PartiesMatch, TimersMatch;
    var (s1, removed) := RemoveEntry(s, e.correlationId, cause);
    RemovalAudited(s, e.correlationId, cause, b);
    NotifyAudited(s1, e, r, Audit(b, removed).value);
    AuditConcat(b, removed, Notify(s1, e.correlationId, r).1);
  }

  // ---- The steps ----

  lemma HttpPauseAudited(s: State, now: int, req: PauseRequest, b: Book)
    requires Coupled(s, b)
    ensures var o := DoHttpPause(s, now, req); Audited(b, o.effects, o.s)
  {
    hide ListsMatch, PartiesMatch, TimersMatch;
    var e := NewEntry(req, now);
    if e.correlationId !in s.store.vals {
      AuditOne(b, Paused(e));
    }
  }

  lemma HttpResumeAudited(s: State, now: int, id: string, data: Payload, b: Book)
    requires Coupled(s, b)
    ensures var o := DoHttpResume(s, now, id, data); Audited(b, o.effects, o.s)
  {
    hide ListsMatch, PartiesMatch, TimersMatch;
    if id != "" && id in s.store.vals {
      var e := s.store.vals[id];
      ResumptionAudited(s, e, ByResume, ResumeOf(e, data, now), b);
    }
  }

  lemma HttpWaitAudited(s: State, id: string, b: Book)
    requires Coupled(s, b)
    ensures var o := DoHttpWait(s, id); Audited(b, o.effects, o.s)
  {
    hide ListsMatch, PartiesMatch, TimersMatch;
    var t := s.next;
    if id in s.queued.vals {
      AuditOne(b, Claimed(t, id, s.queued.vals[id]));
    } else {
      var w := PollWaiter(id, t);
      AuditOne(b, Opened(w));
      PollOpened(s, w, b);
    }
  }

  lemma PollOpened(s: State, w: Waiter, b: Book)
    requires Coupled(s, b) && w.PollWaiter? && w.token == s.next
    ensures Coupled(s.(waiters := Register(s.waiters, w), polls := s.polls[s.next := w.id], next := s.next + 1), Enter(b, Opened(w)))
  {
    hide ListsMatch, PartiesMatch, TimersMatch;
    PartiesOpenPoll(s.callbacks.vals, s.polls, b.open, w);
    ListsOpen(s.waiters, b.open, w);
  }

  lemma PartiesOpenPoll(callbacks: map<BridgeKey, Callback>, polls: map<nat, string>, open: map<nat, Waiter>, w: Waiter)
    requires PartiesMatch(callbacks, polls, open) && w.PollWaiter? && w.token !in open
    ensures PartiesMatch(callbacks, polls[w.token := w.id], open[w.token := w])
  {
  }

  /** A party's own settlement, whatever kind it is. */
  lemma SettlementAudited(s: State, s1: State, w: Waiter, how: How, b: Book)
    requires Coupled(s, b) && w.token in b.open && b.open[w.token] == w
    requires s1 == s.(waiters := Deregister(s.waiters, w), callbacks := s1.callbacks, timers := s1.timers, polls := s1.polls)
    requires PartiesMatch(s1.callbacks.vals, s1.polls, b.open - {w.token}) && TimersMatch(s1.callbacks.vals, s1.timers)
    ensures Audited(b, [Settled(w, how)], s1)
  {
    hide ListsMatch, PartiesMatch, TimersMatch;
    ListsClose(s.waiters, b.open, w);
    AuditOne(b, Settled(w, how));
  }

  lemma PollEndsAudited(s: State, t: nat, how: How, b: Book)
    requires Coupled(s, b)
    ensures var o := DoPollEnds(s, t, how); Audited(b, o.effects, o.s)
  {
    if t in s.polls {
      var w := PollWaiter(s.polls[t], t);
      assert b.open[t] == w;
      PartiesClose(s.callbacks.vals, s.polls, s.timers, b.open, w);
      hide ListsMatch, PartiesMatch, TimersMatch;
      SettlementAudited(s, DoPollEnds(s, t, how).s, w, how, b);
    }
  }

  lemma HttpDeleteAudited(s: State, id: string, b: Book)
    requires Coupled(s, b)
    ensures var o := DoHttpDelete(s, id); Audited(b, o.effects, o.s)
  {
    hide ListsMatch, PartiesMatch, TimersMatch;
    RemovalAudited(s, id, ByDelete, b);
  }

  ghost function ExpiredIds(listed: seq<Entry>, now: int): set<string> {
    set e | e in listed && Expired(e, now) :: e.correlationId
  }

  lemma ExpiredIdsHead(listed: seq<Entry>, now: int)
    requires listed != []
    ensures ExpiredIds(listed, now) == (if Expired(listed[0], now) then {listed[0].correlationId} else {}) + ExpiredIds(listed[1..], now)
  {
    assert forall x :: x in listed <==> x == listed[0] || x in listed[1..];
  }

  lemma {:induction false} SweepEffectsAudited(listed: seq<Entry>, now: int, b: Book)
    requires Quiet(b)
    requires forall i :: 0 <= i < |listed| ==> listed[i].correlationId in b.paused && b.paused[listed[i].correlationId] == listed[i]
    requires forall i, j :: 0 <= i < j < |listed| ==> listed[i].correlationId != listed[j].correlationId
    ensures Audit(b, SweepEffects(listed, now)) == Some(b.(paused := b.paused - ExpiredIds(listed, now)))
  {
    if listed == [] {
      assert ExpiredIds(listed, now) == {} && b.paused - {} == b.paused;
    } else {
      var e, rest := listed[0], listed[1..];
      ExpiredIdsHead(listed, now);
      if Expired(e, now) {
        var c := b.(paused := b.paused - {e.correlationId});
        SweepEffectsAudited(rest, now, c);
        AuditCons(b, Removed(e, BySweep), SweepEffects(rest, now));
        assert c.paused - ExpiredIds(rest, now) == b.paused - ExpiredIds(listed, now);
      } else {
        SweepEffectsAudited(rest, now, b);
        assert ExpiredIds(listed, now) == ExpiredIds(rest, now);
        assert [] + SweepEffects(rest, now) == SweepEffects(rest, now);
      }
    }
  }

  lemma SweptStore(m: Entries, now: int)
    requires KeyedById(m)
    ensures m.vals - ExpiredIds(Listed(m), now) == Swept(m, now).vals
    ensures KeyedById(Swept(m, now))
  {
    ListedFacts(m);
    hide NoDup, Listed, Filter;
    forall k ensures k in ExpiredIds(Listed(m), now) <==> k in m.vals && Expired(m.vals[k], now) {
      if k in m.vals {
        assert m.vals[k] in Listed(m);
      }
    }
  }

  lemma StoreReplaced(s: State, m: Entries, c: Cache<Body>, b: Book)
    requires Coupled(s, b) && KeyedById(m)
    ensures Coupled(s.(store := m, cache := c), b.(paused := m.vals))
  {
    hide ListsMatch, PartiesMatch, TimersMatch;
  }

  lemma HttpCleanupAudited(s: State, now: int, b: Book)
    requires Coupled(s, b)
    ensures var o := DoHttpCleanup(s, now); Audited(b, o.effects, o.s)
  {
    assert Quiet(b) && KeyedById(s.store) && b.paused == s.store.vals;
    hide Coupled, CoupledWith;
    ListedFacts(s.store);
    SweepEffectsAudited(Listed(s.store), now, b);
    SweptStore(s.store, now);
    StoreReplaced(s, Swept(s.store, now), AfterCleanup(s.cache, now, s.ttlMs), b);
  }

  ghost function StaleIds(ids: seq<string>, vals: map<string, QueuedResume>, now: int): set<string> {
    set id | id in ids && id in vals && QueueStale(vals[id], now)
  }

  lemma {:induction false} QueueEffectsAudited(ids: seq<string>, vals: map<string, QueuedResume>, now: int, b: Book)
    requires Quiet(b) && NoDup(ids)
    requires forall id :: id in ids && id in vals ==> id in b.mail && b.mail[id] == vals[id]
    ensures Audit(b, QueueEffects(ids, vals, now)) == Some(b.(mail := b.mail - StaleIds(ids, vals, now)))
  {
    if ids == [] {
      assert StaleIds(ids, vals, now) == {} && b.mail - {} == b.mail;
    } else {
      var id, rest := ids[0], ids[1..];
      assert id !in rest && forall x :: x in ids <==> x == id || x in rest;
      var stale := id in vals && QueueStale(vals[id], now);
      QueueEffectsAudited(rest, vals, now, if stale then b.(mail := b.mail - {id}) else b);
      if stale {
        AuditCons(b, QueueExpired(id, vals[id], now), QueueEffects(rest, vals, now));
        assert StaleIds(ids, vals, now) == {id} + StaleIds(rest, vals, now);
        assert b.mail - {id} - StaleIds(rest, vals, now) == b.mail - StaleIds(ids, vals, now);
      } else {
        assert StaleIds(ids, vals, now) == StaleIds(rest, vals, now);
        assert [] + QueueEffects(rest, vals, now) == QueueEffects(rest, vals, now);
      }
    }
  }

  lemma QueueSweepAudited(s: State, now: int, b: Book)
    requires Coupled(s, b)
    ensures var o := DoQueueSweep(s, now); Audited(b, o.effects, o.s)
  {
    hide ListsMatch, PartiesMatch, TimersMatch;
    QueueEffectsAudited(s.queued.keys, s.queued.vals, now, b);
    assert b.mail - StaleIds(s.queued.keys, s.queued.vals, now) == DoQueueSweep(s, now).s.queued.vals;
  }

  lemma MatchAudited(s: State, path: string, now: int, extract: Entry -> Option<string>, b: Book)
    requires Coupled(s, b)
    ensures var (s1, effects, hit) := Match(s, path, now, extract);
      && Audited(b, effects, s1)
      && (hit.Some? ==> hit.value.correlationId in s1.store.vals && s1.store.vals[hit.value.correlationId] == hit.value)
  {
    hide ListsMatch, PartiesMatch, TimersMatch;
    RemovalsAudited(s, ScanFor(Listed(s.store), path, now, extract).expired, ByMatchExpiry, b);
    MatchMeaning(s, path, now, extract);
  }

  /** The cache is not part of the book. */
  lemma CacheIsApart(b: Book, effects: seq<Effect>, s: State, c: Cache<Body>)
    requires Audited(b, effects, s)
    ensures Audited(b, effects, s.(cache := c))
  {
    hide ListsMatch, PartiesMatch, TimersMatch;
  }

  /** A match resumed: what the webhook and the Kafka handler do after their checks. */
  lemma MatchedResumption(s: State, b: Book, expired: seq<Effect>, s1: State, e: Entry, cause: Cause, r: QueuedResume)
    requires Coupled(s, b) && Audited(b, expired, s1) && Resuming(cause)
    requires e.correlationId in s1.store.vals && s1.store.vals[e.correlationId] == e
    requires r.executionId == e.executionId && r.workflowId == e.workflowId
    ensures var (s3, removed) := RemoveEntry(s1, e.correlationId, cause);
      var (s4, notified) := Notify(s3, e.correlationId, r);
      Audited(b, expired + removed + notified, s4)
  {
    hide ListsMatch, PartiesMatch, TimersMatch;
    var (s3, removed) := RemoveEntry(s1, e.correlationId, cause);
    var (s4, notified) := Notify(s3, e.correlationId, r);
    ResumptionAudited(s1, e, cause, r, Audit(b, expired).value);
    AuditConcat(b, expired, removed + notified);
    assert expired + removed + notified == expired + (removed + notified);
  }

  lemma WebhookAudited(s: State, now: int, call: WebhookRequest, b: Book)
    requires Coupled(s, b)
    ensures var o := DoWebhook(s, now, call); Audited(b, o.effects, o.s)
  {
    hide ListsMatch, PartiesMatch, TimersMatch;
    if call.admitted {
      var (s1, expired, hit) := Match(s, call.path, now, call.extract);
      MatchAudited(s, call.path, now, call.extract, b);
      if hit.Some? && call.tokenOk {
        var e := hit.value;
        var key := WebhookKey(e.correlationId, call.path, call.idempotencyHeader, call.requestId);
        var cache := AfterLookup(s1.cache, key, now, s.ttlMs);
        var s2 := s1.(cache := cache);
        CacheIsApart(b, expired, s1, cache);
        if FilterVerdict(e, call.atom).Valid? {
          var (s3, removed) := RemoveEntry(s2, e.correlationId, ByWebhook);
          var (s4, notified) := Notify(s3, e.correlationId, ResumeOf(e, call.body, now));
          MatchedResumption(s, b, expired, s2, e, ByWebhook, ResumeOf(e, call.body, now));
          CacheIsApart(b, expired + removed + notified, s4, AfterRecord(s4.cache, key, 200, BodyOf(e), now, s.maxEntries));
        }
      }
    }
  }

  lemma KafkaAudited(s: State, now: int, msg: KafkaMessage, b: Book)
    requires Coupled(s, b)
    ensures var o := DoKafka(s, now, msg); Audited(b, o.effects, o.s)
  {
    hide ListsMatch, PartiesMatch, TimersMatch;
    var key := KafkaKey(msg.topic, msg.partition, msg.offset);
    var (s1, expired, hit) := Match(s, msg.topic, now, msg.extract);
    MatchAudited(s, msg.topic, now, msg.extract, b);
    var cache := AfterLookup(s1.cache, key, now, s.ttlMs);
    var s2 := s1.(cache := cache);
    CacheIsApart(b, expired, s1, cache);
    if hit.Some? {
      var e := hit.value;
      var r := ResumeOf(e, KafkaData(msg.topic, msg.partition, msg.offset, msg.key, msg.value), now);
      var (s3, removed) := RemoveEntry(s2, e.correlationId, ByKafka);
      var (s4, notified) := Notify(s3, e.correlationId, r);
      MatchedResumption(s, b, expired, s2, e, ByKafka, r);
      CacheIsApart(b, expired + removed + notified, s4, AfterRecord(s4.cache, key, 200, BodyOf(e), now, s.maxEntries));
    }
  }

  lemma BridgeOpened(s: State, key: BridgeKey, cb: Callback, b: Book)
    requires Coupled(s, b) && key !in s.callbacks.vals && cb.token == s.next
    ensures var w := BridgeWaiter(key.0, key.1, cb.token);
      Legal(b, Opened(w)) && Coupled(s.(waiters := Register(s.waiters, w), callbacks := Put(s.callbacks, key, cb),
        timers := if cb.timed then s.timers[cb.token := key] else s.timers, next := s.next + 1), Enter(b, Opened(w)))
  {
    hide ListsMatch, PartiesMatch, TimersMatch;
    ListsOpen(s.waiters, b.open, BridgeWaiter(key.0, key.1, cb.token));
    PartiesOpenBridge(s.callbacks.vals, s.polls, s.timers, b.open, key, cb);
  }

  /** `addPausedCorrelation` as the bridge calls it, its answer ignored. */
  lemma AddAudited(s: State, e: Entry, b: Book)
    requires Coupled(s, b)
    ensures Audited(b, if e.correlationId in s.store.vals then [] else [Paused(e)], s.(store := Added(s.store, e)))
  {
    hide ListsMatch, PartiesMatch, TimersMatch;
    if e.correlationId !in s.store.vals {
      AuditOne(b, Paused(e));
    }
  }

  lemma BridgePauseAudited(s: State, now: int, bridge: nat, req: PauseRequest, b: Book)
    requires Coupled(s, b)
    ensures var o := DoBridgePause(s, now, bridge, req); Audited(b, o.effects, o.s)
  {
    hide CoupledWith, NoDup, RawMap.Valid, Register, Added, Put, Audit, Legal, Enter;
    var key, t := (bridge, req.correlationId), s.next;
    if key in s.callbacks.vals {
      RefusalAudited(s, b);
    } else {
      hide Coupled;
      var e, w := NewEntry(req, now), BridgeWaiter(bridge, req.correlationId, t);
      var paused := if e.correlationId in s.store.vals then [] else [Paused(e)];
      AddAudited(s, e, b);
      var b1 := Audit(b, paused).value;
      BridgeOpened(s.(store := Added(s.store, e)), key, Callback(t, req.timeoutMs > 0, e.timeoutAt), b1);
      AuditOne(b1, Opened(w));
      AuditConcat(b, paused, [Opened(w)]);
    }
  }

  lemma RefusalAudited(s: State, b: Book)
    requires Coupled(s, b)
    ensures Audited(b, [Refused(s.next)], s.(next := s.next + 1))
  {
    hide ListsMatch, PartiesMatch, TimersMatch;
    AuditOne(b, Refused(s.next));
  }

  lemma CloseCallbackAudited(s: State, key: BridgeKey, how: How, cause: Cause, b: Book)
    requires Coupled(s, b) && key in s.callbacks.vals && !Resuming(cause)
    ensures var (s1, effects) := CloseCallback(s, key, how, cause); Audited(b, effects, s1)
  {
    var cb := s.callbacks.vals[key];
    var w := BridgeWaiter(key.0, key.1, cb.token);
    assert b.open[cb.token] == w;
    hide ListsMatch, PartiesMatch, TimersMatch;
    var (s1, removed) := RemoveEntry(s, key.1, cause);
    RemovalAudited(s, key.1, cause, b);
    var c := Audit(b, removed).value;
    OpenUnchanged(s, key.1, cause, b);
    PartiesClose(s1.callbacks.vals, s1.polls, s1.timers, c.open, w);
    SettlementAudited(s1, CloseCallback(s, key, how, cause).0, w, how, c);
    AuditConcat(b, removed, [Settled(w, how)]);
  }

  lemma OpenUnchanged(s: State, id: string, cause: Cause, b: Book)
    requires Coupled(s, b)
    ensures var effects := RemoveEntry(s, id, cause).1;
      Audit(b, effects).Some? && Audit(b, effects).value.open == b.open
  {
    hide ListsMatch, PartiesMatch, TimersMatch;
    if id in s.store.vals {
      AuditOne(b, Removed(s.store.vals[id], cause));
    }
  }

  lemma BridgeCloseAudited(s: State, key: BridgeKey, how: How, cause: Cause, b: Book)
    requires Coupled(s, b) && !Resuming(cause)
    ensures var o := DoBridgeClose(s, key, how, cause); Audited(b, o.effects, o.s)
  {
    hide ListsMatch, PartiesMatch, TimersMatch;
    if key in s.callbacks.vals {
      CloseCallbackAudited(s, key, how, cause, b);
    }
  }

  /** A firing timer finds its own callback: it closes exactly as a cancellation would. */
  lemma BridgeTimerIsClose(s: State, t: nat, b: Book)
    requires Coupled(s, b) && t in s.timers
    ensures var key := s.timers[t];
      && key in s.callbacks.vals && s.callbacks.vals[key].token == t
      && var o := DoBridgeTimer(s, t);
         (o.s, o.effects) == CloseCallback(s, key, TimedOut, ByBridgeTimeout)
  {
  }

  lemma BridgeTimerAudited(s: State, t: nat, b: Book)
    requires Coupled(s, b)
    ensures var o := DoBridgeTimer(s, t); Audited(b, o.effects, o.s)
  {
    hide ListsMatch, PartiesMatch, TimersMatch;
    if t in s.timers {
      BridgeTimerIsClose(s, t, b);
      CloseCallbackAudited(s, s.timers[t], TimedOut, ByBridgeTimeout, b);
    }
  }

  lemma {:induction false} BridgeSweepAudited(s: State, keys: seq<BridgeKey>, now: int, bridge: nat, b: Book)
    requires Coupled(s, b)
    ensures var (s1, effects) := BridgeSweep(s, keys, now, bridge); Audited(b, effects, s1)
    decreases |keys|
  {
    hide ListsMatch, PartiesMatch, TimersMatch;
    if keys != [] {
      var key := keys[0];
      if key.0 == bridge && key in s.callbacks.vals && CallbackExpired(s.callbacks.vals[key], now) {
        var (s1, first) := CloseCallback(s, key, ExpiredInBridge, ByBridgeExpiry);
        CloseCallbackAudited(s, key, ExpiredInBridge, ByBridgeExpiry, b);
        BridgeSweepAudited(s1, keys[1..], now, bridge, Audit(b, first).value);
        AuditConcat(b, first, BridgeSweep(s1, keys[1..], now, bridge).1);
      } else {
        BridgeSweepAudited(s, keys[1..], now, bridge, b);
        var rest := BridgeSweep(s, keys[1..], now, bridge).1;
        assert [] + rest == rest;
      }
    }
  }

  /** Every step's effects are legal and leave the book coupled to the new state. */
  lemma StepAudited(s: State, ev: Event, b: Book)
    requires Coupled(s, b)
    ensures var o := Step(s, ev); Audited(b, o.effects, o.s)
  {
    hide Coupled, Audited;
    hide DoHttpPause, DoHttpResume, DoHttpWait, DoPollEnds, DoHttpDelete, DoHttpCleanup, DoQueueSweep, DoWebhook, DoKafka,
         DoBridgePause, DoBridgeClose, DoBridgeTimer;
    match ev
    case HttpPause(now, req) => HttpPauseAudited(s, now, req, b);
    case HttpResume(now, id, data) => HttpResumeAudited(s, now, id, data, b);
    case HttpWait(id) => HttpWaitAudited(s, id, b);
    case PollTimeout(t) => PollEndsAudited(s, t, TimedOut, b);
    case PollClose(t) => PollEndsAudited(s, t, Disconnected, b);
    case HttpDelete(id) => HttpDeleteAudited(s, id, b);
    case HttpCleanup(now) => HttpCleanupAudited(s, now, b);
    case QueueSweep(now) => QueueSweepAudited(s, now, b);
    case WebhookCall(now, call) => WebhookAudited(s, now, call, b);
    case KafkaDelivery(now, msg) => KafkaAudited(s, now, msg, b);
    case BridgePause(now, bridge, req) => BridgePauseAudited(s, now, bridge, req, b);
    case BridgeResume(bridge, id, data) => BridgeCloseAudited(s, (bridge, id), ResumedLocally(data), ByBridgeResume, b);
    case BridgeCancel(bridge, id) => BridgeCloseAudited(s, (bridge, id), Cancelled, ByBridgeCancel, b);
    case BridgeTimer(t) => BridgeTimerAudited(s, t, b);
    case BridgeCleanup(now, bridge) => BridgeSweepAudited(s, s.callbacks.keys, now, bridge, b);
  }

  lemma {:induction false} RunAudited(s: State, evs: seq<Event>, b: Book)
    requires Coupled(s, b)
    ensures var (s1, log) := Run(s, evs); Audited(b, log, s1)
    decreases |evs|
  {
    hide ListsMatch, PartiesMatch, TimersMatch;
    if evs != [] {
      var o := Step(s, evs[0]);
      StepAudited(s, evs[0], b);
      RunAudited(o.s, evs[1..], Audit(b, o.effects).value);
      AuditConcat(b, o.effects, Run(o.s, evs[1..]).1);
    }
  }

  lemma InitCoupled(ttlMs: int, maxEntries: nat)
    ensures Coupled(Init(ttlMs, maxEntries), Blank)
  {
  }
}
