/**
 What a pause stores, field by field, and when it ends by its deadline: for
 messages, for the store's sweep and for its bridge's sweep.
 */
module Deadlines {
  import opened JsMap
  import opened Idempotency
  import opened CorrelationStore
  import opened CorrelationProtocol
  import opened Ledger
  import opened Matching
  import opened ProtocolRefinement
  import opened Orphans
  import opened StepEffects
  import opened WebhookAnswers
  import KafkaRedelivery
  import opened Wrappers

  function Or(field: Option<string>, default: string): string {
    match field case Some(x) => x case None => default
  }

  /** The entry carries what was asked for, from `now` on. */
  ghost predicate CarriesRequest(e: Entry, req: PauseRequest, now: int) {
    && e.correlationId == req.correlationId && e.webhookPath == req.webhookPath && e.executionId == req.executionId
    && e.workflowId == Or(req.workflowId, "unknown") && e.pausedNodeId == Or(req.pausedNodeId, "unknown")
    && e.webhookFilter == req.webhookFilter && e.correlationSource == Or(req.correlationSource, "body")
    && e.correlationJsonPath == req.correlationJsonPath && e.correlationHeader == req.correlationHeader
    && e.correlationQueryParam == req.correlationQueryParam
    && e.pausedAt == now
    && (req.timeoutMs > 0 ==> e.timeoutAt == now + req.timeoutMs)
    && (req.timeoutMs <= 0 ==> e.timeoutAt == 0)
  }

  /** The store is as before with one entry more, listed last. */
  ghost predicate StoredLast(m: Entries, n: Entries, req: PauseRequest, now: int) {
    var id := req.correlationId;
    && id !in m.vals && n.keys == m.keys + [id] && id in n.vals && n.vals == m.vals[id := n.vals[id]]
    && CarriesRequest(n.vals[id], req, now)
  }

  /** POST pause: 400 for a missing field, 409 for a paused id, and else stored with its deadline answered. */
  lemma HttpPauseExactly(s: State, now: int, req: PauseRequest)
    ensures var o, missing := Step(s, HttpPause(now, req)), req.correlationId == "" || req.webhookPath == "" || req.executionId == "";
      && (o.reply == BadRequest <==> missing)
      && (o.reply == Conflict <==> !missing && req.correlationId in s.store.vals)
      && (o.reply.PausedUntil? <==> !missing && req.correlationId !in s.store.vals)
      && (o.reply.PausedUntil? ==>
            && StoredLast(s.store, o.s.store, req, now) && o.s == s.(store := o.s.store)
            && o.reply.timeoutAt == o.s.store.vals[req.correlationId].timeoutAt)
      && (!o.reply.PausedUntil? ==> o.s == s && o.effects == [])
  {
    hide NoDup, RawMap.Valid;
  }

  /**
   A bridge's pause: rejected when it holds a callback on the id; otherwise a
   callback with the deadline, its waiter last in the id's list, its timer armed iff
   it has a deadline, and the entry stored unless the id was paused already.
   */
  lemma BridgePauseExactly(s: State, now: int, b: nat, req: PauseRequest)
    ensures var o, id, key := Step(s, BridgePause(now, b, req)), req.correlationId, (b, req.correlationId);
      && (key in s.callbacks.vals ==> o.reply == Rejected(s.next) && o.s == s.(next := s.next + 1))
      && (key !in s.callbacks.vals ==>
            && o.reply == Pending(s.next) && o.s.next == s.next + 1
            && (id in s.store.vals ==> o.s.store == s.store)
            && (id !in s.store.vals ==> StoredLast(s.store, o.s.store, req, now))
            && o.s.callbacks.keys == s.callbacks.keys + [key]
            && o.s.callbacks.vals == s.callbacks.vals[key := Callback(s.next, req.timeoutMs > 0, if req.timeoutMs > 0 then now + req.timeoutMs else 0)]
            && o.s.waiters == s.waiters[id := WaitersOf(s.waiters, id) + [BridgeWaiter(b, id, s.next)]]
            && o.s.timers == (if req.timeoutMs > 0 then s.timers[s.next := key] else s.timers))
  {
    hide NoDup, RawMap.Valid;
  }

  // ---- What stays as it was stored ----

  lemma {:induction false} PausedStays(b: Book, log: seq<Effect>, id: string)
    requires Audit(b, log).Some? && id in b.paused && CountOf(log, Removals(id)) == 0
    ensures var c := Audit(b, log).value; id in c.paused && c.paused[id] == b.paused[id]
    decreases |log|
  {
    if log != [] {
      PausedStays(Enter(b, log[0]), log[1..], id);
    }
  }

  lemma {:induction false} OpenStays(b: Book, log: seq<Effect>, t: nat)
    requires Audit(b, log).Some? && t in b.open && CountOf(log, Endings(t)) == 0
    ensures var c := Audit(b, log).value; t in c.open && c.open[t] == b.open[t]
    decreases |log|
  {
    if log != [] {
      OpenStays(Enter(b, log[0]), log[1..], t);
    }
  }

  /** An entry that no step of a run removes is the same after it. */
  lemma EntryStays(s: State, b: Book, evs: seq<Event>, id: string)
    requires Coupled(s, b) && id in s.store.vals && CountOf(Run(s, evs).1, Removals(id)) == 0
    ensures var t := Run(s, evs).0; id in t.store.vals && t.store.vals[id] == s.store.vals[id]
  {
    RunAudited(s, evs, b);
    PausedStays(b, Run(s, evs).1, id);
    hide Run, NoDup, RawMap.Valid, ListsMatch, PartiesMatch, TimersMatch;
  }

  ghost predicate SameWhereBoth(s: State, t: State) {
    forall k :: k in s.callbacks.vals && k in t.callbacks.vals ==> t.callbacks.vals[k] == s.callbacks.vals[k]
  }

  lemma LostKeeps(s: State, t: State, c: Book, gone: set<string>, woken: Option<string>)
    requires Lost(s, t, gone, woken) && Coupled(t, c) && (woken.Some? ==> woken.value !in t.waiters)
    ensures SameWhereBoth(s, t)
  {
    if woken.Some? {
      NobodyWaits(t, c, woken.value);
    }
    hide Coupled, NoDup, RawMap.Valid;
  }

  lemma HttpResumeKeeps(s: State, b: Book, now: int, id: string, data: Payload, c: Book)
    requires Coupled(s, b) && Coupled(DoHttpResume(s, now, id, data).s, c)
    ensures SameWhereBoth(s, DoHttpResume(s, now, id, data).s)
  {
    CoupledLists(s, b);
    hide NoDup, RawMap.Valid, Coupled, ListsOwned, Notify;
    if id != "" && id in s.store.vals {
      var r := ResumeOf(s.store.vals[id], data, now);
      ResumptionLoses(s, s, {}, id, ByResume, r, s.cache);
      KafkaRedelivery.NotifyKeepsCache(RemoveEntry(s, id, ByResume).0, id, r);
      LostKeeps(s, DoHttpResume(s, now, id, data).s, c, {}, Some(id));
    }
  }

  lemma WebhookKeeps(s: State, b: Book, now: int, call: WebhookRequest, c: Book)
    requires Coupled(s, b) && Coupled(DoWebhook(s, now, call).s, c)
    ensures SameWhereBoth(s, DoWebhook(s, now, call).s)
  {
    CoupledLists(s, b);
    hide Match, Coupled, Lost, ScanExpires, KeyedById, ListsOwned, SameWhereBoth;
    if call.admitted {
      WebhookLoses(s, now, call);
      hide DoWebhook;
      var hit, t, gone := Match(s, call.path, now, call.extract).2, DoWebhook(s, now, call).s, ScanExpires(s, call.path, now, call.extract);
      LostKeeps(s, t, c, gone, if Lost(s, t, gone, None) then None else Some(hit.value.correlationId));
    } else {
      SameAsItself(s);
    }
  }

  lemma SameAsItself(s: State)
    ensures SameWhereBoth(s, s)
  {
  }

  lemma KafkaKeeps(s: State, b: Book, now: int, msg: KafkaMessage, c: Book)
    requires Coupled(s, b) && Coupled(DoKafka(s, now, msg).s, c)
    ensures SameWhereBoth(s, DoKafka(s, now, msg).s)
  {
    CoupledLists(s, b);
    hide Match, Coupled, Lost, ScanExpires, KeyedById, ListsOwned, SameWhereBoth, DoKafka;
    KafkaLoses(s, now, msg);
    var hit, t, gone := Match(s, msg.topic, now, msg.extract).2, DoKafka(s, now, msg).s, ScanExpires(s, msg.topic, now, msg.extract);
    LostKeeps(s, t, c, gone, if Lost(s, t, gone, None) then None else Some(hit.value.correlationId));
  }

  lemma BridgeEventKeeps(s: State, b: Book, ev: Event)
    requires Coupled(s, b) && (ev.BridgeResume? || ev.BridgeCancel? || ev.BridgeTimer? || ev.BridgeCleanup?)
    ensures SameWhereBoth(s, Step(s, ev).s)
  {
    hide Coupled, CloseCallback, BridgeSweep, NoDup, RawMap.Valid;
    match ev
    case BridgeResume(bridge, id, data) =>
      if (bridge, id) in s.callbacks.vals { CloseCallbacks(s, (bridge, id), ResumedLocally(data), ByBridgeResume); }
    case BridgeCancel(bridge, id) =>
      if (bridge, id) in s.callbacks.vals { CloseCallbacks(s, (bridge, id), Cancelled, ByBridgeCancel); }
    case BridgeTimer(t) =>
      if t in s.timers {
        BridgeTimerIsClose(s, t, b);
        CloseCallbacks(s, s.timers[t], TimedOut, ByBridgeTimeout);
      }
    case BridgeCleanup(now, bridge) => BridgeSweepMeaning(s, s.callbacks.keys, now, bridge);
  }

  /** No step changes a callback it does not take away. */
  lemma CallbackKept(s: State, b: Book, ev: Event)
    requires Coupled(s, b)
    ensures SameWhereBoth(s, Step(s, ev).s)
  {
    StepAudited(s, ev, b);
    var c := Audit(b, Step(s, ev).effects).value;
    hide Coupled, SameWhereBoth, DoHttpPause, DoHttpResume, DoHttpWait, DoPollEnds, DoHttpDelete, DoHttpCleanup, DoQueueSweep, DoWebhook,
         DoKafka, DoBridgePause, DoBridgeClose, DoBridgeTimer, DoBridgeCleanup;
    match ev
    case HttpResume(now, id, data) => HttpResumeKeeps(s, b, now, id, data, c);
    case WebhookCall(now, call) => WebhookKeeps(s, b, now, call, c);
    case KafkaDelivery(now, msg) => KafkaKeeps(s, b, now, msg, c);
    case BridgeResume(_, _, _) => BridgeEventKeeps(s, b, ev);
    case BridgeCancel(_, _) => BridgeEventKeeps(s, b, ev);
    case BridgeTimer(_) => BridgeEventKeeps(s, b, ev);
    case BridgeCleanup(_, _) => BridgeEventKeeps(s, b, ev);
    case _ => OthersKeep(s, ev);
  }

  lemma OthersKeep(s: State, ev: Event)
    requires ev.HttpPause? || ev.HttpWait? || ev.PollTimeout? || ev.PollClose? || ev.HttpDelete? || ev.HttpCleanup? || ev.QueueSweep? || ev.BridgePause?
    ensures SameWhereBoth(s, Step(s, ev).s)
  {
    hide NoDup, RawMap.Valid, Register, Added, Filter, Restrict, AfterCleanup, Deregister, SweepEffects, QueueEffects;
  }

  /** A callback whose promise has not ended is the same after any run. */
  lemma {:induction false} CallbackStays(s: State, b: Book, evs: seq<Event>, key: BridgeKey)
    requires Coupled(s, b) && key in s.callbacks.vals && CountOf(Run(s, evs).1, Endings(s.callbacks.vals[key].token)) == 0
    ensures var t := Run(s, evs).0; key in t.callbacks.vals && t.callbacks.vals[key] == s.callbacks.vals[key]
    decreases |evs|
  {
    hide Coupled, Step, CountOf, Endings, NoDup, RawMap.Valid;
    if evs != [] {
      var o, t := Step(s, evs[0]), s.callbacks.vals[key].token;
      StepAudited(s, evs[0], b);
      var c := Audit(b, o.effects).value;
      CountConcat(o.effects, Run(o.s, evs[1..]).1, Endings(t));
      var w := BridgeWaiter(key.0, key.1, t);
      LivesIsOpen(s, b, w);
      OpenStays(b, o.effects, t);
      LivesIsOpen(o.s, c, w);
      CallbackKept(s, b, evs[0]);
      CallbackStays(o.s, c, evs[1..], key);
    }
  }

  // ---- When a stored pause ends by its deadline ----

  /** Of all paused entries the message names `id`'s, and no other names itself by it. */
  ghost predicate NamesOnly(m: Entries, extract: Entry -> Option<string>, id: string) {
    && id in m.vals && id != "" && extract(m.vals[id]) == Some(id)
    && forall k :: k in m.vals && k != id ==> extract(m.vals[k]) != Some(k)
  }

  ghost predicate Alive(e: Entry, t: int) {
    e.timeoutAt > 0 ==> t <= e.timeoutAt
  }

  lemma NamedMatches(s: State, path: string, t: int, extract: Entry -> Option<string>, id: string)
    requires KeyedById(s.store) && NamesOnly(s.store, extract, id) && s.store.vals[id].webhookPath == path
    ensures var e := s.store.vals[id];
      && (Alive(e, t) ==> exists i: nat :: FirstMatch(Listed(s.store), path, t, extract, i) && Listed(s.store)[i] == e)
      && (!Alive(e, t) ==> forall k :: k in s.store.vals ==> !Matches(s.store.vals[k], path, t, extract))
  {
    var e, listed := s.store.vals[id], Listed(s.store);
    ListedFacts(s.store);
    hide NoDup, RawMap.Valid, Listed;
    if Alive(e, t) {
      assert e in listed;
      var i :| 0 <= i < |listed| && listed[i] == e;
      forall j | 0 <= j < i ensures !Matches(listed[j], path, t, extract) {
        assert listed[j] in listed;
      }
      assert FirstMatch(listed, path, t, extract, i);
    }
  }

  /** A message that names a paused id on its path reaches it up to and including its deadline, and never after. */
  lemma MessageDeadline(s: State, t: int, msg: KafkaMessage, id: string)
    requires KeyedById(s.store) && NamesOnly(s.store, msg.extract, id) && s.store.vals[id].webhookPath == msg.topic
    ensures var o := Step(s, KafkaDelivery(t, msg));
      && (o.reply.ResumedTo? <==> Alive(s.store.vals[id], t))
      && (o.reply.ResumedTo? ==> o.reply.body.correlationId == id)
  {
    NamedMatches(s, msg.topic, t, msg.extract, id);
    KafkaAnswer(s, t, msg);
    hide Step, NoDup, RawMap.Valid, Listed, FirstMatch, Matches, NamesOnly, Alive;
    if Alive(s.store.vals[id], t) {
      var i: nat :| FirstMatch(Listed(s.store), msg.topic, t, msg.extract, i) && Listed(s.store)[i] == s.store.vals[id];
    }
  }

  lemma WebhookDeadline(s: State, t: int, call: WebhookRequest, id: string)
    requires KeyedById(s.store) && call.admitted && NamesOnly(s.store, call.extract, id) && s.store.vals[id].webhookPath == call.path
    ensures Step(s, WebhookCall(t, call)).reply != NoMatch <==> Alive(s.store.vals[id], t)
  {
    NamedMatches(s, call.path, t, call.extract, id);
    WebhookUnmatched(s, t, call);
    hide Step, NoDup, RawMap.Valid, NamesOnly, Alive;
    if Alive(s.store.vals[id], t) {
      var i: nat :| FirstMatch(Listed(s.store), call.path, t, call.extract, i) && Listed(s.store)[i] == s.store.vals[id];
      ListedFacts(s.store);
      hide Listed;
      assert Listed(s.store)[i] in Listed(s.store);
    }
  }

  /** The sweep removes an entry from its deadline on, one moment before messages miss it. */
  lemma SweepDeadline(s: State, t: int, id: string)
    requires id in s.store.vals
    ensures id !in Step(s, HttpCleanup(t)).s.store.vals <==> 0 < s.store.vals[id].timeoutAt <= t
  {
    hide NoDup, RawMap.Valid;
  }

  lemma BridgeSweepDeadline(s: State, t: int, key: BridgeKey)
    requires key in s.callbacks.vals
    ensures key !in Step(s, BridgeCleanup(t, key.0)).s.callbacks.vals <==> 0 < s.callbacks.vals[key].timeoutAt <= t
  {
    BridgeSweepMeaning(s, s.callbacks.keys, t, key.0);
    hide NoDup, BridgeSweep;
  }

  /**
   A stored pause, by either route, after any run that did not remove its id: it is
   what was asked for, a message that names it alone at time `t` resumes it iff
   `t` is not past `now + timeoutMs`, a webhook likewise meets it, and a sweep at
   `t` removes it iff `t` has reached that; without a timeout neither ever does.
   */
  lemma PauseDeadline(s: State, b: Book, ev: Event, evs: seq<Event>, t: int, msg: KafkaMessage, call: WebhookRequest)
    requires Coupled(s, b) && (ev.HttpPause? || ev.BridgePause?) && ev.req.correlationId !in s.store.vals
    requires ev.req.correlationId in Step(s, ev).s.store.vals && CountOf(Run(Step(s, ev).s, evs).1, Removals(ev.req.correlationId)) == 0
    requires var z := Run(Step(s, ev).s, evs).0; var id := ev.req.correlationId;
      && NamesOnly(z.store, msg.extract, id) && msg.topic == ev.req.webhookPath
      && NamesOnly(z.store, call.extract, id) && call.path == ev.req.webhookPath && call.admitted
    ensures var z, id, req := Run(Step(s, ev).s, evs).0, ev.req.correlationId, ev.req;
      && id in z.store.vals && CarriesRequest(z.store.vals[id], req, ev.now)
      && (0 < req.timeoutMs && 0 < ev.now + req.timeoutMs ==>
            && (Step(z, KafkaDelivery(t, msg)).reply.ResumedTo? <==> t <= ev.now + req.timeoutMs)
            && (Step(z, WebhookCall(t, call)).reply != NoMatch <==> t <= ev.now + req.timeoutMs)
            && (id !in Step(z, HttpCleanup(t)).s.store.vals <==> t >= ev.now + req.timeoutMs))
      && (req.timeoutMs <= 0 ==>
            && Step(z, KafkaDelivery(t, msg)).reply.ResumedTo? && Step(z, WebhookCall(t, call)).reply != NoMatch
            && id in Step(z, HttpCleanup(t)).s.store.vals)
  {
    var id, req := ev.req.correlationId, ev.req;
    if ev.HttpPause? {
      HttpPauseExactly(s, ev.now, req);
    } else {
      BridgePauseExactly(s, ev.now, ev.bridge, req);
    }
    StepAudited(s, ev, b);
    var one := Step(s, ev).s;
    var c := Audit(b, Step(s, ev).effects).value;
    hide Coupled, Step, Run, CountOf, NoDup, RawMap.Valid, NamesOnly;
    assert CarriesRequest(one.store.vals[id], req, ev.now);
    EntryStays(one, c, evs, id);
    RunAudited(one, evs, c);
    var z := Run(one, evs).0;
    CoupledKeyed(z, Audit(c, Run(one, evs).1).value);
    MessageDeadline(z, t, msg, id);
    WebhookDeadline(z, t, call, id);
    SweepDeadline(z, t, id);
  }

  /** A bridge's callback, after any run in which its promise did not end: its bridge's sweep takes it from the deadline on. */
  lemma BridgeDeadline(s: State, b: Book, now: int, bridge: nat, req: PauseRequest, evs: seq<Event>, t: int)
    requires Coupled(s, b) && (bridge, req.correlationId) !in s.callbacks.vals
    requires CountOf(Run(Step(s, BridgePause(now, bridge, req)).s, evs).1, Endings(s.next)) == 0
    ensures var z, key := Run(Step(s, BridgePause(now, bridge, req)).s, evs).0, (bridge, req.correlationId);
      && key in z.callbacks.vals && z.callbacks.vals[key].token == s.next
      && (key !in Step(z, BridgeCleanup(t, bridge)).s.callbacks.vals <==> req.timeoutMs > 0 && 0 < now + req.timeoutMs <= t)
  {
    var ev, key := BridgePause(now, bridge, req), (bridge, req.correlationId);
    BridgePauseExactly(s, now, bridge, req);
    StepAudited(s, ev, b);
    var one, c := Step(s, ev).s, Audit(b, Step(s, ev).effects).value;
    hide Coupled, Step, Run, CountOf, NoDup, RawMap.Valid, StoredLast;
    CallbackStays(one, c, evs, key);
    BridgeSweepDeadline(Run(one, evs).0, t, key);
  }
}
