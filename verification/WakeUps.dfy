/**
 Wake-ups over time: a resume that found nobody waiting is handed to the next
 poll; a bridge that pauses after it is not woken by it; and a bridge's own
 store entry never outlives its callback.
 */
module WakeUps {
  import opened JsMap
  import opened Idempotency
  import opened CorrelationStore
  import opened IdempotencyKeys
  import opened CorrelationProtocol
  import opened Ledger
  import opened ProtocolRefinement
  import opened ProtocolTheorems
  import opened Matching
  import opened Wrappers

  // ---- Polls ----

  /** The clock of a step is not before `t`, and a queue sweep does not reach back to `t`. */
  predicate WithinQueueTtl(ev: Event, t: int) {
    match ev
    case HttpResume(now, _, _) => now >= t
    case WebhookCall(now, _) => now >= t
    case KafkaDelivery(now, _) => now >= t
    case QueueSweep(now) => now - t <= 300000
    case _ => true
  }

  /** A resume for `id`, no older than `t`, lies in the queue. */
  ghost predicate Lies(s: State, id: string, t: int) {
    id in s.queued.vals && s.queued.vals[id].ts >= t
  }

  lemma NotifyKeepsMail(s: State, id: string, r: QueuedResume, kept: string, t: int)
    requires Lies(s, kept, t) && r.ts >= t
    ensures Lies(Notify(s, id, r).0, kept, t)
  {
    WakeAllKeeps(s.(waiters := s.waiters - {id}), WaitersOf(s.waiters, id), r);
  }

  lemma MatchKeepsMail(s: State, path: string, now: int, extract: Entry -> Option<string>)
    ensures Match(s, path, now, extract).0.queued == s.queued && Match(s, path, now, extract).0.waiters == s.waiters
  {
    RemoveEntriesMeaning(s, ScanFor(Listed(s.store), path, now, extract).expired, ByMatchExpiry);
  }

  lemma {:induction false} BridgeSweepKeepsMail(s: State, keys: seq<BridgeKey>, now: int, b: nat)
    ensures BridgeSweep(s, keys, now, b).0.queued == s.queued
    decreases |keys|
  {
    if keys != [] {
      var key := keys[0];
      var s1 := if key.0 == b && key in s.callbacks.vals && CallbackExpired(s.callbacks.vals[key], now)
                then CloseCallback(s, key, ExpiredInBridge, ByBridgeExpiry).0 else s;
      BridgeSweepKeepsMail(s1, keys[1..], now, b);
    }
  }

  lemma MailPersists(s: State, ev: Event, id: string, t: int)
    requires Lies(s, id, t) && WithinQueueTtl(ev, t) && ev != HttpWait(id)
    ensures Lies(Step(s, ev).s, id, t)
  {
    hide NoDup, RawMap.Valid, DoWebhook, DoKafka, Notify, Register, Deregister, Filter, RemoveFirst, Added,
         NewEntry, AfterCleanup, Swept, SweepEffects, QueueEffects, BridgeSweep;
    match ev
    case HttpResume(now, rid, data) =>
      if rid in s.store.vals {
        NotifyKeepsMail(RemoveEntry(s, rid, ByResume).0, rid, ResumeOf(s.store.vals[rid], data, now), id, t);
      }
    case WebhookCall(now, call) => MessageKeepsMailWebhook(s, now, call, id, t);
    case KafkaDelivery(now, msg) => MessageKeepsMailKafka(s, now, msg, id, t);
    case BridgeCleanup(now, b) => BridgeSweepKeepsMail(s, s.callbacks.keys, now, b);
    case _ =>
  }

  lemma MessageKeepsMailWebhook(s: State, now: int, call: WebhookRequest, id: string, t: int)
    requires Lies(s, id, t) && now >= t
    ensures Lies(DoWebhook(s, now, call).s, id, t)
  {
    var (s1, _, hit) := Match(s, call.path, now, call.extract);
    MatchKeepsMail(s, call.path, now, call.extract);
    if call.admitted && hit.Some? && call.tokenOk {
      var e := hit.value;
      var s2 := s1.(cache := AfterLookup(s1.cache, WebhookKey(e.correlationId, call.path, call.idempotencyHeader, call.requestId), now, s.ttlMs));
      NotifyKeepsMail(RemoveEntry(s2, e.correlationId, ByWebhook).0, e.correlationId, ResumeOf(e, call.body, now), id, t);
      MatchedWebhookEnds(s, now, call);
      hide Match, Notify, AfterLookup, AfterRecord, DoWebhook, WebhookKey;
    }
  }

  lemma MessageKeepsMailKafka(s: State, now: int, msg: KafkaMessage, id: string, t: int)
    requires Lies(s, id, t) && now >= t
    ensures Lies(DoKafka(s, now, msg).s, id, t)
  {
    var (s1, _, hit) := Match(s, msg.topic, now, msg.extract);
    MatchKeepsMail(s, msg.topic, now, msg.extract);
    if hit.Some? {
      var e := hit.value;
      var s2 := s1.(cache := AfterLookup(s1.cache, KafkaKey(msg.topic, msg.partition, msg.offset), now, s.ttlMs));
      NotifyKeepsMail(RemoveEntry(s2, e.correlationId, ByKafka).0, e.correlationId,
                      ResumeOf(e, KafkaData(msg.topic, msg.partition, msg.offset, msg.key, msg.value), now), id, t);
    }
  }

  lemma {:induction false} MailPersistsRun(s: State, evs: seq<Event>, id: string, t: int)
    requires Lies(s, id, t)
    requires forall i :: 0 <= i < |evs| ==> WithinQueueTtl(evs[i], t) && evs[i] != HttpWait(id)
    ensures Lies(Run(s, evs).0, id, t)
    decreases |evs|
  {
    if evs != [] {
      MailPersists(s, evs[0], id, t);
      MailPersistsRun(Step(s, evs[0]).s, evs[1..], id, t);
    }
  }

  lemma WebhookResumeLies(s: State, now: int, call: WebhookRequest)
    requires DoWebhook(s, now, call).reply.ResumedTo? && DoWebhook(s, now, call).reply.body.correlationId !in s.waiters
    ensures Lies(DoWebhook(s, now, call).s, DoWebhook(s, now, call).reply.body.correlationId, now)
  {
    hide Match, AfterLookup, AfterRecord, Lookup, WebhookKey, FilterVerdict;
    MatchKeepsMail(s, call.path, now, call.extract);
  }

  lemma KafkaResumeLies(s: State, now: int, msg: KafkaMessage)
    requires DoKafka(s, now, msg).reply.ResumedTo? && DoKafka(s, now, msg).reply.body.correlationId !in s.waiters
    ensures Lies(DoKafka(s, now, msg).s, DoKafka(s, now, msg).reply.body.correlationId, now)
  {
    hide Match, AfterLookup, AfterRecord, Lookup, KafkaKey;
    MatchKeepsMail(s, msg.topic, now, msg.extract);
  }

  /** A resume by any route that finds nobody waiting lies in the queue. */
  lemma UnclaimedResumeLies(s: State, ev: Event)
    requires ev.HttpResume? || ev.WebhookCall? || ev.KafkaDelivery?
    requires Step(s, ev).reply.ResumedTo? && Step(s, ev).reply.body.correlationId !in s.waiters
    ensures Lies(Step(s, ev).s, Step(s, ev).reply.body.correlationId, ev.now)
  {
    match ev
    case HttpResume(now, id, data) =>
    case WebhookCall(now, call) =>
      hide DoWebhook;
      WebhookResumeLies(s, now, call);
    case KafkaDelivery(now, msg) =>
      hide DoKafka;
      KafkaResumeLies(s, now, msg);
  }

  /**
   No lost wake-up for polls: without bridges, while a resume for `id` lies in
   the queue and no sweep reaches back to it, the first poll for `id` is answered
   at once, with the payload notified last.
   */
  lemma PollGetsLatest(s: State, b: Book, id: string, t: int, evs: seq<Event>)
    requires Coupled(s, b) && Exclusive(s) && WithoutBridgePause(evs)
    requires Lies(s, id, t)
    requires forall i :: 0 <= i < |evs| ==> WithinQueueTtl(evs[i], t) && evs[i] != HttpWait(id)
    ensures var (s1, log) := Run(s, evs);
      var latest := LastLetter(log, id, Some(s.queued.vals[id]));
      latest.Some? && Step(s1, HttpWait(id)).reply == PollAnswer(latest.value)
  {
    MailPersistsRun(s, evs, id, t);
    PollRunsStayExclusive(s, b, evs, id, Some(s.queued.vals[id]));
  }

  /**
   The same is false of bridges: an id resumed over HTTP and then paused by a
   bridge stays parked with its resume lying in the queue.
   */
  lemma BridgeMissesQueuedResume(req: PauseRequest, data: Payload, ttlMs: int, maxEntries: nat)
    requires req.correlationId != "" && req.webhookPath != "" && req.executionId != ""
    ensures var id := req.correlationId;
      var s := Run(Init(ttlMs, maxEntries), [HttpPause(0, req), HttpResume(0, id, data), BridgePause(0, 0, req)]).0;
      id in s.queued.vals && s.waiters == map[id := [BridgeWaiter(0, id, 0)]] && (0, id) in s.callbacks.vals
  {
    var id, s0 := req.correlationId, Init(ttlMs, maxEntries);
    var evs := [HttpPause(0, req), HttpResume(0, id, data), BridgePause(0, 0, req)];
    var s1 := Step(s0, evs[0]).s;
    var s2 := Step(s1, evs[1]).s;
    var s3 := Step(s2, evs[2]).s;
    assert evs[1..] == [evs[1], evs[2]] && evs[1..][1..] == [evs[2]] && evs[1..][1..][1..] == [];
    assert Run(s3, []).0 == s3;
    assert Run(s2, [evs[2]]).0 == s3;
    assert Run(s1, evs[1..]).0 == s3;
    assert id in s1.store.vals && s2.queued.vals == map[id := ResumeOf(NewEntry(req, 0), data, 0)];
    assert s2.waiters == map[] && s2.callbacks == Empty() && s2.next == 0;
    assert WaitersOf(s2.waiters, id) + [BridgeWaiter(0, id, 0)] == [BridgeWaiter(0, id, 0)];
  }

  // ---- A bridge's own entry implies its callback ----

  /** Bridge `key` holds the callback of promise `t`, and the id is paused. */
  ghost predicate Held(s: State, key: BridgeKey, t: nat) {
    key in s.callbacks.vals && s.callbacks.vals[key].token == t && key.1 in s.store.vals
  }

  ghost predicate Removes(effects: seq<Effect>, id: string) {
    exists eff :: eff in effects && Removals(id)(eff)
  }

  lemma {:induction false} WakeAllHolds(s: State, ws: seq<Waiter>, r: QueuedResume, key: BridgeKey)
    requires forall w :: w in ws ==> w.id != key.1
    ensures var s1 := WakeAll(s, ws, r).0;
      (key in s1.callbacks.vals <==> key in s.callbacks.vals) && (key in s.callbacks.vals ==> s1.callbacks.vals[key] == s.callbacks.vals[key])
    decreases |ws|
  {
    if ws != [] {
      WakeAllHolds(Wake(s, ws[0], r).0, ws[1..], r, key);
    }
  }

  /** Notifying another id leaves the callback and the store alone. */
  lemma NotifyHolds(s: State, id: string, r: QueuedResume, key: BridgeKey, t: nat)
    requires Held(s, key, t) && id != key.1 && forall w :: w in WaitersOf(s.waiters, id) ==> w.id == id
    ensures Held(Notify(s, id, r).0, key, t)
  {
    var s0, ws := s.(waiters := s.waiters - {id}), WaitersOf(s.waiters, id);
    WakeAllHolds(s0, ws, r, key);
    WakeAllKeeps(s0, ws, r);
  }

  lemma RemoveHolds(s: State, id: string, cause: Cause, key: BridgeKey, t: nat)
    requires Held(s, key, t) && KeyedById(s.store)
    ensures id != key.1 ==> Held(RemoveEntry(s, id, cause).0, key, t)
    ensures id == key.1 ==> Removes(RemoveEntry(s, id, cause).1, key.1)
    ensures KeyedById(RemoveEntry(s, id, cause).0.store)
  {
    if id == key.1 {
      var eff := Removed(s.store.vals[id], cause);
      assert eff in RemoveEntry(s, id, cause).1 && Removals(id)(eff);
    }
  }

  lemma RemovesConcat(first: seq<Effect>, rest: seq<Effect>, id: string)
    ensures Removes(first + rest, id) <==> Removes(first, id) || Removes(rest, id)
  {
    assert forall eff :: eff in first + rest <==> eff in first || eff in rest;
  }

  lemma {:induction false} RemovalsHold(s: State, ids: seq<string>, cause: Cause, key: BridgeKey, t: nat)
    requires Held(s, key, t) && KeyedById(s.store)
    ensures Held(RemoveEntries(s, ids, cause).0, key, t) || Removes(RemoveEntries(s, ids, cause).1, key.1)
    decreases |ids|
  {
    if ids != [] {
      var (s1, first) := RemoveEntry(s, ids[0], cause);
      RemoveHolds(s, ids[0], cause, key, t);
      RemovesConcat(first, RemoveEntries(s1, ids[1..], cause).1, key.1);
      if ids[0] != key.1 {
        RemovalsHold(s1, ids[1..], cause, key, t);
      }
    }
  }

  /** Removing and notifying an id: the callback stays, or the id was the bridge's own. */
  lemma ResumptionHolds(s: State, id: string, cause: Cause, r: QueuedResume, key: BridgeKey, t: nat)
    requires Held(s, key, t) && KeyedById(s.store) && forall w :: w in WaitersOf(s.waiters, id) ==> w.id == id
    ensures var (s1, removed) := RemoveEntry(s, id, cause);
      Held(Notify(s1, id, r).0, key, t) || Removes(removed, key.1)
  {
    RemoveHolds(s, id, cause, key, t);
    if id != key.1 {
      NotifyHolds(RemoveEntry(s, id, cause).0, id, r, key, t);
    }
  }

  /** The same after a message's match, whatever happened to the cache meanwhile. */
  lemma MessageHolds(s: State, path: string, now: int, extract: Entry -> Option<string>, c: Cache<Body>, d: Cache<Body>, e: Entry, cause: Cause, r: QueuedResume, key: BridgeKey, t: nat)
    requires Held(s, key, t) && KeyedById(s.store) && forall w :: w in WaitersOf(s.waiters, e.correlationId) ==> w.id == e.correlationId
    ensures var (s1, expired, _) := Match(s, path, now, extract);
      var s2 := s1.(cache := c);
      var (s3, removed) := RemoveEntry(s2, e.correlationId, cause);
      var (s4, notified) := Notify(s3, e.correlationId, r);
      && (Held(s1, key, t) || Removes(expired, key.1))
      && (Held(s2, key, t) || Removes(expired, key.1))
      && (Held(s4.(cache := d), key, t) || Removes(expired + removed + notified, key.1))
  {
    var scan := ScanFor(Listed(s.store), path, now, extract);
    var (s1, expired) := RemoveEntries(s, scan.expired, ByMatchExpiry);
    RemovalsHold(s, scan.expired, ByMatchExpiry, key, t);
    RemoveEntriesMeaning(s, scan.expired, ByMatchExpiry);
    var s2 := s1.(cache := c);
    var (s3, removed) := RemoveEntry(s2, e.correlationId, cause);
    RemovesConcat(expired, removed, key.1);
    RemovesConcat(expired + removed, Notify(s3, e.correlationId, r).1, key.1);
    if Held(s1, key, t) {
      ResumptionHolds(s2, e.correlationId, cause, r, key, t);
    }
  }

  lemma CloseHolds(s: State, other: BridgeKey, how: How, cause: Cause, key: BridgeKey, t: nat)
    requires Held(s, key, t) && KeyedById(s.store) && other in s.callbacks.vals
    ensures Held(CloseCallback(s, other, how, cause).0, key, t) || Removes(CloseCallback(s, other, how, cause).1, key.1)
    ensures KeyedById(CloseCallback(s, other, how, cause).0.store)
  {
    var removed := RemoveEntry(s, other.1, cause).1;
    RemoveHolds(s, other.1, cause, key, t);
    RemovesConcat(removed, [Settled(BridgeWaiter(other.0, other.1, s.callbacks.vals[other].token), how)], key.1);
  }

  lemma {:induction false} BridgeSweepHolds(s: State, keys: seq<BridgeKey>, now: int, b: nat, key: BridgeKey, t: nat)
    requires Held(s, key, t) && KeyedById(s.store)
    ensures Held(BridgeSweep(s, keys, now, b).0, key, t) || Removes(BridgeSweep(s, keys, now, b).1, key.1)
    decreases |keys|
  {
    if keys != [] {
      var other := keys[0];
      if other.0 == b && other in s.callbacks.vals && CallbackExpired(s.callbacks.vals[other], now) {
        var (s1, first) := CloseCallback(s, other, ExpiredInBridge, ByBridgeExpiry);
        CloseHolds(s, other, ExpiredInBridge, ByBridgeExpiry, key, t);
        RemovesConcat(first, BridgeSweep(s1, keys[1..], now, b).1, key.1);
        if Held(s1, key, t) {
          BridgeSweepHolds(s1, keys[1..], now, b, key, t);
        }
      } else {
        BridgeSweepHolds(s, keys[1..], now, b, key, t);
        assert [] + BridgeSweep(s, keys[1..], now, b).1 == BridgeSweep(s, keys[1..], now, b).1;
      }
    }
  }

  lemma {:induction false} SweepRemoves(listed: seq<Entry>, now: int, e: Entry)
    requires e in listed && Expired(e, now)
    ensures Removes(SweepEffects(listed, now), e.correlationId)
  {
    var first := if Expired(listed[0], now) then [Removed(listed[0], BySweep)] else [];
    RemovesConcat(first, SweepEffects(listed[1..], now), e.correlationId);
    if listed[0] == e {
      assert Removed(e, BySweep) in first && Removals(e.correlationId)(Removed(e, BySweep));
    } else {
      SweepRemoves(listed[1..], now, e);
    }
  }

  /** Every waiter is registered under its own id. */
  ghost predicate OwnIds(waiters: map<string, seq<Waiter>>) {
    forall id, w :: id in waiters && w in waiters[id] ==> w.id == id
  }

  /** Held when the step ended where the removals up to then left it, or the step removed the entry. */
  ghost predicate HeldOrRemoved(o: Outcome, key: BridgeKey, t: nat) {
    Held(o.s, key, t) || Removes(o.effects, key.1)
  }

  lemma HttpResumeHolds(s: State, now: int, id: string, data: Payload, key: BridgeKey, t: nat)
    requires Held(s, key, t) && KeyedById(s.store) && OwnIds(s.waiters)
    ensures HeldOrRemoved(DoHttpResume(s, now, id, data), key, t)
  {
    if id in s.store.vals {
      var r := ResumeOf(s.store.vals[id], data, now);
      ResumptionHolds(s, id, ByResume, r, key, t);
      RemovesConcat(RemoveEntry(s, id, ByResume).1, Notify(RemoveEntry(s, id, ByResume).0, id, r).1, key.1);
    }
  }

  lemma HttpCleanupHolds(s: State, now: int, key: BridgeKey, t: nat)
    requires Held(s, key, t) && KeyedById(s.store)
    ensures HeldOrRemoved(DoHttpCleanup(s, now), key, t)
  {
    if Expired(s.store.vals[key.1], now) {
      ListedFacts(s.store);
      SweepRemoves(Listed(s.store), now, s.store.vals[key.1]);
    }
  }

  lemma WebhookHolds(s: State, now: int, call: WebhookRequest, key: BridgeKey, t: nat)
    requires Held(s, key, t) && KeyedById(s.store) && OwnIds(s.waiters)
    ensures HeldOrRemoved(DoWebhook(s, now, call), key, t)
  {
    var (s1, expired, hit) := Match(s, call.path, now, call.extract);
    RemovalsHold(s, ScanFor(Listed(s.store), call.path, now, call.extract).expired, ByMatchExpiry, key, t);
    if call.admitted && hit.Some? && call.tokenOk {
      var e := hit.value;
      var ikey := WebhookKey(e.correlationId, call.path, call.idempotencyHeader, call.requestId);
      var c, r := AfterLookup(s1.cache, ikey, now, s.ttlMs), ResumeOf(e, call.body, now);
      var s4 := Notify(RemoveEntry(s1.(cache := c), e.correlationId, ByWebhook).0, e.correlationId, r).0;
      MessageHolds(s, call.path, now, call.extract, c, AfterRecord(s4.cache, ikey, 200, BodyOf(e), now, s.maxEntries), e, ByWebhook, r, key, t);
      MatchedWebhookEnds(s, now, call);
      hide Removes, Held, Match, RemoveEntry, Notify, AfterLookup, AfterRecord, DoWebhook, WebhookKey, KeyedById, OwnIds;
    }
  }

  lemma KafkaHolds(s: State, now: int, msg: KafkaMessage, key: BridgeKey, t: nat)
    requires Held(s, key, t) && KeyedById(s.store) && OwnIds(s.waiters)
    ensures HeldOrRemoved(DoKafka(s, now, msg), key, t)
  {
    var (s1, expired, hit) := Match(s, msg.topic, now, msg.extract);
    var ikey := KafkaKey(msg.topic, msg.partition, msg.offset);
    var c := AfterLookup(s1.cache, ikey, now, s.ttlMs);
    MatchedKafkaEnds(s, now, msg);
    if hit.Some? {
      var e := hit.value;
      var r := ResumeOf(e, KafkaData(msg.topic, msg.partition, msg.offset, msg.key, msg.value), now);
      var s4 := Notify(RemoveEntry(s1.(cache := c), e.correlationId, ByKafka).0, e.correlationId, r).0;
      MessageHolds(s, msg.topic, now, msg.extract, c, AfterRecord(s4.cache, ikey, 200, BodyOf(e), now, s.maxEntries), e, ByKafka, r, key, t);
    } else {
      MatchHolds(s, msg.topic, now, msg.extract, c, key, t);
    }
    hide Removes, Held, Match, RemoveEntry, Notify, AfterLookup, AfterRecord, DoKafka, KafkaKey, KeyedById, OwnIds;
  }

  lemma MatchHolds(s: State, path: string, now: int, extract: Entry -> Option<string>, c: Cache<Body>, key: BridgeKey, t: nat)
    requires Held(s, key, t) && KeyedById(s.store)
    ensures var (s1, expired, _) := Match(s, path, now, extract);
      Held(s1.(cache := c), key, t) || Removes(expired, key.1)
  {
    RemovalsHold(s, ScanFor(Listed(s.store), path, now, extract).expired, ByMatchExpiry, key, t);
  }

  lemma BridgeCloseHolds(s: State, other: BridgeKey, how: How, cause: Cause, key: BridgeKey, t: nat)
    requires Held(s, key, t) && KeyedById(s.store)
    ensures HeldOrRemoved(DoBridgeClose(s, other, how, cause), key, t)
  {
    if other in s.callbacks.vals {
      CloseHolds(s, other, how, cause, key, t);
    }
  }

  lemma BridgeTimerHolds(s: State, b: Book, token: nat, key: BridgeKey, t: nat)
    requires Coupled(s, b) && Held(s, key, t)
    ensures HeldOrRemoved(DoBridgeTimer(s, token), key, t)
  {
    if token in s.timers {
      BridgeTimerIsClose(s, token, b);
      hide ListsMatch, PartiesMatch, TimersMatch;
      CloseHolds(s, s.timers[token], TimedOut, ByBridgeTimeout, key, t);
    }
  }

  /** The steps that remove nothing keep every callback. */
  lemma QuietStepHolds(s: State, ev: Event, key: BridgeKey, t: nat)
    requires Held(s, key, t)
    requires ev.HttpPause? || ev.HttpWait? || ev.PollTimeout? || ev.PollClose? || ev.QueueSweep? || ev.BridgePause?
    ensures HeldOrRemoved(Step(s, ev), key, t)
  {
  }

  lemma CoupledIds(s: State, b: Book)
    requires Coupled(s, b)
    ensures KeyedById(s.store) && OwnIds(s.waiters)
  {
  }

  /** One step keeps a held callback, unless it removes the entry. */
  lemma HeldStep(s: State, b: Book, ev: Event, key: BridgeKey, t: nat)
    requires Coupled(s, b) && Held(s, key, t)
    ensures HeldOrRemoved(Step(s, ev), key, t)
  {
    hide Coupled, KeyedById, OwnIds, Held, HeldOrRemoved;
    CoupledIds(s, b);
    hide DoHttpPause, DoHttpResume, DoHttpWait, DoPollEnds, DoHttpDelete, DoHttpCleanup, DoQueueSweep, DoWebhook, DoKafka,
         DoBridgePause, DoBridgeClose, DoBridgeTimer, DoBridgeCleanup;
    match ev
    case HttpResume(now, id, data) => HttpResumeHolds(s, now, id, data, key, t);
    case HttpDelete(id) => HttpDeleteHolds(s, id, key, t);
    case HttpCleanup(now) => HttpCleanupHolds(s, now, key, t);
    case WebhookCall(now, call) => WebhookHolds(s, now, call, key, t);
    case KafkaDelivery(now, msg) => KafkaHolds(s, now, msg, key, t);
    case BridgeResume(bridge, id, data) => BridgeCloseHolds(s, (bridge, id), ResumedLocally(data), ByBridgeResume, key, t);
    case BridgeCancel(bridge, id) => BridgeCloseHolds(s, (bridge, id), Cancelled, ByBridgeCancel, key, t);
    case BridgeTimer(token) => BridgeTimerHolds(s, b, token, key, t);
    case BridgeCleanup(now, bridge) => BridgeCleanupHolds(s, now, bridge, key, t);
    case _ => QuietStepHolds(s, ev, key, t);
  }

  lemma BridgeCleanupHolds(s: State, now: int, bridge: nat, key: BridgeKey, t: nat)
    requires Held(s, key, t) && KeyedById(s.store)
    ensures HeldOrRemoved(DoBridgeCleanup(s, now, bridge), key, t)
  {
    BridgeSweepHolds(s, s.callbacks.keys, now, bridge, key, t);
  }

  lemma HttpDeleteHolds(s: State, id: string, key: BridgeKey, t: nat)
    requires Held(s, key, t) && KeyedById(s.store)
    ensures HeldOrRemoved(DoHttpDelete(s, id), key, t)
  {
    RemoveHolds(s, id, ByDelete, key, t);
  }

  lemma {:induction false} HeldRun(s: State, b: Book, evs: seq<Event>, key: BridgeKey, t: nat)
    requires Coupled(s, b) && Held(s, key, t)
    ensures var (s1, log) := Run(s, evs); Held(s1, key, t) || Removes(log, key.1)
    decreases |evs|
  {
    if evs != [] {
      var o := Step(s, evs[0]);
      StepAudited(s, evs[0], b);
      HeldStep(s, b, evs[0], key, t);
      RemovesConcat(o.effects, Run(o.s, evs[1..]).1, key.1);
      if Held(o.s, key, t) {
        HeldRun(o.s, Audit(b, o.effects).value, evs[1..], key, t);
      }
    }
  }

  /**
   When a bridge pauses an id the store did not hold, then over every later run,
   until that entry is removed, the entry is there and the bridge's callback is live.
   */
  lemma OwnEntryImpliesCallback(s: State, b: Book, now: int, bridge: nat, req: PauseRequest, evs: seq<Event>)
    requires Coupled(s, b) && (bridge, req.correlationId) !in s.callbacks.vals && req.correlationId !in s.store.vals
    ensures var (s1, log) := Run(Step(s, BridgePause(now, bridge, req)).s, evs);
      !Removes(log, req.correlationId) ==> Held(s1, (bridge, req.correlationId), s.next)
  {
    var ev := BridgePause(now, bridge, req);
    StepAudited(s, ev, b);
    var o := Step(s, ev);
    HeldRun(o.s, Audit(b, o.effects).value, evs, (bridge, req.correlationId), s.next);
  }
}
