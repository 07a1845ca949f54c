/**
 Redelivery of a Kafka message whose first delivery resumed a workflow: within
 the time to live and the retention bound it is recognised as a duplicate.
 */
module KafkaRedelivery {
  import opened JsMap
  import opened Idempotency
  import opened CorrelationStore
  import opened IdempotencyKeys
  import opened CorrelationProtocol
  import opened ProtocolRefinement
  import opened ProtocolTheorems
  import opened Matching
  import opened Wrappers

  // ---- What a step does to the cache ----

  function WebhookOps(s: State, now: int, call: WebhookRequest): seq<Op<Body>> {
    var hit := Match(s, call.path, now, call.extract).2;
    if !call.admitted || hit.None? || !call.tokenOk then []
    else
      var key := WebhookKey(hit.value.correlationId, call.path, call.idempotencyHeader, call.requestId);
      if DoWebhook(s, now, call).reply.ResumedTo? then [Check(key, now), Process(key, 200, BodyOf(hit.value), now)]
      else [Check(key, now)]
  }

  function KafkaOps(s: State, now: int, msg: KafkaMessage): seq<Op<Body>> {
    var hit := Match(s, msg.topic, now, msg.extract).2;
    var key := KafkaKey(msg.topic, msg.partition, msg.offset);
    if hit.Some? && DoKafka(s, now, msg).reply.ResumedTo? then [Check(key, now), Process(key, 200, BodyOf(hit.value), now)]
    else [Check(key, now)]
  }

  function CacheOps(s: State, ev: Event): seq<Op<Body>> {
    match ev
    case WebhookCall(now, call) => WebhookOps(s, now, call)
    case KafkaDelivery(now, msg) => KafkaOps(s, now, msg)
    case HttpCleanup(now) => [Idempotency.Cleanup(now)]
    case _ => []
  }

  function RunCacheOps(s: State, evs: seq<Event>): seq<Op<Body>>
    decreases |evs|
  {
    if evs == [] then [] else CacheOps(s, evs[0]) + RunCacheOps(Step(s, evs[0]).s, evs[1..])
  }

  ghost predicate SameCache(s: State, s1: State) {
    s1.cache == s.cache && s1.ttlMs == s.ttlMs && s1.maxEntries == s.maxEntries
  }

  lemma RemovalKeepsCache(s: State, path: string, now: int, extract: Entry -> Option<string>)
    ensures SameCache(s, Match(s, path, now, extract).0)
    ensures var s1 := Match(s, path, now, extract).0; s1.waiters == s.waiters && s1.queued == s.queued && s1.callbacks == s.callbacks
  {
    RemoveEntriesMeaning(s, ScanFor(Listed(s.store), path, now, extract).expired, ByMatchExpiry);
  }

  lemma NotifyKeepsCache(s: State, id: string, r: QueuedResume)
    ensures SameCache(s, Notify(s, id, r).0)
  {
    WakeAllKeeps(s.(waiters := s.waiters - {id}), WaitersOf(s.waiters, id), r);
  }

  lemma {:induction false} BridgeSweepKeepsCache(s: State, keys: seq<BridgeKey>, now: int, b: nat)
    ensures SameCache(s, BridgeSweep(s, keys, now, b).0)
    decreases |keys|
  {
    if keys != [] {
      var key := keys[0];
      var s1 := if key.0 == b && key in s.callbacks.vals && CallbackExpired(s.callbacks.vals[key], now)
                then CloseCallback(s, key, ExpiredInBridge, ByBridgeExpiry).0 else s;
      BridgeSweepKeepsCache(s1, keys[1..], now, b);
    }
  }

  lemma OneOp<B>(c: Cache<B>, op: Op<B>, ttl: int, max: nat)
    ensures RunOps(c, [op], ttl, max) == Apply(c, op, ttl, max)
  {
    assert [op][1..] == [];
    assert RunOps(Apply(c, op, ttl, max), [], ttl, max) == Apply(c, op, ttl, max);
  }

  lemma WebhookCache(s: State, now: int, call: WebhookRequest)
    ensures var s1 := DoWebhook(s, now, call).s;
      s1.cache == RunOps(s.cache, WebhookOps(s, now, call), s.ttlMs, s.maxEntries) && s1.ttlMs == s.ttlMs && s1.maxEntries == s.maxEntries
  {
    var (s1, _, hit) := Match(s, call.path, now, call.extract);
    RemovalKeepsCache(s, call.path, now, call.extract);
    if call.admitted && hit.Some? && call.tokenOk {
      var e := hit.value;
      var key := WebhookKey(e.correlationId, call.path, call.idempotencyHeader, call.requestId);
      var s2 := s1.(cache := AfterLookup(s1.cache, key, now, s.ttlMs));
      NotifyKeepsCache(RemoveEntry(s2, e.correlationId, ByWebhook).0, e.correlationId, ResumeOf(e, call.body, now));
      OneOp(s.cache, Check(key, now), s.ttlMs, s.maxEntries);
      RunTwo(s.cache, Check(key, now), Process(key, 200, BodyOf(e), now), s.ttlMs, s.maxEntries);
      MatchedWebhookEnds(s, now, call);
      hide DoWebhook, Match, Notify, AfterLookup, AfterRecord, Lookup, WebhookKey, RunOps;
    }
  }

  lemma KafkaCache(s: State, now: int, msg: KafkaMessage)
    ensures var s1 := DoKafka(s, now, msg).s;
      s1.cache == RunOps(s.cache, KafkaOps(s, now, msg), s.ttlMs, s.maxEntries) && s1.ttlMs == s.ttlMs && s1.maxEntries == s.maxEntries
  {
    var (s1, _, hit) := Match(s, msg.topic, now, msg.extract);
    RemovalKeepsCache(s, msg.topic, now, msg.extract);
    var key := KafkaKey(msg.topic, msg.partition, msg.offset);
    OneOp(s.cache, Check(key, now), s.ttlMs, s.maxEntries);
    if hit.Some? {
      var e := hit.value;
      var s2 := s1.(cache := AfterLookup(s1.cache, key, now, s.ttlMs));
      NotifyKeepsCache(RemoveEntry(s2, e.correlationId, ByKafka).0, e.correlationId,
                       ResumeOf(e, KafkaData(msg.topic, msg.partition, msg.offset, msg.key, msg.value), now));
      RunTwo(s.cache, Check(key, now), Process(key, 200, BodyOf(e), now), s.ttlMs, s.maxEntries);
      hide Match, Notify, AfterLookup, AfterRecord, Lookup, KafkaKey, RunOps;
    }
  }

  lemma StepCache(s: State, ev: Event)
    ensures var s1 := Step(s, ev).s;
      s1.cache == RunOps(s.cache, CacheOps(s, ev), s.ttlMs, s.maxEntries) && s1.ttlMs == s.ttlMs && s1.maxEntries == s.maxEntries
  {
    hide NoDup, RawMap.Valid, DoWebhook, DoKafka, Notify, BridgeSweep, Register, Deregister, Put, Added, Restrict,
         NewEntry, SweepEffects, QueueEffects, WebhookOps, KafkaOps;
    match ev
    case WebhookCall(now, call) => WebhookCache(s, now, call);
    case KafkaDelivery(now, msg) => KafkaCache(s, now, msg);
    case HttpCleanup(now) => OneOp(s.cache, Idempotency.Cleanup(now), s.ttlMs, s.maxEntries);
    case HttpResume(now, id, data) =>
      if id in s.store.vals {
        NotifyKeepsCache(RemoveEntry(s, id, ByResume).0, id, ResumeOf(s.store.vals[id], data, now));
      }
    case BridgeCleanup(now, b) => BridgeSweepKeepsCache(s, s.callbacks.keys, now, b);
    case _ =>
  }

  lemma {:induction false} RunOpsConcat<B>(c: Cache<B>, first: seq<Op<B>>, rest: seq<Op<B>>, ttl: int, max: nat)
    ensures RunOps(c, first + rest, ttl, max) == RunOps(RunOps(c, first, ttl, max), rest, ttl, max)
    decreases |first|
  {
    if first == [] {
      assert first + rest == rest;
    } else {
      assert (first + rest)[1..] == first[1..] + rest;
      RunOpsConcat(Apply(c, first[0], ttl, max), first[1..], rest, ttl, max);
    }
  }

  /** A run's cache is its initial cache after the run's lookups, recordings and sweeps. */
  lemma {:induction false} RunCache(s: State, evs: seq<Event>)
    ensures var s1 := Run(s, evs).0;
      s1.cache == RunOps(s.cache, RunCacheOps(s, evs), s.ttlMs, s.maxEntries) && s1.ttlMs == s.ttlMs && s1.maxEntries == s.maxEntries
    decreases |evs|
  {
    if evs != [] {
      StepCache(s, evs[0]);
      RunCache(Step(s, evs[0]).s, evs[1..]);
      RunOpsConcat(s.cache, CacheOps(s, evs[0]), RunCacheOps(Step(s, evs[0]).s, evs[1..]), s.ttlMs, s.maxEntries);
    }
  }

  lemma CacheBounded(s: State, log: seq<Effect>)
    requires Reachable(s, log) && s.maxEntries >= 1
    ensures |s.cache.keys| <= s.maxEntries
  {
    var ttlMs, maxEntries, evs :| Run(Init(ttlMs, maxEntries), evs) == (s, log);
    RunCache(Init(ttlMs, maxEntries), evs);
    SizeBound(Init(ttlMs, maxEntries).cache, RunCacheOps(Init(ttlMs, maxEntries), evs), ttlMs, maxEntries);
  }

  // ---- Redelivery ----

  /** The deliveries and webhook calls of a run that resume a workflow. */
  function Resumptions(s: State, evs: seq<Event>): nat
    decreases |evs|
  {
    if evs == [] then 0 else (if Resumes(s, evs[0]) then 1 else 0) + Resumptions(Step(s, evs[0]).s, evs[1..])
  }

  predicate Resumes(s: State, ev: Event) {
    (ev.WebhookCall? || ev.KafkaDelivery?) && Step(s, ev).reply.ResumedTo?
  }

  function KeyOf(msg: KafkaMessage): string {
    KafkaKey(msg.topic, msg.partition, msg.offset)
  }

  /**
   A step that leaves the record under `key` alone: within its time to live, and if
   it delivers the message again, nothing paused matches it.
   */
  predicate LeavesAlone(s: State, ev: Event, key: string, t: int, ttlMs: int) {
    match ev
    case WebhookCall(now, _) => t <= now <= t + ttlMs
    case HttpCleanup(now) => t <= now <= t + ttlMs
    case KafkaDelivery(now, m) =>
      t <= now <= t + ttlMs && (KeyOf(m) == key ==> Match(s, m.topic, now, m.extract).2.None?)
    case _ => true
  }

  predicate Undisturbed(s: State, evs: seq<Event>, key: string, t: int, ttlMs: int)
    decreases |evs|
  {
    evs == [] || (LeavesAlone(s, evs[0], key, t, ttlMs) && Undisturbed(Step(s, evs[0]).s, evs[1..], key, t, ttlMs))
  }

  ghost predicate OpsLeaveAlone(ops: seq<Op<Body>>, key: string, t: int, ttlMs: int) {
    forall op :: op in ops ==> t <= op.now <= t + ttlMs && (op.Process? ==> op.key != key)
  }

  /** At most a lookup and a recording under `used`. */
  lemma OpsUnder(ops: seq<Op<Body>>, used: string, b: Body, now: int, key: string, t: int, ttlMs: int)
    requires ops == [] || ops == [Check(used, now)] || ops == [Check(used, now), Process(used, 200, b, now)]
    requires t <= now <= t + ttlMs && (|ops| == 2 ==> used != key)
    ensures OpsLeaveAlone(ops, key, t, ttlMs) && Recordings(ops) == if |ops| == 2 then 1 else 0
  {
    if |ops| == 2 {
      assert ops[1..] == [ops[1]] && [ops[1]][1..] == [];
    } else if |ops| == 1 {
      assert ops[1..] == [];
    }
  }

  lemma WebhookLeavesAlone(s: State, now: int, call: WebhookRequest, msg: KafkaMessage, t: int, ttlMs: int)
    requires t <= now <= t + ttlMs
    ensures OpsLeaveAlone(WebhookOps(s, now, call), KeyOf(msg), t, ttlMs)
    ensures Recordings(WebhookOps(s, now, call)) == if DoWebhook(s, now, call).reply.ResumedTo? then 1 else 0
  {
    var hit := Match(s, call.path, now, call.extract).2;
    if call.admitted && hit.Some? && call.tokenOk {
      var used := WebhookKey(hit.value.correlationId, call.path, call.idempotencyHeader, call.requestId);
      KafkaNeverCollidesWithWebhook(msg.topic, msg.partition, msg.offset, hit.value.correlationId, call.path, call.idempotencyHeader, call.requestId);
      hide Match, WebhookKey, KafkaKey, DoWebhook;
      OpsUnder(WebhookOps(s, now, call), used, BodyOf(hit.value), now, KeyOf(msg), t, ttlMs);
    }
  }

  lemma KafkaLeavesAlone(s: State, now: int, m: KafkaMessage, key: string, t: int, ttlMs: int)
    requires LeavesAlone(s, KafkaDelivery(now, m), key, t, ttlMs)
    ensures OpsLeaveAlone(KafkaOps(s, now, m), key, t, ttlMs)
    ensures Recordings(KafkaOps(s, now, m)) == if DoKafka(s, now, m).reply.ResumedTo? then 1 else 0
  {
    var hit := Match(s, m.topic, now, m.extract).2;
    if hit.None? {
      assert !DoKafka(s, now, m).reply.ResumedTo?;
    }
    hide Match, KafkaKey, DoKafka;
    OpsUnder(KafkaOps(s, now, m), KeyOf(m), if hit.Some? then BodyOf(hit.value) else Body("", "", ""), now, key, t, ttlMs);
  }

  lemma StepLeavesAlone(s: State, ev: Event, msg: KafkaMessage, t: int, ttlMs: int)
    requires LeavesAlone(s, ev, KeyOf(msg), t, ttlMs)
    ensures OpsLeaveAlone(CacheOps(s, ev), KeyOf(msg), t, ttlMs)
    ensures Recordings(CacheOps(s, ev)) == if Resumes(s, ev) then 1 else 0
  {
    hide KeyOf, WebhookOps, KafkaOps, DoWebhook, DoKafka;
    match ev
    case WebhookCall(now, call) => WebhookLeavesAlone(s, now, call, msg, t, ttlMs);
    case KafkaDelivery(now, m) => KafkaLeavesAlone(s, now, m, KeyOf(msg), t, ttlMs);
    case HttpCleanup(now) => assert CacheOps(s, ev)[1..] == [];
    case _ =>
  }

  lemma {:induction false} RecordingsConcat<B>(first: seq<Op<B>>, rest: seq<Op<B>>)
    ensures Recordings(first + rest) == Recordings(first) + Recordings(rest)
  {
    if first == [] {
      assert first + rest == rest;
    } else {
      assert (first + rest)[1..] == first[1..] + rest;
      RecordingsConcat(first[1..], rest);
    }
  }

  lemma {:induction false} RunLeavesAlone(s: State, evs: seq<Event>, msg: KafkaMessage, t: int, ttlMs: int)
    requires Undisturbed(s, evs, KeyOf(msg), t, ttlMs)
    ensures OpsLeaveAlone(RunCacheOps(s, evs), KeyOf(msg), t, ttlMs)
    ensures Recordings(RunCacheOps(s, evs)) == Resumptions(s, evs)
    decreases |evs|
  {
    if evs != [] {
      hide KeyOf, CacheOps, Step, LeavesAlone, Resumes;
      var s1 := Step(s, evs[0]).s;
      StepLeavesAlone(s, evs[0], msg, t, ttlMs);
      RunLeavesAlone(s1, evs[1..], msg, t, ttlMs);
      RecordingsConcat(CacheOps(s, evs[0]), RunCacheOps(s1, evs[1..]));
    }
  }

  /** A delivery of an unrecorded position that resumes leaves its record as the newest of the cache. */
  lemma FreshDeliveryRecorded(s: State, t: int, msg: KafkaMessage)
    requires DoKafka(s, t, msg).reply.ResumedTo? && KafkaKey(msg.topic, msg.partition, msg.offset) !in s.cache.vals
    ensures var o := DoKafka(s, t, msg);
      o.s.cache == AfterRecord(s.cache, KafkaKey(msg.topic, msg.partition, msg.offset), 200, o.reply.body, t, s.maxEntries)
      && o.s.ttlMs == s.ttlMs && o.s.maxEntries == s.maxEntries
  {
    var key := KafkaKey(msg.topic, msg.partition, msg.offset);
    var (s1, _, hit) := Match(s, msg.topic, t, msg.extract);
    RemovalKeepsCache(s, msg.topic, t, msg.extract);
    assert AfterLookup(s1.cache, key, t, s.ttlMs) == s.cache;
    var e := hit.value;
    NotifyKeepsCache(RemoveEntry(s1, e.correlationId, ByKafka).0, e.correlationId,
                     ResumeOf(e, KafkaData(msg.topic, msg.partition, msg.offset, msg.key, msg.value), t));
    hide Match, Notify, AfterRecord, KafkaKey;
  }

  /** With nothing paused that matches, a recorded position is a duplicate: same correlation id, nobody woken. */
  lemma RecordedDeliveryIsDuplicate(s: State, t: int, msg: KafkaMessage, r: Record<Body>)
    requires Match(s, msg.topic, t, msg.extract).2.None?
    requires Lookup(s.cache, KafkaKey(msg.topic, msg.partition, msg.offset), t, s.ttlMs) == Some(r)
    ensures var o := DoKafka(s, t, msg);
      && o.reply == Duplicate(r.body.correlationId)
      && o.s.waiters == s.waiters && o.s.queued == s.queued && o.s.callbacks == s.callbacks
  {
    RemovalKeepsCache(s, msg.topic, t, msg.extract);
    hide Match, KafkaKey;
  }

  /** The record of a fresh delivery is still found after such a run. */
  lemma DeliveryRetained(s: State, t: int, msg: KafkaMessage, evs: seq<Event>, t1: int)
    requires |s.cache.keys| <= s.maxEntries && s.maxEntries >= 1
    requires KeyOf(msg) !in s.cache.vals
    requires DoKafka(s, t, msg).reply.ResumedTo?
    requires Resumptions(DoKafka(s, t, msg).s, evs) <= s.maxEntries - 1
    requires Undisturbed(DoKafka(s, t, msg).s, evs, KeyOf(msg), t, s.ttlMs)
    requires t1 <= t + s.ttlMs
    ensures var first := DoKafka(s, t, msg);
      var s1 := Run(first.s, evs).0;
      s1.ttlMs == s.ttlMs && Lookup(s1.cache, KeyOf(msg), t1, s.ttlMs) == Some(Record(KeyOf(msg), t, 200, first.reply.body))
  {
    var key, first := KeyOf(msg), DoKafka(s, t, msg);
    assert key != [];
    hide DoKafka, Match, KafkaKey, RunOps, AfterRecord, Run, RunCacheOps, Lookup;
    FreshDeliveryRecorded(s, t, msg);
    RunCache(first.s, evs);
    RunLeavesAlone(first.s, evs, msg, t, s.ttlMs);
    Retention(s.cache, key, 200, first.reply.body, t, RunCacheOps(first.s, evs), s.ttlMs, s.maxEntries);
  }

  /**
   Redelivery: after a first delivery resumed a workflow, over any run within its
   time to live with at most `maxEntries - 1` further resumptions, in which the
   message may come again as often as it likes while nothing paused matches it,
   a redelivery that matches nothing answers `duplicate` with the same correlation
   id and wakes nobody.
   */
  lemma RedeliveryIsDuplicate(s: State, log: seq<Effect>, t: int, msg: KafkaMessage, evs: seq<Event>, t1: int, again: KafkaMessage)
    requires Reachable(s, log) && s.maxEntries >= 1
    requires KeyOf(msg) !in s.cache.vals
    requires Step(s, KafkaDelivery(t, msg)).reply.ResumedTo?
    requires Resumptions(Step(s, KafkaDelivery(t, msg)).s, evs) <= s.maxEntries - 1
    requires Undisturbed(Step(s, KafkaDelivery(t, msg)).s, evs, KeyOf(msg), t, s.ttlMs)
    requires KeyOf(again) == KeyOf(msg) && t1 <= t + s.ttlMs
    ensures var first := Step(s, KafkaDelivery(t, msg));
      var s1 := Run(first.s, evs).0;
      Match(s1, again.topic, t1, again.extract).2.None? ==>
        var second := Step(s1, KafkaDelivery(t1, again));
        && second.reply == Duplicate(first.reply.body.correlationId)
        && second.s.waiters == s1.waiters && second.s.queued == s1.queued && second.s.callbacks == s1.callbacks
  {
    hide DoKafka, Match, KafkaKey, Run, Reachable, Lookup, Undisturbed, Resumptions;
    CacheBounded(s, log);
    DeliveryRetained(s, t, msg, evs, t1);
    var first := DoKafka(s, t, msg);
    var s1 := Run(first.s, evs).0;
    if Match(s1, again.topic, t1, again.extract).2.None? {
      RecordedDeliveryIsDuplicate(s1, t1, again, Record(KeyOf(msg), t, 200, first.reply.body));
    }
  }

  /** An instance: one pause, resumed by a message that is then delivered again. */
  lemma PausedResumedRedelivered(req: PauseRequest, msg: KafkaMessage, ttlMs: int, maxEntries: nat)
    requires req.correlationId != "" && req.webhookPath != "" && req.executionId != "" && req.timeoutMs <= 0
    requires req.webhookPath == msg.topic && msg.extract(NewEntry(req, 0)) == Some(req.correlationId)
    requires ttlMs >= 0 && maxEntries >= 1
    ensures var paused := Run(Init(ttlMs, maxEntries), [HttpPause(0, req)]).0;
      var first := Step(paused, KafkaDelivery(0, msg));
      && first.reply == ResumedTo(BodyOf(NewEntry(req, 0)))
      && Step(first.s, KafkaDelivery(0, msg)).reply == Duplicate(req.correlationId)
  {
    hide DoKafka, Match, KafkaKey, Reachable, Lookup, Run;
    var e := NewEntry(req, 0);
    var paused := AfterOnePause(req, ttlMs, maxEntries);
    OneEntryMatches(paused.0, e, msg);
    var first := Step(paused.0, KafkaDelivery(0, msg));
    NothingMatches(first.s, msg);
    RunNone(first.s);
    RedeliveryIsDuplicate(paused.0, paused.1, 0, msg, [], 0, msg);
  }

  lemma AfterOnePause(req: PauseRequest, ttlMs: int, maxEntries: nat) returns (paused: (State, seq<Effect>))
    requires req.correlationId != "" && req.webhookPath != "" && req.executionId != "" && req.timeoutMs <= 0
    ensures paused == Run(Init(ttlMs, maxEntries), [HttpPause(0, req)])
    ensures Reachable(paused.0, paused.1)
    ensures var e, m := NewEntry(req, 0), paused.0.store;
      m.keys == [req.correlationId] && m.vals == map[req.correlationId := e]
    ensures paused.0.cache == Empty() && paused.0.waiters == map[]
    ensures paused.0.ttlMs == ttlMs && paused.0.maxEntries == maxEntries
  {
    var start, ev := Init(ttlMs, maxEntries), HttpPause(0, req);
    paused := Run(start, [ev]);
    RunOne(start, ev);
    hide Run;
  }

  lemma RunOne(s: State, ev: Event)
    ensures Run(s, [ev]) == (Step(s, ev).s, Step(s, ev).effects)
  {
    hide Step;
    assert [ev][1..] == [];
    assert Step(s, ev).effects + [] == Step(s, ev).effects;
  }

  lemma RunNone(s: State)
    ensures Run(s, []).0 == s
  {
  }

  lemma OneEntryMatches(s: State, e: Entry, msg: KafkaMessage)
    requires s.store.keys == [e.correlationId] && s.store.vals == map[e.correlationId := e] && s.cache == Empty()
    requires e.correlationId != "" && e.webhookPath == msg.topic && e.timeoutAt == 0 && msg.extract(e) == Some(e.correlationId)
    requires s.waiters == map[]
    ensures var o := DoKafka(s, 0, msg);
      o.reply == ResumedTo(BodyOf(e)) && o.s.store.keys == []
  {
    assert Listed(s.store) == [e];
  }

  lemma NothingMatches(s: State, msg: KafkaMessage)
    requires s.store.keys == []
    ensures Match(s, msg.topic, 0, msg.extract).2.None?
  {
    assert Listed(s.store) == [];
  }
}
