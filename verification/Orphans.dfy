/**
 Callbacks without an entry: which steps take the store entry a bridge waits on
 and leave its callback behind, and what can still end such a callback.
 */
module Orphans {
  import opened JsMap
  import opened Idempotency
  import opened CorrelationStore
  import opened IdempotencyKeys
  import opened CorrelationProtocol
  import opened Ledger
  import opened Matching
  import opened ProtocolRefinement
  import opened WakeUps
  import KafkaRedelivery
  import opened Wrappers

  /** Every live callback's id is still paused, so a resume, webhook or message can reach it. */
  ghost predicate Attended(s: State) {
    forall k :: k in s.callbacks.vals ==> k.1 in s.store.vals
  }

  ghost predicate WaitedFor(s: State, ids: set<string>) {
    exists k :: k in s.callbacks.vals && k.1 in ids
  }

  /** Another bridge than `b` holds a callback on `id`. */
  ghost predicate Shared(s: State, b: nat, id: string) {
    exists k :: k in s.callbacks.vals && k.1 == id && k.0 != b
  }

  /** The ids a matching scan expires on its way; `ScanMeaning` says which they are. */
  function ScanExpires(s: State, path: string, now: int, extract: Entry -> Option<string>): set<string> {
    set id | id in ScanFor(Listed(s.store), path, now, extract).expired
  }

  function SweepExpires(s: State, now: int): set<string> {
    set id | id in s.store.vals && Expired(s.store.vals[id], now)
  }

  /** The steps that leave a callback without its entry, told before the step. */
  ghost predicate Orphaning(s: State, ev: Event) {
    match ev
    case HttpDelete(id) => WaitedFor(s, {id})
    case HttpCleanup(now) => WaitedFor(s, SweepExpires(s, now))
    case WebhookCall(now, call) => call.admitted && WaitedFor(s, ScanExpires(s, call.path, now, call.extract))
    case KafkaDelivery(now, msg) => WaitedFor(s, ScanExpires(s, msg.topic, now, msg.extract))
    case BridgeResume(b, id, _) => (b, id) in s.callbacks.vals && Shared(s, b, id)
    case BridgeCancel(b, id) => (b, id) in s.callbacks.vals && Shared(s, b, id)
    case BridgeTimer(t) => t in s.timers && Shared(s, s.timers[t].0, s.timers[t].1)
    case BridgeCleanup(now, b) =>
      exists k :: k in s.callbacks.vals && k.0 == b && CallbackExpired(s.callbacks.vals[k], now) && Shared(s, b, k.1)
    case _ => false
  }

  // ---- Steps that remove entries and wake one id ----

  /** `t` lacks the entries `gone` and that of `woken`, and of the callbacks only some on `woken`. */
  ghost predicate Lost(s: State, t: State, gone: set<string>, woken: Option<string>) {
    && (forall id :: id in t.store.vals <==> id in s.store.vals && id !in gone && Some(id) != woken)
    && (forall k :: k in t.callbacks.vals ==> k in s.callbacks.vals)
    && (forall k :: k in s.callbacks.vals && Some(k.1) != woken ==> k in t.callbacks.vals && t.callbacks.vals[k] == s.callbacks.vals[k])
  }

  lemma LostAttended(s: State, t: State, b: Book, gone: set<string>, woken: Option<string>)
    requires Attended(s) && Lost(s, t, gone, woken) && Coupled(t, b)
    requires woken.Some? ==> woken.value !in gone && woken.value !in t.waiters
    ensures Attended(t) <==> !WaitedFor(s, gone)
  {
    if woken.Some? {
      NobodyWaits(t, b, woken.value);
    }
    hide NoDup, RawMap.Valid, Coupled;
    if k :| k in s.callbacks.vals && k.1 in gone {
      assert k in t.callbacks.vals;
    }
    assert Attended(t) ==> !WaitedFor(s, gone);
  }

  /** A callback's waiter is registered, so an id without waiters has no callback. */
  lemma NobodyWaits(s: State, b: Book, id: string)
    requires Coupled(s, b) && id !in s.waiters
    ensures forall k :: k in s.callbacks.vals ==> k.1 != id
  {
    hide NoDup, RawMap.Valid, TimersMatch;
    forall k | k in s.callbacks.vals ensures k.1 != id {
      assert s.callbacks.vals[k].token in b.open;
    }
  }

  lemma {:induction false} WakeAllCloses(s: State, ws: seq<Waiter>, r: QueuedResume)
    ensures forall k :: k in WakeAll(s, ws, r).0.callbacks.vals ==> k in s.callbacks.vals
    decreases |ws|
  {
    hide NoDup, RawMap.Valid;
    if ws != [] {
      WakeAllCloses(Wake(s, ws[0], r).0, ws[1..], r);
    }
  }

  ghost predicate ListsOwned(waiters: map<string, seq<Waiter>>) {
    OwnIds(waiters) && forall id :: id in waiters ==> waiters[id] != []
  }

  lemma CoupledLists(s: State, b: Book)
    requires Coupled(s, b)
    ensures ListsOwned(s.waiters) && KeyedById(s.store)
  {
    hide NoDup, RawMap.Valid, TimersMatch, PartiesMatch;
  }

  lemma NotifyLoses(s: State, id: string, r: QueuedResume)
    requires ListsOwned(s.waiters) && id !in s.store.vals
    ensures Lost(s, Notify(s, id, r).0, {}, Some(id))
    ensures id !in Notify(s, id, r).0.waiters
  {
    hide NoDup, RawMap.Valid;
    var s0, ws := s.(waiters := s.waiters - {id}), WaitersOf(s.waiters, id);
    WakeAllCloses(s0, ws, r);
    WakeAllKeeps(s0, ws, r);
    forall k | k in s.callbacks.vals && k.1 != id
      ensures k in Notify(s, id, r).0.callbacks.vals && Notify(s, id, r).0.callbacks.vals[k] == s.callbacks.vals[k]
    {
      WakeAllHolds(s0, ws, r, k);
    }
  }

  /** Removing an entry and notifying, after `gone` was removed and whatever happened to the cache. */
  lemma ResumptionLoses(s: State, s1: State, gone: set<string>, id: string, cause: Cause, r: QueuedResume, d: Cache<Body>)
    requires ListsOwned(s.waiters) && s1.waiters == s.waiters && s1.callbacks == s.callbacks && id !in gone
    requires forall k :: k in s1.store.vals <==> k in s.store.vals && k !in gone
    ensures var t := Notify(RemoveEntry(s1, id, cause).0, id, r).0.(cache := d);
      Lost(s, t, gone, Some(id)) && id !in t.waiters
  {
    hide NoDup, RawMap.Valid;
    var s2 := RemoveEntry(s1, id, cause).0;
    NotifyLoses(s2, id, r);
  }

  // ---- Each step, exactly ----

  lemma HttpResumeAttends(s: State, now: int, id: string, data: Payload, b: Book)
    requires Attended(s) && ListsOwned(s.waiters) && Coupled(DoHttpResume(s, now, id, data).s, b)
    ensures Attended(DoHttpResume(s, now, id, data).s)
  {
    hide NoDup, RawMap.Valid, Coupled, ListsOwned, Notify;
    if id != "" && id in s.store.vals {
      var r := ResumeOf(s.store.vals[id], data, now);
      ResumptionLoses(s, s, {}, id, ByResume, r, s.cache);
      KafkaRedelivery.NotifyKeepsCache(RemoveEntry(s, id, ByResume).0, id, r);
      LostAttended(s, DoHttpResume(s, now, id, data).s, b, {}, Some(id));
    }
  }

  lemma MatchLoses(s: State, path: string, now: int, extract: Entry -> Option<string>)
    requires KeyedById(s.store)
    ensures var (s1, _, hit) := Match(s, path, now, extract);
      && s1 == s.(store := s1.store)
      && (forall k :: k in s1.store.vals <==> k in s.store.vals && k !in ScanExpires(s, path, now, extract))
      && (hit.Some? ==> hit.value.correlationId !in ScanExpires(s, path, now, extract))
  {
    var expired := ScanFor(Listed(s.store), path, now, extract).expired;
    RemoveEntriesMeaning(s, expired, ByMatchExpiry);
    MatchMeaning(s, path, now, extract);
  }

  /** What a webhook call loses: what its scan expires and, if it resumes, its hit. */
  lemma WebhookLoses(s: State, now: int, call: WebhookRequest)
    requires KeyedById(s.store) && ListsOwned(s.waiters) && call.admitted
    ensures var hit, o := Match(s, call.path, now, call.extract).2, DoWebhook(s, now, call);
      var gone := ScanExpires(s, call.path, now, call.extract);
      || Lost(s, o.s, gone, None)
      || (hit.Some? && hit.value.correlationId !in gone && Lost(s, o.s, gone, Some(hit.value.correlationId))
          && hit.value.correlationId !in o.s.waiters)
  {
    hide AfterLookup, AfterRecord, WebhookKey, KeyedById, ListsOwned, ScanExpires, Lost, FilterVerdict, Lookup;
    var (s1, expired, hit) := Match(s, call.path, now, call.extract);
    var gone := ScanExpires(s, call.path, now, call.extract);
    MatchLoses(s, call.path, now, call.extract);
    hide Match, Notify;
    NoneWoken(s, s1, gone);
    if hit.Some? && call.tokenOk {
      var e := hit.value;
      var ikey := WebhookKey(e.correlationId, call.path, call.idempotencyHeader, call.requestId);
      MatchedWebhookEnds(s, now, call);
      hide DoWebhook;
      var s2, r := s1.(cache := AfterLookup(s1.cache, ikey, now, s.ttlMs)), ResumeOf(e, call.body, now);
      var s4 := Notify(RemoveEntry(s2, e.correlationId, ByWebhook).0, e.correlationId, r).0;
      NoneWoken(s, s2, gone);
      ResumptionLoses(s, s2, gone, e.correlationId, ByWebhook, r, AfterRecord(s4.cache, ikey, 200, BodyOf(e), now, s.maxEntries));
    } else {
      assert DoWebhook(s, now, call).s == s1;
    }
  }

  lemma KafkaLoses(s: State, now: int, msg: KafkaMessage)
    requires KeyedById(s.store) && ListsOwned(s.waiters)
    ensures var hit, o := Match(s, msg.topic, now, msg.extract).2, DoKafka(s, now, msg);
      var gone := ScanExpires(s, msg.topic, now, msg.extract);
      || Lost(s, o.s, gone, None)
      || (hit.Some? && hit.value.correlationId !in gone && Lost(s, o.s, gone, Some(hit.value.correlationId))
          && hit.value.correlationId !in o.s.waiters)
  {
    hide AfterLookup, AfterRecord, KafkaKey, KeyedById, ListsOwned, ScanExpires, DoKafka, Lost;
    var (s1, expired, hit) := Match(s, msg.topic, now, msg.extract);
    var gone, ikey := ScanExpires(s, msg.topic, now, msg.extract), KafkaKey(msg.topic, msg.partition, msg.offset);
    MatchLoses(s, msg.topic, now, msg.extract);
    MatchedKafkaEnds(s, now, msg);
    hide Match, Notify;
    var s2 := s1.(cache := AfterLookup(s1.cache, ikey, now, s.ttlMs));
    if hit.Some? {
      var e := hit.value;
      var r := ResumeOf(e, KafkaData(msg.topic, msg.partition, msg.offset, msg.key, msg.value), now);
      var s4 := Notify(RemoveEntry(s2, e.correlationId, ByKafka).0, e.correlationId, r).0;
      ResumptionLoses(s, s2, gone, e.correlationId, ByKafka, r, AfterRecord(s4.cache, ikey, 200, BodyOf(e), now, s.maxEntries));
    }
    NoneWoken(s, s2, gone);
  }

  lemma NoneWoken(s: State, t: State, gone: set<string>)
    requires t.callbacks == s.callbacks && forall k :: k in t.store.vals <==> k in s.store.vals && k !in gone
    ensures Lost(s, t, gone, None)
  {
  }

  lemma HttpDeleteAttends(s: State, id: string)
    requires Attended(s)
    ensures Attended(DoHttpDelete(s, id).s) <==> !WaitedFor(s, {id})
  {
    hide NoDup, RawMap.Valid;
    if k :| k in s.callbacks.vals && k.1 in {id} {
      assert k in DoHttpDelete(s, id).s.callbacks.vals;
    }
  }

  lemma HttpCleanupAttends(s: State, now: int)
    requires Attended(s)
    ensures Attended(DoHttpCleanup(s, now).s) <==> !WaitedFor(s, SweepExpires(s, now))
  {
    hide NoDup, RawMap.Valid;
    var t := DoHttpCleanup(s, now).s;
    assert forall id :: id in t.store.vals <==> id in s.store.vals && id !in SweepExpires(s, now);
    if k :| k in s.callbacks.vals && k.1 in SweepExpires(s, now) {
      assert k in t.callbacks.vals;
    }
  }

  lemma CloseAttends(s: State, key: BridgeKey, how: How, cause: Cause)
    requires Attended(s) && key in s.callbacks.vals
    ensures Attended(CloseCallback(s, key, how, cause).0) <==> !Shared(s, key.0, key.1)
  {
    hide NoDup, RawMap.Valid;
    var t := CloseCallback(s, key, how, cause).0;
    assert t.callbacks.vals == s.callbacks.vals - {key} && t.store.vals == s.store.vals - {key.1};
    if k :| k in s.callbacks.vals && k.1 == key.1 && k.0 != key.0 {
      assert k in t.callbacks.vals;
    }
    if k :| k in t.callbacks.vals && k.1 !in t.store.vals {
      assert k.1 == key.1 && k != key;
      assert Shared(s, key.0, key.1);
    }
  }

  predicate Overdue(s: State, k: BridgeKey, now: int, b: nat) {
    k.0 == b && k in s.callbacks.vals && CallbackExpired(s.callbacks.vals[k], now)
  }

  /** A bridge's sweep over `keys` takes exactly its overdue callbacks among them, and their entries. */
  lemma {:induction false} BridgeSweepMeaning(s: State, keys: seq<BridgeKey>, now: int, b: nat)
    ensures var t := BridgeSweep(s, keys, now, b).0;
      && (forall k :: k in t.callbacks.vals <==> k in s.callbacks.vals && !(k in keys && Overdue(s, k, now, b)))
      && (forall k :: k in t.callbacks.vals ==> t.callbacks.vals[k] == s.callbacks.vals[k])
      && (forall id :: id in t.store.vals <==> id in s.store.vals && !((b, id) in keys && Overdue(s, (b, id), now, b)))
    decreases |keys|
  {
    hide NoDup, RawMap.Valid;
    if keys != [] {
      var key := keys[0];
      assert forall k :: k in keys <==> k == key || k in keys[1..];
      if Overdue(s, key, now, b) {
        var s1 := CloseCallback(s, key, ExpiredInBridge, ByBridgeExpiry).0;
        assert s1.callbacks.vals == s.callbacks.vals - {key} && s1.store.vals == s.store.vals - {key.1};
        BridgeSweepMeaning(s1, keys[1..], now, b);
      } else {
        BridgeSweepMeaning(s, keys[1..], now, b);
      }
    }
  }

  lemma BridgeCleanupAttends(s: State, now: int, b: nat)
    requires Attended(s)
    ensures Attended(DoBridgeCleanup(s, now, b).s) <==> !Orphaning(s, BridgeCleanup(now, b))
  {
    hide NoDup, BridgeSweep;
    var t := DoBridgeCleanup(s, now, b).s;
    BridgeSweepMeaning(s, s.callbacks.keys, now, b);
    assert t == BridgeSweep(s, s.callbacks.keys, now, b).0;
    hide DoBridgeCleanup;
    if k :| k in s.callbacks.vals && k.0 == b && CallbackExpired(s.callbacks.vals[k], now) && Shared(s, b, k.1) {
      var other :| other in s.callbacks.vals && other.1 == k.1 && other.0 != b;
      assert k == (b, k.1) && Overdue(s, k, now, b);
      assert other in t.callbacks.vals && k.1 !in t.store.vals;
    }
    if k :| k in t.callbacks.vals && k.1 !in t.store.vals {
      var closed := (b, k.1);
      assert Overdue(s, closed, now, b) && k in s.callbacks.vals && k.0 != b;
      assert Shared(s, b, closed.1);
    }
  }

  lemma BridgeTimerAttends(s: State, b: Book, t: nat)
    requires Attended(s) && Coupled(s, b)
    ensures Attended(DoBridgeTimer(s, t).s) <==> !Orphaning(s, BridgeTimer(t))
  {
    hide Coupled, CloseCallback, Attended, Shared;
    if t in s.timers {
      BridgeTimerIsClose(s, t, b);
      hide DoBridgeTimer;
      CloseAttends(s, s.timers[t], TimedOut, ByBridgeTimeout);
    }
  }

  lemma QuietAttends(s: State, ev: Event)
    requires Attended(s)
    requires ev.HttpPause? || ev.HttpWait? || ev.PollTimeout? || ev.PollClose? || ev.QueueSweep? || ev.BridgePause?
    ensures Attended(Step(s, ev).s)
  {
    hide NoDup, RawMap.Valid;
  }

  lemma WebhookAttends(s: State, now: int, call: WebhookRequest, b: Book)
    requires Attended(s) && KeyedById(s.store) && ListsOwned(s.waiters) && Coupled(DoWebhook(s, now, call).s, b)
    ensures Attended(DoWebhook(s, now, call).s) <==> !Orphaning(s, WebhookCall(now, call))
  {
    hide Match, Attended, Coupled, Lost, WaitedFor, ScanExpires, KeyedById, ListsOwned;
    if call.admitted {
      WebhookLoses(s, now, call);
      hide DoWebhook;
      var hit, t, gone := Match(s, call.path, now, call.extract).2, DoWebhook(s, now, call).s, ScanExpires(s, call.path, now, call.extract);
      if Lost(s, t, gone, None) {
        LostAttended(s, t, b, gone, None);
      } else {
        LostAttended(s, t, b, gone, Some(hit.value.correlationId));
      }
    }
  }

  lemma KafkaAttends(s: State, now: int, msg: KafkaMessage, b: Book)
    requires Attended(s) && KeyedById(s.store) && ListsOwned(s.waiters) && Coupled(DoKafka(s, now, msg).s, b)
    ensures Attended(DoKafka(s, now, msg).s) <==> !Orphaning(s, KafkaDelivery(now, msg))
  {
    hide Match, Attended, Coupled, Lost, WaitedFor, ScanExpires, KeyedById, ListsOwned, DoKafka;
    KafkaLoses(s, now, msg);
    var hit, t, gone := Match(s, msg.topic, now, msg.extract).2, DoKafka(s, now, msg).s, ScanExpires(s, msg.topic, now, msg.extract);
    if Lost(s, t, gone, None) {
      LostAttended(s, t, b, gone, None);
    } else {
      LostAttended(s, t, b, gone, Some(hit.value.correlationId));
    }
  }

  lemma BridgeCloseAttends(s: State, key: BridgeKey, how: How, cause: Cause)
    requires Attended(s)
    ensures Attended(DoBridgeClose(s, key, how, cause).s) <==> !(key in s.callbacks.vals && Shared(s, key.0, key.1))
  {
    hide Attended, Shared, CloseCallback;
    if key in s.callbacks.vals {
      CloseAttends(s, key, how, cause);
    }
  }

  /** From a coupled state where every callback's entry is there, a step keeps that exactly when it is not orphaning. */
  lemma StaysAttendedExactly(s: State, b: Book, ev: Event)
    requires Coupled(s, b) && Attended(s)
    ensures Attended(Step(s, ev).s) <==> !Orphaning(s, ev)
  {
    hide Coupled, Attended, KeyedById, ListsOwned, WaitedFor, Shared;
    CoupledLists(s, b);
    StepAudited(s, ev, b);
    var c := Audit(b, Step(s, ev).effects).value;
    hide DoHttpPause, DoHttpResume, DoHttpWait, DoPollEnds, DoHttpDelete, DoHttpCleanup, DoQueueSweep, DoWebhook, DoKafka,
         DoBridgePause, DoBridgeClose, DoBridgeTimer, DoBridgeCleanup;
    match ev
    case HttpResume(now, id, data) => HttpResumeAttends(s, now, id, data, c);
    case HttpDelete(id) => HttpDeleteAttends(s, id);
    case HttpCleanup(now) => HttpCleanupAttends(s, now);
    case WebhookCall(now, call) => WebhookAttends(s, now, call, c);
    case KafkaDelivery(now, msg) => KafkaAttends(s, now, msg, c);
    case BridgeResume(bridge, id, data) => BridgeCloseAttends(s, (bridge, id), ResumedLocally(data), ByBridgeResume);
    case BridgeCancel(bridge, id) => BridgeCloseAttends(s, (bridge, id), Cancelled, ByBridgeCancel);
    case BridgeTimer(t) => BridgeTimerAttends(s, b, t);
    case BridgeCleanup(now, bridge) => BridgeCleanupAttends(s, now, bridge);
    case _ => QuietAttends(s, ev);
  }

  // ---- What ends an orphaned callback ----

  /** Bridge `key.0` still waits as promise `t` on an id that is not paused. */
  ghost predicate Orphaned(s: State, key: BridgeKey, t: nat) {
    key in s.callbacks.vals && s.callbacks.vals[key].token == t && key.1 !in s.store.vals
  }

  /** The callback's own bridge resumes, cancels, times out or sweeps. */
  predicate OwnBridge(s: State, ev: Event, key: BridgeKey) {
    match ev
    case BridgeResume(b, id, _) => (b, id) == key
    case BridgeCancel(b, id) => (b, id) == key
    case BridgeTimer(t) => t in s.timers && s.timers[t] == key
    case BridgeCleanup(_, b) => b == key.0
    case _ => false
  }

  ghost predicate PausesId(effects: seq<Effect>, id: string) {
    exists eff :: eff in effects && Pauses(id)(eff)
  }

  ghost predicate OrphanedOrPaused(o: Outcome, key: BridgeKey, t: nat) {
    Orphaned(o.s, key, t) || PausesId(o.effects, key.1)
  }

  lemma PauseOrphans(s: State, ev: Event, key: BridgeKey, t: nat)
    requires Orphaned(s, key, t) && (ev.HttpPause? || ev.BridgePause?)
    ensures OrphanedOrPaused(Step(s, ev), key, t)
  {
    hide NoDup, RawMap.Valid;
    var e, o := NewEntry(ev.req, ev.now), Step(s, ev);
    if !Orphaned(o.s, key, t) {
      assert o.effects[0] == Paused(e) && e.correlationId == key.1;
      assert Paused(e) in o.effects && Pauses(key.1)(Paused(e));
    }
  }

  lemma LostOrphans(s: State, t: State, gone: set<string>, woken: Option<string>, key: BridgeKey, token: nat)
    requires Orphaned(s, key, token) && Lost(s, t, gone, woken) && (woken.Some? ==> woken.value in s.store.vals)
    ensures Orphaned(t, key, token)
  {
  }

  lemma HttpResumeOrphans(s: State, now: int, id: string, data: Payload, key: BridgeKey, t: nat)
    requires Orphaned(s, key, t) && ListsOwned(s.waiters)
    ensures Orphaned(DoHttpResume(s, now, id, data).s, key, t)
  {
    hide NoDup, RawMap.Valid, ListsOwned, Notify, Orphaned;
    if id != "" && id in s.store.vals {
      var r := ResumeOf(s.store.vals[id], data, now);
      ResumptionLoses(s, s, {}, id, ByResume, r, s.cache);
      KafkaRedelivery.NotifyKeepsCache(RemoveEntry(s, id, ByResume).0, id, r);
      LostOrphans(s, DoHttpResume(s, now, id, data).s, {}, Some(id), key, t);
    }
  }

  lemma HitIsPaused(s: State, path: string, now: int, extract: Entry -> Option<string>)
    requires KeyedById(s.store)
    ensures var hit := Match(s, path, now, extract).2; hit.Some? ==> hit.value.correlationId in s.store.vals
  {
    MatchMeaning(s, path, now, extract);
  }

  lemma WebhookOrphans(s: State, now: int, call: WebhookRequest, key: BridgeKey, t: nat)
    requires Orphaned(s, key, t) && KeyedById(s.store) && ListsOwned(s.waiters)
    ensures Orphaned(DoWebhook(s, now, call).s, key, t)
  {
    hide Match, Orphaned, Lost, ScanExpires, KeyedById, ListsOwned;
    if call.admitted {
      WebhookLoses(s, now, call);
      HitIsPaused(s, call.path, now, call.extract);
      hide DoWebhook;
      var hit, o, gone := Match(s, call.path, now, call.extract).2, DoWebhook(s, now, call), ScanExpires(s, call.path, now, call.extract);
      LostOrphans(s, o.s, gone, if Lost(s, o.s, gone, None) then None else Some(hit.value.correlationId), key, t);
    }
  }

  lemma KafkaOrphans(s: State, now: int, msg: KafkaMessage, key: BridgeKey, t: nat)
    requires Orphaned(s, key, t) && KeyedById(s.store) && ListsOwned(s.waiters)
    ensures Orphaned(DoKafka(s, now, msg).s, key, t)
  {
    hide Match, Orphaned, Lost, ScanExpires, KeyedById, ListsOwned, DoKafka;
    KafkaLoses(s, now, msg);
    HitIsPaused(s, msg.topic, now, msg.extract);
    var hit, o, gone := Match(s, msg.topic, now, msg.extract).2, DoKafka(s, now, msg), ScanExpires(s, msg.topic, now, msg.extract);
    LostOrphans(s, o.s, gone, if Lost(s, o.s, gone, None) then None else Some(hit.value.correlationId), key, t);
  }

  lemma CloseOrphans(s: State, other: BridgeKey, how: How, cause: Cause, key: BridgeKey, t: nat)
    requires Orphaned(s, key, t) && other in s.callbacks.vals && other != key
    ensures Orphaned(CloseCallback(s, other, how, cause).0, key, t)
  {
    hide NoDup, RawMap.Valid;
  }

  lemma BridgeEventOrphans(s: State, b: Book, ev: Event, key: BridgeKey, t: nat)
    requires Coupled(s, b) && Orphaned(s, key, t) && !OwnBridge(s, ev, key)
    requires ev.BridgeResume? || ev.BridgeCancel? || ev.BridgeTimer? || ev.BridgeCleanup?
    ensures Orphaned(Step(s, ev).s, key, t)
  {
    hide Coupled, CloseCallback, BridgeSweep;
    match ev
    case BridgeResume(bridge, id, data) =>
      if (bridge, id) in s.callbacks.vals { CloseOrphans(s, (bridge, id), ResumedLocally(data), ByBridgeResume, key, t); }
    case BridgeCancel(bridge, id) =>
      if (bridge, id) in s.callbacks.vals { CloseOrphans(s, (bridge, id), Cancelled, ByBridgeCancel, key, t); }
    case BridgeTimer(token) =>
      if token in s.timers {
        BridgeTimerIsClose(s, token, b);
        CloseOrphans(s, s.timers[token], TimedOut, ByBridgeTimeout, key, t);
      }
    case BridgeCleanup(now, bridge) => BridgeSweepMeaning(s, s.callbacks.keys, now, bridge);
  }

  lemma QuietOrphans(s: State, ev: Event, key: BridgeKey, t: nat)
    requires Orphaned(s, key, t)
    requires ev.HttpWait? || ev.PollTimeout? || ev.PollClose? || ev.QueueSweep? || ev.HttpDelete? || ev.HttpCleanup?
    ensures Orphaned(Step(s, ev).s, key, t)
  {
    hide NoDup, RawMap.Valid;
  }

  /** Only its own bridge ends an orphaned callback, until its id is paused again. */
  lemma OrphanStep(s: State, b: Book, ev: Event, key: BridgeKey, t: nat)
    requires Coupled(s, b) && Orphaned(s, key, t) && !OwnBridge(s, ev, key)
    ensures OrphanedOrPaused(Step(s, ev), key, t)
  {
    hide Coupled, KeyedById, ListsOwned, Orphaned, OwnBridge;
    CoupledLists(s, b);
    hide DoHttpPause, DoHttpResume, DoHttpWait, DoPollEnds, DoHttpDelete, DoHttpCleanup, DoQueueSweep, DoWebhook, DoKafka,
         DoBridgePause, DoBridgeClose, DoBridgeTimer, DoBridgeCleanup;
    match ev
    case HttpPause(_, _) => PauseOrphans(s, ev, key, t);
    case BridgePause(_, _, _) => PauseOrphans(s, ev, key, t);
    case HttpResume(now, id, data) => HttpResumeOrphans(s, now, id, data, key, t);
    case WebhookCall(now, call) => WebhookOrphans(s, now, call, key, t);
    case KafkaDelivery(now, msg) => KafkaOrphans(s, now, msg, key, t);
    case BridgeResume(_, _, _) => BridgeEventOrphans(s, b, ev, key, t);
    case BridgeCancel(_, _) => BridgeEventOrphans(s, b, ev, key, t);
    case BridgeTimer(_) => BridgeEventOrphans(s, b, ev, key, t);
    case BridgeCleanup(_, _) => BridgeEventOrphans(s, b, ev, key, t);
    case _ => QuietOrphans(s, ev, key, t);
  }

  /** No event of the run is one by which the callback's own bridge ends it. */
  predicate BridgeSilent(s: State, evs: seq<Event>, key: BridgeKey)
    decreases |evs|
  {
    evs == [] || (!OwnBridge(s, evs[0], key) && BridgeSilent(Step(s, evs[0]).s, evs[1..], key))
  }

  lemma PausesConcat(first: seq<Effect>, rest: seq<Effect>, id: string)
    ensures PausesId(first + rest, id) <==> PausesId(first, id) || PausesId(rest, id)
  {
    assert forall eff :: eff in first + rest <==> eff in first || eff in rest;
  }

  /** Over any run: resumes, webhooks, messages, sweeps and other bridges never end it. */
  lemma {:induction false} OrphanRun(s: State, b: Book, evs: seq<Event>, key: BridgeKey, t: nat)
    requires Coupled(s, b) && Orphaned(s, key, t) && BridgeSilent(s, evs, key)
    ensures var (s1, log) := Run(s, evs); Orphaned(s1, key, t) || PausesId(log, key.1)
    decreases |evs|
  {
    hide Coupled, Orphaned, OwnBridge, PausesId, Step;
    if evs != [] {
      var o := Step(s, evs[0]);
      StepAudited(s, evs[0], b);
      OrphanStep(s, b, evs[0], key, t);
      PausesConcat(o.effects, Run(o.s, evs[1..]).1, key.1);
      if Orphaned(o.s, key, t) {
        OrphanRun(o.s, Audit(b, o.effects).value, evs[1..], key, t);
      }
    }
  }

  /**
   DELETE takes the entry and wakes nobody: over every later run the bridge stays
   parked until it ends the wait itself or the id is paused again.
   */
  lemma DeleteOrphansCallback(s: State, b: Book, key: BridgeKey, t: nat, evs: seq<Event>)
    requires Coupled(s, b) && Held(s, key, t) && BridgeSilent(Step(s, HttpDelete(key.1)).s, evs, key)
    ensures var (s1, log) := Run(Step(s, HttpDelete(key.1)).s, evs); Orphaned(s1, key, t) || PausesId(log, key.1)
  {
    hide Coupled, Held, Orphaned, BridgeSilent, PausesId, Run, DoHttpDelete;
    var o := Step(s, HttpDelete(key.1));
    StepAudited(s, HttpDelete(key.1), b);
    DeleteOrphans(s, key, t);
    OrphanRun(o.s, Audit(b, o.effects).value, evs, key, t);
  }

  lemma DeleteOrphans(s: State, key: BridgeKey, t: nat)
    requires Held(s, key, t)
    ensures Orphaned(DoHttpDelete(s, key.1).s, key, t)
  {
  }
}
