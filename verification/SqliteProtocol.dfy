/**
 The calls the protocol makes on its store, replayed on the SQLite store: without
 a repause it is, entry for entry and in order, the one the protocol's theorems
 speak of.
 */
module SqliteProtocol {
  import opened JsMap
  import opened Idempotency
  import opened IdempotencyKeys
  import opened CorrelationStore
  import opened CorrelationProtocol
  import opened Matching
  import opened ProtocolRefinement
  import S = SqliteStore
  import opened Wrappers

  // ---- The calls a step makes on its store ----

  function RemoveAll(ids: seq<string>): seq<S.StoreEvent> {
    if ids == [] then [] else [S.Resume(ids[0])] + RemoveAll(ids[1..])
  }

  function SweepCalls(s: State, keys: seq<BridgeKey>, now: int, b: nat): seq<S.StoreEvent>
    decreases |keys|
  {
    if keys == [] then []
    else if keys[0].0 == b && keys[0] in s.callbacks.vals && CallbackExpired(s.callbacks.vals[keys[0]], now) then
      [S.Resume(keys[0].1)] + SweepCalls(CloseCallback(s, keys[0], ExpiredInBridge, ByBridgeExpiry).0, keys[1..], now, b)
    else SweepCalls(s, keys[1..], now, b)
  }

  /** What a message's handler removes: the expired on its way, and the entry it resumes. */
  function MessageCalls(s: State, path: string, now: int, extract: Entry -> Option<string>, reply: Reply): seq<S.StoreEvent> {
    var scan := ScanFor(Listed(s.store), path, now, extract);
    RemoveAll(scan.expired)
    + if scan.hit.Some? && reply.ResumedTo? then [S.Resume(scan.hit.value.correlationId)] else []
  }

  function StoreCalls(s: State, ev: Event): seq<S.StoreEvent> {
    match ev
    case HttpPause(now, req) =>
      if req.correlationId == "" || req.webhookPath == "" || req.executionId == "" then [] else [S.Pause(NewEntry(req, now))]
    case HttpResume(_, id, _) => if id == "" then [] else [S.Resume(id)]
    case HttpDelete(id) => [S.Resume(id)]
    case HttpCleanup(now) => [S.Sweep(now)]
    case WebhookCall(now, call) => if call.admitted then MessageCalls(s, call.path, now, call.extract, Step(s, ev).reply) else []
    case KafkaDelivery(now, msg) => MessageCalls(s, msg.topic, now, msg.extract, Step(s, ev).reply)
    case BridgePause(now, b, req) => if (b, req.correlationId) in s.callbacks.vals then [] else [S.Pause(NewEntry(req, now))]
    case BridgeResume(b, id, _) => if (b, id) in s.callbacks.vals then [S.Resume(id)] else []
    case BridgeCancel(b, id) => if (b, id) in s.callbacks.vals then [S.Resume(id)] else []
    case BridgeTimer(t) => if t in s.timers && s.timers[t] in s.callbacks.vals then [S.Resume(s.timers[t].1)] else []
    case BridgeCleanup(now, b) => SweepCalls(s, s.callbacks.keys, now, b)
    case _ => []
  }

  function RunCalls(s: State, evs: seq<Event>): seq<S.StoreEvent>
    decreases |evs|
  {
    if evs == [] then [] else StoreCalls(s, evs[0]) + RunCalls(Step(s, evs[0]).s, evs[1..])
  }

  // ---- Those calls on the in-memory store are the step's own store ----

  lemma {:induction false} ReferenceConcat(m: Entries, first: seq<S.StoreEvent>, rest: seq<S.StoreEvent>)
    ensures S.ReferenceRun(m, first + rest) == S.ReferenceRun(S.ReferenceRun(m, first), rest)
    decreases |first|
  {
    if first == [] {
      assert first + rest == rest;
    } else {
      assert (first + rest)[1..] == first[1..] + rest;
      ReferenceConcat(S.Reference(m, first[0]), first[1..], rest);
    }
  }

  lemma OneCall(m: Entries, call: S.StoreEvent)
    ensures S.ReferenceRun(m, [call]) == S.Reference(m, call)
  {
    assert [call][1..] == [];
    assert S.ReferenceRun(S.Reference(m, call), []) == S.Reference(m, call);
  }

  lemma RemoveEntryCall(s: State, id: string, cause: Cause)
    ensures RemoveEntry(s, id, cause).0.store == Delete(s.store, id)
  {
    if id !in s.store.vals {
      DeleteAbsent(s.store, id);
    }
  }

  lemma {:induction false} RemoveAllCalls(s: State, ids: seq<string>, cause: Cause)
    ensures RemoveEntries(s, ids, cause).0.store == S.ReferenceRun(s.store, RemoveAll(ids))
    decreases |ids|
  {
    hide Delete, NoDup, RawMap.Valid;
    if ids != [] {
      var rest := RemoveAll(ids[1..]);
      RemoveEntryCall(s, ids[0], cause);
      RemoveAllCalls(RemoveEntry(s, ids[0], cause).0, ids[1..], cause);
      assert ([S.Resume(ids[0])] + rest)[1..] == rest;
    }
  }

  lemma {:induction false} SweepCallsMeet(s: State, keys: seq<BridgeKey>, now: int, b: nat)
    ensures BridgeSweep(s, keys, now, b).0.store == S.ReferenceRun(s.store, SweepCalls(s, keys, now, b))
    decreases |keys|
  {
    hide Delete, NoDup, RawMap.Valid;
    if keys != [] {
      var key := keys[0];
      if key.0 == b && key in s.callbacks.vals && CallbackExpired(s.callbacks.vals[key], now) {
        var s1 := CloseCallback(s, key, ExpiredInBridge, ByBridgeExpiry).0;
        RemoveEntryCall(s, key.1, ByBridgeExpiry);
        assert s1.store == Delete(s.store, key.1);
        SweepCallsMeet(s1, keys[1..], now, b);
        var rest := SweepCalls(s1, keys[1..], now, b);
        assert ([S.Resume(key.1)] + rest)[1..] == rest;
      } else {
        SweepCallsMeet(s, keys[1..], now, b);
      }
    }
  }

  /** A message's store: its scan's removals, then its hit's when it resumes. */
  lemma MessageCallsMeet(s: State, path: string, now: int, extract: Entry -> Option<string>, reply: Reply, t: Entries)
    requires var (s1, _, hit) := Match(s, path, now, extract);
      t == if hit.Some? && reply.ResumedTo? then Delete(s1.store, hit.value.correlationId) else s1.store
    ensures t == S.ReferenceRun(s.store, MessageCalls(s, path, now, extract, reply))
  {
    hide Delete, NoDup, RawMap.Valid, ScanFor;
    var scan := ScanFor(Listed(s.store), path, now, extract);
    RemoveAllCalls(s, scan.expired, ByMatchExpiry);
    var first := RemoveAll(scan.expired);
    hide RemoveAll, RemoveEntries;
    if scan.hit.Some? && reply.ResumedTo? {
      var last := S.Resume(scan.hit.value.correlationId);
      ReferenceConcat(s.store, first, [last]);
      OneCall(S.ReferenceRun(s.store, first), last);
    } else {
      assert first + [] == first;
    }
  }

  lemma WebhookCallsMeet(s: State, now: int, call: WebhookRequest)
    requires call.admitted
    ensures DoWebhook(s, now, call).s.store == S.ReferenceRun(s.store, StoreCalls(s, WebhookCall(now, call)))
  {
    hide AfterLookup, AfterRecord, WebhookKey, FilterVerdict, Lookup, NoDup, RawMap.Valid, Match, Notify, Delete, MessageCalls;
    var (s1, expired, hit) := Match(s, call.path, now, call.extract);
    var o := DoWebhook(s, now, call);
    if hit.Some? && call.tokenOk {
      MatchedWebhookEnds(s, now, call);
      var e := hit.value;
      var s2 := s1.(cache := AfterLookup(s1.cache, WebhookKey(e.correlationId, call.path, call.idempotencyHeader, call.requestId), now, s.ttlMs));
      RemoveEntryCall(s2, e.correlationId, ByWebhook);
      NotifyKeepsStore(RemoveEntry(s2, e.correlationId, ByWebhook).0, e.correlationId, ResumeOf(e, call.body, now));
      hide DoWebhook, RemoveEntry;
    }
    MessageCallsMeet(s, call.path, now, call.extract, o.reply, o.s.store);
  }

  lemma KafkaCallsMeet(s: State, now: int, msg: KafkaMessage)
    ensures DoKafka(s, now, msg).s.store == S.ReferenceRun(s.store, StoreCalls(s, KafkaDelivery(now, msg)))
  {
    hide AfterLookup, AfterRecord, KafkaKey, Lookup, NoDup, RawMap.Valid, Match, Notify, Delete, MessageCalls;
    var (s1, expired, hit) := Match(s, msg.topic, now, msg.extract);
    var o := DoKafka(s, now, msg);
    if hit.Some? {
      var e := hit.value;
      var s2 := s1.(cache := AfterLookup(s1.cache, KafkaKey(msg.topic, msg.partition, msg.offset), now, s.ttlMs));
      RemoveEntryCall(s2, e.correlationId, ByKafka);
      NotifyKeepsStore(RemoveEntry(s2, e.correlationId, ByKafka).0, e.correlationId,
        ResumeOf(e, KafkaData(msg.topic, msg.partition, msg.offset, msg.key, msg.value), now));
      hide RemoveEntry;
    }
    MessageCallsMeet(s, msg.topic, now, msg.extract, o.reply, o.s.store);
  }

  lemma HttpResumeCallsMeet(s: State, now: int, id: string, data: Payload)
    ensures DoHttpResume(s, now, id, data).s.store == S.ReferenceRun(s.store, StoreCalls(s, HttpResume(now, id, data)))
  {
    hide NoDup, RawMap.Valid, Notify, Delete;
    if id != "" {
      OneCall(s.store, S.Resume(id));
      RemoveEntryCall(s, id, ByResume);
      if id in s.store.vals {
        NotifyKeepsStore(RemoveEntry(s, id, ByResume).0, id, ResumeOf(s.store.vals[id], data, now));
      }
    }
  }

  /** Pauses, deletes, sweeps and closings: at most one call. */
  lemma OneCallMeets(s: State, ev: Event)
    requires !ev.HttpResume? && !ev.WebhookCall? && !ev.KafkaDelivery? && !ev.BridgeCleanup?
    ensures Step(s, ev).s.store == S.ReferenceRun(s.store, StoreCalls(s, ev))
  {
    hide NoDup, RawMap.Valid, Delete, Put, Restrict;
    if StoreCalls(s, ev) != [] {
      OneCall(s.store, StoreCalls(s, ev)[0]);
    }
    match ev
    case HttpDelete(id) => RemoveEntryCall(s, id, ByDelete);
    case BridgeResume(b, id, _) => RemoveEntryCall(s, id, ByBridgeResume);
    case BridgeCancel(b, id) => RemoveEntryCall(s, id, ByBridgeCancel);
    case BridgeTimer(t) =>
      if t in s.timers {
        RemoveEntryCall(s.(timers := s.timers - {t}), s.timers[t].1, ByBridgeTimeout);
      }
    case _ =>
  }

  lemma StepCallsMeet(s: State, ev: Event)
    ensures Step(s, ev).s.store == S.ReferenceRun(s.store, StoreCalls(s, ev))
  {
    hide MessageCalls, DoWebhook, DoKafka, DoHttpResume, BridgeSweep, SweepCalls;
    match ev
    case HttpResume(now, id, data) => HttpResumeCallsMeet(s, now, id, data);
    case WebhookCall(now, call) =>
      if call.admitted {
        WebhookCallsMeet(s, now, call);
      } else {
        NotAdmitted(s, now, call);
      }
    case KafkaDelivery(now, msg) => KafkaCallsMeet(s, now, msg);
    case BridgeCleanup(now, b) => SweepCallsMeet(s, s.callbacks.keys, now, b);
    case _ => OneCallMeets(s, ev);
  }

  lemma NotAdmitted(s: State, now: int, call: WebhookRequest)
    requires !call.admitted
    ensures DoWebhook(s, now, call).s == s
  {
  }

  lemma {:induction false} RunCallsMeet(s: State, evs: seq<Event>)
    ensures Run(s, evs).0.store == S.ReferenceRun(s.store, RunCalls(s, evs))
    decreases |evs|
  {
    hide Step, StoreCalls;
    if evs != [] {
      var s1 := Step(s, evs[0]).s;
      StepCallsMeet(s, evs[0]);
      RunCallsMeet(s1, evs[1..]);
      ReferenceConcat(s.store, StoreCalls(s, evs[0]), RunCalls(s1, evs[1..]));
    }
  }

  ghost predicate NoCrash(calls: seq<S.StoreEvent>) {
    forall i | 0 <= i < |calls| :: !calls[i].CrashAndInit?
  }

  lemma {:induction false} RemoveAllNoCrash(ids: seq<string>)
    ensures NoCrash(RemoveAll(ids))
  {
    if ids != [] {
      RemoveAllNoCrash(ids[1..]);
    }
  }

  lemma {:induction false} SweepNoCrash(s: State, keys: seq<BridgeKey>, now: int, b: nat)
    ensures NoCrash(SweepCalls(s, keys, now, b))
    decreases |keys|
  {
    hide CloseCallback;
    if keys != [] {
      if keys[0].0 == b && keys[0] in s.callbacks.vals && CallbackExpired(s.callbacks.vals[keys[0]], now) {
        SweepNoCrash(CloseCallback(s, keys[0], ExpiredInBridge, ByBridgeExpiry).0, keys[1..], now, b);
      } else {
        SweepNoCrash(s, keys[1..], now, b);
      }
    }
  }

  lemma {:induction false} RunNoCrash(s: State, evs: seq<Event>)
    ensures NoCrash(RunCalls(s, evs))
    decreases |evs|
  {
    if evs != [] {
      StepNoCrash(s, evs[0]);
      hide Step, StoreCalls;
      RunNoCrash(Step(s, evs[0]).s, evs[1..]);
    }
  }

  lemma StepNoCrash(s: State, ev: Event)
    ensures NoCrash(StoreCalls(s, ev))
  {
    hide Step, ScanFor;
    match ev
    case WebhookCall(now, call) => RemoveAllNoCrash(ScanFor(Listed(s.store), call.path, now, call.extract).expired);
    case KafkaDelivery(now, msg) => RemoveAllNoCrash(ScanFor(Listed(s.store), msg.topic, now, msg.extract).expired);
    case BridgeCleanup(now, b) => SweepNoCrash(s, s.callbacks.keys, now, b);
    case _ =>
  }

  /**
   The whole server over a new SQLite database: its store throws exactly when a
   run pauses a removed id again; otherwise it is, in content and order, the store
   of the same run over memory, so every theorem about runs holds of it too.
   */
  lemma RunsOverSqlite(ttlMs: int, maxEntries: nat, evs: seq<Event>, d: S.Disk, threw: bool)
    requires S.Runs(S.Disk(Empty(), map[]), RunCalls(Init(ttlMs, maxEntries), evs), d, threw)
    ensures threw <==> !S.NoRepause(Empty(), {}, RunCalls(Init(ttlMs, maxEntries), evs))
    ensures !threw ==> d.entries == Run(Init(ttlMs, maxEntries), evs).0.store
  {
    hide RunCalls, Run, S.Runs, S.NoRepause, S.ReferenceRun;
    var s, calls := Init(ttlMs, maxEntries), RunCalls(Init(ttlMs, maxEntries), evs);
    var empty := S.Disk(Empty(), map[]);
    assert S.Coupled(empty, Empty(), {});
    S.WriteThrough(empty, Empty(), {}, calls, d, threw);
    RunNoCrash(s, evs);
    assert forall call :: call in calls ==> !call.CrashAndInit?;
    S.SameListing(empty, Empty(), calls, d, threw);
    RunCallsMeet(s, evs);
  }
}
