/**
 The server's mutable state and handlers, in the form the source has them:
 module maps updated in place, waiter closures called in a loop, sweeps that
 delete while iterating. Each handler does exactly one step of the protocol.
 */
module CorrelationServer {
  import opened JsMap
  import opened Idempotency
  import opened CorrelationStore
  import opened IdempotencyKeys
  import opened CorrelationProtocol
  import WebhookFilter
  import opened Wrappers

  class Server {
    const store: InMemoryServerStore<Payload>
    const idempotency: IdempotencyCache<Body>
    var queuedResumes: OrderedMap<string, QueuedResume>
    var resumeWaiters: map<string, seq<Waiter>>
    var callbacks: OrderedMap<BridgeKey, Callback>
    var timers: map<nat, BridgeKey>
    var polls: map<nat, string>
    var nextToken: nat
    ghost var log: seq<Effect>

    ghost function Now(): State
      reads this, store, idempotency
    {
      State(store.entries, queuedResumes, resumeWaiters, callbacks, timers, polls,
            idempotency.processed, idempotency.ttlMs, idempotency.maxEntries, nextToken)
    }

    /** The state became `after.0` and exactly the effects `after.1` were added to the log. */
    twostate predicate Became(after: (State, seq<Effect>))
      reads this, store, idempotency
    {
      Now() == after.0 && log == old(log) + after.1
    }

    /** The handler did the protocol step whose outcome is `o`. */
    twostate predicate Did(o: Outcome, reply: Reply)
      reads this, store, idempotency
    {
      Now() == o.s && log == old(log) + o.effects && reply == o.reply
    }

    constructor (ttlMs: int, maxEntries: nat)
      ensures Now() == Init(ttlMs, maxEntries) && log == [] && store.unmatchedWebhooks == []
      ensures fresh(store) && fresh(idempotency)
    {
      store := new InMemoryServerStore<Payload>();
      idempotency := new IdempotencyCache<Body>(ttlMs, maxEntries);
      queuedResumes, resumeWaiters, callbacks, timers, polls, nextToken := Empty(), map[], Empty(), map[], map[], 0;
      log := [];
    }

    // ---- Waiters ----

    method RegisterResumeWaiter(w: Waiter)
      modifies this`resumeWaiters
      ensures resumeWaiters == Register(old(resumeWaiters), w)
    {
      var arr := if w.id in resumeWaiters then resumeWaiters[w.id] else [];
      arr := arr + [w];
      resumeWaiters := resumeWaiters[w.id := arr];
    }

    method DeregisterResumeWaiter(w: Waiter)
      modifies this`resumeWaiters
      ensures resumeWaiters == Deregister(old(resumeWaiters), w)
    {
      if w.id !in resumeWaiters {
        return;
      }
      var arr := resumeWaiters[w.id];
      var idx := 0;
      while idx < |arr| && arr[idx] != w
        invariant idx <= |arr| && w !in arr[..idx]
      {
        idx := idx + 1;
      }
      if idx < |arr| {
        assert arr == arr[..idx] + [w] + arr[idx + 1..];
        RemoveFirstSplit(arr[..idx], w, arr[idx + 1..]);
        arr := arr[..idx] + arr[idx + 1..];
      } else {
        assert arr[..idx] == arr;
        RemoveFirstLength(arr, w);
      }
      resumeWaiters := if arr == [] then resumeWaiters - {w.id} else resumeWaiters[w.id := arr];
    }

    /** The body of a waiter closure, called with `data`. */
    method CallWaiter(w: Waiter, data: QueuedResume)
      modifies this
      ensures Became(Wake(old(Now()), w, data))
    {
      match w
      case BridgeWaiter(bridge, id, _) =>
        var key := (bridge, id);
        if key in callbacks.vals {
          var entry := callbacks.vals[key];
          if entry.timed {
            timers := timers - {entry.token};
          }
          callbacks := Delete(callbacks, key);
          log := log + [Delivered(w, data)];
        }
      case PollWaiter(_, token) =>
        if token in polls {
          polls := polls - {token};
          log := log + [Delivered(w, data)];
        }
    }

    method NotifyResume(id: string, data: QueuedResume)
      modifies this
      ensures Became(Notify(old(Now()), id, data))
    {
      hide NoDup, RawMap.Valid, Wake;
      log := log + [Notified(id, data)];
      var ws := if id in resumeWaiters then resumeWaiters[id] else [];
      if |ws| > 0 {
        resumeWaiters := resumeWaiters - {id};
        ghost var s0, log0 := Now(), log;
        assert ws[0..] == ws;
        for i := 0 to |ws|
          invariant WakeAll(Now(), ws[i..], data).0 == WakeAll(s0, ws, data).0
          invariant log + WakeAll(Now(), ws[i..], data).1 == log0 + WakeAll(s0, ws, data).1
        {
          assert ws[i..][1..] == ws[i + 1..];
          CallWaiter(ws[i], data);
        }
        assert ws[|ws|..] == [];
        ghost var woken := WakeAll(s0, ws, data).1;
        assert log == log0 + woken == old(log) + ([Notified(id, data)] + woken);
        return;
      }
      queuedResumes := Put(queuedResumes, id, data);
    }

    method CleanupResumeQueue(now: int)
      modifies this`log, this`queuedResumes
      ensures Did(DoQueueSweep(old(Now()), now), NoReply)
    {
      hide SweptUpTo, Restrict, Delete, NoDup, RawMap.Valid;
      var was := queuedResumes;
      ghost var log0, keep := log, StillFresh(was, now);
      SweepStart(was, keep);
      assert was.keys[..0] == [];
      hide QueueEffects;
      for i := 0 to |was.keys|
        invariant SweptUpTo(was, i, keep, queuedResumes)
        invariant log == log0 + QueueEffects(was.keys[..i], was.vals, now)
      {
        var id := was.keys[i];
        assert id in was.keys;
        SweepStep(was, i, keep, queuedResumes);
        QueueEffectsNext(was.keys, i, was.vals, now);
        if now - queuedResumes.vals[id].ts > RESUME_QUEUE_TTL_MS {
          log := log + [QueueExpired(id, queuedResumes.vals[id], now)];
          queuedResumes := Delete(queuedResumes, id);
        }
      }
      SweepDone(was, keep, queuedResumes);
      assert was.keys[..|was.keys|] == was.keys;
    }

    static lemma QueueEffectsNext(ids: seq<string>, i: nat, vals: map<string, QueuedResume>, now: int)
      requires i < |ids|
      ensures QueueEffects(ids[..i + 1], vals, now)
           == QueueEffects(ids[..i], vals, now)
              + if ids[i] in vals && QueueStale(vals[ids[i]], now) then [QueueExpired(ids[i], vals[ids[i]], now)] else []
    {
      assert ids[..i + 1] == ids[..i] + [ids[i]];
      QueueEffectsConcat(ids[..i], ids[i], vals, now);
    }

    static lemma {:induction false} QueueEffectsConcat(ids: seq<string>, id: string, vals: map<string, QueuedResume>, now: int)
      ensures QueueEffects(ids + [id], vals, now)
           == QueueEffects(ids, vals, now) + if id in vals && QueueStale(vals[id], now) then [QueueExpired(id, vals[id], now)] else []
    {
      if ids == [] {
        assert ([] + [id])[1..] == [];
      } else {
        assert (ids + [id])[1..] == ids[1..] + [id];
        QueueEffectsConcat(ids[1..], id, vals, now);
      }
    }

    // ---- Store ----

    method RemovePaused(id: string, ghost cause: Cause) returns (entry: Option<Entry>)
      modifies this`log, store`entries
      ensures Became(RemoveEntry(old(Now()), id, cause))
      ensures entry == if id in old(store.entries).vals then Some(old(store.entries).vals[id]) else None
    {
      entry := store.Remove(id);
      if entry.Some? {
        log := log + [Removed(entry.value, cause)];
      } else {
        DeleteAbsent(old(store.entries), id);
      }
    }

    /** Both matchers: one scan of a snapshot of the entries, expiring on the way. */
    method MatchEntry(path: string, now: int, extract: Entry -> Option<string>) returns (hit: Option<Entry>)
      modifies this`log, store`entries
      ensures var m := Match(old(Now()), path, now, extract); Became((m.0, m.1)) && hit == m.2
    {
      var listed := Listed(store.entries);
      ghost var s0, log0, scan := Now(), log, ScanFor(listed, path, now, extract);
      assert listed[0..] == listed;
      for i := 0 to |listed|
        invariant ScanFor(listed[i..], path, now, extract).hit == scan.hit
        invariant Expiring(s0, log0, scan.expired, ScanFor(listed[i..], path, now, extract).expired, Now(), log)
      {
        var entry := listed[i];
        ghost var rest := listed[i..];
        assert rest[0] == entry && rest[1..] == listed[i + 1..];
        if entry.webhookPath != path {
          continue;
        }
        if entry.timeoutAt > 0 && now > entry.timeoutAt {
          ExpiringStep(s0, log0, scan.expired, ScanFor(rest, path, now, extract).expired, Now(), log);
          var _ := RemovePaused(entry.correlationId, ByMatchExpiry);
          continue;
        }
        var extractedId := extract(entry);
        if extractedId.Some? && extractedId.value != "" && extractedId.value == entry.correlationId {
          return Some(entry);
        }
      }
      return None;
    }

    // ---- HTTP handlers ----

    method HandlePause(now: int, req: PauseRequest) returns (reply: Reply)
      modifies this`log, store`entries
      ensures Did(DoHttpPause(old(Now()), now, req), reply)
    {
      if req.correlationId == "" || req.webhookPath == "" || req.executionId == "" {
        return BadRequest;
      }
      var entry := NewEntry(req, now);
      var added := store.Add(entry);
      if !added {
        return Conflict;
      }
      log := log + [Paused(entry)];
      return PausedUntil(entry.timeoutAt);
    }

    method HandleResume(now: int, id: string, data: Payload) returns (reply: Reply)
      modifies this, store`entries
      ensures Did(DoHttpResume(old(Now()), now, id, data), reply)
    {
      if id == "" {
        return BadRequest;
      }
      var entry := RemovePaused(id, ByResume);
      if entry.None? {
        return NotResumed;
      }
      var e := entry.value;
      NotifyResume(id, QueuedResume(data, e.executionId, e.workflowId, now));
      return ResumedTo(Body(id, e.executionId, e.workflowId));
    }

    method HandleWait(id: string) returns (reply: Reply)
      modifies this
      ensures Did(DoHttpWait(old(Now()), id), reply)
    {
      var token := nextToken;
      nextToken := nextToken + 1;
      if id in queuedResumes.vals {
        var queued := queuedResumes.vals[id];
        queuedResumes := Delete(queuedResumes, id);
        log := log + [Claimed(token, id, queued)];
        return PollAnswer(queued);
      }
      var arr := if id in resumeWaiters then resumeWaiters[id] else [];
      arr := arr + [PollWaiter(id, token)];
      resumeWaiters := resumeWaiters[id := arr];
      polls := polls[token := id];
      log := log + [Opened(PollWaiter(id, token))];
      return Parked(token);
    }

    /** The parked request's timer, and its `close` event. */
    method EndPoll(token: nat, how: How)
      modifies this
      ensures Did(DoPollEnds(old(Now()), token, how), NoReply)
    {
      if token !in polls {
        return;
      }
      var w := PollWaiter(polls[token], token);
      polls := polls - {token};
      DeregisterResumeWaiter(w);
      log := log + [Settled(w, how)];
    }

    method HandleDelete(id: string) returns (reply: Reply)
      modifies this`log, store`entries
      ensures Did(DoHttpDelete(old(Now()), id), reply)
    {
      var entry := RemovePaused(id, ByDelete);
      return if entry.None? then NotFound else Cancelling;
    }

    method HandleCleanup(now: int) returns (reply: Reply)
      modifies this`log, store`entries, idempotency
      ensures Did(DoHttpCleanup(old(Now()), now), reply)
    {
      hide DoHttpCleanup, Swept, AfterCleanup, Listed, SweepEffects, NoDup, RawMap.Valid;
      CleanupParts(Now(), now);
      log := log + SweepEffects(Listed(store.entries), now);
      var count := store.CleanupExpired(now);
      var cleared := idempotency.CleanupIdempotency(now);
      return Cleaned(count, cleared);
    }

    static lemma CleanupParts(s: State, now: int)
      ensures var o := DoHttpCleanup(s, now);
        && o.s == s.(store := Swept(s.store, now), cache := AfterCleanup(s.cache, now, s.ttlMs))
        && o.effects == SweepEffects(Listed(s.store), now)
        && |s.store.keys| >= |o.s.store.keys| && |s.cache.keys| >= |o.s.cache.keys|
        && o.reply == Cleaned(|s.store.keys| - |o.s.store.keys|, |s.cache.keys| - |o.s.cache.keys|)
    {
      FilterLength(s.store.keys, k => k in s.store.vals && !Expired(s.store.vals[k], now));
      FilterLength(s.cache.keys, k => k in s.cache.vals && !Stale(s.cache.vals[k], now, s.ttlMs));
    }

    method HandleWebhook(now: int, call: WebhookRequest) returns (reply: Reply)
      modifies this, store, idempotency
      ensures Did(DoWebhook(old(Now()), now, call), reply)
      ensures store.unmatchedWebhooks == if reply.NoMatch?
        then LastN(old(store.unmatchedWebhooks) + [Unmatched(call.path, call.possibleId, call.body, now)], MAX_UNMATCHED_LOG)
        else old(store.unmatchedWebhooks)
    {
      hide Match, RemoveEntry, Notify, AfterLookup, AfterRecord, Lookup, WebhookKey, LastN, WebhookFilter.Evaluate, NoDup, RawMap.Valid, ResumeOf;
      if !call.admitted {
        return Forbidden;
      }
      var hit := MatchEntry(call.path, now, call.extract);
      if hit.None? {
        store.LogUnmatched(call.path, call.possibleId, call.body, now);
        return NoMatch;
      }
      if !call.tokenOk {
        return TokenRejected;
      }
      var e := hit.value;
      var key := WebhookKey(e.correlationId, call.path, call.idempotencyHeader, call.requestId);
      var cached := idempotency.CheckIdempotency(key, now);
      if cached.Some? && e.correlationId !in store.entries.vals {
        return CachedReply(cached.value.statusCode, cached.value.body);
      }
      if e.webhookFilter.Some? && e.webhookFilter.value != "" {
        var verdict := WebhookFilter.Evaluate(e.webhookFilter.value, call.atom);
        if verdict.Invalid? {
          return FilterRejected;
        } else if verdict.Diverges? {
          return FilterOverflow;
        }
      }
      ResumeMatched(e, ByWebhook, call.body, key, now);
      return ResumedTo(BodyOf(e));
    }

    /** The tail of both message handlers: remove, notify, record. */
    method ResumeMatched(e: Entry, ghost cause: Cause, data: Payload, key: string, now: int)
      modifies this, store`entries, idempotency
      ensures
        var (s1, removed) := RemoveEntry(old(Now()), e.correlationId, cause);
        var (s2, notified) := Notify(s1, e.correlationId, ResumeOf(e, data, now));
        Became((s2.(cache := AfterRecord(s2.cache, key, 200, BodyOf(e), now, idempotency.maxEntries)), removed + notified))
    {
      ghost var log0 := log;
      var _ := RemovePaused(e.correlationId, cause);
      ghost var removed := RemoveEntry(old(Now()), e.correlationId, cause).1;
      ghost var notified := Notify(Now(), e.correlationId, ResumeOf(e, data, now)).1;
      NotifyResume(e.correlationId, QueuedResume(data, e.executionId, e.workflowId, now));
      LogConcat(log0, removed, notified);
      idempotency.RecordProcessed(key, 200, BodyOf(e), now);
    }

    method DispatchKafka(now: int, msg: KafkaMessage) returns (reply: Reply)
      modifies this, store, idempotency
      ensures Did(DoKafka(old(Now()), now, msg), reply)
      ensures store.unmatchedWebhooks == if reply.NoMatch?
        then LastN(old(store.unmatchedWebhooks)
                   + [Unmatched(msg.topic, None, KafkaData(msg.topic, msg.partition, msg.offset, msg.key, msg.value), now)], MAX_UNMATCHED_LOG)
        else old(store.unmatchedWebhooks)
    {
      hide Match, RemoveEntry, Notify, AfterLookup, AfterRecord, Lookup, KafkaKey, LastN, NoDup, RawMap.Valid, ResumeOf;
      var key := KafkaKey(msg.topic, msg.partition, msg.offset);
      var hit := MatchEntry(msg.topic, now, msg.extract);
      var cached := idempotency.CheckIdempotency(key, now);
      if hit.None? {
        if cached.Some? {
          return Duplicate(cached.value.body.correlationId);
        }
        store.LogUnmatched(msg.topic, None, KafkaData(msg.topic, msg.partition, msg.offset, msg.key, msg.value), now);
        return NoMatch;
      }
      var e := hit.value;
      if cached.Some? && e.correlationId !in store.entries.vals {
        return Duplicate(e.correlationId);
      }
      ResumeMatched(e, ByKafka, KafkaData(msg.topic, msg.partition, msg.offset, msg.key, msg.value), key, now);
      return ResumedTo(BodyOf(e));
    }

    // ---- The bridge ----

    method PauseInBridge(now: int, bridge: nat, req: PauseRequest) returns (reply: Reply)
      modifies this, store`entries
      ensures Did(DoBridgePause(old(Now()), now, bridge, req), reply)
    {
      hide Register, Put, Added, NoDup, RawMap.Valid;
      var id, key, token := req.correlationId, (bridge, req.correlationId), nextToken;
      nextToken := nextToken + 1;
      if key in callbacks.vals {
        log := log + [Refused(token)];
        return Rejected(token);
      }
      var entry := NewEntry(req, now);
      var added := store.Add(entry);
      if added {
        log := log + [Paused(entry)];
      }
      var waiter := BridgeWaiter(bridge, id, token);
      RegisterResumeWaiter(waiter);
      log := log + [Opened(waiter)];
      if req.timeoutMs > 0 {
        timers := timers[token := key];
      }
      callbacks := Put(callbacks, key, Callback(token, req.timeoutMs > 0, entry.timeoutAt));
      return Reply.Pending(token);
    }

    /** What `resume`, `cancel` and `cleanup` do with a live callback. */
    method CloseLive(key: BridgeKey, how: How, ghost cause: Cause)
      requires key in callbacks.vals
      modifies this, store`entries
      ensures Became(CloseCallback(old(Now()), key, how, cause))
    {
      hide CloseCallback, RemoveEntry, Deregister, Delete, RawMap.Valid, NoDup;
      ClosedParts(Now(), key, how, cause);
      var entry := callbacks.vals[key];
      var waiter := BridgeWaiter(key.0, key.1, entry.token);
      if entry.timed {
        timers := timers - {entry.token};
      }
      DeregisterResumeWaiter(waiter);
      RemoveApart(old(Now()), Now(), key.1, cause);
      var _ := RemovePaused(key.1, cause);
      callbacks := Delete(callbacks, key);
      log := log + [Settled(waiter, how)];
    }

    /** Removing an entry looks at the store alone. */
    static lemma RemoveApart(s: State, t: State, id: string, cause: Cause)
      requires t.store == s.store
      ensures var (s1, removed) := RemoveEntry(s, id, cause);
        RemoveEntry(t, id, cause) == (t.(store := s1.store), removed) && s1 == s.(store := s1.store)
    {
    }

    static lemma ClosedParts(s: State, key: BridgeKey, how: How, cause: Cause)
      requires key in s.callbacks.vals
      ensures var cb := s.callbacks.vals[key];
        var w := BridgeWaiter(key.0, key.1, cb.token);
        var (s1, removed) := RemoveEntry(s, key.1, cause);
        var (s2, effects) := CloseCallback(s, key, how, cause);
        && s2 == s1.(timers := if cb.timed then s.timers - {cb.token} else s.timers,
                     waiters := Deregister(s.waiters, w), callbacks := Delete(s.callbacks, key))
        && (forall log0: seq<Effect> :: log0 + effects == log0 + removed + [Settled(w, how)])
    {
    }

    method ResumeInBridge(bridge: nat, id: string, data: Payload) returns (reply: Reply)
      modifies this, store`entries
      ensures Did(DoBridgeClose(old(Now()), (bridge, id), ResumedLocally(data), ByBridgeResume), reply)
    {
      if (bridge, id) !in callbacks.vals {
        return Reply.Did(false);
      }
      CloseLive((bridge, id), ResumedLocally(data), ByBridgeResume);
      return Reply.Did(true);
    }

    method CancelInBridge(bridge: nat, id: string) returns (reply: Reply)
      modifies this, store`entries
      ensures Did(DoBridgeClose(old(Now()), (bridge, id), Cancelled, ByBridgeCancel), reply)
    {
      if (bridge, id) !in callbacks.vals {
        return Reply.Did(false);
      }
      CloseLive((bridge, id), Cancelled, ByBridgeCancel);
      return Reply.Did(true);
    }

    /** The timeout closure of a bridge pause, fired by its armed timer. */
    method FireBridgeTimer(token: nat)
      modifies this, store`entries
      ensures Did(DoBridgeTimer(old(Now()), token), NoReply)
    {
      hide Deregister, Delete, RawMap.Valid, NoDup;
      if token !in timers {
        return;
      }
      var key := timers[token];
      timers := timers - {token};
      if key !in callbacks.vals {
        return;
      }
      var waiter := BridgeWaiter(key.0, key.1, token);
      callbacks := Delete(callbacks, key);
      DeregisterResumeWaiter(waiter);
      ghost var log0 := log;
      var _ := RemovePaused(key.1, ByBridgeTimeout);
      ghost var removed := RemoveEntry(old(Now()), key.1, ByBridgeTimeout).1;
      log := log + [Settled(waiter, TimedOut)];
      LogConcat(log0, removed, [Settled(waiter, TimedOut)]);
    }

    method CleanupBridge(now: int, bridge: nat) returns (reply: Reply)
      modifies this, store`entries
      ensures Did(DoBridgeCleanup(old(Now()), now, bridge), reply)
    {
      hide CloseCallback, NoDup, RawMap.Valid;
      var keys, count := callbacks.keys, 0;
      ghost var s0, log0 := Now(), log;
      assert keys[0..] == keys;
      for i := 0 to |keys|
        invariant BridgeSweep(Now(), keys[i..], now, bridge).0 == BridgeSweep(s0, keys, now, bridge).0
        invariant log + BridgeSweep(Now(), keys[i..], now, bridge).1 == log0 + BridgeSweep(s0, keys, now, bridge).1
        invariant |callbacks.keys| + count == |keys|
      {
        var key := keys[i];
        ghost var rest, s1, log1 := keys[i..], Now(), log;
        assert rest[0] == key && rest[1..] == keys[i + 1..];
        if key.0 == bridge && key in callbacks.vals {
          var entry := callbacks.vals[key];
          if entry.timeoutAt > 0 && entry.timeoutAt <= now {
            ghost var first := CloseCallback(s1, key, ExpiredInBridge, ByBridgeExpiry).1;
            CloseLive(key, ExpiredInBridge, ByBridgeExpiry);
            count := count + 1;
            ghost var later := BridgeSweep(Now(), keys[i + 1..], now, bridge).1;
            LogConcat(log1, first, later);
          }
        }
      }
      assert keys[|keys|..] == [];
      return Count(count);
    }

    static lemma LogConcat(log0: seq<Effect>, first: seq<Effect>, later: seq<Effect>)
      ensures log0 + (first + later) == log0 + first + later
    {
    }

    /** Removing `ids` from `s0` has come as far as `s1`; `left` are still to go. */
    static ghost predicate Expiring(s0: State, log0: seq<Effect>, ids: seq<string>, left: seq<string>, s1: State, log1: seq<Effect>) {
      && RemoveEntries(s1, left, ByMatchExpiry).0 == RemoveEntries(s0, ids, ByMatchExpiry).0
      && log1 + RemoveEntries(s1, left, ByMatchExpiry).1 == log0 + RemoveEntries(s0, ids, ByMatchExpiry).1
    }

    static lemma ExpiringStep(s0: State, log0: seq<Effect>, ids: seq<string>, left: seq<string>, s1: State, log1: seq<Effect>)
      requires left != [] && Expiring(s0, log0, ids, left, s1, log1)
      ensures var (s2, removed) := RemoveEntry(s1, left[0], ByMatchExpiry);
        Expiring(s0, log0, ids, left[1..], s2, log1 + removed)
    {
      var (s2, removed) := RemoveEntry(s1, left[0], ByMatchExpiry);
      var rest := RemoveEntries(s2, left[1..], ByMatchExpiry).1;
      LogConcat(log1, removed, rest);
    }
  }
}
