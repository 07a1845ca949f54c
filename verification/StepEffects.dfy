/**
 What each step does to the outside, exactly: which parties it ends and how, whom
 a resumption reaches and with what letter.
 */
module StepEffects {
  import opened JsMap
  import opened Idempotency
  import opened CorrelationStore
  import opened IdempotencyKeys
  import opened CorrelationProtocol
  import opened Ledger
  import opened Matching
  import opened ProtocolRefinement
  import opened ProtocolTheorems
  import opened WakeUps
  import opened Orphans
  import opened Wrappers

  // ---- How a party ends ----

  /**
   The step that ends the live party `w` with `how`: its own bridge's resume with
   that data, its own cancel, its own timer, its bridge's sweep past its deadline,
   its poll's timer, or its poll's connection.
   */
  ghost predicate Ends(s: State, ev: Event, w: Waiter, how: How) {
    match how
    case ResumedLocally(data) => w.BridgeWaiter? && ev == BridgeResume(w.bridge, w.id, data)
    case Cancelled => w.BridgeWaiter? && ev == BridgeCancel(w.bridge, w.id)
    case TimedOut =>
      if w.BridgeWaiter? then ev == BridgeTimer(w.token) && (w.bridge, w.id) in s.callbacks.vals && s.callbacks.vals[(w.bridge, w.id)].timed
      else ev == PollTimeout(w.token)
    case ExpiredInBridge =>
      && w.BridgeWaiter? && ev.BridgeCleanup? && ev.bridge == w.bridge && (w.bridge, w.id) in s.callbacks.vals
      && 0 < s.callbacks.vals[(w.bridge, w.id)].timeoutAt <= ev.now
    case Disconnected => w.PollWaiter? && ev == PollClose(w.token)
  }

  /** A bridge's callback under `key`, as a party. */
  function Party(s: State, key: BridgeKey): Waiter
    requires key in s.callbacks.vals
  {
    BridgeWaiter(key.0, key.1, s.callbacks.vals[key].token)
  }

  ghost predicate SettlesNone(effects: seq<Effect>) {
    forall eff :: eff in effects ==> !eff.Settled?
  }

  ghost predicate SettlesOnly(effects: seq<Effect>, w: Waiter, how: How) {
    forall eff :: eff in effects && eff.Settled? <==> eff == Settled(w, how)
  }

  lemma CloseSettles(s: State, key: BridgeKey, how: How, cause: Cause)
    requires key in s.callbacks.vals
    ensures SettlesOnly(CloseCallback(s, key, how, cause).1, Party(s, key), how)
  {
    hide NoDup, RawMap.Valid;
    var removed := RemoveEntry(s, key.1, cause).1;
    assert CloseCallback(s, key, how, cause).1 == removed + [Settled(Party(s, key), how)];
  }

  lemma CloseCallbacks(s: State, key: BridgeKey, how: How, cause: Cause)
    requires key in s.callbacks.vals
    ensures CloseCallback(s, key, how, cause).0.callbacks.vals == s.callbacks.vals - {key}
  {
    hide NoDup, RawMap.Valid;
  }

  /** A bridge's sweep ends exactly its overdue callbacks, each as expired. */
  lemma {:induction false} BridgeSweepSettles(s: State, keys: seq<BridgeKey>, now: int, b: nat, w: Waiter, how: How)
    ensures Settled(w, how) in BridgeSweep(s, keys, now, b).1 <==>
      w.BridgeWaiter? && how == ExpiredInBridge && w.bridge == b && (b, w.id) in keys
      && Overdue(s, (b, w.id), now, b) && w == Party(s, (b, w.id))
    decreases |keys|
  {
    hide NoDup, RawMap.Valid;
    if keys != [] {
      var key := keys[0];
      assert forall k :: k in keys <==> k == key || k in keys[1..];
      if Overdue(s, key, now, b) {
        CloseSettles(s, key, ExpiredInBridge, ByBridgeExpiry);
        CloseCallbacks(s, key, ExpiredInBridge, ByBridgeExpiry);
        var (s1, first) := CloseCallback(s, key, ExpiredInBridge, ByBridgeExpiry);
        hide CloseCallback;
        BridgeSweepSettles(s1, keys[1..], now, b, w, how);
      } else {
        hide CloseCallback;
        BridgeSweepSettles(s, keys[1..], now, b, w, how);
      }
    }
  }

  // ---- Steps that settle nothing ----

  lemma {:induction false} RemovalsAreRemoved(s: State, ids: seq<string>, cause: Cause)
    ensures forall eff :: eff in RemoveEntries(s, ids, cause).1 ==> eff.Removed? && eff.cause == cause
    decreases |ids|
  {
    hide NoDup, RawMap.Valid;
    if ids != [] {
      RemovalsAreRemoved(RemoveEntry(s, ids[0], cause).0, ids[1..], cause);
    }
  }

  lemma {:induction false} WakesAreDelivered(s: State, ws: seq<Waiter>, r: QueuedResume)
    ensures forall eff :: eff in WakeAll(s, ws, r).1 ==> eff.Delivered?
    decreases |ws|
  {
    hide NoDup, RawMap.Valid;
    if ws != [] {
      WakesAreDelivered(Wake(s, ws[0], r).0, ws[1..], r);
    }
  }

  lemma NotifySettlesNone(s: State, id: string, r: QueuedResume)
    ensures SettlesNone(Notify(s, id, r).1)
  {
    hide NoDup, RawMap.Valid;
    WakesAreDelivered(s.(waiters := s.waiters - {id}), WaitersOf(s.waiters, id), r);
  }

  lemma {:induction false} SweepIsRemoved(listed: seq<Entry>, now: int)
    ensures forall eff :: eff in SweepEffects(listed, now) ==> eff.Removed?
  {
    if listed != [] {
      SweepIsRemoved(listed[1..], now);
    }
  }

  lemma {:induction false} QueueSweepExpires(ids: seq<string>, vals: map<string, QueuedResume>, now: int)
    ensures forall eff :: eff in QueueEffects(ids, vals, now) ==> eff.QueueExpired?
  {
    if ids != [] {
      QueueSweepExpires(ids[1..], vals, now);
    }
  }

  lemma ConcatSettlesNone(first: seq<Effect>, rest: seq<Effect>)
    requires SettlesNone(first) && SettlesNone(rest)
    ensures SettlesNone(first + rest)
  {
  }

  lemma MessageSettlesNone(s: State, path: string, now: int, extract: Entry -> Option<string>, c: Cache<Body>, e: Entry, cause: Cause, r: QueuedResume)
    ensures var (s1, expired, _) := Match(s, path, now, extract);
      var (s2, removed) := RemoveEntry(s1.(cache := c), e.correlationId, cause);
      SettlesNone(expired) && SettlesNone(expired + removed + Notify(s2, e.correlationId, r).1)
  {
    hide NoDup, RawMap.Valid;
    var scan := ScanFor(Listed(s.store), path, now, extract);
    var (s1, expired) := RemoveEntries(s, scan.expired, ByMatchExpiry);
    RemovalsAreRemoved(s, scan.expired, ByMatchExpiry);
    var (s2, removed) := RemoveEntry(s1.(cache := c), e.correlationId, cause);
    NotifySettlesNone(s2, e.correlationId, r);
    hide Notify, RemoveEntries;
    ConcatSettlesNone(expired, removed);
    ConcatSettlesNone(expired + removed, Notify(s2, e.correlationId, r).1);
  }

  lemma WebhookSettlesNone(s: State, now: int, call: WebhookRequest)
    ensures SettlesNone(DoWebhook(s, now, call).effects)
  {
    hide SettlesNone, AfterLookup, AfterRecord, Lookup, WebhookKey, FilterVerdict, Notify;
    NothingSettlesNone();
    var (s1, expired, hit) := Match(s, call.path, now, call.extract);
    var e := if hit.Some? then hit.value else Entry("", "", "", "", "", 0, 0, None, "", None, None, None);
    var key := WebhookKey(e.correlationId, call.path, call.idempotencyHeader, call.requestId);
    MessageSettlesNone(s, call.path, now, call.extract, AfterLookup(s1.cache, key, now, s.ttlMs), e, ByWebhook, ResumeOf(e, call.body, now));
    hide Match;
  }

  lemma NothingSettlesNone()
    ensures SettlesNone([])
  {
  }

  lemma KafkaSettlesNone(s: State, now: int, msg: KafkaMessage)
    ensures SettlesNone(DoKafka(s, now, msg).effects)
  {
    hide SettlesNone, AfterLookup, AfterRecord, Lookup, KafkaKey, Notify;
    var (s1, expired, hit) := Match(s, msg.topic, now, msg.extract);
    var e := if hit.Some? then hit.value else Entry("", "", "", "", "", 0, 0, None, "", None, None, None);
    var key := KafkaKey(msg.topic, msg.partition, msg.offset);
    MessageSettlesNone(s, msg.topic, now, msg.extract, AfterLookup(s1.cache, key, now, s.ttlMs), e, ByKafka,
      ResumeOf(e, KafkaData(msg.topic, msg.partition, msg.offset, msg.key, msg.value), now));
    hide Match;
  }

  lemma HttpResumeSettlesNone(s: State, now: int, id: string, data: Payload)
    ensures SettlesNone(DoHttpResume(s, now, id, data).effects)
  {
    hide NoDup, RawMap.Valid, Notify;
    if id in s.store.vals {
      NotifySettlesNone(RemoveEntry(s, id, ByResume).0, id, ResumeOf(s.store.vals[id], data, now));
    }
  }

  lemma OthersSettleNone(s: State, ev: Event)
    requires !ev.PollTimeout? && !ev.PollClose? && !ev.BridgeResume? && !ev.BridgeCancel? && !ev.BridgeTimer? && !ev.BridgeCleanup?
    ensures SettlesNone(Step(s, ev).effects)
  {
    hide NoDup, RawMap.Valid, DoWebhook, DoKafka, DoHttpResume, Register, Added, Put, Filter, AfterCleanup, Swept;
    match ev
    case HttpResume(now, id, data) => HttpResumeSettlesNone(s, now, id, data);
    case WebhookCall(now, call) => WebhookSettlesNone(s, now, call);
    case KafkaDelivery(now, msg) => KafkaSettlesNone(s, now, msg);
    case HttpCleanup(now) => SweepIsRemoved(Listed(s.store), now);
    case QueueSweep(now) => QueueSweepExpires(s.queued.keys, s.queued.vals, now);
    case _ =>
  }

  // ---- Every ending, exactly ----

  lemma BridgeCloseSettles(s: State, key: BridgeKey, how: How, cause: Cause)
    ensures var o := DoBridgeClose(s, key, how, cause);
      && o.reply == Did(key in s.callbacks.vals)
      && (key in s.callbacks.vals ==> SettlesOnly(o.effects, Party(s, key), how))
      && (key !in s.callbacks.vals ==> o.effects == [] && o.s == s)
  {
    hide NoDup, RawMap.Valid, SettlesOnly;
    if key in s.callbacks.vals {
      CloseSettles(s, key, how, cause);
    }
  }

  lemma PollEndsSettles(s: State, b: Book, t: nat, how: How)
    requires Coupled(s, b)
    ensures if t in s.polls then SettlesOnly(DoPollEnds(s, t, how).effects, PollWaiter(s.polls[t], t), how)
            else DoPollEnds(s, t, how).effects == []
  {
  }

  lemma BridgeTimerSettles(s: State, b: Book, t: nat)
    requires Coupled(s, b)
    ensures if t in s.timers then
        && s.timers[t] in s.callbacks.vals && s.callbacks.vals[s.timers[t]].token == t && s.callbacks.vals[s.timers[t]].timed
        && SettlesOnly(DoBridgeTimer(s, t).effects, Party(s, s.timers[t]), TimedOut)
      else DoBridgeTimer(s, t).effects == []
    ensures forall k :: k in s.callbacks.vals && s.callbacks.vals[k].token == t && s.callbacks.vals[k].timed ==> t in s.timers && s.timers[t] == k
  {
    if t in s.timers {
      BridgeTimerIsClose(s, t, b);
      CloseSettles(s, s.timers[t], TimedOut, ByBridgeTimeout);
    }
    hide NoDup, RawMap.Valid, ListsMatch, PartiesMatch, DoBridgeTimer, CloseCallback, SettlesOnly;
  }

  lemma BridgeCleanupSettles(s: State, now: int, b: nat, w: Waiter, how: How)
    ensures Settled(w, how) in DoBridgeCleanup(s, now, b).effects <==>
      Lives(w, s.callbacks.vals, s.polls) && Ends(s, BridgeCleanup(now, b), w, how)
  {
    BridgeSweepSettles(s, s.callbacks.keys, now, b, w, how);
    hide BridgeSweep, NoDup;
  }

  /**
   A step settles a party in a given way exactly when the party is waiting and the
   step is the one that ends it so: a local resume ends its own bridge's promise
   with its own data, and nothing else does.
   */
  lemma SettledExactly(s: State, b: Book, ev: Event, w: Waiter, how: How)
    requires Coupled(s, b)
    ensures Settled(w, how) in Step(s, ev).effects <==> Lives(w, s.callbacks.vals, s.polls) && Ends(s, ev, w, how)
  {
    hide Coupled, NoDup, RawMap.Valid;
    hide DoHttpPause, DoHttpResume, DoHttpWait, DoPollEnds, DoHttpDelete, DoHttpCleanup, DoQueueSweep, DoWebhook, DoKafka,
         DoBridgePause, DoBridgeClose, DoBridgeTimer, DoBridgeCleanup;
    match ev
    case PollTimeout(t) => PollEndsSettles(s, b, t, TimedOut);
    case PollClose(t) => PollEndsSettles(s, b, t, Disconnected);
    case BridgeResume(bridge, id, data) => BridgeCloseSettles(s, (bridge, id), ResumedLocally(data), ByBridgeResume);
    case BridgeCancel(bridge, id) => BridgeCloseSettles(s, (bridge, id), Cancelled, ByBridgeCancel);
    case BridgeTimer(t) => BridgeTimerSettles(s, b, t);
    case BridgeCleanup(now, bridge) => BridgeCleanupSettles(s, now, bridge, w, how);
    case _ => OthersSettleNone(s, ev);
  }

  lemma {:induction false} CountedIn(log: seq<Effect>, eff: Effect, p: Effect -> bool)
    requires eff in log && p(eff)
    ensures CountOf(log, p) >= 1
  {
    if log[0] != eff {
      CountedIn(log[1..], eff, p);
    }
  }

  /** A party a step settles or delivers to is ended by it once, and is gone afterwards. */
  lemma EndedOnce(s: State, b: Book, ev: Event, eff: Effect)
    requires Coupled(s, b) && eff in Step(s, ev).effects && (eff.Settled? || eff.Delivered?)
    ensures CountOf(Step(s, ev).effects, Endings(eff.w.token)) == 1
    ensures var t := Step(s, ev).s; !Lives(eff.w, t.callbacks.vals, t.polls)
  {
    var o, w := Step(s, ev), eff.w;
    StepAudited(s, ev, b);
    var c := Audit(b, o.effects).value;
    BookTokens(s, b);
    SettledOnce(b, o.effects, w.token);
    CountedIn(o.effects, eff, Endings(w.token));
    LivesIsOpen(o.s, c, w);
    hide Step, Coupled, CountOf, Lives;
  }

  lemma BookTokens(s: State, b: Book)
    requires Coupled(s, b)
    ensures b.open.Keys !! b.closed
  {
    hide NoDup, RawMap.Valid, ListsMatch, PartiesMatch, TimersMatch;
  }

  /** The parties of the book are those that live in the maps. */
  lemma LivesIsOpen(s: State, b: Book, w: Waiter)
    requires Coupled(s, b)
    ensures Lives(w, s.callbacks.vals, s.polls) <==> w.token in b.open && b.open[w.token] == w
    ensures Lives(w, s.callbacks.vals, s.polls) <==> w in WaitersOf(s.waiters, w.id)
  {
    hide NoDup, RawMap.Valid, TimersMatch;
  }

  /** A resume of a live bridge resolves its promise with the data, and answers true. */
  lemma BridgeResumeResolves(s: State, b: Book, bridge: nat, id: string, data: Payload)
    requires Coupled(s, b)
    ensures var o, live := Step(s, BridgeResume(bridge, id, data)), (bridge, id) in s.callbacks.vals;
      && o.reply == Did(live)
      && (live ==>
            var w := BridgeWaiter(bridge, id, s.callbacks.vals[(bridge, id)].token);
            Settled(w, ResumedLocally(data)) in o.effects && CountOf(o.effects, Endings(w.token)) == 1
            && (bridge, id) !in o.s.callbacks.vals)
      && (!live ==> o.effects == [] && o.s == s)
  {
    BridgeCloseSettles(s, (bridge, id), ResumedLocally(data), ByBridgeResume);
    if (bridge, id) in s.callbacks.vals {
      var w := BridgeWaiter(bridge, id, s.callbacks.vals[(bridge, id)].token);
      CloseCallbacks(s, (bridge, id), ResumedLocally(data), ByBridgeResume);
      hide CloseCallback, Coupled;
      SettledExactly(s, b, BridgeResume(bridge, id, data), w, ResumedLocally(data));
      EndedOnce(s, b, BridgeResume(bridge, id, data), Settled(w, ResumedLocally(data)));
    }
  }

  /** The state before event `k` of a run. */
  function Before(s: State, evs: seq<Event>, k: nat): State
    requires k <= |evs|
  {
    Run(s, evs[..k]).0
  }

  /** Event `k` of the run ends `w` with `how`, and `w` was waiting. */
  ghost predicate EndsAt(s: State, evs: seq<Event>, k: nat, w: Waiter, how: How) {
    k < |evs| && var before := Before(s, evs, k); Lives(w, before.callbacks.vals, before.polls) && Ends(before, evs[k], w, how)
  }

  lemma BeforeLater(s: State, evs: seq<Event>, k: nat)
    requires 0 < k <= |evs|
    ensures Before(s, evs, k) == Before(Step(s, evs[0]).s, evs[1..], k - 1)
  {
    hide Step;
    assert evs[..k][1..] == evs[1..][..k - 1];
  }

  /** Over a whole run: a party is settled in a given way exactly by a step of the run that ends it so. */
  lemma {:induction false} RunSettledExactly(s: State, b: Book, evs: seq<Event>, w: Waiter, how: How)
    requires Coupled(s, b)
    ensures Settled(w, how) in Run(s, evs).1 <==> exists k: nat :: EndsAt(s, evs, k, w, how)
    decreases |evs|
  {
    hide Coupled, Step, Lives, Ends;
    if evs != [] {
      var o, rest := Step(s, evs[0]), evs[1..];
      StepAudited(s, evs[0], b);
      SettledExactly(s, b, evs[0], w, how);
      RunSettledExactly(o.s, Audit(b, o.effects).value, rest, w, how);
      assert Before(s, evs, 0) == s by { assert evs[..0] == []; }
      forall k: nat | k < |rest| ensures EndsAt(s, evs, k + 1, w, how) <==> EndsAt(o.s, rest, k, w, how) {
        BeforeLater(s, evs, k + 1);
      }
      assert EndsAt(s, evs, 0, w, how) <==> Settled(w, how) in o.effects;
      if k: nat :| EndsAt(o.s, rest, k, w, how) {
        assert EndsAt(s, evs, k + 1, w, how);
      }
      if k: nat :| EndsAt(s, evs, k, w, how) {
        assert k > 0 ==> EndsAt(o.s, rest, k - 1, w, how);
      }
    }
  }

  // ---- The letter of a resumption ----

  function Deliveries(ws: seq<Waiter>, r: QueuedResume): seq<Effect> {
    seq(|ws|, i requires 0 <= i < |ws| => Delivered(ws[i], r))
  }

  /** Waking a list of live parties delivers the letter to each of them, in order. */
  lemma {:induction false} WakeAllDelivers(s: State, id: string, ws: seq<Waiter>, r: QueuedResume, b: Book)
    requires Waking(s, id, ws, r, b)
    ensures WakeAll(s, ws, r).1 == Deliveries(ws, r)
    decreases |ws|
  {
    hide Waking, Wake;
    if ws != [] {
      WakeStep(s, id, ws, r, b);
      var (s1, first) := Wake(s, ws[0], r);
      WakeAllDelivers(s1, id, ws[1..], r, Enter(b, first[0]));
      assert Deliveries(ws, r) == [Delivered(ws[0], r)] + Deliveries(ws[1..], r);
    }
  }

  /** A notification goes to every party waiting for the id, in order, or lies in the queue when there is none. */
  lemma NotifyDelivers(s: State, b: Book, id: string, r: QueuedResume)
    requires Coupled(s, b)
    ensures var (t, effects) := Notify(s, id, r);
      && effects == [Notified(id, r)] + Deliveries(WaitersOf(s.waiters, id), r)
      && t.queued == (if WaitersOf(s.waiters, id) == [] then Put(s.queued, id, r) else s.queued)
  {
    hide ListsMatch, PartiesMatch, TimersMatch, KeyedById, NoDup, RawMap.Valid;
    var ws := WaitersOf(s.waiters, id);
    if ws == [] {
      assert Deliveries(ws, r) == [];
    } else {
      var s0, c := s.(waiters := s.waiters - {id}), b.(due := Tokens(ws), letter := Some(r));
      assert Restored(s0.waiters, id, ws) == s.waiters;
      WakeAllDelivers(s0, id, ws, r, c);
      WakeAllKeeps(s0, ws, r);
    }
  }

  /** What a resumption carries: the caller's data, the webhook's body, or the whole message. */
  function Carried(ev: Event): Payload
    requires ev.HttpResume? || ev.WebhookCall? || ev.KafkaDelivery?
  {
    match ev
    case HttpResume(_, _, data) => data
    case WebhookCall(_, call) => call.body
    case KafkaDelivery(_, msg) => KafkaData(msg.topic, msg.partition, msg.offset, msg.key, msg.value)
  }

  /**
   The step resumed the entry stored under `body`'s id: it answers with that entry's
   execution and workflow, notifies once, and hands that very letter to all who
   wait for the id and to nobody else, or queues it when nobody waits.
   */
  ghost predicate HandsOver(s: State, o: Outcome, body: Body, data: Payload, now: int) {
    var id := body.correlationId;
    && id in s.store.vals && id !in o.s.store.vals
    && var e := s.store.vals[id];
       var r := QueuedResume(data, e.executionId, e.workflowId, now);
    && body == Body(id, e.executionId, e.workflowId)
    && CountOf(o.effects, Notifications(id)) == 1
    && (forall eff :: eff in o.effects && eff.Notified? <==> eff == Notified(id, r))
    && (forall eff :: eff in o.effects && eff.Delivered? <==> eff.Delivered? && eff.r == r && eff.w in WaitersOf(s.waiters, id))
    && o.s.queued == (if WaitersOf(s.waiters, id) == [] then Put(s.queued, id, r) else s.queued)
  }

  ghost predicate HandsNothing(effects: seq<Effect>) {
    forall eff :: eff in effects ==> !eff.Notified? && !eff.Delivered?
  }

  /** Effects of which all before the notification are removals. */
  lemma HandsOverBy(s: State, b: Book, o: Outcome, removed: seq<Effect>, e: Entry, data: Payload, now: int)
    requires Coupled(s, b) && e.correlationId in s.store.vals && s.store.vals[e.correlationId] == e && e.correlationId !in o.s.store.vals
    requires forall eff :: eff in removed ==> eff.Removed?
    requires var r, ws := QueuedResume(data, e.executionId, e.workflowId, now), WaitersOf(s.waiters, e.correlationId);
      && o.effects == removed + ([Notified(e.correlationId, r)] + Deliveries(ws, r))
      && o.s.queued == (if ws == [] then Put(s.queued, e.correlationId, r) else s.queued)
    ensures HandsOver(s, o, Body(e.correlationId, e.executionId, e.workflowId), data, now)
  {
    var id, r := e.correlationId, QueuedResume(data, e.executionId, e.workflowId, now);
    var ws := WaitersOf(s.waiters, id);
    OneNotified(removed, id, r, ws);
    hide Coupled, NoDup, RawMap.Valid, Put;
    forall eff ensures eff in o.effects && eff.Delivered? <==> eff.Delivered? && eff.r == r && eff.w in ws {
      if eff.Delivered? && eff.r == r && eff.w in ws {
        var i :| 0 <= i < |ws| && ws[i] == eff.w;
        assert Deliveries(ws, r)[i] == eff;
      }
    }
  }

  lemma {:induction false} CountNone(log: seq<Effect>, p: Effect -> bool)
    requires forall eff :: eff in log ==> !p(eff)
    ensures CountOf(log, p) == 0
  {
    if log != [] {
      CountNone(log[1..], p);
    }
  }

  lemma OneNotified(removed: seq<Effect>, id: string, r: QueuedResume, ws: seq<Waiter>)
    requires forall eff :: eff in removed ==> eff.Removed?
    ensures CountOf(removed + ([Notified(id, r)] + Deliveries(ws, r)), Notifications(id)) == 1
  {
    var p := Notifications(id);
    CountConcat(removed, [Notified(id, r)] + Deliveries(ws, r), p);
    CountConcat([Notified(id, r)], Deliveries(ws, r), p);
    CountNone(removed, p);
    CountNone(Deliveries(ws, r), p);
    assert [Notified(id, r)][1..] == [];
  }

  lemma HttpResumeHands(s: State, b: Book, now: int, id: string, data: Payload)
    requires Coupled(s, b)
    ensures var o := DoHttpResume(s, now, id, data);
      && (o.reply.ResumedTo? <==> id != "" && id in s.store.vals)
      && (o.reply.ResumedTo? ==> o.reply.body.correlationId == id && HandsOver(s, o, o.reply.body, data, now))
      && (!o.reply.ResumedTo? ==> o.s == s && o.effects == [] && o.reply == (if id == "" then BadRequest else NotResumed))
  {
    hide HandsOver, NoDup, RawMap.Valid, Notify;
    if id != "" && id in s.store.vals {
      var e := s.store.vals[id];
      StoredUnder(s, b, id);
      var (s1, removed) := RemoveEntry(s, id, ByResume);
      var r := QueuedResume(data, e.executionId, e.workflowId, now);
      NotifyCarries(s, b, s1, id, r);
      HandsOverBy(s, b, DoHttpResume(s, now, id, data), removed, e, data, now);
    }
  }

  lemma StoredUnder(s: State, b: Book, id: string)
    requires Coupled(s, b) && id in s.store.vals
    ensures s.store.vals[id].correlationId == id
  {
    hide NoDup, RawMap.Valid, ListsMatch, PartiesMatch, TimersMatch;
  }

  /** The same when the store and the cache have changed meanwhile. */
  lemma NotifyCarries(s: State, b: Book, s1: State, id: string, r: QueuedResume)
    requires Coupled(s, b) && s1 == s.(store := s1.store, cache := s1.cache)
    ensures var (t, effects) := Notify(s1, id, r);
      && effects == [Notified(id, r)] + Deliveries(WaitersOf(s.waiters, id), r)
      && t.queued == (if WaitersOf(s.waiters, id) == [] then Put(s.queued, id, r) else s.queued)
      && t.store == s1.store
  {
    var m := s1.store;
    var s2 := s.(store := m);
    WakeAllKeeps(s1.(waiters := s1.waiters - {id}), WaitersOf(s1.waiters, id), r);
    hide NoDup, RawMap.Valid, ListsMatch, PartiesMatch, TimersMatch, KeyedById, Put;
    var ws := WaitersOf(s.waiters, id);
    if ws == [] {
      assert Deliveries(ws, r) == [];
    } else {
      NotifyDelivers(s, b, id, r);
      WakeAllSame(s.(waiters := s.waiters - {id}), s1.(waiters := s.waiters - {id}), ws, r);
    }
  }

  /** Waking looks at callbacks, timers and polls alone. */
  lemma {:induction false} WakeAllSame(s: State, t: State, ws: seq<Waiter>, r: QueuedResume)
    requires t == s.(store := t.store, cache := t.cache)
    ensures WakeAll(s, ws, r).1 == WakeAll(t, ws, r).1
    decreases |ws|
  {
    hide NoDup, RawMap.Valid;
    if ws != [] {
      WakeAllSame(Wake(s, ws[0], r).0, Wake(t, ws[0], r).0, ws[1..], r);
    }
  }

  /** A message's resumption, after its match and whatever its lookup did to the cache. */
  lemma MessageHands(s: State, b: Book, path: string, now: int, extract: Entry -> Option<string>, c: Cache<Body>, d: Cache<Body>, cause: Cause, data: Payload, reply: Reply)
    requires Coupled(s, b) && Match(s, path, now, extract).2.Some?
    ensures var (s1, expired, hit) := Match(s, path, now, extract);
      var e := hit.value;
      var r := QueuedResume(data, e.executionId, e.workflowId, now);
      var (s3, removed) := RemoveEntry(s1.(cache := c), e.correlationId, cause);
      var (s4, notified) := Notify(s3, e.correlationId, r);
      var o := Outcome(s4.(cache := d), expired + removed + notified, reply);
      HandsOver(s, o, Body(e.correlationId, e.executionId, e.workflowId), data, now)
  {
    hide Match, HandsOver, Notify, Coupled, NoDup, RawMap.Valid;
    MatchFacts(s, b, path, now, extract);
    var (s1, expired, hit) := Match(s, path, now, extract);
    var e := hit.value;
    var r := QueuedResume(data, e.executionId, e.workflowId, now);
    var (s3, removed) := RemoveEntry(s1.(cache := c), e.correlationId, cause);
    RemovedFacts(s1.(cache := c), e.correlationId, cause);
    hide RemoveEntry;
    NotifyCarries(s, b, s3, e.correlationId, r);
    var (s4, notified) := Notify(s3, e.correlationId, r);
    var o := Outcome(s4.(cache := d), expired + removed + notified, reply);
    HandsOverBy(s, b, o, expired + removed, e, data, now);
  }

  lemma MatchFacts(s: State, b: Book, path: string, now: int, extract: Entry -> Option<string>)
    requires Coupled(s, b)
    ensures var (s1, expired, hit) := Match(s, path, now, extract);
      && s1 == s.(store := s1.store)
      && (forall eff :: eff in expired ==> eff.Removed?)
      && (hit.Some? ==> var id := hit.value.correlationId; id in s.store.vals && s.store.vals[id] == hit.value)
  {
    CoupledKeyed(s, b);
    MatchMeaning(s, path, now, extract);
    RemovalsAreRemoved(s, ScanFor(Listed(s.store), path, now, extract).expired, ByMatchExpiry);
    hide NoDup, RawMap.Valid, Coupled;
  }

  lemma RemovedFacts(s: State, id: string, cause: Cause)
    ensures var (t, removed) := RemoveEntry(s, id, cause);
      && t == s.(store := t.store) && id !in t.store.vals
      && forall eff :: eff in removed ==> eff.Removed?
  {
    hide NoDup, RawMap.Valid;
  }

  lemma CoupledKeyed(s: State, b: Book)
    requires Coupled(s, b)
    ensures KeyedById(s.store)
  {
    hide NoDup, RawMap.Valid, ListsMatch, PartiesMatch, TimersMatch;
  }

  lemma WebhookHands(s: State, b: Book, now: int, call: WebhookRequest)
    requires Coupled(s, b)
    ensures var o := DoWebhook(s, now, call);
      && (o.reply.ResumedTo? ==> HandsOver(s, o, o.reply.body, call.body, now))
      && (!o.reply.ResumedTo? ==> HandsNothing(o.effects))
  {
    hide HandsOver, Coupled, AfterLookup, AfterRecord, Lookup, WebhookKey, FilterVerdict, Notify, NoDup, RawMap.Valid;
    var (s1, expired, hit) := Match(s, call.path, now, call.extract);
    RemovalsAreRemoved(s, ScanFor(Listed(s.store), call.path, now, call.extract).expired, ByMatchExpiry);
    assert forall eff :: eff in expired ==> eff.Removed?;
    hide Match;
    if call.admitted && hit.Some? && call.tokenOk {
      var e := hit.value;
      var key := WebhookKey(e.correlationId, call.path, call.idempotencyHeader, call.requestId);
      var c := AfterLookup(s1.cache, key, now, s.ttlMs);
      var s4 := Notify(RemoveEntry(s1.(cache := c), e.correlationId, ByWebhook).0, e.correlationId, ResumeOf(e, call.body, now)).0;
      MatchedWebhookEnds(s, now, call);
      MessageHands(s, b, call.path, now, call.extract, c, AfterRecord(s4.cache, key, 200, BodyOf(e), now, s.maxEntries), ByWebhook, call.body,
        DoWebhook(s, now, call).reply);
      hide DoWebhook, RemoveEntry;
    }
  }

  lemma KafkaHands(s: State, b: Book, now: int, msg: KafkaMessage)
    requires Coupled(s, b)
    ensures var o := DoKafka(s, now, msg);
      && (o.reply.ResumedTo? <==> Match(s, msg.topic, now, msg.extract).2.Some?)
      && (o.reply.ResumedTo? ==> HandsOver(s, o, o.reply.body, KafkaData(msg.topic, msg.partition, msg.offset, msg.key, msg.value), now))
      && (!o.reply.ResumedTo? ==> HandsNothing(o.effects))
  {
    hide HandsOver, Coupled, AfterLookup, AfterRecord, Lookup, KafkaKey, Notify, NoDup, RawMap.Valid;
    var (s1, expired, hit) := Match(s, msg.topic, now, msg.extract);
    CoupledKeyed(s, b);
    CachedReplyNeverGiven(s, KafkaDelivery(now, msg));
    RemovalsAreRemoved(s, ScanFor(Listed(s.store), msg.topic, now, msg.extract).expired, ByMatchExpiry);
    assert forall eff :: eff in expired ==> eff.Removed?;
    hide Match;
    if hit.Some? {
      var e := hit.value;
      var data := KafkaData(msg.topic, msg.partition, msg.offset, msg.key, msg.value);
      var key := KafkaKey(msg.topic, msg.partition, msg.offset);
      var c := AfterLookup(s1.cache, key, now, s.ttlMs);
      var s4 := Notify(RemoveEntry(s1.(cache := c), e.correlationId, ByKafka).0, e.correlationId, ResumeOf(e, data, now)).0;
      MessageHands(s, b, msg.topic, now, msg.extract, c, AfterRecord(s4.cache, key, 200, BodyOf(e), now, s.maxEntries), ByKafka, data,
        DoKafka(s, now, msg).reply);
      hide RemoveEntry;
    }
  }

  lemma {:induction false} BridgeSweepHandsNothing(s: State, keys: seq<BridgeKey>, now: int, b: nat)
    ensures HandsNothing(BridgeSweep(s, keys, now, b).1)
    decreases |keys|
  {
    hide NoDup, RawMap.Valid;
    if keys != [] {
      var key := keys[0];
      if key.0 == b && key in s.callbacks.vals && CallbackExpired(s.callbacks.vals[key], now) {
        var (s1, first) := CloseCallback(s, key, ExpiredInBridge, ByBridgeExpiry);
        assert HandsNothing(first);
        hide CloseCallback;
        BridgeSweepHandsNothing(s1, keys[1..], now, b);
      } else {
        hide CloseCallback;
        BridgeSweepHandsNothing(s, keys[1..], now, b);
      }
    }
  }

  lemma OthersHandNothing(s: State, ev: Event)
    requires !ev.HttpResume? && !ev.WebhookCall? && !ev.KafkaDelivery?
    ensures HandsNothing(Step(s, ev).effects) && !Step(s, ev).reply.ResumedTo?
  {
    hide NoDup, RawMap.Valid, Register, Deregister, Added, Put, Filter, AfterCleanup, Swept, BridgeSweep;
    match ev
    case HttpCleanup(now) => SweepIsRemoved(Listed(s.store), now);
    case QueueSweep(now) => QueueSweepExpires(s.queued.keys, s.queued.vals, now);
    case BridgeCleanup(now, b) => BridgeSweepHandsNothing(s, s.callbacks.keys, now, b);
    case _ =>
  }

  /** Whatever resumes hands over its own data; what does not resume notifies nobody and delivers nothing. */
  lemma LetterExactly(s: State, b: Book, ev: Event)
    requires Coupled(s, b)
    ensures var o := Step(s, ev);
      && (o.reply.ResumedTo? ==> (ev.HttpResume? || ev.WebhookCall? || ev.KafkaDelivery?) && HandsOver(s, o, o.reply.body, Carried(ev), ev.now))
      && (!o.reply.ResumedTo? ==> HandsNothing(o.effects))
  {
    hide HandsOver, HandsNothing, Coupled, DoHttpResume, DoWebhook, DoKafka;
    match ev
    case HttpResume(now, id, data) =>
      HttpResumeHands(s, b, now, id, data);
      NothingHandsNothing();
    case WebhookCall(now, call) => WebhookHands(s, b, now, call);
    case KafkaDelivery(now, msg) => KafkaHands(s, b, now, msg);
    case _ => OthersHandNothing(s, ev);
  }

  lemma NothingHandsNothing()
    ensures HandsNothing([])
  {
  }

  /** A party is delivered a letter exactly by a step that resumes the id it waits for, and the letter is that step's own. */
  lemma DeliveredExactly(s: State, b: Book, ev: Event, w: Waiter, r: QueuedResume)
    requires Coupled(s, b)
    ensures var o := Step(s, ev);
      Delivered(w, r) in o.effects <==>
        && (ev.HttpResume? || ev.WebhookCall? || ev.KafkaDelivery?) && o.reply.ResumedTo?
        && w.id == o.reply.body.correlationId && Lives(w, s.callbacks.vals, s.polls) && w.id in s.store.vals
        && r == QueuedResume(Carried(ev), s.store.vals[w.id].executionId, s.store.vals[w.id].workflowId, ev.now)
  {
    LetterExactly(s, b, ev);
    LivesIsOpen(s, b, w);
    WaitersOwn(s, b, w);
    var o := Step(s, ev);
    hide Step, Coupled, Lives, Carried, NoDup, RawMap.Valid, Put, CountOf, WaitersOf;
    if o.reply.ResumedTo? {
      assert Delivered(w, r) in o.effects && Delivered(w, r).Delivered? <==>
        r == QueuedResume(Carried(ev), s.store.vals[o.reply.body.correlationId].executionId,
                          s.store.vals[o.reply.body.correlationId].workflowId, ev.now)
        && w in WaitersOf(s.waiters, o.reply.body.correlationId);
    } else {
      assert Delivered(w, r) in o.effects ==> !Delivered(w, r).Delivered?;
    }
  }

  lemma WaitersOwn(s: State, b: Book, w: Waiter)
    requires Coupled(s, b)
    ensures forall id :: w in WaitersOf(s.waiters, id) ==> id == w.id
  {
    hide NoDup, RawMap.Valid, PartiesMatch, TimersMatch;
  }

  lemma {:induction false} LastUnchanged(log: seq<Effect>, id: string, before: Option<QueuedResume>)
    requires CountOf(log, Notifications(id)) == 0
    ensures LastLetter(log, id, before) == before
  {
    if log != [] {
      LastUnchanged(log[1..], id, before);
    }
  }

  /**
   A resume that found nobody waiting reaches the next poll with its own data: over
   any run without bridge pauses, polls for the id, further resumes of it or a
   sweep that reaches back, the poll is answered at once with exactly that letter.
   */
  lemma PollIsHanded(s: State, b: Book, ev: Event, evs: seq<Event>)
    requires Coupled(s, b) && Exclusive(s) && WithoutBridgePause(evs)
    requires (ev.HttpResume? || ev.WebhookCall? || ev.KafkaDelivery?) && Step(s, ev).reply.ResumedTo?
    requires var o := Step(s, ev); var id := o.reply.body.correlationId;
      && WaitersOf(s.waiters, id) == []
      && CountOf(Run(o.s, evs).1, Notifications(id)) == 0
      && forall i :: 0 <= i < |evs| ==> WithinQueueTtl(evs[i], ev.now) && evs[i] != HttpWait(id)
    ensures var o := Step(s, ev); var body := o.reply.body;
      Step(Run(o.s, evs).0, HttpWait(body.correlationId)).reply
        == PollAnswer(QueuedResume(Carried(ev), body.executionId, body.workflowId, ev.now))
  {
    var o := Step(s, ev);
    var id, log := o.reply.body.correlationId, Run(o.s, evs).1;
    LetterExactly(s, b, ev);
    StepAudited(s, ev, b);
    ExclusiveExact(s, b, ev);
    hide Step, Run, Coupled, Exclusive, Carried, NoDup, RawMap.Valid, Audit;
    var r := QueuedResume(Carried(ev), o.reply.body.executionId, o.reply.body.workflowId, ev.now);
    PutLies(s.queued, id, r);
    assert o.s.queued == Put(s.queued, id, r);
    PollGetsLatest(o.s, Audit(b, o.effects).value, id, ev.now, evs);
    LastUnchanged(log, id, Some(r));
  }

  lemma PutLies(m: OrderedMap<string, QueuedResume>, id: string, r: QueuedResume)
    ensures id in Put(m, id, r).vals && Put(m, id, r).vals[id] == r
  {
  }
}
