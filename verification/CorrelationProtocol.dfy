/**
 The pause/resume protocol as a state machine: the module maps of
 `correlation-handler.ts`, the callbacks and timers of every
 `ServerCorrelationBridge`, and the idempotency cache. Each handler, timer
 firing and sweep is one atomic step that also returns what it did to the
 outside as a list of effects.
 */
module CorrelationProtocol {
  import opened JsMap
  import opened Idempotency
  import opened CorrelationStore
  import opened IdempotencyKeys
  import WebhookFilter
  import opened Wrappers

  const RESUME_QUEUE_TTL_MS: int := 5 * 60 * 1000

  datatype Payload =
    | HttpData(text: string)
    | KafkaData(topic: string, partition: int, offset: string, key: string, value: string)

  datatype QueuedResume = QueuedResume(webhookData: Payload, executionId: string, workflowId: string, ts: int)

  /** A registered waiter closure; `token` is the identity of its promise or parked request. */
  datatype Waiter =
    | BridgeWaiter(bridge: nat, id: string, token: nat)
    | PollWaiter(id: string, token: nat)

  /** One bridge's callback for one correlation id; `timed` says that it holds a timer handle. */
  datatype Callback = Callback(token: nat, timed: bool, timeoutAt: int)

  type BridgeKey = (nat, string)

  datatype Body = Body(correlationId: string, executionId: string, workflowId: string)

  datatype State = State(
    store: Entries,
    queued: OrderedMap<string, QueuedResume>,
    waiters: map<string, seq<Waiter>>,
    callbacks: OrderedMap<BridgeKey, Callback>,
    timers: map<nat, BridgeKey>,
    polls: map<nat, string>,
    cache: Cache<Body>,
    ttlMs: int,
    maxEntries: nat,
    next: nat)

  function Init(ttlMs: int, maxEntries: nat): State {
    State(Empty(), Empty(), map[], Empty(), map[], map[], Empty(), ttlMs, maxEntries, 0)
  }

  datatype Cause =
    | ByResume | ByWebhook | ByKafka | ByDelete | ByMatchExpiry | BySweep
    | ByBridgeResume | ByBridgeCancel | ByBridgeTimeout | ByBridgeExpiry

  /** Removals that owe the waiting side a notification. */
  predicate Resuming(c: Cause) {
    c.ByResume? || c.ByWebhook? || c.ByKafka?
  }

  datatype How = ResumedLocally(data: Payload) | Cancelled | TimedOut | ExpiredInBridge | Disconnected

  datatype Effect =
    | Paused(e: Entry)
    | Removed(e: Entry, cause: Cause)
    | Notified(id: string, r: QueuedResume)
    | Opened(w: Waiter)
    | Delivered(w: Waiter, r: QueuedResume)
    | Settled(w: Waiter, how: How)
    | Refused(token: nat)
    | Claimed(token: nat, id: string, r: QueuedResume)
    | QueueExpired(id: string, r: QueuedResume, now: int)

  datatype PauseRequest = PauseRequest(
    correlationId: string, webhookPath: string, executionId: string, workflowId: Option<string>,
    pausedNodeId: Option<string>, timeoutMs: int, webhookFilter: Option<string>,
    correlationSource: Option<string>, correlationJsonPath: Option<string>,
    correlationHeader: Option<string>, correlationQueryParam: Option<string>)

  /**
   A webhook call: `extract` is the id found in it per entry configuration,
   `atom` the truth of a single filter comparison under its body, `admitted`
   and `tokenOk` the verdicts of the security checks; `possibleId` is only logged.
   */
  datatype WebhookRequest = WebhookRequest(
    path: string, extract: Entry -> Option<string>, atom: string -> bool, admitted: bool, tokenOk: bool,
    idempotencyHeader: Option<string>, requestId: Option<string>, possibleId: Option<string>, body: Payload)

  datatype KafkaMessage = KafkaMessage(
    topic: string, partition: int, offset: string, extract: Entry -> Option<string>, key: string, value: string)

  datatype Event =
    | HttpPause(now: int, req: PauseRequest)
    | HttpResume(now: int, id: string, data: Payload)
    | HttpWait(id: string)
    | PollTimeout(token: nat)
    | PollClose(token: nat)
    | HttpDelete(id: string)
    | HttpCleanup(now: int)
    | QueueSweep(now: int)
    | WebhookCall(now: int, call: WebhookRequest)
    | KafkaDelivery(now: int, msg: KafkaMessage)
    | BridgePause(now: int, bridge: nat, req: PauseRequest)
    | BridgeResume(bridge: nat, id: string, data: Payload)
    | BridgeCancel(bridge: nat, id: string)
    | BridgeTimer(token: nat)
    | BridgeCleanup(now: int, bridge: nat)

  datatype Reply =
    | NoReply | BadRequest | Conflict | NotFound | NotResumed | Forbidden | TokenRejected | FilterRejected | FilterOverflow
    | PausedUntil(timeoutAt: int) | ResumedTo(body: Body) | Parked(token: nat) | PollAnswer(r: QueuedResume)
    | Cancelling | Cleaned(entries: nat, records: nat) | NoMatch | CachedReply(status: int, body: Body) | Duplicate(id: string)
    | Pending(token: nat) | Rejected(token: nat) | Did(yes: bool) | Count(n: nat)

  datatype Outcome = Outcome(s: State, effects: seq<Effect>, reply: Reply)

  // ---- Store, queue and waiter lists ----

  function RemoveEntry(s: State, id: string, cause: Cause): (State, seq<Effect>) {
    if id in s.store.vals then (s.(store := Delete(s.store, id)), [Removed(s.store.vals[id], cause)]) else (s, [])
  }

  function RemoveEntries(s: State, ids: seq<string>, cause: Cause): (State, seq<Effect>)
    decreases |ids|
  {
    if ids == [] then (s, [])
    else
      var (s1, first) := RemoveEntry(s, ids[0], cause);
      var (s2, rest) := RemoveEntries(s1, ids[1..], cause);
      (s2, first + rest)
  }

  function WaitersOf(waiters: map<string, seq<Waiter>>, id: string): seq<Waiter> {
    if id in waiters then waiters[id] else []
  }

  function Register(waiters: map<string, seq<Waiter>>, w: Waiter): map<string, seq<Waiter>> {
    waiters[w.id := WaitersOf(waiters, w.id) + [w]]
  }

  function Deregister(waiters: map<string, seq<Waiter>>, w: Waiter): map<string, seq<Waiter>> {
    if w.id !in waiters then waiters
    else
      var left := RemoveFirst(waiters[w.id], w);
      if left == [] then waiters - {w.id} else waiters[w.id := left]
  }

  /** A waiter closure called with `r`: it looks its bridge's callback up by id, or checks its own settled flag. */
  function Wake(s: State, w: Waiter, r: QueuedResume): (State, seq<Effect>) {
    match w
    case BridgeWaiter(b, id, _) =>
      if (b, id) !in s.callbacks.vals then (s, [])
      else
        var cb := s.callbacks.vals[(b, id)];
        (s.(timers := if cb.timed then s.timers - {cb.token} else s.timers,
            callbacks := Delete(s.callbacks, (b, id))), [Delivered(w, r)])
    case PollWaiter(_, t) =>
      if t !in s.polls then (s, []) else (s.(polls := s.polls - {t}), [Delivered(w, r)])
  }

  function WakeAll(s: State, ws: seq<Waiter>, r: QueuedResume): (State, seq<Effect>)
    decreases |ws|
  {
    if ws == [] then (s, [])
    else
      var (s1, first) := Wake(s, ws[0], r);
      var (s2, rest) := WakeAll(s1, ws[1..], r);
      (s2, first + rest)
  }

  function Notify(s: State, id: string, r: QueuedResume): (State, seq<Effect>) {
    var ws := WaitersOf(s.waiters, id);
    if ws != [] then
      var (s1, woken) := WakeAll(s.(waiters := s.waiters - {id}), ws, r);
      (s1, [Notified(id, r)] + woken)
    else
      (s.(queued := Put(s.queued, id, r)), [Notified(id, r)])
  }

  // ---- Matching ----

  datatype Scan = Scan(expired: seq<string>, hit: Option<Entry>)

  /** Matching expires strictly after `timeoutAt`, unlike the sweeps. */
  predicate PastTimeout(e: Entry, now: int) {
    e.timeoutAt > 0 && now > e.timeoutAt
  }

  predicate Names(e: Entry, extract: Entry -> Option<string>) {
    extract(e) == Some(e.correlationId) && e.correlationId != ""
  }

  /** One pass over the listed entries: which to expire, and the first match, where the pass stops. */
  function ScanFor(listed: seq<Entry>, path: string, now: int, extract: Entry -> Option<string>): Scan {
    if listed == [] then Scan([], None)
    else
      var e := listed[0];
      if e.webhookPath != path then ScanFor(listed[1..], path, now, extract)
      else if PastTimeout(e, now) then
        var rest := ScanFor(listed[1..], path, now, extract);
        rest.(expired := [e.correlationId] + rest.expired)
      else if Names(e, extract) then Scan([], Some(e))
      else ScanFor(listed[1..], path, now, extract)
  }

  function Listed(m: Entries): seq<Entry> {
    seq(|m.keys|, i requires 0 <= i < |m.keys| => assert m.keys[i] in m.keys; m.vals[m.keys[i]])
  }

  function Match(s: State, path: string, now: int, extract: Entry -> Option<string>): (State, seq<Effect>, Option<Entry>) {
    var scan := ScanFor(Listed(s.store), path, now, extract);
    var (s1, effects) := RemoveEntries(s, scan.expired, ByMatchExpiry);
    (s1, effects, scan.hit)
  }

  // ---- Handlers ----

  function NewEntry(req: PauseRequest, now: int): Entry {
    Entry(req.correlationId, req.webhookPath, req.executionId, req.workflowId.GetOr("unknown"),
          req.pausedNodeId.GetOr("unknown"), now, if req.timeoutMs > 0 then now + req.timeoutMs else 0, req.webhookFilter,
          req.correlationSource.GetOr("body"), req.correlationJsonPath, req.correlationHeader, req.correlationQueryParam)
  }

  function DoHttpPause(s: State, now: int, req: PauseRequest): Outcome {
    var e := NewEntry(req, now);
    if req.correlationId == "" || req.webhookPath == "" || req.executionId == "" then Outcome(s, [], BadRequest)
    else if e.correlationId in s.store.vals then Outcome(s, [], Conflict)
    else Outcome(s.(store := Added(s.store, e)), [Paused(e)], PausedUntil(e.timeoutAt))
  }

  /** What the notification carries: the entry's execution and workflow, the caller's data. */
  function ResumeOf(e: Entry, data: Payload, now: int): QueuedResume {
    QueuedResume(data, e.executionId, e.workflowId, now)
  }

  function BodyOf(e: Entry): Body {
    Body(e.correlationId, e.executionId, e.workflowId)
  }

  function DoHttpResume(s: State, now: int, id: string, data: Payload): Outcome {
    if id == "" then Outcome(s, [], BadRequest)
    else if id !in s.store.vals then Outcome(s, [], NotResumed)
    else
      var e := s.store.vals[id];
      var (s1, removed) := RemoveEntry(s, id, ByResume);
      var (s2, notified) := Notify(s1, id, ResumeOf(e, data, now));
      Outcome(s2, removed + notified, ResumedTo(Body(id, e.executionId, e.workflowId)))
  }

  function DoHttpWait(s: State, id: string): Outcome {
    var t := s.next;
    if id in s.queued.vals then
      var r := s.queued.vals[id];
      Outcome(s.(queued := Delete(s.queued, id), next := t + 1), [Claimed(t, id, r)], PollAnswer(r))
    else
      var w := PollWaiter(id, t);
      Outcome(s.(waiters := Register(s.waiters, w), polls := s.polls[t := id], next := t + 1), [Opened(w)], Parked(t))
  }

  /** The poll's own timer, and its connection closing: both are ignored once it is settled. */
  function DoPollEnds(s: State, t: nat, how: How): Outcome {
    if t !in s.polls then Outcome(s, [], NoReply)
    else
      var w := PollWaiter(s.polls[t], t);
      Outcome(s.(waiters := Deregister(s.waiters, w), polls := s.polls - {t}), [Settled(w, how)], NoReply)
  }

  function DoHttpDelete(s: State, id: string): Outcome {
    if id !in s.store.vals then Outcome(s, [], NotFound)
    else
      var (s1, removed) := RemoveEntry(s, id, ByDelete);
      Outcome(s1, removed, Cancelling)
  }

  /** The removals a store sweep makes, in listing order. */
  function SweepEffects(listed: seq<Entry>, now: int): seq<Effect> {
    if listed == [] then []
    else (if Expired(listed[0], now) then [Removed(listed[0], BySweep)] else []) + SweepEffects(listed[1..], now)
  }

  function DoHttpCleanup(s: State, now: int): Outcome {
    var s1 := s.(store := Swept(s.store, now), cache := AfterCleanup(s.cache, now, s.ttlMs));
    FilterLength(s.store.keys, k => k in s.store.vals && !Expired(s.store.vals[k], now));
    FilterLength(s.cache.keys, k => k in s.cache.vals && !Stale(s.cache.vals[k], now, s.ttlMs));
    Outcome(s1, SweepEffects(Listed(s.store), now),
            Cleaned(|s.store.keys| - |s1.store.keys|, |s.cache.keys| - |s1.cache.keys|))
  }

  predicate QueueStale(r: QueuedResume, now: int) {
    now - r.ts > RESUME_QUEUE_TTL_MS
  }

  function QueueEffects(ids: seq<string>, vals: map<string, QueuedResume>, now: int): seq<Effect> {
    if ids == [] then []
    else (if ids[0] in vals && QueueStale(vals[ids[0]], now) then [QueueExpired(ids[0], vals[ids[0]], now)] else [])
         + QueueEffects(ids[1..], vals, now)
  }

  function StillFresh(m: OrderedMap<string, QueuedResume>, now: int): string -> bool {
    (id: string) => id in m.vals && !QueueStale(m.vals[id], now)
  }

  function DoQueueSweep(s: State, now: int): Outcome {
    Outcome(s.(queued := Restrict(s.queued, StillFresh(s.queued, now))), QueueEffects(s.queued.keys, s.queued.vals, now), NoReply)
  }

  function FilterVerdict(e: Entry, atom: string -> bool): WebhookFilter.Verdict {
    if e.webhookFilter.Some? && e.webhookFilter.value != "" then WebhookFilter.Evaluate(e.webhookFilter.value, atom)
    else WebhookFilter.Valid
  }

  function DoWebhook(s: State, now: int, call: WebhookRequest): Outcome {
    if !call.admitted then Outcome(s, [], Forbidden)
    else
      var (s1, expired, hit) := Match(s, call.path, now, call.extract);
      if hit.None? then Outcome(s1, expired, NoMatch)
      else if !call.tokenOk then Outcome(s1, expired, TokenRejected)
      else
        var e := hit.value;
        var key := WebhookKey(e.correlationId, call.path, call.idempotencyHeader, call.requestId);
        var cached := Lookup(s1.cache, key, now, s.ttlMs);
        var s2 := s1.(cache := AfterLookup(s1.cache, key, now, s.ttlMs));
        if cached.Some? && e.correlationId !in s2.store.vals then Outcome(s2, expired, CachedReply(cached.value.statusCode, cached.value.body))
        else
          match FilterVerdict(e, call.atom)
          case Invalid => Outcome(s2, expired, FilterRejected)
          case Diverges => Outcome(s2, expired, FilterOverflow)
          case Valid =>
            var (s3, removed) := RemoveEntry(s2, e.correlationId, ByWebhook);
            var (s4, notified) := Notify(s3, e.correlationId, ResumeOf(e, call.body, now));
            Outcome(s4.(cache := AfterRecord(s4.cache, key, 200, BodyOf(e), now, s.maxEntries)),
                    expired + removed + notified, ResumedTo(BodyOf(e)))
  }

  function DoKafka(s: State, now: int, msg: KafkaMessage): Outcome {
    var key := KafkaKey(msg.topic, msg.partition, msg.offset);
    var (s1, expired, hit) := Match(s, msg.topic, now, msg.extract);
    var cached := Lookup(s1.cache, key, now, s.ttlMs);
    var s2 := s1.(cache := AfterLookup(s1.cache, key, now, s.ttlMs));
    if hit.None? then Outcome(s2, expired, if cached.Some? then Duplicate(cached.value.body.correlationId) else NoMatch)
    else
      var e := hit.value;
      if cached.Some? && e.correlationId !in s2.store.vals then Outcome(s2, expired, Duplicate(e.correlationId))
      else
        var data := KafkaData(msg.topic, msg.partition, msg.offset, msg.key, msg.value);
        var (s3, removed) := RemoveEntry(s2, e.correlationId, ByKafka);
        var (s4, notified) := Notify(s3, e.correlationId, ResumeOf(e, data, now));
        Outcome(s4.(cache := AfterRecord(s4.cache, key, 200, BodyOf(e), now, s.maxEntries)),
                expired + removed + notified, ResumedTo(BodyOf(e)))
  }

  // ---- The bridge ----

  function DoBridgePause(s: State, now: int, b: nat, req: PauseRequest): Outcome {
    var id, t := req.correlationId, s.next;
    if (b, id) in s.callbacks.vals then Outcome(s.(next := t + 1), [Refused(t)], Rejected(t))
    else
      var e := NewEntry(req, now);
      var w := BridgeWaiter(b, id, t);
      var timed := req.timeoutMs > 0;
      Outcome(s.(store := Added(s.store, e),
                 waiters := Register(s.waiters, w),
                 callbacks := Put(s.callbacks, (b, id), Callback(t, timed, e.timeoutAt)),
                 timers := if timed then s.timers[t := (b, id)] else s.timers,
                 next := t + 1),
              (if id in s.store.vals then [] else [Paused(e)]) + [Opened(w)], Pending(t))
  }

  /** Resume, cancel and expiry inside a bridge: timer, waiter, store entry and callback all go. */
  function CloseCallback(s: State, key: BridgeKey, how: How, cause: Cause): (r: (State, seq<Effect>))
    requires key in s.callbacks.vals
    ensures |r.0.callbacks.keys| == |s.callbacks.keys| - 1
  {
    RemoveFirstLength(s.callbacks.keys, key);
    var cb := s.callbacks.vals[key];
    var w := BridgeWaiter(key.0, key.1, cb.token);
    var (s1, removed) := RemoveEntry(s, key.1, cause);
    (s1.(timers := if cb.timed then s.timers - {cb.token} else s.timers,
         waiters := Deregister(s.waiters, w),
         callbacks := Delete(s.callbacks, key)), removed + [Settled(w, how)])
  }

  function DoBridgeClose(s: State, key: BridgeKey, how: How, cause: Cause): Outcome {
    if key !in s.callbacks.vals then Outcome(s, [], Did(false))
    else
      var (s1, effects) := CloseCallback(s, key, how, cause);
      Outcome(s1, effects, Did(true))
  }

  /** An armed timer fires: it checks that its id still has a callback, then closes with its own waiter. */
  function DoBridgeTimer(s: State, t: nat): Outcome {
    if t !in s.timers then Outcome(s, [], NoReply)
    else
      var key, w := s.timers[t], BridgeWaiter(s.timers[t].0, s.timers[t].1, t);
      var s0 := s.(timers := s.timers - {t});
      if key !in s.callbacks.vals then Outcome(s0, [], NoReply)
      else
        var (s1, removed) := RemoveEntry(s0, key.1, ByBridgeTimeout);
        Outcome(s1.(waiters := Deregister(s.waiters, w), callbacks := Delete(s.callbacks, key)),
                removed + [Settled(w, TimedOut)], NoReply)
  }

  predicate CallbackExpired(cb: Callback, now: int) {
    cb.timeoutAt > 0 && cb.timeoutAt <= now
  }

  function BridgeSweep(s: State, keys: seq<BridgeKey>, now: int, b: nat): (r: (State, seq<Effect>))
    ensures |r.0.callbacks.keys| <= |s.callbacks.keys|
    decreases |keys|
  {
    if keys == [] then (s, [])
    else
      var key := keys[0];
      var (s1, first) := if key.0 == b && key in s.callbacks.vals && CallbackExpired(s.callbacks.vals[key], now)
                         then CloseCallback(s, key, ExpiredInBridge, ByBridgeExpiry) else (s, []);
      var (s2, rest) := BridgeSweep(s1, keys[1..], now, b);
      (s2, first + rest)
  }

  function DoBridgeCleanup(s: State, now: int, b: nat): Outcome {
    var (s1, effects) := BridgeSweep(s, s.callbacks.keys, now, b);
    Outcome(s1, effects, Count(|s.callbacks.keys| - |s1.callbacks.keys|))
  }

  // ---- Steps and runs ----

  function Step(s: State, ev: Event): Outcome {
    match ev
    case HttpPause(now, req) => DoHttpPause(s, now, req)
    case HttpResume(now, id, data) => DoHttpResume(s, now, id, data)
    case HttpWait(id) => DoHttpWait(s, id)
    case PollTimeout(t) => DoPollEnds(s, t, TimedOut)
    case PollClose(t) => DoPollEnds(s, t, Disconnected)
    case HttpDelete(id) => DoHttpDelete(s, id)
    case HttpCleanup(now) => DoHttpCleanup(s, now)
    case QueueSweep(now) => DoQueueSweep(s, now)
    case WebhookCall(now, call) => DoWebhook(s, now, call)
    case KafkaDelivery(now, msg) => DoKafka(s, now, msg)
    case BridgePause(now, b, req) => DoBridgePause(s, now, b, req)
    case BridgeResume(b, id, data) => DoBridgeClose(s, (b, id), ResumedLocally(data), ByBridgeResume)
    case BridgeCancel(b, id) => DoBridgeClose(s, (b, id), Cancelled, ByBridgeCancel)
    case BridgeTimer(t) => DoBridgeTimer(s, t)
    case BridgeCleanup(now, b) => DoBridgeCleanup(s, now, b)
  }

  /** The state after a run, and everything it did. */
  function Run(s: State, evs: seq<Event>): (State, seq<Effect>)
    decreases |evs|
  {
    if evs == [] then (s, [])
    else
      var o := Step(s, evs[0]);
      var (s1, rest) := Run(o.s, evs[1..]);
      (s1, o.effects + rest)
  }
}
