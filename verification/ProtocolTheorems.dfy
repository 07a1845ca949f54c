/**
 What holds of every run of the pause/resume protocol from the empty server:
 conservation of pauses, settle-once promises and polls, consistency of the
 bridge, and which wake-ups can and cannot be lost.
 */
module ProtocolTheorems {
  import opened JsMap
  import opened Idempotency
  import opened CorrelationStore
  import opened CorrelationProtocol
  import opened Ledger
  import opened ProtocolRefinement
  import opened IdempotencyKeys
  import opened Wrappers

  ghost predicate Reachable(s: State, log: seq<Effect>) {
    exists ttlMs, maxEntries, evs :: Run(Init(ttlMs, maxEntries), evs) == (s, log)
  }

  /** A reachable state is coupled to the book its log adds up to. */
  lemma ReachableCoupled(s: State, log: seq<Effect>)
    requires Reachable(s, log)
    ensures Audit(Blank, log).Some? && Coupled(s, Audit(Blank, log).value)
  {
    var ttlMs, maxEntries, evs :| Run(Init(ttlMs, maxEntries), evs) == (s, log);
    InitCoupled(ttlMs, maxEntries);
    RunAudited(Init(ttlMs, maxEntries), evs, Blank);
  }

  // ---- Conservation ----

  function RemovalsBy(id: string, cause: Cause): Effect -> bool {
    (eff: Effect) => eff.Removed? && eff.e.correlationId == id && eff.cause == cause
  }

  lemma {:induction false} RemovalsByCause(log: seq<Effect>, id: string)
    ensures CountOf(log, Removals(id)) ==
      CountOf(log, RemovalsBy(id, ByResume)) + CountOf(log, RemovalsBy(id, ByWebhook)) + CountOf(log, RemovalsBy(id, ByKafka))
      + CountOf(log, RemovalsBy(id, ByDelete)) + CountOf(log, RemovalsBy(id, ByMatchExpiry)) + CountOf(log, RemovalsBy(id, BySweep))
      + CountOf(log, RemovalsBy(id, ByBridgeResume)) + CountOf(log, RemovalsBy(id, ByBridgeCancel))
      + CountOf(log, RemovalsBy(id, ByBridgeTimeout)) + CountOf(log, RemovalsBy(id, ByBridgeExpiry))
    ensures CountOf(log, ResumingRemovals(id)) ==
      CountOf(log, RemovalsBy(id, ByResume)) + CountOf(log, RemovalsBy(id, ByWebhook)) + CountOf(log, RemovalsBy(id, ByKafka))
  {
    if log != [] {
      RemovalsByCause(log[1..], id);
    }
  }

  /** Pauses of an id = removals of it by every cause, plus one if it is still paused; notifications = resuming removals. */
  lemma Conservation(s: State, log: seq<Effect>, id: string)
    requires Reachable(s, log)
    ensures CountOf(log, Pauses(id)) == CountOf(log, Removals(id)) + Bit(id in s.store.vals)
    ensures CountOf(log, Notifications(id)) == CountOf(log, ResumingRemovals(id)) <= CountOf(log, Pauses(id))
  {
    ReachableCoupled(s, log);
    PausesConserved(Blank, log, id);
    NotificationsPaid(Blank, log, id);
  }

  // ---- Promises, polls and waiter lists ----

  lemma {:induction false} OnceInNoDup<T>(s: seq<T>, x: T)
    requires NoDup(s) && x in s
    ensures multiset(s)[x] == 1
  {
    assert s == [s[0]] + s[1..];
    if s[0] == x {
      assert x !in s[1..];
    } else {
      OnceInNoDup(s[1..], x);
    }
  }

  /** No promise is settled twice and no poll answered twice, whatever comes first. */
  lemma SettleOnce(s: State, log: seq<Effect>, t: nat)
    requires Reachable(s, log)
    ensures CountOf(log, Endings(t)) <= 1 && CountOf(log, Openings(t)) <= 1
  {
    ReachableCoupled(s, log);
    hide Coupled;
    SettledOnce(Blank, log, t);
    AnswersAreEndings(log, t);
  }

  /** Registered under `w.id`, exactly once. */
  ghost predicate RegisteredOnce(s: State, w: Waiter) {
    w.id in s.waiters && multiset(s.waiters[w.id])[w] == 1
  }

  /** Opened, and not yet settled by anything in the log. */
  ghost predicate Unsettled(log: seq<Effect>, t: nat) {
    CountOf(log, Openings(t)) == 1 && CountOf(log, Endings(t)) == 0
  }

  /** An id is in a bridge's callbacks iff its waiter is registered, exactly once, iff its promise is unsettled. */
  lemma BridgeConsistency(s: State, log: seq<Effect>, b: nat, id: string, t: nat)
    requires Reachable(s, log)
    ensures var w, live := BridgeWaiter(b, id, t), (b, id) in s.callbacks.vals && s.callbacks.vals[(b, id)].token == t;
      && (live <==> w in WaitersOf(s.waiters, id))
      && (live ==> RegisteredOnce(s, w) && Unsettled(log, t))
      && (live && s.callbacks.vals[(b, id)].timed <==> t in s.timers && s.timers[t] == (b, id))
    ensures Unsettled(log, t) ==> exists w: Waiter :: w.token == t && RegisteredOnce(s, w) && Lives(w, s.callbacks.vals, s.polls)
  {
    ReachableCoupled(s, log);
    SettledOnce(Blank, log, t);
    var book := Audit(Blank, log).value;
    AnswersAreEndings(log, t);
    if t in book.open {
      var w := book.open[t];
      OnceInNoDup(s.waiters[w.id], w);
      assert RegisteredOnce(s, w);
    }
  }

  lemma {:induction false} AnswersAreEndings(log: seq<Effect>, t: nat)
    ensures CountOf(log, Answers(t)) <= CountOf(log, Endings(t))
  {
    if log != [] {
      AnswersAreEndings(log[1..], t);
    }
  }

  /** A poll is parked iff registered iff unsettled, and no waiter list is ever empty. */
  lemma PollConsistency(s: State, log: seq<Effect>, id: string, t: nat)
    requires Reachable(s, log)
    ensures forall i :: i in s.waiters ==> s.waiters[i] != []
    ensures var w, parked := PollWaiter(id, t), t in s.polls && s.polls[t] == id;
      && (parked <==> w in WaitersOf(s.waiters, id))
      && (parked ==> RegisteredOnce(s, w) && Unsettled(log, t))
  {
    ReachableCoupled(s, log);
    SettledOnce(Blank, log, t);
    var book := Audit(Blank, log).value;
    AnswersAreEndings(log, t);
    if t in book.open {
      OnceInNoDup(s.waiters[book.open[t].id], book.open[t]);
    }
  }

  // ---- Queued and parked at once ----

  /** No id has both a resume lying in the queue and a waiter parked for it. */
  ghost predicate Exclusive(s: State) {
    forall id :: id in s.waiters ==> id !in s.queued.vals
  }

  lemma ExclusiveIsSeparate(s: State, b: Book)
    requires Coupled(s, b)
    ensures Exclusive(s) <==> Separate(b)
  {
    forall id | Separate(b) && id in s.waiters ensures id !in s.queued.vals {
      var w := s.waiters[id][0];
      assert w in s.waiters[id] && b.open[w.token] == w;
    }
  }

  /** A bridge pausing an id whose resume already lies in the queue: the waiter never looks there. */
  predicate BlindPause(s: State, ev: Event) {
    && ev.BridgePause? && (ev.bridge, ev.req.correlationId) !in s.callbacks.vals
    && ev.req.correlationId in s.queued.vals
  }

  ghost predicate NoOpening(effects: seq<Effect>) {
    forall eff :: eff in effects ==> !eff.Opened?
  }

  lemma {:induction false} RemovalsOpenNothing(s: State, ids: seq<string>, cause: Cause)
    ensures NoOpening(RemoveEntries(s, ids, cause).1)
    decreases |ids|
  {
    if ids != [] {
      RemovalsOpenNothing(RemoveEntry(s, ids[0], cause).0, ids[1..], cause);
    }
  }

  lemma {:induction false} WakingOpensNothing(s: State, ws: seq<Waiter>, r: QueuedResume)
    ensures NoOpening(WakeAll(s, ws, r).1)
    decreases |ws|
  {
    if ws != [] {
      WakingOpensNothing(Wake(s, ws[0], r).0, ws[1..], r);
    }
  }

  lemma NotifyOpensNothing(s: State, id: string, r: QueuedResume)
    ensures NoOpening(Notify(s, id, r).1)
  {
    WakingOpensNothing(s.(waiters := s.waiters - {id}), WaitersOf(s.waiters, id), r);
  }

  lemma {:induction false} SweepsOpenNothing(listed: seq<Entry>, now: int)
    ensures NoOpening(SweepEffects(listed, now))
  {
    if listed != [] {
      SweepsOpenNothing(listed[1..], now);
    }
  }

  lemma {:induction false} QueueSweepsOpenNothing(ids: seq<string>, vals: map<string, QueuedResume>, now: int)
    ensures NoOpening(QueueEffects(ids, vals, now))
  {
    if ids != [] {
      QueueSweepsOpenNothing(ids[1..], vals, now);
    }
  }

  lemma {:induction false} BridgeSweepsOpenNothing(s: State, keys: seq<BridgeKey>, now: int, b: nat)
    ensures NoOpening(BridgeSweep(s, keys, now, b).1)
    decreases |keys|
  {
    if keys != [] {
      var key := keys[0];
      var s1 := if key.0 == b && key in s.callbacks.vals && CallbackExpired(s.callbacks.vals[key], now)
                then CloseCallback(s, key, ExpiredInBridge, ByBridgeExpiry).0 else s;
      BridgeSweepsOpenNothing(s1, keys[1..], now, b);
    }
  }

  lemma MatchOpensNothing(s: State, path: string, now: int, extract: Entry -> Option<string>)
    ensures NoOpening(Match(s, path, now, extract).1)
  {
    RemovalsOpenNothing(s, ScanFor(Listed(s.store), path, now, extract).expired, ByMatchExpiry);
  }

  lemma NoOpeningConcat(first: seq<Effect>, rest: seq<Effect>)
    requires NoOpening(first) && NoOpening(rest)
    ensures NoOpening(first + rest)
  {
  }

  /** What both message handlers do once they resume. */
  lemma MessageOpensNothing(s: State, expired: seq<Effect>, e: Entry, cause: Cause, r: QueuedResume)
    requires NoOpening(expired)
    ensures var (s1, removed) := RemoveEntry(s, e.correlationId, cause);
      NoOpening(expired + removed + Notify(s1, e.correlationId, r).1)
  {
    var (s1, removed) := RemoveEntry(s, e.correlationId, cause);
    NotifyOpensNothing(s1, e.correlationId, r);
    NoOpeningConcat(expired, removed);
    NoOpeningConcat(expired + removed, Notify(s1, e.correlationId, r).1);
  }

  lemma WebhookOpensNothing(s: State, now: int, call: WebhookRequest)
    ensures NoOpening(DoWebhook(s, now, call).effects)
  {
    hide NoOpening;
    NoEffects();
    var (s1, expired, hit) := Match(s, call.path, now, call.extract);
    MatchOpensNothing(s, call.path, now, call.extract);
    if hit.Some? {
      var e := hit.value;
      var key := WebhookKey(e.correlationId, call.path, call.idempotencyHeader, call.requestId);
      MessageOpensNothing(s1.(cache := AfterLookup(s1.cache, key, now, s.ttlMs)), expired, e, ByWebhook, ResumeOf(e, call.body, now));
    }
  }

  lemma NoEffects()
    ensures NoOpening([])
  {
  }

  lemma KafkaOpensNothing(s: State, now: int, msg: KafkaMessage)
    ensures NoOpening(DoKafka(s, now, msg).effects)
  {
    hide NoOpening;
    var (s1, expired, hit) := Match(s, msg.topic, now, msg.extract);
    MatchOpensNothing(s, msg.topic, now, msg.extract);
    if hit.Some? {
      var e := hit.value;
      var key := KafkaKey(msg.topic, msg.partition, msg.offset);
      MessageOpensNothing(s1.(cache := AfterLookup(s1.cache, key, now, s.ttlMs)), expired, e, ByKafka,
                          ResumeOf(e, KafkaData(msg.topic, msg.partition, msg.offset, msg.key, msg.value), now));
    }
  }

  lemma HttpResumeOpensNothing(s: State, now: int, id: string, data: Payload)
    ensures NoOpening(DoHttpResume(s, now, id, data).effects)
  {
    if id in s.store.vals {
      NotifyOpensNothing(RemoveEntry(s, id, ByResume).0, id, ResumeOf(s.store.vals[id], data, now));
    }
  }

  /** Only a long poll and a bridge pause open anything. */
  lemma OnlyWaitsOpen(s: State, ev: Event)
    requires !ev.HttpWait? && !ev.BridgePause?
    ensures NoOpening(Step(s, ev).effects)
  {
    match ev
    case HttpResume(now, id, data) => HttpResumeOpensNothing(s, now, id, data);
    case WebhookCall(now, call) => WebhookOpensNothing(s, now, call);
    case KafkaDelivery(now, msg) => KafkaOpensNothing(s, now, msg);
    case HttpCleanup(now) => SweepsOpenNothing(Listed(s.store), now);
    case QueueSweep(now) => QueueSweepsOpenNothing(s.queued.keys, s.queued.vals, now);
    case BridgeCleanup(now, b) => BridgeSweepsOpenNothing(s, s.callbacks.keys, now, b);
    case _ =>
  }

  lemma {:induction false} NoOpeningNotBlind(b: Book, log: seq<Effect>)
    requires Audit(b, log).Some? && NoOpening(log)
    ensures NoBlindOpening(b, log)
    decreases |log|
  {
    if log != [] {
      assert log[0] in log && NoOpening(log[1..]);
      NoOpeningNotBlind(Enter(b, log[0]), log[1..]);
    }
  }

  /** From an exclusive state, a step's openings are blind, and exclusivity lost, exactly on a blind pause. */
  lemma ExclusiveExact(s: State, b: Book, ev: Event)
    requires Coupled(s, b) && Exclusive(s)
    ensures Exclusive(Step(s, ev).s) <==> !BlindPause(s, ev)
    ensures !BlindPause(s, ev) ==> Audit(b, Step(s, ev).effects).Some? && NoBlindOpening(b, Step(s, ev).effects)
  {
    var o := Step(s, ev);
    StepAudited(s, ev, b);
    ExclusiveIsSeparate(s, b);
    if BlindPause(s, ev) {
      var id := ev.req.correlationId;
      assert id in o.s.waiters && id in o.s.queued.vals;
    } else {
      if ev.HttpWait? || ev.BridgePause? {
        OpeningsNotBlind(s, b, ev);
      } else {
        OnlyWaitsOpen(s, ev);
        NoOpeningNotBlind(b, o.effects);
      }
      MailIsLatest(b, o.effects, "", if "" in b.mail then Some(b.mail[""]) else None);
      ExclusiveIsSeparate(o.s, Audit(b, o.effects).value);
    }
  }

  lemma OpeningsNotBlind(s: State, b: Book, ev: Event)
    requires Coupled(s, b) && (ev.HttpWait? || ev.BridgePause?) && !BlindPause(s, ev)
    ensures NoBlindOpening(b, Step(s, ev).effects)
  {
    hide NoDup, RawMap.Valid;
    var effects := Step(s, ev).effects;
    MailIsQueue(s, b);
    hide Coupled, Added, Register, Put;
    if ev.BridgePause? && |effects| == 2 {
      PauseThenOpen(b, effects[0], effects[1]);
      assert effects == [effects[0], effects[1]];
    } else if |effects| == 1 {
      assert effects[1..] == [];
    }
  }

  lemma MailIsQueue(s: State, b: Book)
    requires Coupled(s, b)
    ensures forall id :: id in b.mail <==> id in s.queued.vals
  {
    hide NoDup, RawMap.Valid;
  }

  lemma PauseThenOpen(b: Book, pause: Effect, opening: Effect)
    requires pause.Paused? && opening.Opened?
    ensures NoBlindOpening(b, [pause, opening]) <==> !BlindOpening(b, opening)
  {
    assert [pause, opening][1..] == [opening] && [opening][1..] == [];
    assert NoBlindOpening(Enter(b, pause), [opening]) <==> !BlindOpening(Enter(b, pause), opening);
  }

  ghost predicate WithoutBridgePause(evs: seq<Event>) {
    forall i :: 0 <= i < |evs| ==> !evs[i].BridgePause?
  }

  /** Runs of long polls only: never queued and parked at once, and what lies in the queue is the latest notification. */
  lemma {:induction false} PollRunsStayExclusive(s: State, b: Book, evs: seq<Event>, id: string, before: Option<QueuedResume>)
    requires Coupled(s, b) && Exclusive(s) && WithoutBridgePause(evs)
    requires id in s.queued.vals ==> before == Some(s.queued.vals[id])
    ensures var (s1, log) := Run(s, evs);
      && Exclusive(s1)
      && (id in s1.queued.vals ==> LastLetter(log, id, before) == Some(s1.queued.vals[id]))
    decreases |evs|
  {
    if evs != [] {
      var ev, o := evs[0], Step(s, evs[0]);
      ExclusiveExact(s, b, ev);
      ExclusiveIsSeparate(s, b);
      StepAudited(s, ev, b);
      MailIsLatest(b, o.effects, id, before);
      var c := Audit(b, o.effects).value;
      var mid := LastLetter(o.effects, id, before);
      PollRunsStayExclusive(o.s, c, evs[1..], id, mid);
      LastLetterConcat(o.effects, Run(o.s, evs[1..]).1, id, before);
    }
  }

  lemma {:induction false} LastLetterConcat(first: seq<Effect>, rest: seq<Effect>, id: string, before: Option<QueuedResume>)
    ensures LastLetter(first + rest, id, before) == LastLetter(rest, id, LastLetter(first, id, before))
    decreases |first|
  {
    if first == [] {
      assert first + rest == rest;
    } else {
      assert (first + rest)[1..] == first[1..] + rest;
      LastLetterConcat(first[1..], rest, id, if Notifications(id)(first[0]) then Some(first[0].r) else before);
    }
  }
}
