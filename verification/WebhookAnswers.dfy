/**
 What a webhook call and a Kafka message are answered, told from the first paused
 entry that matches, its filter and the verdicts of the security checks.
 */
module WebhookAnswers {
  import opened JsMap
  import opened Idempotency
  import opened CorrelationStore
  import opened IdempotencyKeys
  import opened CorrelationProtocol
  import opened Matching
  import opened ProtocolRefinement
  import opened StepEffects
  import opened WebhookFilter
  import opened Wrappers

  /** The match is the first entry, in insertion order, that matches. */
  lemma HitIsFirst(s: State, path: string, now: int, extract: Entry -> Option<string>, i: nat)
    requires KeyedById(s.store) && FirstMatch(Listed(s.store), path, now, extract, i)
    ensures Match(s, path, now, extract).2 == Some(Listed(s.store)[i])
  {
    MatchMeaning(s, path, now, extract);
    hide NoDup, RawMap.Valid, Listed, Matches, KeyedById, DeletedUpTo, Dead;
    var listed, hit := Listed(s.store), Match(s, path, now, extract).2;
    hide Match;
    assert listed[i] in listed;
    var j :| FirstMatch(listed, path, now, extract, j) && hit.value == listed[j];
    assert i == j;
  }

  /** The filter lets the call through: there is none, or it evaluates to valid under the call's body. */
  predicate Passes(e: Entry, atom: string -> bool) {
    e.webhookFilter == None || e.webhookFilter == Some("") || Evaluate(e.webhookFilter.value, atom) == Valid
  }

  /** The filter is there and gives verdict `v`. */
  predicate Judged(e: Entry, atom: string -> bool, v: Verdict) {
    e.webhookFilter.Some? && e.webhookFilter.value != "" && Evaluate(e.webhookFilter.value, atom) == v
  }

  lemma NoRemovalBy(effects: seq<Effect>, e: Entry, cause: Cause)
    requires forall eff :: eff in effects ==> !eff.Removed? || eff.cause != cause
    ensures Removed(e, cause) !in effects
  {
  }

  lemma NotifyRemovesNone(s: State, id: string, r: QueuedResume)
    ensures forall eff :: eff in Notify(s, id, r).1 ==> !eff.Removed?
  {
    hide NoDup, RawMap.Valid;
    WakesAreDelivered(s.(waiters := s.waiters - {id}), WaitersOf(s.waiters, id), r);
  }

  /** After a match: what the call may end in. */
  lemma MatchedAnswer(s: State, now: int, call: WebhookRequest, e: Entry)
    requires KeyedById(s.store) && call.admitted && Match(s, call.path, now, call.extract).2 == Some(e)
    ensures var o := DoWebhook(s, now, call);
      && (o.reply == TokenRejected <==> !call.tokenOk)
      && (call.tokenOk ==>
            && (o.reply.ResumedTo? <==> Passes(e, call.atom))
            && (o.reply == FilterRejected <==> Judged(e, call.atom, Invalid))
            && (o.reply == FilterOverflow <==> Judged(e, call.atom, Diverges)))
      && (o.reply.ResumedTo? ==> o.reply.body == Body(e.correlationId, e.executionId, e.workflowId))
      && (!o.reply.ResumedTo? ==>
            && o.effects == Match(s, call.path, now, call.extract).1
            && o.s.store == Match(s, call.path, now, call.extract).0.store)
  {
    MatchMeaning(s, call.path, now, call.extract);
    hide NoDup, RawMap.Valid, KeyedById, Match, Evaluate, AfterLookup, AfterRecord, Lookup, WebhookKey, Notify, RemoveEntry;
  }

  /**
   The whole answer to a webhook call with a match: 401 iff its token is bad;
   otherwise resumed iff the entry has no filter or the filter holds of the body,
   422 iff it does not, and a crash iff evaluating it never ends. The entry is
   removed iff it is resumed.
   */
  lemma WebhookAnswer(s: State, now: int, call: WebhookRequest, i: nat)
    requires KeyedById(s.store) && call.admitted && FirstMatch(Listed(s.store), call.path, now, call.extract, i)
    ensures var e, o := Listed(s.store)[i], Step(s, WebhookCall(now, call));
      && (o.reply == TokenRejected <==> !call.tokenOk)
      && (o.reply.ResumedTo? <==> call.tokenOk && Passes(e, call.atom))
      && (o.reply == FilterRejected <==> call.tokenOk && Judged(e, call.atom, Invalid))
      && (o.reply == FilterOverflow <==> call.tokenOk && Judged(e, call.atom, Diverges))
      && (o.reply.ResumedTo? ==> o.reply.body == Body(e.correlationId, e.executionId, e.workflowId))
      && (e.correlationId in o.s.store.vals && o.s.store.vals[e.correlationId] == e <==> !o.reply.ResumedTo?)
      && (Removed(e, ByWebhook) in o.effects <==> o.reply.ResumedTo?)
  {
    var e := Listed(s.store)[i];
    HitIsFirst(s, call.path, now, call.extract, i);
    MatchedAnswer(s, now, call, e);
    RemovedOnlyWhenResumed(s, now, call, e);
    hide DoWebhook, Listed, KeyedById, Passes, Judged;
  }

  /**
   A matched call is turned away exactly when its token is bad or its filter does
   not hold of the body; then the entry it matched is still paused, nobody is woken,
   and only its key was looked up, if its token was good.
   */
  lemma TurnedAwayExactly(s: State, now: int, call: WebhookRequest, i: nat)
    requires KeyedById(s.store) && call.admitted && FirstMatch(Listed(s.store), call.path, now, call.extract, i)
    ensures var e, o := Listed(s.store)[i], Step(s, WebhookCall(now, call));
      && (TurnedDown(o.reply) <==> !call.tokenOk || !Passes(e, call.atom))
      && (!call.tokenOk || !Passes(e, call.atom) ==>
            && e.correlationId in o.s.store.vals && o.s.store.vals[e.correlationId] == e
            && o.s == s.(store := o.s.store, cache := o.s.cache)
            && o.s.cache == (if call.tokenOk
                 then AfterLookup(s.cache, WebhookKey(e.correlationId, call.path, call.idempotencyHeader, call.requestId), now, s.ttlMs)
                 else s.cache)
            && forall eff :: eff in o.effects ==> eff.Removed? && eff.cause == ByMatchExpiry)
  {
    var e := Listed(s.store)[i];
    HitIsFirst(s, call.path, now, call.extract, i);
    MatchedAnswer(s, now, call, e);
    WebhookAnswer(s, now, call, i);
    ThreeVerdicts(e, call.atom);
    ExpiriesOnly(s, call.path, now, call.extract);
    hide DoWebhook, Listed, KeyedById, Passes, Judged, Match, AfterLookup, WebhookKey, FirstMatch;
    if !call.tokenOk || !Passes(e, call.atom) {
      TurnedAway(s, now, call);
    }
  }

  lemma ExpiriesOnly(s: State, path: string, now: int, extract: Entry -> Option<string>)
    ensures forall eff :: eff in Match(s, path, now, extract).1 ==> eff.Removed? && eff.cause == ByMatchExpiry
  {
    RemovalsAreRemoved(s, ScanFor(Listed(s.store), path, now, extract).expired, ByMatchExpiry);
  }

  lemma ThreeVerdicts(e: Entry, atom: string -> bool)
    ensures Passes(e, atom) <==> !Judged(e, atom, Invalid) && !Judged(e, atom, Diverges)
  {
    hide Evaluate;
  }

  lemma RemovedOnlyWhenResumed(s: State, now: int, call: WebhookRequest, e: Entry)
    requires KeyedById(s.store) && call.admitted && Match(s, call.path, now, call.extract).2 == Some(e)
    ensures var o := DoWebhook(s, now, call);
      && (e.correlationId in o.s.store.vals && o.s.store.vals[e.correlationId] == e <==> !o.reply.ResumedTo?)
      && (Removed(e, ByWebhook) in o.effects <==> o.reply.ResumedTo?)
  {
    hide NoDup, RawMap.Valid, KeyedById, AfterLookup, AfterRecord, Lookup, WebhookKey, FilterVerdict, Notify;
    MatchMeaning(s, call.path, now, call.extract);
    RemovalsAreRemoved(s, ScanFor(Listed(s.store), call.path, now, call.extract).expired, ByMatchExpiry);
    var (s1, expired, _) := Match(s, call.path, now, call.extract);
    NoRemovalBy(expired, e, ByWebhook);
    hide Match;
    if call.tokenOk {
      MatchedWebhookEnds(s, now, call);
      hide DoWebhook;
      var s2 := s1.(cache := AfterLookup(s1.cache, WebhookKey(e.correlationId, call.path, call.idempotencyHeader, call.requestId), now, s.ttlMs));
      var (s3, removed) := RemoveEntry(s2, e.correlationId, ByWebhook);
      assert removed == [Removed(e, ByWebhook)] && e.correlationId !in s3.store.vals;
      NotifyKeepsStore(s3, e.correlationId, ResumeOf(e, call.body, now));
    }
  }

  /** Without a match, or without admission. */
  lemma WebhookUnmatched(s: State, now: int, call: WebhookRequest)
    requires KeyedById(s.store)
    ensures var o := Step(s, WebhookCall(now, call));
      && (o.reply == Forbidden <==> !call.admitted)
      && (o.reply == NoMatch <==> call.admitted && forall k :: k in s.store.vals ==> !Matches(s.store.vals[k], call.path, now, call.extract))
      && (!call.admitted ==> o.s == s && o.effects == [])
  {
    if call.admitted {
      Unknown(s, now, call);
    }
    hide Match, NoDup, RawMap.Valid, KeyedById;
  }

  lemma Unknown(s: State, now: int, call: WebhookRequest)
    requires KeyedById(s.store) && call.admitted
    ensures DoWebhook(s, now, call).reply == NoMatch <==> forall k :: k in s.store.vals ==> !Matches(s.store.vals[k], call.path, now, call.extract)
  {
    hide NoDup, RawMap.Valid, Notify;
    ListedFacts(s.store);
    MatchMeaning(s, call.path, now, call.extract);
    var hit := Match(s, call.path, now, call.extract).2;
    assert DoWebhook(s, now, call).reply == NoMatch <==> hit.None?;
    hide DoWebhook, Match, Listed;
    if hit.Some? {
      var i :| FirstMatch(Listed(s.store), call.path, now, call.extract, i) && hit.value == Listed(s.store)[i];
      assert hit.value in Listed(s.store);
    }
  }

  /** An entry whose filter prints an OR of ANDs, none of which is all true of the body: 422, and it stays paused. */
  lemma UntrueFilterStaysPaused(s: State, now: int, call: WebhookRequest, i: nat, dnf: seq<seq<string>>)
    requires KeyedById(s.store) && call.admitted && call.tokenOk && FirstMatch(Listed(s.store), call.path, now, call.extract, i)
    requires IsDnf(dnf) && Listed(s.store)[i].webhookFilter == Some(Print(dnf))
    ensures var e, o := Listed(s.store)[i], Step(s, WebhookCall(now, call));
      if SomeTrue(dnf, call.atom) then o.reply.ResumedTo? && e.correlationId !in o.s.store.vals
      else o.reply == FilterRejected && e.correlationId in o.s.store.vals && o.s.store.vals[e.correlationId] == e
  {
    WebhookAnswer(s, now, call, i);
    FilterMeaning(dnf, call.atom);
    NoFilterIsValid(call.atom);
    if SomeTrue(dnf, call.atom) {
      ResumedIsGone(s, now, call, Listed(s.store)[i], i);
    }
    hide Step, Print, Evaluate, Listed, KeyedById, NoDup, RawMap.Valid;
  }

  lemma NoFilterIsValid(atom: string -> bool)
    ensures Evaluate("", atom) == Valid
  {
  }

  lemma ResumedIsGone(s: State, now: int, call: WebhookRequest, e: Entry, i: nat)
    requires KeyedById(s.store) && call.admitted && FirstMatch(Listed(s.store), call.path, now, call.extract, i) && e == Listed(s.store)[i]
    requires Step(s, WebhookCall(now, call)).reply.ResumedTo?
    ensures e.correlationId !in Step(s, WebhookCall(now, call)).s.store.vals
  {
    HitIsFirst(s, call.path, now, call.extract, i);
    hide NoDup, RawMap.Valid, KeyedById, AfterLookup, AfterRecord, Lookup, WebhookKey, FilterVerdict, Notify, Match;
    MatchedWebhookEnds(s, now, call);
    assert call.tokenOk;
    var s1 := Match(s, call.path, now, call.extract).0;
    var s2 := s1.(cache := AfterLookup(s1.cache, WebhookKey(e.correlationId, call.path, call.idempotencyHeader, call.requestId), now, s.ttlMs));
    hide DoWebhook;
    NotifyKeepsStore(RemoveEntry(s2, e.correlationId, ByWebhook).0, e.correlationId, ResumeOf(e, call.body, now));
  }

  /** The whole answer to a Kafka message: resumed iff something matches; otherwise a duplicate iff a fresh record of its position is cached. */
  lemma KafkaAnswer(s: State, now: int, msg: KafkaMessage)
    requires KeyedById(s.store)
    ensures var o, key := Step(s, KafkaDelivery(now, msg)), KafkaKey(msg.topic, msg.partition, msg.offset);
      && (forall i: nat :: FirstMatch(Listed(s.store), msg.topic, now, msg.extract, i) ==>
            var e := Listed(s.store)[i]; o.reply == ResumedTo(Body(e.correlationId, e.executionId, e.workflowId)))
      && ((forall k :: k in s.store.vals ==> !Matches(s.store.vals[k], msg.topic, now, msg.extract)) ==>
            o.reply == if key in s.cache.vals && now - s.cache.vals[key].processedAt <= s.ttlMs
                       then Duplicate(s.cache.vals[key].body.correlationId) else NoMatch)
  {
    forall i: nat | FirstMatch(Listed(s.store), msg.topic, now, msg.extract, i)
      ensures var e := Listed(s.store)[i]; DoKafka(s, now, msg).reply == ResumedTo(Body(e.correlationId, e.executionId, e.workflowId))
    {
      HitIsFirst(s, msg.topic, now, msg.extract, i);
      KafkaMatched(s, now, msg);
      hide DoKafka, Match, Listed, KeyedById, NoDup, RawMap.Valid, Matches, FirstMatch;
    }
    KafkaUnmatched(s, now, msg);
    StepIsKafka(s, now, msg);
    hide Step, DoKafka, Match, Listed, KeyedById, NoDup, RawMap.Valid, KafkaKey, Matches, FirstMatch;
  }

  lemma StepIsKafka(s: State, now: int, msg: KafkaMessage)
    ensures Step(s, KafkaDelivery(now, msg)) == DoKafka(s, now, msg)
  {
  }

  lemma KafkaMatched(s: State, now: int, msg: KafkaMessage)
    requires KeyedById(s.store)
    ensures var hit := Match(s, msg.topic, now, msg.extract).2;
      hit.Some? ==> DoKafka(s, now, msg).reply == ResumedTo(Body(hit.value.correlationId, hit.value.executionId, hit.value.workflowId))
  {
    CachedReplyNeverGiven(s, KafkaDelivery(now, msg));
    hide Match, KeyedById, NoDup, RawMap.Valid, AfterLookup, AfterRecord, Notify, RemoveEntry, KafkaKey, Lookup;
  }

  lemma KafkaUnmatched(s: State, now: int, msg: KafkaMessage)
    requires KeyedById(s.store)
    ensures var o, key := DoKafka(s, now, msg), KafkaKey(msg.topic, msg.partition, msg.offset);
      (forall k :: k in s.store.vals ==> !Matches(s.store.vals[k], msg.topic, now, msg.extract)) ==>
        o.reply == if key in s.cache.vals && now - s.cache.vals[key].processedAt <= s.ttlMs
                   then Duplicate(s.cache.vals[key].body.correlationId) else NoMatch
  {
    ListedFacts(s.store);
    MatchMeaning(s, msg.topic, now, msg.extract);
    var hit := Match(s, msg.topic, now, msg.extract).2;
    assert KafkaKey(msg.topic, msg.partition, msg.offset)[0] == 'k';
    hide KafkaKey, Match, NoDup, RawMap.Valid, Listed, Notify, Matches;
    if hit.Some? {
      var i :| FirstMatch(Listed(s.store), msg.topic, now, msg.extract, i) && hit.value == Listed(s.store)[i];
      assert hit.value in Listed(s.store);
    }
  }

  /** What resumed is recorded under its key with the answer it was given, and the time. */
  lemma ResumptionRecorded(s: State, ev: Event)
    requires KeyedById(s.store) && (ev.WebhookCall? || ev.KafkaDelivery?) && Step(s, ev).reply.ResumedTo?
    ensures var o := Step(s, ev);
      var key := if ev.KafkaDelivery? then KafkaKey(ev.msg.topic, ev.msg.partition, ev.msg.offset)
                 else WebhookKey(o.reply.body.correlationId, ev.call.path, ev.call.idempotencyHeader, ev.call.requestId);
      key != "" ==> key in o.s.cache.vals && o.s.cache.vals[key] == Record(key, ev.now, 200, o.reply.body)
  {
    hide NoDup, RawMap.Valid, KeyedById, AfterLookup, AfterRecord, Lookup, WebhookKey, KafkaKey, FilterVerdict, Notify, Match, RemoveEntry;
    match ev
    case WebhookCall(now, call) => WebhookRecorded(s, now, call);
    case KafkaDelivery(now, msg) => KafkaRecorded(s, now, msg);
  }

  lemma WebhookRecorded(s: State, now: int, call: WebhookRequest)
    requires DoWebhook(s, now, call).reply.ResumedTo?
    ensures var o := DoWebhook(s, now, call);
      var key := WebhookKey(o.reply.body.correlationId, call.path, call.idempotencyHeader, call.requestId);
      key != "" ==> key in o.s.cache.vals && o.s.cache.vals[key] == Record(key, now, 200, o.reply.body)
  {
    hide NoDup, RawMap.Valid, AfterLookup, AfterRecord, Lookup, WebhookKey, FilterVerdict, Notify, Match, RemoveEntry;
    var (s1, _, hit) := Match(s, call.path, now, call.extract);
    assert call.admitted && call.tokenOk && hit.Some?;
    MatchedWebhookEnds(s, now, call);
    var e := hit.value;
    var key := WebhookKey(e.correlationId, call.path, call.idempotencyHeader, call.requestId);
    var s2 := s1.(cache := AfterLookup(s1.cache, key, now, s.ttlMs));
    var s4 := Notify(RemoveEntry(s2, e.correlationId, ByWebhook).0, e.correlationId, ResumeOf(e, call.body, now)).0;
    hide DoWebhook;
    if key != "" {
      RecordExactly(s4.cache, key, 200, BodyOf(e), now, s.maxEntries);
    }
  }

  lemma KafkaRecorded(s: State, now: int, msg: KafkaMessage)
    requires DoKafka(s, now, msg).reply.ResumedTo?
    ensures var o, key := DoKafka(s, now, msg), KafkaKey(msg.topic, msg.partition, msg.offset);
      key != "" ==> key in o.s.cache.vals && o.s.cache.vals[key] == Record(key, now, 200, o.reply.body)
  {
    hide NoDup, RawMap.Valid, AfterLookup, AfterRecord, Lookup, KafkaKey, Notify, Match, RemoveEntry;
    var (s1, _, hit) := Match(s, msg.topic, now, msg.extract);
    assert hit.Some?;
    var e, key := hit.value, KafkaKey(msg.topic, msg.partition, msg.offset);
    var s2 := s1.(cache := AfterLookup(s1.cache, key, now, s.ttlMs));
    var r := ResumeOf(e, KafkaData(msg.topic, msg.partition, msg.offset, msg.key, msg.value), now);
    var s4 := Notify(RemoveEntry(s2, e.correlationId, ByKafka).0, e.correlationId, r).0;
    if key != "" {
      RecordExactly(s4.cache, key, 200, BodyOf(e), now, s.maxEntries);
    }
  }
}
