/**
 A webhook sent again after it resumed its workflow: it is not answered from the
 cache, it is unknown.
 */
module WebhookRepeats {
  import opened JsMap
  import opened Idempotency
  import opened CorrelationStore
  import opened IdempotencyKeys
  import opened CorrelationProtocol
  import opened Matching
  import opened Ledger
  import opened ProtocolRefinement
  import opened ProtocolTheorems
  import opened KafkaRedelivery
  import opened WebhookAnswers
  import opened Wrappers

  /** A resuming webhook leaves only entries that were there, and not the one it hit. */
  lemma ResumedStore(s: State, now: int, call: WebhookRequest)
    requires KeyedById(s.store) && DoWebhook(s, now, call).reply.ResumedTo?
    ensures var hit, t := Match(s, call.path, now, call.extract).2, DoWebhook(s, now, call).s.store;
      && hit.Some? && KeyedById(t) && hit.value.correlationId == DoWebhook(s, now, call).reply.body.correlationId
      && forall k :: k in t.vals ==> k != hit.value.correlationId && k in s.store.vals && t.vals[k] == s.store.vals[k]
  {
    hide AfterLookup, AfterRecord, WebhookKey, FilterVerdict, Lookup, NoDup, RawMap.Valid;
    var (s1, expired, hit) := Match(s, call.path, now, call.extract);
    MatchMeaning(s, call.path, now, call.extract);
    hide Match, Notify;
    assert call.admitted && hit.Some? && call.tokenOk;
    MatchedWebhookEnds(s, now, call);
    var e := hit.value;
    var s2 := s1.(cache := AfterLookup(s1.cache, WebhookKey(e.correlationId, call.path, call.idempotencyHeader, call.requestId), now, s.ttlMs));
    NotifyKeepsStore(RemoveEntry(s2, e.correlationId, ByWebhook).0, e.correlationId, ResumeOf(e, call.body, now));
  }

  /** An id that is not paused is not paused after a run that pauses it nowhere. */
  lemma StaysUnpaused(s: State, b: Book, evs: seq<Event>, id: string)
    requires Coupled(s, b) && id !in s.store.vals && CountOf(Run(s, evs).1, Pauses(id)) == 0
    ensures id !in Run(s, evs).0.store.vals
  {
    RunAudited(s, evs, b);
    PausesConserved(b, Run(s, evs).1, id);
    hide Run, NoDup, RawMap.Valid, ListsMatch, PartiesMatch, TimersMatch;
  }

  /**
   The same webhook again, at any later time and after any run that did not pause
   its id again: it is answered as matching nothing unless some other paused entry
   matches it, whatever the cache holds.
   */
  lemma RepeatedWebhookIsUnknown(s: State, b: Book, now: int, call: WebhookRequest, evs: seq<Event>, later: int)
    requires Coupled(s, b) && DoWebhook(s, now, call).reply.ResumedTo?
    requires var id, log := DoWebhook(s, now, call).reply.body.correlationId, Run(DoWebhook(s, now, call).s, evs).1;
      CountOf(log, Pauses(id)) == 0
    ensures var id, t := DoWebhook(s, now, call).reply.body.correlationId, Run(DoWebhook(s, now, call).s, evs).0;
      && id !in t.store.vals
      && (DoWebhook(t, later, call).reply == NoMatch <==>
            forall k :: k in t.store.vals && k != id ==> !Matches(t.store.vals[k], call.path, later, call.extract))
  {
    var id, one := DoWebhook(s, now, call).reply.body.correlationId, DoWebhook(s, now, call);
    CoupledStore(s, b);
    ResumedStore(s, now, call);
    WebhookAudited(s, now, call, b);
    var c := Audit(b, one.effects).value;
    assert call.admitted;
    hide DoWebhook, Run, Coupled, Matches;
    StaysUnpaused(one.s, c, evs, id);
    RunAudited(one.s, evs, c);
    var t := Run(one.s, evs).0;
    CoupledStore(t, Audit(c, Run(one.s, evs).1).value);
    WebhookUnmatched(t, later, call);
    StepIsWebhook(t, later, call);
  }

  lemma CoupledStore(s: State, b: Book)
    requires Coupled(s, b)
    ensures KeyedById(s.store)
  {
    hide NoDup, RawMap.Valid, ListsMatch, PartiesMatch, TimersMatch;
  }

  /** An instance: one pause without a filter, one webhook that resumes it, the same webhook again. */
  lemma PausedResumedRepeated(req: PauseRequest, call: WebhookRequest, ttlMs: int, maxEntries: nat, later: int)
    requires req.correlationId != "" && req.webhookPath != "" && req.executionId != "" && req.timeoutMs <= 0 && req.webhookFilter == None
    requires call.admitted && call.tokenOk && call.path == req.webhookPath && call.extract(NewEntry(req, 0)) == Some(req.correlationId)
    ensures var paused := Run(Init(ttlMs, maxEntries), [HttpPause(0, req)]).0;
      var first := Step(paused, WebhookCall(0, call));
      && first.reply == ResumedTo(BodyOf(NewEntry(req, 0)))
      && Step(first.s, WebhookCall(later, call)).reply == NoMatch
  {
    hide Run;
    var e := NewEntry(req, 0);
    var run := AfterOnePause(req, ttlMs, maxEntries);
    var paused := run.0;
    OneWebhookResumes(paused, e, call);
    ReachableCoupled(paused, run.1);
    ResumedStore(paused, 0, call);
    hide *;
    NothingMore(Step(paused, WebhookCall(0, call)).s, req.correlationId);
    StepIsWebhook(paused, 0, call);
    StepIsWebhook(Step(paused, WebhookCall(0, call)).s, later, call);
    NoneLeft(paused, e, 0, call);
    RepeatedWebhookIsUnknown(paused, Audit(Blank, run.1).value, 0, call, [], later);
  }

  lemma NothingMore(s: State, id: string)
    ensures Run(s, []).0 == s && CountOf(Run(s, []).1, Pauses(id)) == 0
  {
  }

  lemma StepIsWebhook(s: State, now: int, call: WebhookRequest)
    ensures Step(s, WebhookCall(now, call)) == DoWebhook(s, now, call)
  {
  }

  /** With one entry paused, resuming it leaves none. */
  lemma NoneLeft(s: State, e: Entry, now: int, call: WebhookRequest)
    requires s.store.vals == map[e.correlationId := e] && KeyedById(s.store)
    requires DoWebhook(s, now, call).reply == ResumedTo(BodyOf(e))
    ensures forall k :: k !in DoWebhook(s, now, call).s.store.vals
  {
    ResumedStore(s, now, call);
  }

  lemma OneWebhookResumes(s: State, e: Entry, call: WebhookRequest)
    requires s.store.keys == [e.correlationId] && s.store.vals == map[e.correlationId := e]
    requires e.correlationId != "" && e.webhookPath == call.path && e.timeoutAt == 0 && e.webhookFilter == None
    requires call.admitted && call.tokenOk && call.extract(e) == Some(e.correlationId)
    ensures KeyedById(s.store) && Match(s, call.path, 0, call.extract).2 == Some(e)
    ensures DoWebhook(s, 0, call).reply == ResumedTo(BodyOf(e))
  {
    assert Listed(s.store) == [e];
    hide AfterLookup, AfterRecord, WebhookKey, Lookup, NoDup, RawMap.Valid, Notify;
  }
}
