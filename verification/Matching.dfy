/**
 What the two matchers find and what they delete on the way
 (`matchCorrelation`, `matchKafkaCorrelation`).
 */
module Matching {
  import opened JsMap
  import opened Idempotency
  import opened CorrelationStore
  import opened IdempotencyKeys
  import opened CorrelationProtocol
  import opened Wrappers

  /** On that path, not past its deadline, and named by the message. */
  predicate Matches(e: Entry, path: string, now: int, extract: Entry -> Option<string>) {
    && e.webhookPath == path && (e.timeoutAt > 0 ==> now <= e.timeoutAt)
    && extract(e) == Some(e.correlationId) && e.correlationId != ""
  }

  predicate Dead(e: Entry, path: string, now: int) {
    e.webhookPath == path && 0 < e.timeoutAt < now
  }

  function IdsOfDead(listed: seq<Entry>, path: string, now: int): seq<string> {
    if listed == [] then []
    else (if Dead(listed[0], path, now) then [listed[0].correlationId] else []) + IdsOfDead(listed[1..], path, now)
  }

  /** `i` is the position of the first match. */
  ghost predicate FirstMatch(listed: seq<Entry>, path: string, now: int, extract: Entry -> Option<string>, i: int) {
    && 0 <= i < |listed| && Matches(listed[i], path, now, extract)
    && forall j :: 0 <= j < i ==> !Matches(listed[j], path, now, extract)
  }

  /** The hit is the first match in listing order; the expired are the dead same-path entries before it, in order. */
  lemma {:induction false} ScanMeaning(listed: seq<Entry>, path: string, now: int, extract: Entry -> Option<string>)
    ensures var scan := ScanFor(listed, path, now, extract);
      && (scan.hit.None? ==> (forall e :: e in listed ==> !Matches(e, path, now, extract)) && scan.expired == IdsOfDead(listed, path, now))
      && (scan.hit.Some? ==> exists i :: FirstMatch(listed, path, now, extract, i) && scan.hit.value == listed[i]
                                         && scan.expired == IdsOfDead(listed[..i], path, now))
  {
    if listed != [] {
      var e, rest := listed[0], listed[1..];
      var scan := ScanFor(rest, path, now, extract);
      ScanMeaning(rest, path, now, extract);
      if Matches(e, path, now, extract) {
        assert listed[..0] == [];
        assert FirstMatch(listed, path, now, extract, 0);
      } else if scan.hit.Some? {
        var i :| FirstMatch(rest, path, now, extract, i) && scan.hit.value == rest[i] && scan.expired == IdsOfDead(rest[..i], path, now);
        assert listed[..i + 1] == [e] + rest[..i];
        assert FirstMatch(listed, path, now, extract, i + 1);
      }
    }
  }

  /** The listed entries are the store's values, under their own ids, each id once. */
  lemma ListedFacts(m: Entries)
    requires KeyedById(m)
    ensures |Listed(m)| == |m.keys|
    ensures forall i :: 0 <= i < |m.keys| ==> Listed(m)[i].correlationId == m.keys[i]
    ensures forall e :: e in Listed(m) <==> e.correlationId in m.vals && m.vals[e.correlationId] == e
  {
    forall e: Entry | e.correlationId in m.vals && m.vals[e.correlationId] == e ensures e in Listed(m) {
      var i :| 0 <= i < |m.keys| && m.keys[i] == e.correlationId;
      assert Listed(m)[i] == e;
    }
    forall i | 0 <= i < |m.keys| ensures Listed(m)[i].correlationId == m.keys[i] {
      assert m.keys[i] in m.keys;
    }
  }

  lemma {:induction false} IdsOfDeadMembers(listed: seq<Entry>, path: string, now: int)
    ensures forall id :: id in IdsOfDead(listed, path, now) <==> exists e :: e in listed && e.correlationId == id && Dead(e, path, now)
  {
    if listed != [] {
      IdsOfDeadMembers(listed[1..], path, now);
      assert forall e :: e in listed <==> e == listed[0] || e in listed[1..];
    }
  }

  function NotAmong(ids: seq<string>): string -> bool {
    (k: string) => k !in ids
  }

  lemma DeleteIsRestrict(m: Entries, id: string)
    requires id in m.vals
    ensures Delete(m, id) == Restrict(m, NotAmong([id]))
  {
    RemoveFirstIsFilter(m.keys, id, NotAmong([id]));
    assert m.vals - {id} == map k | k in m.vals && k != id :: m.vals[k];
  }

  lemma RestrictTwice(m: Entries, ids: seq<string>, more: seq<string>)
    ensures Restrict(Restrict(m, NotAmong(ids)), NotAmong(more)) == Restrict(m, NotAmong(ids + more))
  {
    FilterFilter(m.keys, NotAmong(ids), NotAmong(more), NotAmong(ids + more));
    assert Restrict(Restrict(m, NotAmong(ids)), NotAmong(more)).vals == Restrict(m, NotAmong(ids + more)).vals;
  }

  lemma RestrictNone(m: Entries, ids: seq<string>)
    requires forall k :: k in m.vals ==> k !in ids
    ensures Restrict(m, NotAmong(ids)) == m
  {
    FilterAll(m.keys, NotAmong(ids));
    assert Restrict(m, NotAmong(ids)).vals == m.vals;
  }

  /** Expiring a list of ids removes exactly those, and keeps the others in their order. */
  lemma {:induction false} RemoveEntriesMeaning(s: State, ids: seq<string>, cause: Cause)
    ensures var s1 := RemoveEntries(s, ids, cause).0;
      && s1 == s.(store := s1.store)
      && s1.store == Restrict(s.store, NotAmong(ids))
      && s1.store.vals == map k | k in s.store.vals && k !in ids :: s.store.vals[k]
    decreases |ids|
  {
    if ids == [] {
      RestrictNone(s.store, []);
    } else {
      var s1, m := RemoveEntry(s, ids[0], cause).0, Restrict(s.store, NotAmong([ids[0]]));
      if ids[0] in s.store.vals {
        DeleteIsRestrict(s.store, ids[0]);
      } else {
        RestrictNone(s.store, [ids[0]]);
      }
      hide Restrict, NotAmong, Delete;
      assert s1.store == m;
      RemoveEntriesMeaning(s1, ids[1..], cause);
      RestrictTwice(s.store, [ids[0]], ids[1..]);
      assert [ids[0]] + ids[1..] == ids;
    }
    RestrictVals(s.store, ids);
  }

  lemma RestrictVals(m: Entries, ids: seq<string>)
    ensures Restrict(m, NotAmong(ids)).vals == map k | k in m.vals && k !in ids :: m.vals[k]
  {
  }

  /** `after` lacks exactly the dead same-path entries listed before position `i`. */
  ghost predicate DeletedUpTo(m: Entries, i: int, path: string, now: int, after: Entries) {
    && 0 <= i <= |Listed(m)|
    && forall k :: k in m.vals ==> (k !in after.vals <==> k in IdsOfDead(Listed(m)[..i], path, now))
  }

  /**
   Matching against a store: the hit is the first entry in insertion order on
   that path that is unexpired and names itself; only expired same-path entries
   listed before it are deleted; the hit itself stays.
   */
  lemma MatchMeaning(s: State, path: string, now: int, extract: Entry -> Option<string>)
    requires KeyedById(s.store)
    ensures var (s1, _, hit) := Match(s, path, now, extract);
      && s1 == s.(store := s1.store)
      && (hit.None? ==> forall e :: e in Listed(s.store) ==> !Matches(e, path, now, extract))
      && (hit.Some? ==> exists i :: FirstMatch(Listed(s.store), path, now, extract, i) && hit.value == Listed(s.store)[i]
                                    && DeletedUpTo(s.store, i, path, now, s1.store))
      && (hit.None? ==> forall k :: k in s.store.vals ==> (k !in s1.store.vals <==> Dead(s.store.vals[k], path, now)))
      && (forall k :: k in s1.store.vals ==> k in s.store.vals && s1.store.vals[k] == s.store.vals[k])
      && (hit.Some? ==> hit.value.correlationId in s1.store.vals && s1.store.vals[hit.value.correlationId] == hit.value)
  {
    hide Listed, IdsOfDead, KeyedById, NotAmong, Restrict, RemoveEntries, ScanFor, NoDup, RawMap.Valid, DeletedUpTo, Dead;
    var listed := Listed(s.store);
    var scan := ScanFor(listed, path, now, extract);
    ScanMeaning(listed, path, now, extract);
    RemoveEntriesMeaning(s, scan.expired, ByMatchExpiry);
    var left := RemoveEntries(s, scan.expired, ByMatchExpiry).0.store;
    if scan.hit.Some? {
      var i :| FirstMatch(listed, path, now, extract, i) && scan.hit.value == listed[i] && scan.expired == IdsOfDead(listed[..i], path, now);
      HitStays(s.store, i, path, now, left);
    } else {
      DeadGo(s.store, path, now, left);
    }
  }

  /** Without the dead before position `i`, the entry there is still stored. */
  lemma HitStays(m: Entries, i: nat, path: string, now: int, left: Entries)
    requires KeyedById(m) && i < |Listed(m)| && !PastTimeout(Listed(m)[i], now)
    requires left.vals == map k | k in m.vals && k !in IdsOfDead(Listed(m)[..i], path, now) :: m.vals[k]
    ensures DeletedUpTo(m, i, path, now, left)
    ensures var e := Listed(m)[i]; e.correlationId in left.vals && left.vals[e.correlationId] == e
  {
    ListedFacts(m);
    HitSurvives(m, i, path, now);
    hide NoDup, RawMap.Valid, KeyedById;
    assert Listed(m)[i] in Listed(m);
  }

  lemma DeadGo(m: Entries, path: string, now: int, left: Entries)
    requires KeyedById(m)
    requires left.vals == map k | k in m.vals && k !in IdsOfDead(Listed(m), path, now) :: m.vals[k]
    ensures forall k :: k in m.vals ==> (k !in left.vals <==> Dead(m.vals[k], path, now))
  {
    ListedFacts(m);
    IdsOfDeadMembers(Listed(m), path, now);
    hide NoDup, RawMap.Valid, Listed, IdsOfDead;
  }

  lemma HitSurvives(m: Entries, i: nat, path: string, now: int)
    requires KeyedById(m) && i < |Listed(m)| && !PastTimeout(Listed(m)[i], now)
    ensures Listed(m)[i].correlationId !in IdsOfDead(Listed(m)[..i], path, now)
  {
    var listed := Listed(m);
    ListedFacts(m);
    IdsOfDeadMembers(listed[..i], path, now);
  }

  /** After a match the "already answered and no longer paused" guards are dead code: no cached webhook reply is ever given. */
  lemma CachedReplyNeverGiven(s: State, ev: Event)
    requires KeyedById(s.store)
    ensures !Step(s, ev).reply.CachedReply?
    ensures ev.KafkaDelivery? && Match(s, ev.msg.topic, ev.now, ev.msg.extract).2.Some? ==> Step(s, ev).reply.ResumedTo?
  {
    hide NoDup, RawMap.Valid;
    match ev
    case WebhookCall(now, call) => MatchMeaning(s, call.path, now, call.extract);
    case KafkaDelivery(now, msg) => MatchMeaning(s, msg.topic, now, msg.extract);
    case _ =>
  }

  /** The two ends of a webhook call that matched: turned away, or resumed. */
  lemma MatchedWebhookEnds(s: State, now: int, call: WebhookRequest)
    requires call.admitted && call.tokenOk && Match(s, call.path, now, call.extract).2.Some?
    ensures var (s1, expired, hit) := Match(s, call.path, now, call.extract);
      var e := hit.value;
      var ikey := WebhookKey(e.correlationId, call.path, call.idempotencyHeader, call.requestId);
      var s2 := s1.(cache := AfterLookup(s1.cache, ikey, now, s.ttlMs));
      var (s3, removed) := RemoveEntry(s2, e.correlationId, ByWebhook);
      var (s4, notified) := Notify(s3, e.correlationId, ResumeOf(e, call.body, now));
      var d := AfterRecord(s4.cache, ikey, 200, BodyOf(e), now, s.maxEntries);
      var o := DoWebhook(s, now, call);
      || (o.s == s2 && o.effects == expired && !o.reply.ResumedTo?)
      || (o.s == s4.(cache := d) && o.effects == expired + removed + notified && o.reply == ResumedTo(BodyOf(e)))
  {
    hide Match, RemoveEntry, Notify, AfterLookup, AfterRecord, Lookup, FilterVerdict, WebhookKey, ResumeOf, BodyOf;
  }

  /** The two ends of a Kafka delivery: nothing resumed, or the hit is. */
  lemma MatchedKafkaEnds(s: State, now: int, msg: KafkaMessage)
    ensures var (s1, expired, hit) := Match(s, msg.topic, now, msg.extract);
      var ikey := KafkaKey(msg.topic, msg.partition, msg.offset);
      var s2 := s1.(cache := AfterLookup(s1.cache, ikey, now, s.ttlMs));
      var o := DoKafka(s, now, msg);
      || (o.s == s2 && o.effects == expired)
      || (hit.Some? &&
          var r := ResumeOf(hit.value, KafkaData(msg.topic, msg.partition, msg.offset, msg.key, msg.value), now);
          var (s3, removed) := RemoveEntry(s2, hit.value.correlationId, ByKafka);
          var (s4, notified) := Notify(s3, hit.value.correlationId, r);
          o.s == s4.(cache := AfterRecord(s4.cache, ikey, 200, BodyOf(hit.value), now, s.maxEntries))
          && o.effects == expired + removed + notified)
  {
    var (s1, expired, hit) := Match(s, msg.topic, now, msg.extract);
    hide Match, RemoveEntry, Notify, AfterLookup, AfterRecord, Lookup, KafkaKey, ResumeOf, BodyOf;
    if hit.None? {
      assert DoKafka(s, now, msg).effects == expired;
    }
  }

  predicate TurnedDown(reply: Reply) {
    reply.FilterRejected? || reply.FilterOverflow? || reply.TokenRejected?
  }

  /** A webhook turned away after matching has only expired entries and, past its token, looked its key up. */
  lemma TurnedAway(s: State, now: int, call: WebhookRequest)
    requires TurnedDown(DoWebhook(s, now, call).reply)
    ensures var (s1, expired, hit) := Match(s, call.path, now, call.extract);
      var o := DoWebhook(s, now, call);
      && hit.Some? && o.effects == expired
      && s1 == s.(store := s1.store)
      && o.s == s1.(cache := if o.reply.TokenRejected? then s.cache
           else AfterLookup(s.cache, WebhookKey(hit.value.correlationId, call.path, call.idempotencyHeader, call.requestId), now, s.ttlMs))
  {
    MatchKeepsRest(s, call.path, now, call.extract);
    hide Match, RemoveEntry, Notify, AfterLookup, AfterRecord, Lookup, FilterVerdict, WebhookKey, ResumeOf, BodyOf;
    assert call.admitted;
    assert Match(s, call.path, now, call.extract).2.Some?;
  }

  lemma MatchKeepsRest(s: State, path: string, now: int, extract: Entry -> Option<string>)
    ensures var s1 := Match(s, path, now, extract).0; s1 == s.(store := s1.store)
  {
    RemoveEntriesMeaning(s, ScanFor(Listed(s.store), path, now, extract).expired, ByMatchExpiry);
  }

  /** A webhook turned away by its filter or token leaves the entry it hit paused and wakes nobody. */
  lemma FilteredWebhookStaysPaused(s: State, now: int, call: WebhookRequest)
    requires KeyedById(s.store)
    requires TurnedDown(DoWebhook(s, now, call).reply)
    ensures var s1, hit := DoWebhook(s, now, call).s, Match(s, call.path, now, call.extract).2;
      && s1.waiters == s.waiters && s1.queued == s.queued && s1.callbacks == s.callbacks && s1.polls == s.polls
      && hit.Some? && hit.value.correlationId in s1.store.vals && s1.store.vals[hit.value.correlationId] == hit.value
  {
    TurnedAway(s, now, call);
    MatchMeaning(s, call.path, now, call.extract);
    hide DoWebhook, Match, KeyedById, AfterLookup, WebhookKey;
  }
}
