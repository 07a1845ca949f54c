/**
 What the remaining routes, sweeps and timers answer and change, told from the
 state before them.
 */
module Answers {
  import opened JsMap
  import opened Idempotency
  import opened CorrelationStore
  import opened CorrelationProtocol
  import opened Orphans

  // ---- Counting the keys of a map ----

  lemma {:induction false} NoDupCount<T(!new)>(s: seq<T>)
    requires NoDup(s)
    ensures |(set x | x in s)| == |s|
  {
    if s != [] {
      var n := |s| - 1;
      NoDupCount(s[..n]);
      assert s == s[..n] + [s[n]] && s[n] !in s[..n];
      assert (set x | x in s) == (set x | x in s[..n]) + {s[n]};
    } else {
      assert (set x | x in s) == {};
    }
  }

  lemma KeysCount<K(!new), V>(m: OrderedMap<K, V>)
    ensures |m.keys| == |m.vals.Keys|
  {
    NoDupCount(m.keys);
    assert (set x | x in m.keys) == m.vals.Keys;
  }

  /** A map left with a part of its keys has lost as many as the others are. */
  lemma LostCount<K(!new), V>(m: OrderedMap<K, V>, n: OrderedMap<K, V>, lost: set<K>)
    requires lost <= m.vals.Keys && n.vals.Keys == m.vals.Keys - lost
    ensures |m.keys| - |n.keys| == |lost|
  {
    KeysCount(m);
    KeysCount(n);
    assert m.vals.Keys == n.vals.Keys + lost;
  }

  // ---- Routes ----

  /** DELETE: 404 for an id that is not paused; else the entry goes, and nothing else does. */
  lemma HttpDeleteExactly(s: State, id: string)
    ensures var o := Step(s, HttpDelete(id));
      && (o.reply == NotFound <==> id !in s.store.vals)
      && (o.reply == Cancelling <==> id in s.store.vals)
      && o.s == s.(store := o.s.store) && o.s.store.vals == s.store.vals - {id}
      && o.effects == (if id in s.store.vals then [Removed(s.store.vals[id], ByDelete)] else [])
  {
    hide NoDup, RawMap.Valid;
    if id !in s.store.vals {
      assert s.store.vals - {id} == s.store.vals;
    }
  }

  ghost function Overripe(s: State, now: int): set<string> {
    set id | id in s.store.vals && 0 < s.store.vals[id].timeoutAt <= now
  }

  ghost function Outdated(s: State, now: int): set<string> {
    set key | key in s.cache.vals && now - s.cache.vals[key].processedAt > s.ttlMs
  }

  /** The cleanup route: the overdue entries and the outdated records go, and it answers how many of each. */
  lemma HttpCleanupExactly(s: State, now: int)
    ensures var o := Step(s, HttpCleanup(now));
      && o.reply == Cleaned(|Overripe(s, now)|, |Outdated(s, now)|)
      && o.s == s.(store := o.s.store, cache := o.s.cache)
      && o.s.store.vals == s.store.vals - Overripe(s, now)
      && o.s.cache.vals == s.cache.vals - Outdated(s, now)
  {
    SweptExactly(s, now);
    hide Swept, AfterCleanup, SweepEffects, NoDup, RawMap.Valid, Overripe, Outdated;
    var o := Step(s, HttpCleanup(now));
    LostCount(s.store, o.s.store, Overripe(s, now));
    LostCount(s.cache, o.s.cache, Outdated(s, now));
  }

  lemma SweptExactly(s: State, now: int)
    ensures Overripe(s, now) <= s.store.vals.Keys && Outdated(s, now) <= s.cache.vals.Keys
    ensures Swept(s.store, now).vals == s.store.vals - Overripe(s, now)
    ensures AfterCleanup(s.cache, now, s.ttlMs).vals == s.cache.vals - Outdated(s, now)
  {
    hide NoDup, RawMap.Valid, Filter;
  }

  /** The long poll: it takes the letter lying for its id, or parks last in the id's list. */
  lemma HttpWaitExactly(s: State, id: string)
    ensures var o, t := Step(s, HttpWait(id)), s.next;
      && o.s.next == t + 1
      && (id in s.queued.vals ==>
            && o.reply == PollAnswer(s.queued.vals[id]) && o.effects == [Claimed(t, id, s.queued.vals[id])]
            && o.s == s.(queued := o.s.queued, next := t + 1) && o.s.queued.vals == s.queued.vals - {id})
      && (id !in s.queued.vals ==>
            && o.reply == Parked(t) && o.effects == [Opened(PollWaiter(id, t))]
            && o.s == s.(waiters := s.waiters[id := WaitersOf(s.waiters, id) + [PollWaiter(id, t)]], polls := s.polls[t := id], next := t + 1))
  {
    hide NoDup, RawMap.Valid;
  }

  // ---- Sweeps ----

  lemma {:induction false} QueueEffectsAre(ids: seq<string>, vals: map<string, QueuedResume>, now: int, eff: Effect)
    ensures eff in QueueEffects(ids, vals, now) <==>
      eff.QueueExpired? && eff.id in ids && eff.id in vals && eff == QueueExpired(eff.id, vals[eff.id], now) && now - vals[eff.id].ts > 300000
  {
    if ids != [] {
      QueueEffectsAre(ids[1..], vals, now, eff);
    }
  }

  /** The queue's sweep drops exactly the letters older than five minutes. */
  lemma QueueSweepExactly(s: State, now: int, id: string)
    ensures var o := Step(s, QueueSweep(now));
      && (id in o.s.queued.vals <==> id in s.queued.vals && now - s.queued.vals[id].ts <= 300000)
      && (id in o.s.queued.vals ==> o.s.queued.vals[id] == s.queued.vals[id])
      && (forall r :: QueueExpired(id, r, now) in o.effects <==> id in s.queued.vals && r == s.queued.vals[id] && now - r.ts > 300000)
      && o.s == s.(queued := o.s.queued)
  {
    forall r ensures QueueExpired(id, r, now) in QueueEffects(s.queued.keys, s.queued.vals, now)
      <==> id in s.queued.vals && r == s.queued.vals[id] && now - r.ts > 300000
    {
      QueueEffectsAre(s.queued.keys, s.queued.vals, now, QueueExpired(id, r, now));
    }
    hide QueueEffects, NoDup;
  }

  ghost function OverdueOf(s: State, b: nat, now: int): set<BridgeKey> {
    set k | k in s.callbacks.vals && k.0 == b && 0 < s.callbacks.vals[k].timeoutAt <= now
  }

  /** A bridge's cleanup takes its overdue callbacks and their entries, and answers how many. */
  lemma BridgeCleanupExactly(s: State, now: int, b: nat)
    ensures var o := Step(s, BridgeCleanup(now, b));
      && o.reply == Count(|OverdueOf(s, b, now)|)
      && o.s.callbacks.vals == s.callbacks.vals - OverdueOf(s, b, now)
      && forall id :: id in o.s.store.vals <==> id in s.store.vals && (b, id) !in OverdueOf(s, b, now)
  {
    BridgeSweepMeaning(s, s.callbacks.keys, now, b);
    var o := Step(s, BridgeCleanup(now, b));
    hide BridgeSweep, NoDup;
    assert o.s.callbacks.vals == s.callbacks.vals - OverdueOf(s, b, now);
    LostCount(s.callbacks, o.s.callbacks, OverdueOf(s, b, now));
  }

  /** Closing a bridge's callback, by resume or cancel: its entry goes with it, and the answer says whether there was one. */
  lemma BridgeClosesExactly(s: State, b: nat, id: string, ev: Event)
    requires ev == BridgeCancel(b, id) || (ev.BridgeResume? && ev.bridge == b && ev.id == id)
    ensures var o := Step(s, ev);
      && o.reply == Did((b, id) in s.callbacks.vals)
      && o.s.callbacks.vals == s.callbacks.vals - {(b, id)}
      && o.s.store.vals == (if (b, id) in s.callbacks.vals then s.store.vals - {id} else s.store.vals)
  {
    CloseTakes(s, (b, id), if ev.BridgeResume? then ResumedLocally(ev.data) else Cancelled, if ev.BridgeResume? then ByBridgeResume else ByBridgeCancel);
    hide CloseCallback, NoDup, RawMap.Valid;
    if (b, id) !in s.callbacks.vals {
      assert s.callbacks.vals - {(b, id)} == s.callbacks.vals;
    }
  }

  lemma CloseTakes(s: State, key: BridgeKey, how: How, cause: Cause)
    ensures key in s.callbacks.vals ==>
      var t := CloseCallback(s, key, how, cause).0;
      t.callbacks.vals == s.callbacks.vals - {key} && t.store.vals == s.store.vals - {key.1}
  {
    hide NoDup, RawMap.Valid;
    if key in s.callbacks.vals && key.1 !in s.store.vals {
      assert s.store.vals - {key.1} == s.store.vals;
    }
  }
}
