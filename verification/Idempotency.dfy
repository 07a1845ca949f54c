/**
 The idempotency cache of `webhook-idempotency.ts`: a map from idempotency key
 to the reply once given, bounded first-in-first-out by `maxEntries` and by age.
 */
module Idempotency {
  import opened JsMap
  import opened Wrappers

  datatype Record<B> = Record(key: string, processedAt: int, statusCode: int, body: B)

  type Cache<B> = OrderedMap<string, Record<B>>

  predicate Stale<B>(r: Record<B>, now: int, ttl: int) {
    now - r.processedAt > ttl
  }

  // ---- Specification of the three operations ----

  /** The record a lookup answers with, if any. */
  function Lookup<B>(c: Cache<B>, key: string, now: int, ttl: int): Option<Record<B>> {
    if key == "" || key !in c.vals || Stale(c.vals[key], now, ttl) then None else Some(c.vals[key])
  }

  /** The cache after a lookup: a stale hit is dropped. */
  function AfterLookup<B>(c: Cache<B>, key: string, now: int, ttl: int): Cache<B> {
    if key != "" && key in c.vals && Stale(c.vals[key], now, ttl) then Delete(c, key) else c
  }

  /** Room for one more record: at capacity the oldest key goes, whichever key is being recorded. */
  function Evicted<B>(c: Cache<B>, max: nat): Cache<B> {
    if |c.keys| >= max && c.keys != [] then Delete(c, c.keys[0]) else c
  }

  function AfterRecord<B>(c: Cache<B>, key: string, status: int, body: B, now: int, max: nat): Cache<B> {
    if key == "" then c else Put(Evicted(c, max), key, Record(key, now, status, body))
  }

  function AfterCleanup<B>(c: Cache<B>, now: int, ttl: int): Cache<B> {
    Restrict(c, k => k in c.vals && !Stale(c.vals[k], now, ttl))
  }

  // ---- The mutable cache ----

  class IdempotencyCache<B> {
    const ttlMs: int
    const maxEntries: nat
    var processed: Cache<B>

    constructor (ttlMs: int, maxEntries: nat)
      ensures this.ttlMs == ttlMs && this.maxEntries == maxEntries && processed == Empty()
    {
      this.ttlMs, this.maxEntries, processed := ttlMs, maxEntries, Empty();
    }

    method CheckIdempotency(key: string, now: int) returns (hit: Option<Record<B>>)
      modifies this
      ensures hit == Lookup(old(processed), key, now, ttlMs)
      ensures processed == AfterLookup(old(processed), key, now, ttlMs)
    {
      if key == "" || key !in processed.vals {
        return None;
      }
      var record := processed.vals[key];
      if now - record.processedAt > ttlMs {
        processed := Delete(processed, key);
        return None;
      }
      return Some(record);
    }

    method RecordProcessed(key: string, status: int, body: B, now: int)
      modifies this
      ensures processed == AfterRecord(old(processed), key, status, body, now, maxEntries)
    {
      if key == "" {
        return;
      }
      if |processed.keys| >= maxEntries {
        if processed.keys != [] {
          processed := Delete(processed, processed.keys[0]);
        }
      }
      processed := Put(processed, key, Record(key, now, status, body));
    }

    method CleanupIdempotency(now: int) returns (count: nat)
      modifies this
      ensures processed == AfterCleanup(old(processed), now, ttlMs)
      ensures count == |old(processed).keys| - |processed.keys|
    {
      var was, ttl := processed, ttlMs;
      ghost var keep := (k: string) => k in was.vals && !Stale(was.vals[k], now, ttl);
      SweepStart(was, keep);
      count := 0;
      for i := 0 to |was.keys|
        invariant SweptUpTo(was, i, keep, processed)
        invariant |processed.keys| + count == |was.keys|
      {
        var key := was.keys[i];
        SweepStep(was, i, keep, processed);
        if now - processed.vals[key].processedAt > ttlMs {
          RemoveFirstLength(processed.keys, key);
          processed := Delete(processed, key);
          count := count + 1;
        }
      }
      SweepDone(was, keep, processed);
    }
  }

  /** A lookup answers exactly a record within its time to live, and drops exactly one past it; the empty key is no key. */
  lemma LookupExactly<B>(c: Cache<B>, key: string, now: int, ttl: int)
    ensures Lookup(c, key, now, ttl).Some? <==> key != "" && key in c.vals && now - c.vals[key].processedAt <= ttl
    ensures Lookup(c, key, now, ttl).Some? ==> Lookup(c, key, now, ttl).value == c.vals[key]
    ensures AfterLookup(c, key, now, ttl).vals
         == if key != "" && key in c.vals && now - c.vals[key].processedAt > ttl then c.vals - {key} else c.vals
  {
    hide NoDup, RawMap.Valid;
  }

  /** A recording puts the key's record with its time, status and body, costs at most the oldest other one, and without a key does nothing. */
  lemma RecordExactly<B>(c: Cache<B>, key: string, status: int, body: B, now: int, max: nat)
    ensures var d := AfterRecord(c, key, status, body, now, max);
      && (key == "" ==> d == c)
      && (key != "" ==> key in d.vals && d.vals[key] == Record(key, now, status, body))
      && (forall k :: k in d.vals && k != key ==> k in c.vals && d.vals[k] == c.vals[k])
      && (forall k :: k in c.vals && k !in d.vals ==> |c.keys| >= max && k == c.keys[0])
  {
    hide NoDup, RawMap.Valid;
  }

  // ---- Whole runs ----

  datatype Op<B> =
    | Check(key: string, now: int)
    | Process(key: string, status: int, body: B, now: int)
    | Cleanup(now: int)

  function Apply<B>(c: Cache<B>, op: Op<B>, ttl: int, max: nat): Cache<B> {
    match op
    case Check(key, now) => AfterLookup(c, key, now, ttl)
    case Process(key, status, body, now) => AfterRecord(c, key, status, body, now, max)
    case Cleanup(now) => AfterCleanup(c, now, ttl)
  }

  function RunOps<B>(c: Cache<B>, ops: seq<Op<B>>, ttl: int, max: nat): Cache<B>
    decreases |ops|
  {
    if ops == [] then c else RunOps(Apply(c, ops[0], ttl, max), ops[1..], ttl, max)
  }

  function Recordings<B>(ops: seq<Op<B>>): nat {
    if ops == [] then 0 else (if ops[0].Process? then 1 else 0) + Recordings(ops[1..])
  }

  /** Where `x` stands in `s`; `|s|` when it is absent. */
  function IndexOf(s: seq<string>, x: string): nat {
    if s == [] || s[0] == x then 0 else 1 + IndexOf(s[1..], x)
  }

  /**
   How many recordings a present key is guaranteed to outlive: those that still
   fit, plus those that must evict an older key first.
   */
  ghost function Rank<B>(c: Cache<B>, key: string, max: nat): int {
    max - |c.keys| + IndexOf(c.keys, key)
  }

  // ---- Order bookkeeping ----

  lemma {:induction false} IndexOfBound(s: seq<string>, x: string)
    ensures IndexOf(s, x) <= |s|
    ensures x in s ==> IndexOf(s, x) < |s| && s[IndexOf(s, x)] == x
    ensures x !in s ==> IndexOf(s, x) == |s|
  {
    if s != [] && s[0] != x {
      IndexOfBound(s[1..], x);
    }
  }

  /** Removing another element moves `x` up by at most the place that became free. */
  lemma {:induction false} IndexOfRemoveFirst(s: seq<string>, x: string, gone: string)
    requires x in s && x != gone
    ensures |RemoveFirst(s, gone)| - IndexOf(RemoveFirst(s, gone), x) <= |s| - IndexOf(s, x)
  {
    RemoveFirstLength(s, gone);
    if s[0] == x {
    } else if s[0] == gone {
    } else {
      IndexOfRemoveFirst(s[1..], x, gone);
    }
  }

  lemma {:induction false} IndexOfFilter(s: seq<string>, x: string, p: string -> bool)
    requires x in s && p(x)
    ensures |Filter(s, p)| - IndexOf(Filter(s, p), x) <= |s| - IndexOf(s, x)
  {
    if s[0] == x {
      FilterLength(s[1..], p);
    } else {
      IndexOfFilter(s[1..], x, p);
    }
  }

  lemma {:induction false} IndexOfAppend(s: seq<string>, x: string, y: string)
    requires x in s
    ensures IndexOf(s + [y], x) == IndexOf(s, x)
  {
    if s[0] != x {
      assert (s + [y])[1..] == s[1..] + [y];
      IndexOfAppend(s[1..], x, y);
    }
  }

  // ---- Results ----

  /** One operation never takes the cache past its bound (one slot when `max` is zero). */
  lemma SizeBoundStep<B>(c: Cache<B>, op: Op<B>, ttl: int, max: nat)
    requires |c.keys| <= max || |c.keys| <= 1
    ensures var d := Apply(c, op, ttl, max); |d.keys| <= max || |d.keys| <= 1
  {
    match op
    case Check(key, now) => RemoveFirstLength(c.keys, key);
    case Process(key, status, body, now) =>
      if c.keys != [] {
        RemoveFirstLength(c.keys, c.keys[0]);
      }
    case Cleanup(now) => FilterLength(c.keys, k => k in c.vals && !Stale(c.vals[k], now, ttl));
  }

  lemma {:induction false} SizeBound<B>(c: Cache<B>, ops: seq<Op<B>>, ttl: int, max: nat)
    requires |c.keys| <= max || |c.keys| <= 1
    ensures |RunOps(c, ops, ttl, max).keys| <= if max >= 1 then max else 1
    decreases |ops|
  {
    if ops != [] {
      SizeBoundStep(c, ops[0], ttl, max);
      SizeBound(Apply(c, ops[0], ttl, max), ops[1..], ttl, max);
    }
  }

  /** Recording another key evicts `key` exactly when its rank is used up. */
  lemma EvictionExact<B>(c: Cache<B>, key: string, other: string, status: int, body: B, now: int, max: nat)
    requires key in c.vals && |c.keys| <= max && other != "" && other != key
    ensures key in AfterRecord(c, other, status, body, now, max).vals <==> Rank(c, key, max) > 0
  {
    IndexOfBound(c.keys, key);
  }

  /** A key whose rank is positive survives one recording and loses at most one rank. */
  lemma RecordKeepsRank<B>(c: Cache<B>, key: string, op: Op<B>, max: nat)
    requires key in c.vals && |c.keys| <= max && Rank(c, key, max) > 0 && op.Process?
    ensures var d := Apply(c, op, 0, max);
      && key in d.vals && |d.keys| <= max && Rank(d, key, max) >= Rank(c, key, max) - 1
      && (op.key != key ==> d.vals[key] == c.vals[key])
  {
    if op.key != "" {
      var e := Evicted(c, max);
      IndexOfBound(c.keys, key);
      if |c.keys| >= max {
        var oldest := c.keys[0];
        assert key != oldest;
        RemoveFirstLength(c.keys, oldest);
        IndexOfRemoveFirst(c.keys, key, oldest);
      }
      assert key in e.vals && Rank(e, key, max) >= Rank(c, key, max) - (if |c.keys| >= max then 1 else 0);
      if op.key !in e.vals {
        IndexOfAppend(e.keys, key, op.key);
      }
    }
  }

  /** Lookups and sweeps never lower the rank of a key that is not stale. */
  lemma SweepKeepsRank<B>(c: Cache<B>, key: string, op: Op<B>, ttl: int, max: nat)
    requires key in c.vals && |c.keys| <= max && !op.Process? && !Stale(c.vals[key], op.now, ttl)
    ensures var d := Apply(c, op, ttl, max);
      && key in d.vals && |d.keys| <= max && Rank(d, key, max) >= Rank(c, key, max)
      && d.vals[key] == c.vals[key]
  {
    match op
    case Check(k, now) =>
      RemoveFirstLength(c.keys, k);
      if k != key {
        IndexOfRemoveFirst(c.keys, key, k);
      }
    case Cleanup(now) =>
      var p := k => k in c.vals && !Stale(c.vals[k], now, ttl);
      FilterLength(c.keys, p);
      IndexOfFilter(c.keys, key, p);
  }

  /** Within its rank and its time to live, a present key survives any run. */
  lemma {:induction false} Survives<B>(c: Cache<B>, key: string, ops: seq<Op<B>>, ttl: int, max: nat, t0: int)
    requires key in c.vals && |c.keys| <= max
    requires Recordings(ops) <= Rank(c, key, max)
    requires t0 <= c.vals[key].processedAt
    requires forall op :: op in ops ==> t0 <= op.now <= t0 + ttl
    ensures var d := RunOps(c, ops, ttl, max);
      && key in d.vals && t0 <= d.vals[key].processedAt
      && ((forall op :: op in ops && op.Process? ==> op.key != key) ==> d.vals[key] == c.vals[key])
    decreases |ops|
  {
    if ops != [] {
      var op := ops[0];
      if op.Process? {
        RecordKeepsRank(c, key, op, max);
      } else {
        SweepKeepsRank(c, key, op, ttl, max);
      }
      Survives(Apply(c, op, ttl, max), key, ops[1..], ttl, max, t0);
    }
  }

  /**
   Retention: a key absent when recorded survives any `max - 1` later recordings
   made within its time to live, and its record is unchanged unless recorded again.
   */
  lemma Retention<B>(c: Cache<B>, key: string, status: int, body: B, t0: int, ops: seq<Op<B>>, ttl: int, max: nat)
    requires max >= 1 && |c.keys| <= max && key != "" && key !in c.vals
    requires Recordings(ops) <= max - 1
    requires forall op :: op in ops ==> t0 <= op.now <= t0 + ttl
    ensures var d := RunOps(AfterRecord(c, key, status, body, t0, max), ops, ttl, max);
      && key in d.vals
      && ((forall op :: op in ops && op.Process? ==> op.key != key)
          ==> forall t :: t <= t0 + ttl ==> Lookup(d, key, t, ttl) == Some(Record(key, t0, status, body)))
  {
    var e := Evicted(c, max);
    if c.keys != [] {
      RemoveFirstLength(c.keys, c.keys[0]);
    }
    var d := AfterRecord(c, key, status, body, t0, max);
    assert d.keys == e.keys + [key];
    IndexOfLast(e.keys, key);
    Survives(d, key, ops, ttl, max, t0);
  }

  lemma {:induction false} IndexOfLast(s: seq<string>, x: string)
    requires x !in s
    ensures IndexOf(s + [x], x) == |s|
  {
    if s != [] {
      assert (s + [x])[1..] == s[1..] + [x];
      IndexOfLast(s[1..], x);
    }
  }

  // ---- The bound is exact ----

  ghost predicate Within<B>(ops: seq<Op<B>>, from: int, to: int) {
    forall i | 0 <= i < |ops| :: from <= ops[i].now <= to
  }

  /** The key is still there after every run with `n` recordings within its record's time to live. */
  ghost predicate SurvivesAll<B(!new)>(c: Cache<B>, key: string, n: nat, ttl: int, max: nat)
    requires key in c.vals
  {
    var t0 := c.vals[key].processedAt;
    forall ops: seq<Op<B>> :: Recordings(ops) == n && Within(ops, t0, t0 + ttl) ==> key in RunOps(c, ops, ttl, max).vals
  }

  /** Recording a new key costs each present key exactly one rank, and evicts the one that has none left. */
  lemma NewKeyCostsOne<B>(c: Cache<B>, key: string, other: string, status: int, body: B, now: int, max: nat)
    requires key in c.vals && |c.keys| <= max && other != "" && other !in c.vals
    ensures var d := AfterRecord(c, other, status, body, now, max);
      && |d.keys| <= max
      && (key in d.vals <==> Rank(c, key, max) > 0)
      && (key in d.vals ==> Rank(d, key, max) == Rank(c, key, max) - 1)
  {
    IndexOfBound(c.keys, key);
    var e := Evicted(c, max);
    if |c.keys| >= max {
      RemoveFirstLength(c.keys, c.keys[0]);
      assert e.keys == c.keys[1..];
    }
    assert other !in e.vals;
    if key in e.vals {
      IndexOfAppend(e.keys, key, other);
    }
  }

  function LongestKey(keys: seq<string>): nat {
    if keys == [] then 0 else if |keys[0]| > LongestKey(keys[1..]) then |keys[0]| else LongestKey(keys[1..])
  }

  /** A key longer than all of `keys`. */
  function NewKey(keys: seq<string>): string {
    seq(LongestKey(keys) + 1, _ => 'k')
  }

  lemma {:induction false} NoneLonger(keys: seq<string>, k: string)
    requires k in keys
    ensures |k| <= LongestKey(keys)
  {
    if keys[0] != k {
      NoneLonger(keys[1..], k);
    }
  }

  lemma NewKeyIsNew(keys: seq<string>)
    ensures NewKey(keys) !in keys && NewKey(keys) != ""
  {
    if NewKey(keys) in keys {
      NoneLonger(keys, NewKey(keys));
    }
  }

  /** `n` recordings at time `t`, each of a key that is new and not `key`. */
  function Flood<B>(c: Cache<B>, key: string, n: nat, body: B, t: int, ttl: int, max: nat): seq<Op<B>>
    decreases n
  {
    if n == 0 then []
    else
      var op := Process(NewKey([key] + c.keys), 200, body, t);
      [op] + Flood(Apply(c, op, ttl, max), key, n - 1, body, t, ttl, max)
  }

  lemma FloodNext<B>(c: Cache<B>, key: string, n: nat, body: B, t: int, ttl: int, max: nat)
    requires n > 0
    ensures var op := Process(NewKey([key] + c.keys), 200, body, t);
      Flood(c, key, n, body, t, ttl, max) == [op] + Flood(Apply(c, op, ttl, max), key, n - 1, body, t, ttl, max)
  {
  }

  lemma FloodNone<B>(c: Cache<B>, key: string, body: B, t: int, ttl: int, max: nat)
    ensures var ops := Flood(c, key, 0, body, t, ttl, max); ops == [] && Recordings(ops) == 0 && Within(ops, t, t)
  {
  }

  lemma {:induction false} FloodFacts<B>(c: Cache<B>, key: string, n: nat, body: B, t: int, ttl: int, max: nat)
    ensures var ops := Flood(c, key, n, body, t, ttl, max); Recordings(ops) == n && Within(ops, t, t)
    decreases n
  {
    hide *;
    if n == 0 {
      FloodNone(c, key, body, t, ttl, max);
    } else {
      var op := Process(NewKey([key] + c.keys), 200, body, t);
      var d := Apply(c, op, ttl, max);
      FloodNext(c, key, n, body, t, ttl, max);
      FloodFacts(d, key, n - 1, body, t, ttl, max);
      OneMoreOp(op, Flood(d, key, n - 1, body, t, ttl, max), t);
    }
  }

  lemma OneMoreOp<B>(op: Op<B>, rest: seq<Op<B>>, t: int)
    requires op.Process? && op.now == t && Within(rest, t, t)
    ensures Recordings([op] + rest) == 1 + Recordings(rest) && Within([op] + rest, t, t)
  {
    assert ([op] + rest)[1..] == rest;
  }

  lemma RunOpsCons<B>(c: Cache<B>, op: Op<B>, rest: seq<Op<B>>, ttl: int, max: nat)
    ensures RunOps(c, [op] + rest, ttl, max) == RunOps(Apply(c, op, ttl, max), rest, ttl, max)
  {
    assert ([op] + rest)[1..] == rest;
  }

  /** More new keys than its rank drive a key out, for good. */
  lemma {:induction false} FloodEvicts<B>(c: Cache<B>, key: string, n: nat, body: B, t: int, ttl: int, max: nat)
    requires 0 < max && |c.keys| <= max && (key in c.vals ==> n > Rank(c, key, max))
    ensures key !in RunOps(c, Flood(c, key, n, body, t, ttl, max), ttl, max).vals
    decreases n
  {
    hide Rank, NoDup, RawMap.Valid, Evicted, NewKey, AfterRecord;
    RankIsNat(c, key, max);
    if n > 0 {
      var op := Process(NewKey([key] + c.keys), 200, body, t);
      var d := Apply(c, op, ttl, max);
      FloodStep(c, key, body, t, ttl, max);
      FloodEvicts(d, key, n - 1, body, t, ttl, max);
      RunOpsCons(c, op, Flood(d, key, n - 1, body, t, ttl, max), ttl, max);
    }
  }

  lemma RankIsNat<B>(c: Cache<B>, key: string, max: nat)
    requires |c.keys| <= max
    ensures Rank(c, key, max) >= 0
  {
    IndexOfBound(c.keys, key);
  }

  lemma FloodStep<B>(c: Cache<B>, key: string, body: B, t: int, ttl: int, max: nat)
    requires 0 < max && |c.keys| <= max
    ensures var d := Apply(c, Process(NewKey([key] + c.keys), 200, body, t), ttl, max);
      && |d.keys| <= max
      && (key in d.vals ==> key in c.vals && Rank(d, key, max) == Rank(c, key, max) - 1)
  {
    hide Rank, NoDup;
    var other := NewKey([key] + c.keys);
    NewKeyIsNew([key] + c.keys);
    assert other !in c.keys && other != key;
    if key in c.vals {
      NewKeyCostsOne(c, key, other, 200, body, t, max);
    } else {
      StaysAbsent(c, key, other, 200, body, t, max);
    }
  }

  lemma StaysAbsent<B>(c: Cache<B>, key: string, other: string, status: int, body: B, now: int, max: nat)
    requires |c.keys| <= max && key !in c.vals && other != key && other != "" && other !in c.vals
    ensures var d := AfterRecord(c, other, status, body, now, max); key !in d.vals && |d.keys| <= (if max >= 1 then max else 1)
  {
    if c.keys != [] {
      RemoveFirstLength(c.keys, c.keys[0]);
    }
  }

  /** A key outlives every run of `n` recordings within its time to live exactly when `n` is at most its rank. */
  lemma SurvivesExactly<B(!new)>(c: Cache<B>, key: string, n: nat, body: B, ttl: int, max: nat)
    requires key in c.vals && |c.keys| <= max && ttl >= 0
    ensures SurvivesAll(c, key, n, ttl, max) <==> n <= Rank(c, key, max)
  {
    var t0 := c.vals[key].processedAt;
    if n <= Rank(c, key, max) {
      forall ops: seq<Op<B>> | Recordings(ops) == n && Within(ops, t0, t0 + ttl) ensures key in RunOps(c, ops, ttl, max).vals {
        Survives(c, key, ops, ttl, max, t0);
      }
    } else {
      var ops := Flood(c, key, n, body, t0, ttl, max);
      FloodFacts(c, key, n, body, t0, ttl, max);
      FloodEvicts(c, key, n, body, t0, ttl, max);
      assert Within(ops, t0, t0 + ttl);
    }
  }

  /**
   Recording a present key again gives it the full bound of a new one exactly when
   it ends up last: it was last already, or it was the oldest of a full cache.
   */
  lemma RerecordedKeepsBoundExactly<B(!new)>(c: Cache<B>, key: string, status: int, body: B, now: int, ttl: int, max: nat)
    requires key in c.vals && key != "" && |c.keys| <= max && ttl >= 0
    ensures var d := AfterRecord(c, key, status, body, now, max);
      && key in d.vals
      && (SurvivesAll(d, key, max - 1, ttl, max) <==> c.keys[|c.keys| - 1] == key || (|c.keys| == max && c.keys[0] == key))
  {
    var d := AfterRecord(c, key, status, body, now, max);
    RerecordedRank(c, key, status, body, now, max);
    SurvivesExactly(d, key, max - 1, body, ttl, max);
  }

  lemma RerecordedRank<B>(c: Cache<B>, key: string, status: int, body: B, now: int, max: nat)
    requires key in c.vals && key != "" && |c.keys| <= max
    ensures var d := AfterRecord(c, key, status, body, now, max);
      && key in d.vals && 0 < |d.keys| <= max
      && (Rank(d, key, max) >= max - 1 <==> c.keys[|c.keys| - 1] == key || (|c.keys| == max && c.keys[0] == key))
  {
    hide NoDup;
    var d := AfterRecord(c, key, status, body, now, max);
    RerecordedKeys(c, key, status, body, now, max);
    assert key in c.keys;
    IndexOfBound(c.keys, key);
    hide AfterRecord;
    if |c.keys| == max {
      var rest := c.keys[1..];
      if c.keys[0] == key {
        FirstOnce(c.keys);
        IndexOfLast(rest, key);
      } else {
        LastPlace(rest, key);
      }
    } else {
      LastPlace(c.keys, key);
    }
  }

  lemma FirstOnce(s: seq<string>)
    requires s != [] && NoDup(s)
    ensures s[0] !in s[1..]
  {
  }

  lemma LastPlace(s: seq<string>, x: string)
    requires x in s && NoDup(s)
    ensures IndexOf(s, x) <= |s| - 1 && (IndexOf(s, x) == |s| - 1 <==> s[|s| - 1] == x)
  {
    IndexOfBound(s, x);
  }

  lemma RerecordedKeys<B>(c: Cache<B>, key: string, status: int, body: B, now: int, max: nat)
    requires key in c.vals && key != "" && |c.keys| <= max
    ensures c.keys != [] && NoDup(c.keys) && NoDup(c.keys[1..])
    ensures var d := AfterRecord(c, key, status, body, now, max);
      && key in d.vals
      && d.keys == if |c.keys| < max then c.keys else if c.keys[0] == key then c.keys[1..] + [key] else c.keys[1..]
  {
  }

  /**
   The bound needs the key to be absent when recorded: with room for three, a
   key recorded again keeps its old place and is gone after two more recordings.
   */
  lemma RerecordedKeyDiesEarly<B>(b: B, ttl: int)
    requires ttl >= 0
    ensures var c := RunOps(Empty(), [Process("a", 200, b, 0), Process("b", 200, b, 0)], ttl, 3);
      && "a" in c.vals
      && "a" !in RunOps(AfterRecord(c, "a", 200, b, 0, 3), [Process("c", 200, b, 0), Process("d", 200, b, 0)], ttl, 3).vals
  {
    RunTwo(Empty(), Process("a", 200, b, 0), Process("b", 200, b, 0), ttl, 3);
    var c := RunOps(Empty(), [Process("a", 200, b, 0), Process("b", 200, b, 0)], ttl, 3);
    assert c.keys == ["a", "b"];
    var d := AfterRecord(c, "a", 200, b, 0, 3);
    assert d.keys == ["a", "b"];
    RunTwo(d, Process("c", 200, b, 0), Process("d", 200, b, 0), ttl, 3);
    hide RunOps;
    FillThenEvict(d, "a", "b", "c", "d", b);
  }

  /** A full cache drops its oldest key for a new one. */
  lemma FillThenEvict<B>(d: Cache<B>, k1: string, k2: string, k3: string, k4: string, b: B)
    requires d.keys == [k1, k2] && k3 !in {k1, k2, ""} && k4 !in {k1, k2, k3, ""}
    ensures k1 !in AfterRecord(AfterRecord(d, k3, 200, b, 0, 3), k4, 200, b, 0, 3).vals
  {
    assert k1 in d.keys && k2 in d.keys && forall k :: k in d.vals ==> k == k1 || k == k2;
    var e := AfterRecord(d, k3, 200, b, 0, 3);
    assert e.keys == [k1, k2, k3];
  }

  lemma RunTwo<B>(c: Cache<B>, first: Op<B>, second: Op<B>, ttl: int, max: nat)
    ensures RunOps(c, [first, second], ttl, max) == Apply(Apply(c, first, ttl, max), second, ttl, max)
  {
    var ops := [first, second];
    assert ops[1..] == [second] && [second][1..] == [];
    var d := Apply(c, first, ttl, max);
    assert RunOps(d, [second], ttl, max) == RunOps(Apply(d, second, ttl, max), [], ttl, max);
  }

  ghost predicate KeyedByOwnKey<B>(c: Cache<B>) {
    forall k :: k in c.vals ==> c.vals[k].key == k
  }

  /** A lookup only ever answers with the key's own record, and never with a stale one. */
  lemma {:induction false} LookupFresh<B>(c: Cache<B>, ops: seq<Op<B>>, key: string, now: int, ttl: int, max: nat)
    requires KeyedByOwnKey(c)
    ensures KeyedByOwnKey(RunOps(c, ops, ttl, max))
    ensures var hit := Lookup(RunOps(c, ops, ttl, max), key, now, ttl);
      hit.Some? ==> hit.value.key == key && now - hit.value.processedAt <= ttl
    decreases |ops|
  {
    if ops != [] {
      LookupFresh(Apply(c, ops[0], ttl, max), ops[1..], key, now, ttl, max);
    }
  }
}
