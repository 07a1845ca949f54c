/**
 Paused-correlation entries and the in-memory store that holds them:
 `correlation-store-memory.ts` over `correlation-store-shared.ts`.
 */
module CorrelationStore {
  import opened JsMap
  import opened Wrappers

  datatype Entry = Entry(
    correlationId: string, webhookPath: string, executionId: string, workflowId: string,
    pausedNodeId: string, pausedAt: int, timeoutAt: int, webhookFilter: Option<string>,
    correlationSource: string, correlationJsonPath: Option<string>,
    correlationHeader: Option<string>, correlationQueryParam: Option<string>)

  type Entries = OrderedMap<string, Entry>

  /** A webhook or message that matched nothing; `P` is the type of its payload. */
  datatype Unmatched<P> = Unmatched(path: string, correlationId: Option<string>, payload: P, receivedAt: int)

  const MAX_UNMATCHED_LOG: nat := 100

  /** The boundary used by sweeps; matching uses the strict `now > timeoutAt` instead. */
  predicate Expired(e: Entry, now: int) {
    e.timeoutAt > 0 && e.timeoutAt <= now
  }

  function Added(m: Entries, e: Entry): Entries {
    if e.correlationId in m.vals then m else Put(m, e.correlationId, e)
  }

  /** What a sweep at `now` leaves. */
  function Swept(m: Entries, now: int): Entries {
    Restrict(m, k => k in m.vals && !Expired(m.vals[k], now))
  }

  /** The last `n` elements. */
  function LastN<T>(s: seq<T>, n: nat): seq<T> {
    if |s| <= n then s else s[|s| - n..]
  }

  ghost predicate KeyedById(m: Entries) {
    forall k :: k in m.vals ==> m.vals[k].correlationId == k
  }

  class InMemoryServerStore<P> {
    var entries: Entries
    var unmatchedWebhooks: seq<Unmatched<P>>

    constructor ()
      ensures entries == Empty() && unmatchedWebhooks == []
    {
      entries, unmatchedWebhooks := Empty(), [];
    }

    method Add(e: Entry) returns (added: bool)
      modifies this`entries
      ensures added <==> e.correlationId !in old(entries).vals
      ensures entries == Added(old(entries), e)
    {
      if e.correlationId in entries.vals {
        return false;
      }
      entries := Put(entries, e.correlationId, e);
      return true;
    }

    method Remove(id: string) returns (removed: Option<Entry>)
      modifies this`entries
      ensures removed == if id in old(entries).vals then Some(old(entries).vals[id]) else None
      ensures entries == Delete(old(entries), id)
    {
      if id in entries.vals {
        removed := Some(entries.vals[id]);
        entries := Delete(entries, id);
      } else {
        removed := None;
        DeleteAbsent(entries, id);
      }
    }

    method CleanupExpired(now: int) returns (count: nat)
      modifies this`entries
      ensures entries == Swept(old(entries), now)
      ensures count == |old(entries).keys| - |entries.keys|
    {
      var was := entries;
      ghost var keep := (k: string) => k in was.vals && !Expired(was.vals[k], now);
      SweepStart(was, keep);
      count := 0;
      for i := 0 to |was.keys|
        invariant SweptUpTo(was, i, keep, entries)
        invariant |entries.keys| + count == |was.keys|
      {
        var id := was.keys[i];
        SweepStep(was, i, keep, entries);
        if entries.vals[id].timeoutAt > 0 && entries.vals[id].timeoutAt <= now {
          RemoveFirstLength(entries.keys, id);
          entries := Delete(entries, id);
          count := count + 1;
        }
      }
      SweepDone(was, keep, entries);
    }

    method LogUnmatched(path: string, id: Option<string>, payload: P, now: int)
      modifies this`unmatchedWebhooks
      ensures unmatchedWebhooks == LastN(old(unmatchedWebhooks) + [Unmatched(path, id, payload, now)], 100)
    {
      unmatchedWebhooks := unmatchedWebhooks + [Unmatched(path, id, payload, now)];
      ghost var all := unmatchedWebhooks;
      while |unmatchedWebhooks| > MAX_UNMATCHED_LOG
        invariant |unmatchedWebhooks| <= |all| && unmatchedWebhooks == all[|all| - |unmatchedWebhooks|..]
        invariant |all| >= MAX_UNMATCHED_LOG ==> |unmatchedWebhooks| >= MAX_UNMATCHED_LOG
        invariant |all| < MAX_UNMATCHED_LOG ==> unmatchedWebhooks == all
      {
        unmatchedWebhooks := unmatchedWebhooks[1..];
      }
    }
  }

  lemma DeleteAbsent<V>(m: OrderedMap<string, V>, k: string)
    requires k !in m.vals
    ensures Delete(m, k) == m
  {
    RemoveFirstLength(m.keys, k);
    assert m.vals - {k} == m.vals;
  }

  /** However many webhooks go unmatched, the log is the last hundred of them. */
  lemma {:induction false} UnmatchedLogIsSuffix<T>(log: seq<T>, more: seq<T>, n: nat)
    requires n > 0
    ensures LogAll(LastN(log, n), more, n) == LastN(log + more, n)
    decreases |more|
  {
    if more == [] {
      assert log + more == log;
    } else {
      assert LastN(LastN(log, n) + [more[0]], n) == LastN(log + [more[0]], n);
      assert log + [more[0]] + more[1..] == log + more;
      UnmatchedLogIsSuffix(log + [more[0]], more[1..], n);
    }
  }

  function LogAll<T>(kept: seq<T>, more: seq<T>, n: nat): seq<T>
    decreases |more|
  {
    if more == [] then kept else LogAll(LastN(kept + [more[0]], n), more[1..], n)
  }
}
