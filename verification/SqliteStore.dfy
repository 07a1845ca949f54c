/**
 The write-through store of `correlation-store-sqlite.ts`: a memory map plus a
 table with a primary key. The table is a map from key to row whose insert
 fails on a duplicate key, after memory was already written.
 */
module SqliteStore {
  import opened JsMap
  import opened CorrelationStore
  import opened Wrappers

  datatype Column = Null | Text(text: string)

  datatype Row = Row(
    correlation_id: string, webhook_path: string, execution_id: string, workflow_id: string,
    paused_node_id: string, paused_at: int, timeout_at: int, webhook_filter: Column,
    correlation_source: string, correlation_json_path: Column,
    correlation_header: Column, correlation_query_param: Column,
    state_json: string, resumed: int)

  type Table = map<string, Row>

  datatype AddResult = AddOk | AlreadyPaused | UniqueViolation

  function ToColumn(o: Option<string>): Column {
    if o.Some? then Text(o.value) else Null
  }

  function FromColumn(c: Column): Option<string> {
    if c.Text? then Some(c.text) else None
  }

  function EntryToRow(e: Entry): Row {
    Row(e.correlationId, e.webhookPath, e.executionId, e.workflowId, e.pausedNodeId, e.pausedAt, e.timeoutAt,
        ToColumn(e.webhookFilter), e.correlationSource, ToColumn(e.correlationJsonPath),
        ToColumn(e.correlationHeader), ToColumn(e.correlationQueryParam), "{}", 0)
  }

  function RowToEntry(r: Row): Entry {
    Entry(r.correlation_id, r.webhook_path, r.execution_id, r.workflow_id, r.paused_node_id, r.paused_at, r.timeout_at,
          FromColumn(r.webhook_filter), r.correlation_source, FromColumn(r.correlation_json_path),
          FromColumn(r.correlation_header), FromColumn(r.correlation_query_param))
  }

  predicate RowExpired(r: Row, now: int) {
    r.timeout_at > 0 && r.timeout_at <= now
  }

  /** Memory and table of one process; the table outlives the process. */
  datatype Disk = Disk(entries: Entries, rows: Table)

  /** What the table says is paused. */
  function Unresumed(rows: Table): map<string, Entry> {
    map id | id in rows && rows[id].resumed == 0 :: RowToEntry(rows[id])
  }

  /** The write-through promise: memory holds exactly the unresumed rows. */
  ghost predicate Synced(d: Disk) {
    && d.entries.vals == Unresumed(d.rows)
    && forall id :: id in d.rows ==> d.rows[id].correlation_id == id
  }

  class SqliteServerStore {
    var entries: Entries
    var rows: Table

    ghost function State(): Disk reads this { Disk(entries, rows) }

    /** Opens an existing database: the table is there, memory starts empty. */
    constructor (rows: Table)
      ensures State() == Disk(Empty(), rows)
    {
      this.entries, this.rows := Empty(), rows;
    }

    method Init(now: int)
      requires entries == Empty()
      requires forall id :: id in rows ==> rows[id].correlation_id == id
      modifies this
      ensures Restarted(old(rows), now, State())
    {
      var todo := set id | id in rows && rows[id].resumed == 0;
      ghost var was, loaded: set<string> := rows, {};
      while todo != {}
        invariant loaded !! todo && loaded + todo == set id | id in was && was[id].resumed == 0
        invariant LoadedSoFar(was, loaded, now, State())
        decreases todo
      {
        var id :| id in todo;
        LoadStep(was, loaded, now, State(), id);
        var row := rows[id];
        if row.timeout_at > 0 && row.timeout_at <= now {
          rows := rows - {id};
        } else {
          var entry := RowToEntry(row);
          entries := Put(entries, entry.correlationId, entry);
        }
        todo, loaded := todo - {id}, loaded + {id};
      }
    }

    method Add(e: Entry) returns (r: AddResult)
      modifies this
      ensures Inserted(old(State()), e) == (State(), r)
    {
      if e.correlationId in entries.vals {
        return AlreadyPaused;
      }
      entries := Put(entries, e.correlationId, e);
      if e.correlationId in rows {
        return UniqueViolation;
      }
      rows := rows[e.correlationId := EntryToRow(e)];
      return AddOk;
    }

    method Remove(id: string) returns (removed: Option<Entry>)
      modifies this
      ensures removed == if id in old(entries).vals then Some(old(entries).vals[id]) else None
      ensures State() == Resumed(old(State()), id)
    {
      if id !in entries.vals {
        return None;
      }
      removed := Some(entries.vals[id]);
      entries := Delete(entries, id);
      if id in rows {
        rows := rows[id := rows[id].(resumed := 1)];
      }
    }

    method CleanupExpired(now: int) returns (count: nat)
      modifies this
      ensures State() == Cleaned(old(State()), now)
      ensures count == |old(entries).keys| - |entries.keys|
    {
      hide NoDup, RawMap.Valid, RowsSwept;
      var was, wasRows := entries, rows;
      ghost var keep := (k: string) => k in was.vals && !Expired(was.vals[k], now);
      SweepStart(was, keep);
      RowsSweptStart(wasRows, was.keys, keep);
      count := 0;
      for i := 0 to |was.keys|
        invariant SweptUpTo(was, i, keep, entries)
        invariant |entries.keys| + count == |was.keys|
        invariant RowsSwept(wasRows, was.keys[..i], keep, rows)
      {
        var id := was.keys[i];
        SweepStep(was, i, keep, entries);
        RowsSweptStep(wasRows, was.keys, i, keep, rows);
        if entries.vals[id].timeoutAt > 0 && entries.vals[id].timeoutAt <= now {
          RemoveFirstLength(entries.keys, id);
          entries := Delete(entries, id);
          rows := rows - {id};
          count := count + 1;
        }
      }
      SweepDone(was, keep, entries);
      RowsSweptDone(Disk(was, wasRows), keep, rows, now);
    }
  }

  // ---- Specification of the operations on memory and table ----

  function Inserted(d: Disk, e: Entry): (Disk, AddResult) {
    if e.correlationId in d.entries.vals then (d, AlreadyPaused)
    else if e.correlationId in d.rows then (d.(entries := Put(d.entries, e.correlationId, e)), UniqueViolation)
    else (Disk(Put(d.entries, e.correlationId, e), d.rows[e.correlationId := EntryToRow(e)]), AddOk)
  }

  function Resumed(d: Disk, id: string): Disk {
    if id !in d.entries.vals then d
    else Disk(Delete(d.entries, id), if id in d.rows then d.rows[id := d.rows[id].(resumed := 1)] else d.rows)
  }

  function Cleaned(d: Disk, now: int): Disk {
    Disk(Swept(d.entries, now),
         map id | id in d.rows && !(id in d.entries.vals && Expired(d.entries.vals[id], now)) :: d.rows[id])
  }

  /** A restart at `now`: unexpired unresumed rows are loaded, expired ones deleted; listing order is the database's. */
  ghost predicate Restarted(rows: Table, now: int, d: Disk) {
    && d.entries.vals == (map id | id in rows && rows[id].resumed == 0 && !RowExpired(rows[id], now) :: RowToEntry(rows[id]))
    && d.rows == (map id | id in rows && !(rows[id].resumed == 0 && RowExpired(rows[id], now)) :: rows[id])
  }

  /** `Init` part way: the rows in `loaded` have been read. */
  ghost predicate LoadedSoFar(was: Table, loaded: set<string>, now: int, d: Disk) {
    && d.entries.vals == (map id | id in was && id in loaded && !RowExpired(was[id], now) :: RowToEntry(was[id]))
    && d.rows == (map id | id in was && !(id in loaded && RowExpired(was[id], now)) :: was[id])
  }

  lemma LoadStep(was: Table, loaded: set<string>, now: int, d: Disk, id: string)
    requires LoadedSoFar(was, loaded, now, d)
    requires id in was && id !in loaded && was[id].correlation_id == id
    ensures id in d.rows && d.rows[id] == was[id]
    ensures LoadedSoFar(was, loaded + {id}, now,
              if RowExpired(was[id], now) then d.(rows := d.rows - {id})
              else d.(entries := Put(d.entries, id, RowToEntry(was[id]))))
  {
  }

  /** `CleanupExpired` part way through the keys. */
  ghost predicate RowsSwept(was: Table, seen: seq<string>, keep: string -> bool, rows: Table) {
    rows == map id | id in was && !(id in seen && !keep(id)) :: was[id]
  }

  lemma RowsSweptStart(was: Table, keys: seq<string>, keep: string -> bool)
    ensures RowsSwept(was, keys[..0], keep, was)
  {
  }

  lemma RowsSweptStep(was: Table, keys: seq<string>, i: nat, keep: string -> bool, rows: Table)
    requires i < |keys| && RowsSwept(was, keys[..i], keep, rows)
    ensures RowsSwept(was, keys[..i + 1], keep, if keep(keys[i]) then rows else rows - {keys[i]})
  {
    assert keys[..i + 1] == keys[..i] + [keys[i]];
  }

  lemma RowsSweptDone(was: Disk, keep: string -> bool, rows: Table, now: int)
    requires RowsSwept(was.rows, was.entries.keys[..|was.entries.keys|], keep, rows)
    requires forall k :: k in was.entries.vals ==> keep(k) == !Expired(was.entries.vals[k], now)
    ensures rows == Cleaned(was, now).rows
  {
    assert was.entries.keys[..|was.entries.keys|] == was.entries.keys;
  }

  // ---- Whole runs, with crashes ----

  datatype StoreEvent = Pause(e: Entry) | Resume(id: string) | Sweep(now: int) | CrashAndInit(now: int)

  ghost predicate Next(d: Disk, ev: StoreEvent, d': Disk, threw: bool) {
    match ev
    case Pause(e) => d' == Inserted(d, e).0 && (threw <==> Inserted(d, e).1 == UniqueViolation)
    case Resume(id) => d' == Resumed(d, id) && !threw
    case Sweep(now) => d' == Cleaned(d, now) && !threw
    case CrashAndInit(now) => Restarted(d.rows, now, d') && !threw
  }

  ghost predicate Runs(d: Disk, evs: seq<StoreEvent>, d': Disk, threw: bool)
    decreases |evs|
  {
    if evs == [] then d' == d && !threw
    else exists mid, t, u :: Next(d, evs[0], mid, t) && Runs(mid, evs[1..], d', u) && (threw <==> t || u)
  }

  /** The in-memory store of the same run; it never crashes, and sweeps where the other restarts. */
  function Reference(m: Entries, ev: StoreEvent): Entries {
    match ev
    case Pause(e) => Added(m, e)
    case Resume(id) => Delete(m, id)
    case Sweep(now) => Swept(m, now)
    case CrashAndInit(now) => Swept(m, now)
  }

  function ReferenceRun(m: Entries, evs: seq<StoreEvent>): Entries
    decreases |evs|
  {
    if evs == [] then m else ReferenceRun(Reference(m, evs[0]), evs[1..])
  }

  /** No id that was paused and then removed is paused again, judged on the in-memory store alone. */
  predicate NoRepause(m: Entries, removed: set<string>, evs: seq<StoreEvent>)
    decreases |evs|
  {
    evs == [] ||
    (&& (evs[0].Pause? ==> evs[0].e.correlationId in m.vals || evs[0].e.correlationId !in removed)
     && NoRepause(Reference(m, evs[0]), RemovedBy(m, removed, evs[0]), evs[1..]))
  }

  function RemovedBy(m: Entries, removed: set<string>, ev: StoreEvent): set<string> {
    if ev.Resume? && ev.id in m.vals then removed + {ev.id} else removed
  }

  /** Memory agrees with the reference, memory with the table, and the resumed rows are the removed ids. */
  ghost predicate Coupled(d: Disk, m: Entries, removed: set<string>) {
    && Synced(d) && d.entries.vals == m.vals && KeyedById(m)
    && removed == set id | id in d.rows && d.rows[id].resumed != 0
  }

  lemma RowRoundTrip(e: Entry)
    ensures RowToEntry(EntryToRow(e)) == e
  {
  }

  lemma CoupledPause(d: Disk, m: Entries, removed: set<string>, e: Entry)
    requires Coupled(d, m, removed)
    ensures var (d', r) := Inserted(d, e);
      && (r == UniqueViolation <==> e.correlationId !in m.vals && e.correlationId in removed)
      && (r != UniqueViolation ==> Coupled(d', Added(m, e), removed))
      && (r == UniqueViolation ==> !Synced(d'))
  {
    hide NoDup, RawMap.Valid;
    var (d', r) := Inserted(d, e);
    RowRoundTrip(e);
    if r == UniqueViolation {
      assert e.correlationId in d'.entries.vals && e.correlationId !in Unresumed(d'.rows);
    } else if r == AddOk {
      assert d'.entries.vals == Unresumed(d'.rows);
    }
  }

  lemma CoupledResume(d: Disk, m: Entries, removed: set<string>, id: string)
    requires Coupled(d, m, removed)
    ensures Coupled(Resumed(d, id), Delete(m, id), RemovedBy(m, removed, Resume(id)))
  {
    hide NoDup, RawMap.Valid;
    if id in m.vals {
      assert id in Unresumed(d.rows);
    } else {
      DeleteAbsent(m, id);
    }
  }

  lemma RowFacts(r: Row, now: int)
    ensures RowToEntry(r).correlationId == r.correlation_id
    ensures Expired(RowToEntry(r), now) <==> RowExpired(r, now)
  {
  }

  lemma SweptVals(m: Entries, now: int)
    ensures Swept(m, now).vals == map k | k in m.vals && !Expired(m.vals[k], now) :: m.vals[k]
    ensures KeyedById(m) ==> KeyedById(Swept(m, now))
  {
    hide NoDup;
  }

  /** A synced memory holds an id exactly when its row is unresumed. */
  lemma SyncedIds(d: Disk, id: string)
    requires Synced(d)
    ensures id in d.entries.vals <==> id in d.rows && d.rows[id].resumed == 0
    ensures id in d.entries.vals ==> d.entries.vals[id] == RowToEntry(d.rows[id])
  {
    hide NoDup, RawMap.Valid, RowToEntry;
    assert id in d.entries.vals <==> id in Unresumed(d.rows);
  }

  lemma CoupledSweep(d: Disk, m: Entries, removed: set<string>, now: int)
    requires Coupled(d, m, removed)
    ensures Coupled(Cleaned(d, now), Swept(m, now), removed)
  {
    hide NoDup, RawMap.Valid, RowToEntry, Swept, Expired, KeyedById;
    SweptVals(d.entries, now);
    SweptVals(m, now);
    forall id ensures id in d.entries.vals <==> id in d.rows && d.rows[id].resumed == 0 {
      SyncedIds(d, id);
    }
    var c := Cleaned(d, now);
    assert c.entries.vals == Unresumed(c.rows);
  }

  lemma CoupledRestart(d: Disk, m: Entries, removed: set<string>, now: int, d': Disk)
    requires Coupled(d, m, removed) && Restarted(d.rows, now, d')
    ensures Coupled(d', Swept(m, now), removed)
  {
    hide NoDup, RawMap.Valid, RowToEntry, Swept, Expired, RowExpired, KeyedById;
    SweptVals(m, now);
    forall id ensures id in m.vals <==> id in d.rows && d.rows[id].resumed == 0 {
      SyncedIds(d, id);
    }
    forall id | id in d.rows ensures Expired(RowToEntry(d.rows[id]), now) <==> RowExpired(d.rows[id], now) {
      RowFacts(d.rows[id], now);
    }
    assert d'.entries.vals == Swept(m, now).vals;
    assert d'.entries.vals == Unresumed(d'.rows);
  }

  lemma CoupledStep(d: Disk, m: Entries, removed: set<string>, ev: StoreEvent, d': Disk, threw: bool)
    requires Coupled(d, m, removed) && Next(d, ev, d', threw)
    ensures threw <==> ev.Pause? && ev.e.correlationId !in m.vals && ev.e.correlationId in removed
    ensures !threw ==> Coupled(d', Reference(m, ev), RemovedBy(m, removed, ev))
    ensures threw ==> !Synced(d')
  {
    match ev
    case Pause(e) => CoupledPause(d, m, removed, e);
    case Resume(id) => CoupledResume(d, m, removed, id);
    case Sweep(now) => CoupledSweep(d, m, removed, now);
    case CrashAndInit(now) => CoupledRestart(d, m, removed, now, d');
  }

  /**
   Over every run with crashes: some add throws exactly when a removed id is
   paused again; otherwise memory equals the unresumed rows and the in-memory
   store, a restart being indistinguishable from an expiry sweep.
   */
  lemma {:induction false} WriteThrough(d: Disk, m: Entries, removed: set<string>, evs: seq<StoreEvent>, d': Disk, threw: bool)
    requires Coupled(d, m, removed) && Runs(d, evs, d', threw)
    ensures threw <==> !NoRepause(m, removed, evs)
    ensures !threw ==> Synced(d') && d'.entries.vals == ReferenceRun(m, evs).vals
    decreases |evs|
  {
    if evs != [] {
      var mid, t, u :| Next(d, evs[0], mid, t) && Runs(mid, evs[1..], d', u) && (threw <==> t || u);
      CoupledStep(d, m, removed, evs[0], mid, t);
      if !t {
        WriteThrough(mid, Reference(m, evs[0]), RemovedBy(m, removed, evs[0]), evs[1..], d', u);
      }
    }
  }

  /** From an empty database; a final crash and restart at `now` loses exactly the expired entries. */
  lemma CrashRecovery(evs: seq<StoreEvent>, d: Disk, threw: bool, now: int, d': Disk)
    requires Runs(Disk(Empty(), map[]), evs, d, threw) && NoRepause(Empty(), {}, evs)
    requires Restarted(d.rows, now, d')
    ensures !threw && d.entries.vals == ReferenceRun(Empty(), evs).vals
    ensures d'.entries.vals == map id | id in d.entries.vals && !Expired(d.entries.vals[id], now) :: d.entries.vals[id]
  {
    WriteThrough(Disk(Empty(), map[]), Empty(), {}, evs, d, threw);
  }

  /** Without a crash even the listing order is that of the in-memory store. */
  lemma {:induction false} SameListing(d: Disk, m: Entries, evs: seq<StoreEvent>, d': Disk, threw: bool)
    requires d.entries == m && Runs(d, evs, d', threw)
    requires forall ev :: ev in evs ==> !ev.CrashAndInit?
    ensures d'.entries == ReferenceRun(m, evs)
    decreases |evs|
  {
    hide Next, Reference;
    if evs != [] {
      var mid, t, u :| Next(d, evs[0], mid, t) && Runs(mid, evs[1..], d', u) && (threw <==> t || u);
      assert evs[0] in evs && forall ev :: ev in evs[1..] ==> ev in evs;
      NextListing(d, m, evs[0], mid, t);
      SameListing(mid, Reference(m, evs[0]), evs[1..], d', u);
    }
  }

  lemma NextListing(d: Disk, m: Entries, ev: StoreEvent, mid: Disk, threw: bool)
    requires d.entries == m && Next(d, ev, mid, threw) && !ev.CrashAndInit?
    ensures mid.entries == Reference(m, ev)
  {
    hide NoDup, RawMap.Valid, Delete, Put, Swept;
    if ev.Resume? && ev.id !in m.vals {
      DeleteAbsent(m, ev.id);
    }
  }

  /** A removed id paused again is live in memory but lost by the next restart. */
  lemma RepauseIsLostByCrash(e: Entry, now: int, lost: Disk)
    ensures var d := Inserted(Resumed(Inserted(Disk(Empty(), map[]), e).0, e.correlationId), e);
      && d.1 == UniqueViolation && e.correlationId in d.0.entries.vals
      && (Restarted(d.0.rows, now, lost) ==> e.correlationId !in lost.entries.vals)
  {
  }
}
