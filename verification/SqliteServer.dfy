/**
 The server over its SQLite database, in every run: an `add` may write memory and
 throw, and the process may crash and start again on the same database.
 */
module SqliteServer {
  import opened JsMap
  import opened Idempotency
  import opened IdempotencyKeys
  import opened CorrelationStore
  import opened CorrelationProtocol
  import opened Ledger
  import opened ProtocolRefinement
  import opened ProtocolTheorems
  import opened WakeUps
  import opened SqliteProtocol
  import KafkaRedelivery
  import S = SqliteStore

  /**
   A process and its database. The last two fields only remember: the ids that
   left the store other than by a sweep, and the paused ids whose insert failed.
   */
  datatype Site = Site(s: State, d: S.Disk, gone: set<string>, unwritten: set<string>)

  function NewSite(ttlMs: int, maxEntries: nat): Site {
    Site(Init(ttlMs, maxEntries), S.Disk(Empty(), map[]), {}, {})
  }

  // ---- One step ----

  /** One call on memory and table. */
  function AfterCall(d: S.Disk, call: S.StoreEvent): S.Disk {
    match call
    case Pause(e) => S.Inserted(d, e).0
    case Resume(id) => S.Resumed(d, id)
    case Sweep(now) => S.Cleaned(d, now)
    case CrashAndInit(_) => d
  }

  function AfterCalls(d: S.Disk, calls: seq<S.StoreEvent>): S.Disk
    decreases |calls|
  {
    if calls == [] then d else AfterCalls(AfterCall(d, calls[0]), calls[1..])
  }

  /** The step comes to `addPausedCorrelation`, over HTTP or in a bridge. */
  predicate Adds(s: State, ev: Event) {
    match ev
    case HttpPause(_, req) => req.correlationId != "" && req.webhookPath != "" && req.executionId != ""
    case BridgePause(_, b, req) => (b, req.correlationId) !in s.callbacks.vals
    case _ => false
  }

  /** The insert hits a row that is there; memory was written before. */
  predicate Throws(s: State, d: S.Disk, ev: Event) {
    Adds(s, ev) && S.Inserted(d, NewEntry(ev.req, ev.now)).1 == S.UniqueViolation
  }

  /** A throw leaves the route with an error, or rejects the bridge's promise before anything is registered. */
  function Thrown(s: State, ev: Event): (State, seq<Effect>) {
    if ev.BridgePause? then (s.(next := s.next + 1), [Refused(s.next)]) else (s, [])
  }

  /** One step of the process on its database; the store is always the database's memory map. */
  function Serve(x: Site, ev: Event): (Site, seq<Effect>) {
    var d := AfterCalls(x.d, StoreCalls(x.s, ev));
    var (t, effects) := if Throws(x.s, x.d, ev) then Thrown(x.s, ev) else (Step(x.s, ev).s, Step(x.s, ev).effects);
    (Recall(x, ev, t.(store := d.entries), d), effects)
  }

  /** What is remembered of a step from `x` to `t`. */
  function Recall(x: Site, ev: Event, t: State, d: S.Disk): Site {
    var left := x.s.store.vals.Keys - t.store.vals.Keys;
    Site(t, d, if ev.HttpCleanup? then x.gone - left else x.gone + left,
         (if Repauses(x, ev) then x.unwritten + {ev.req.correlationId} else x.unwritten) - left)
  }

  /** A pause of an id that is not paused and left the store before: told from memory alone. */
  predicate Repauses(x: Site, ev: Event) {
    Adds(x.s, ev) && ev.req.correlationId !in x.s.store.vals && ev.req.correlationId in x.gone
  }

  /** The new process: only the store survives, as `init` loaded it. Tokens stay distinct from all earlier ones. */
  function Recovered(x: Site, d: S.Disk): Site {
    Site(Init(x.s.ttlMs, x.s.maxEntries).(store := d.entries, next := x.s.next), d, x.gone, {})
  }

  // ---- Runs ----

  /** `after` is what `init` at `now` made of the database; the order of the rows is the database's. */
  datatype SiteEvent = Serves(ev: Event) | Crash(now: int, after: S.Disk)

  function After(x: Site, e: SiteEvent): (Site, seq<Effect>) {
    match e
    case Serves(ev) => Serve(x, ev)
    case Crash(_, after) => (Recovered(x, after), [])
  }

  function SiteRun(x: Site, evs: seq<SiteEvent>): (Site, seq<Effect>)
    decreases |evs|
  {
    if evs == [] then (x, [])
    else
      var (y, first) := After(x, evs[0]);
      var (z, rest) := SiteRun(y, evs[1..]);
      (z, first + rest)
  }

  /** Every restart reads the database that is there. */
  ghost predicate Possible(x: Site, evs: seq<SiteEvent>)
    decreases |evs|
  {
    evs == [] || (PossibleNow(x, evs[0]) && Possible(After(x, evs[0]).0, evs[1..]))
  }

  ghost predicate PossibleNow(x: Site, e: SiteEvent) {
    e.Crash? ==> S.Restarted(x.d.rows, e.now, e.after)
  }

  predicate RepausesId(x: Site, e: SiteEvent, id: string) {
    e.Serves? && Repauses(x, e.ev) && e.ev.req.correlationId == id
  }

  /** How often the run pauses `id` while it is not paused and had left the store before. */
  function RepausesOf(x: Site, evs: seq<SiteEvent>, id: string): nat
    decreases |evs|
  {
    if evs == [] then 0
    else Bit(RepausesId(x, evs[0], id)) + RepausesOf(After(x, evs[0]).0, evs[1..], id)
  }

  /** A crash at `now` that loses the paused `id`: it has expired, or its row was never written. */
  predicate Loses(x: Site, e: SiteEvent, id: string) {
    e.Crash? && id in x.s.store.vals && (Expired(x.s.store.vals[id], e.now) || id in x.unwritten)
  }

  function LossesOf(x: Site, evs: seq<SiteEvent>, id: string): nat
    decreases |evs|
  {
    if evs == [] then 0
    else Bit(Loses(x, evs[0], id)) + LossesOf(After(x, evs[0]).0, evs[1..], id)
  }

  // ---- What memory, table and memory of the past have to do with each other ----

  /** The unresumed rows are the paused entries but the unwritten ones; the resumed rows are the ids gone. */
  ghost predicate Known(d: S.Disk, gone: set<string>, unwritten: set<string>) {
    && KeyedById(d.entries)
    && (forall id :: id in d.rows ==> d.rows[id].correlation_id == id)
    && (forall id :: id in d.rows && d.rows[id].resumed == 0 <==> id in d.entries.vals && id !in unwritten)
    && (forall id :: id in d.rows && d.rows[id].resumed == 0 ==> d.entries.vals[id] == S.RowToEntry(d.rows[id]))
    && (forall id :: id in gone <==> id in d.rows && d.rows[id].resumed != 0)
    && unwritten <= gone && unwritten <= d.entries.vals.Keys
  }

  ghost predicate Sound(x: Site) {
    x.d.entries == x.s.store && Known(x.d, x.gone, x.unwritten)
  }

  lemma KnownCoupled(d: S.Disk, gone: set<string>)
    ensures Known(d, gone, {}) <==> S.Coupled(d, d.entries, gone)
  {
    hide NoDup, RawMap.Valid, S.RowToEntry;
    if Known(d, gone, {}) {
      assert d.entries.vals == S.Unresumed(d.rows);
    }
    if S.Coupled(d, d.entries, gone) {
      forall id ensures id in d.entries.vals <==> id in d.rows && d.rows[id].resumed == 0 {
        S.SyncedIds(d, id);
      }
      forall id | id in d.rows && d.rows[id].resumed == 0 ensures d.entries.vals[id] == S.RowToEntry(d.rows[id]) {
        S.SyncedIds(d, id);
      }
    }
  }

  /** An insert fails exactly for an id that is gone and not paused. */
  lemma InsertKnown(d: S.Disk, gone: set<string>, unwritten: set<string>, e: Entry)
    requires Known(d, gone, unwritten)
    ensures var (d1, r) := S.Inserted(d, e);
      && (r == S.UniqueViolation <==> e.correlationId !in d.entries.vals && e.correlationId in gone)
      && d1.entries == Added(d.entries, e)
      && Known(d1, gone, if r == S.UniqueViolation then unwritten + {e.correlationId} else unwritten)
  {
    hide NoDup, RawMap.Valid, S.RowToEntry, S.EntryToRow;
    S.RowRoundTrip(e);
    RowIsUnresumed(e);
  }

  lemma RowIsUnresumed(e: Entry)
    ensures S.EntryToRow(e).resumed == 0 && S.EntryToRow(e).correlation_id == e.correlationId
  {
  }

  lemma ResumeKnown(d: S.Disk, gone: set<string>, unwritten: set<string>, id: string)
    requires Known(d, gone, unwritten)
    ensures var d1 := S.Resumed(d, id);
      && d1.entries == Delete(d.entries, id)
      && Known(d1, gone + (if id in d.entries.vals then {id} else {}), unwritten - {id})
  {
    hide NoDup, RawMap.Valid;
    if id !in d.entries.vals {
      DeleteAbsent(d.entries, id);
      assert unwritten - {id} == unwritten && gone + {} == gone;
    } else {
      RowKeeps(d.rows[id]);
      hide S.RowToEntry;
    }
  }

  lemma RowKeeps(r: S.Row)
    ensures S.RowToEntry(r.(resumed := 1)) == S.RowToEntry(r)
  {
  }

  lemma SweepKnown(d: S.Disk, gone: set<string>, unwritten: set<string>, now: int)
    requires Known(d, gone, unwritten)
    ensures var d1 := S.Cleaned(d, now);
      && d1.entries == Swept(d.entries, now)
      && Known(d1, gone - (d.entries.vals.Keys - d1.entries.vals.Keys), unwritten - (d.entries.vals.Keys - d1.entries.vals.Keys))
  {
    S.SweptVals(d.entries, now);
    hide NoDup, RawMap.Valid, S.RowToEntry, Swept;
  }

  /** A restart loses exactly the expired and the unwritten entries, and keeps the others as they were. */
  lemma RestartKnown(d: S.Disk, gone: set<string>, unwritten: set<string>, now: int, after: S.Disk)
    requires Known(d, gone, unwritten) && S.Restarted(d.rows, now, after)
    ensures Known(after, gone, {})
    ensures after.entries.vals == map id | id in d.entries.vals && !Expired(d.entries.vals[id], now) && id !in unwritten :: d.entries.vals[id]
  {
    hide NoDup, RawMap.Valid, S.RowToEntry, Expired, S.RowExpired;
    forall id | id in d.rows
      ensures S.RowToEntry(d.rows[id]).correlationId == d.rows[id].correlation_id
      ensures Expired(S.RowToEntry(d.rows[id]), now) <==> S.RowExpired(d.rows[id], now)
    {
      S.RowFacts(d.rows[id], now);
    }
  }

  // ---- Each step keeps that ----

  predicate AllResumes(calls: seq<S.StoreEvent>) {
    forall i | 0 <= i < |calls| :: calls[i].Resume?
  }

  lemma {:induction false} ResumesKnown(d: S.Disk, gone: set<string>, unwritten: set<string>, calls: seq<S.StoreEvent>)
    requires Known(d, gone, unwritten) && AllResumes(calls)
    ensures var d1 := AfterCalls(d, calls);
      var left := d.entries.vals.Keys - d1.entries.vals.Keys;
      && d1.entries == S.ReferenceRun(d.entries, calls)
      && d1.entries.vals.Keys <= d.entries.vals.Keys
      && Known(d1, gone + left, unwritten - left)
    decreases |calls|
  {
    hide Known, NoDup, RawMap.Valid;
    if calls == [] {
      NoneLeft(d.entries.vals.Keys, gone, unwritten);
    } else {
      var id := calls[0].id;
      var mid := S.Resumed(d, id);
      ResumeKnown(d, gone, unwritten, id);
      var gone1, unwritten1 := gone + (if id in d.entries.vals then {id} else {}), unwritten - {id};
      ResumesKnown(mid, gone1, unwritten1, calls[1..]);
      var d1 := AfterCalls(mid, calls[1..]);
      UnwrittenPaused(d, gone, unwritten);
      LeftTwice(d.entries.vals.Keys, id, d1.entries.vals.Keys, gone, unwritten);
    }
  }

  lemma NoneLeft(before: set<string>, gone: set<string>, unwritten: set<string>)
    ensures before - before == {}
    ensures gone + (before - before) == gone && unwritten - (before - before) == unwritten
  {
  }

  lemma UnwrittenPaused(d: S.Disk, gone: set<string>, unwritten: set<string>)
    requires Known(d, gone, unwritten)
    ensures unwritten <= d.entries.vals.Keys
  {
  }

  lemma LeftTwice(before: set<string>, id: string, later: set<string>, gone: set<string>, unwritten: set<string>)
    requires later <= before - {id} && unwritten <= before
    ensures var mid := before - {id};
      && gone + (if id in before then {id} else {}) + (mid - later) == gone + (before - later)
      && unwritten - {id} - (mid - later) == unwritten - (before - later)
  {
  }

  lemma {:induction false} RemoveAllResumes(ids: seq<string>)
    ensures AllResumes(RemoveAll(ids))
  {
    if ids != [] {
      RemoveAllResumes(ids[1..]);
    }
  }

  lemma {:induction false} SweepCallsResume(s: State, keys: seq<BridgeKey>, now: int, b: nat)
    ensures AllResumes(SweepCalls(s, keys, now, b))
    decreases |keys|
  {
    hide CloseCallback;
    if keys != [] {
      if keys[0].0 == b && keys[0] in s.callbacks.vals && CallbackExpired(s.callbacks.vals[keys[0]], now) {
        SweepCallsResume(CloseCallback(s, keys[0], ExpiredInBridge, ByBridgeExpiry).0, keys[1..], now, b);
      } else {
        SweepCallsResume(s, keys[1..], now, b);
      }
    }
  }

  /** A step pauses once, sweeps once, or only removes. */
  lemma CallsShape(s: State, ev: Event)
    ensures Adds(s, ev) ==> StoreCalls(s, ev) == [S.Pause(NewEntry(ev.req, ev.now))]
    ensures ev.HttpCleanup? ==> StoreCalls(s, ev) == [S.Sweep(ev.now)]
    ensures !Adds(s, ev) && !ev.HttpCleanup? ==> AllResumes(StoreCalls(s, ev))
  {
    hide Step, ScanFor, NewEntry;
    match ev
    case WebhookCall(now, call) => RemoveAllResumes(ScanFor(Listed(s.store), call.path, now, call.extract).expired);
    case KafkaDelivery(now, msg) => RemoveAllResumes(ScanFor(Listed(s.store), msg.topic, now, msg.extract).expired);
    case BridgeCleanup(now, b) => SweepCallsResume(s, s.callbacks.keys, now, b);
    case _ =>
  }

  lemma AfterOne(d: S.Disk, call: S.StoreEvent)
    ensures AfterCalls(d, [call]) == AfterCall(d, call)
  {
    assert [call][1..] == [];
    assert AfterCalls(AfterCall(d, call), []) == AfterCall(d, call);
  }

  /** The store throws exactly at a repause; otherwise the step is the protocol's own. */
  lemma ServeExactly(x: Site, ev: Event)
    requires Sound(x)
    ensures Throws(x.s, x.d, ev) <==> Repauses(x, ev)
    ensures Repauses(x, ev) ==> Serve(x, ev).0.s == Thrown(x.s, ev).0.(store := Added(x.s.store, NewEntry(ev.req, ev.now)))
    ensures !Repauses(x, ev) ==> Serve(x, ev).0.s == Step(x.s, ev).s && Serve(x, ev).1 == Step(x.s, ev).effects
    ensures Sound(Serve(x, ev).0)
  {
    CallsShape(x.s, ev);
    StepCallsMeet(x.s, ev);
    hide Known, NoDup, RawMap.Valid, Step, StoreCalls, AfterCalls, S.Inserted, Added;
    if Adds(x.s, ev) {
      AddServed(x, ev);
    } else if ev.HttpCleanup? {
      SweepServed(x, ev);
    } else {
      ResumesKnown(x.d, x.gone, x.unwritten, StoreCalls(x.s, ev));
    }
  }

  lemma AddServed(x: Site, ev: Event)
    requires Sound(x) && Adds(x.s, ev)
    requires StoreCalls(x.s, ev) == [S.Pause(NewEntry(ev.req, ev.now))]
    requires Step(x.s, ev).s.store == S.ReferenceRun(x.s.store, StoreCalls(x.s, ev))
    ensures Throws(x.s, x.d, ev) <==> Repauses(x, ev)
    ensures Repauses(x, ev) ==> Serve(x, ev).0.s == Thrown(x.s, ev).0.(store := Added(x.s.store, NewEntry(ev.req, ev.now)))
    ensures !Repauses(x, ev) ==> Serve(x, ev).0.s == Step(x.s, ev).s && Serve(x, ev).1 == Step(x.s, ev).effects
    ensures Sound(Serve(x, ev).0)
  {
    var e := NewEntry(ev.req, ev.now);
    AfterOne(x.d, S.Pause(e));
    OneCall(x.s.store, S.Pause(e));
    InsertKnown(x.d, x.gone, x.unwritten, e);
    IdOf(ev.req, ev.now);
    var t := if Repauses(x, ev) then Thrown(x.s, ev).0.(store := Added(x.s.store, e)) else Step(x.s, ev).s;
    hide Known, NoDup, RawMap.Valid, Step, StoreCalls, AfterCalls, S.Inserted, NewEntry, Added, Recall, Adds;
    RecallGrown(x, ev, t, S.Inserted(x.d, e).0, e);
  }

  lemma IdOf(req: PauseRequest, now: int)
    ensures NewEntry(req, now).correlationId == req.correlationId
  {
  }

  lemma RecallGrown(x: Site, ev: Event, t: State, d: S.Disk, e: Entry)
    requires t.store == Added(x.s.store, e) && !ev.HttpCleanup?
    ensures Recall(x, ev, t, d)
         == Site(t, d, x.gone, if Repauses(x, ev) then x.unwritten + {ev.req.correlationId} else x.unwritten)
  {
    hide NoDup, RawMap.Valid, Repauses;
    assert x.s.store.vals.Keys - t.store.vals.Keys == {};
  }

  lemma SweepServed(x: Site, ev: Event)
    requires Sound(x) && ev.HttpCleanup? && StoreCalls(x.s, ev) == [S.Sweep(ev.now)]
    requires Step(x.s, ev).s.store == S.ReferenceRun(x.s.store, StoreCalls(x.s, ev))
    ensures Serve(x, ev).0.s == Step(x.s, ev).s && Serve(x, ev).1 == Step(x.s, ev).effects
    ensures Sound(Serve(x, ev).0)
  {
    AfterOne(x.d, S.Sweep(ev.now));
    OneCall(x.s.store, S.Sweep(ev.now));
    SweepKnown(x.d, x.gone, x.unwritten, ev.now);
    hide Known, NoDup, RawMap.Valid, Step, StoreCalls, AfterCalls, S.Cleaned, Swept;
  }

  // ---- Books across throws and crashes ----

  /** The book of a new process: what the database kept is paused; nobody who waited before is waiting. */
  function Reopened(b: Book, store: Entries): Book {
    Blank.(paused := store.vals, closed := b.closed + b.open.Keys)
  }

  lemma ReopenedCoupled(x: Site, b: Book, now: int, after: S.Disk)
    requires Sound(x) && Coupled(x.s, b) && S.Restarted(x.d.rows, now, after)
    ensures Coupled(Recovered(x, after).s, Reopened(b, after.entries))
    ensures Sound(Recovered(x, after))
  {
    RestartKnown(x.d, x.gone, x.unwritten, now, after);
    hide NoDup, RawMap.Valid, S.Restarted, ListsMatch, PartiesMatch, TimersMatch;
    NobodyWaiting();
  }

  lemma NobodyWaiting()
    ensures ListsMatch(map[], map[]) && PartiesMatch(map[], map[], map[]) && TimersMatch(map[], map[])
  {
  }

  /** The book after a pause that threw: its entry is there, though no pause was answered. */
  function ThrownBook(b: Book, s: State, ev: Event): Book
    requires ev.HttpPause? || ev.BridgePause?
  {
    var e := NewEntry(ev.req, ev.now);
    var c := b.(paused := b.paused[e.correlationId := e]);
    if ev.BridgePause? then c.(closed := c.closed + {s.next}) else c
  }

  lemma ThrownCoupled(s: State, b: Book, ev: Event)
    requires Coupled(s, b) && (ev.HttpPause? || ev.BridgePause?) && ev.req.correlationId !in s.store.vals
    ensures var e := NewEntry(ev.req, ev.now);
      Coupled(Thrown(s, ev).0.(store := Added(s.store, e)), ThrownBook(b, s, ev))
    ensures s.next !in b.closed && s.next !in b.open
  {
    hide NoDup, RawMap.Valid, ListsMatch, PartiesMatch, TimersMatch;
    IdOf(ev.req, ev.now);
  }

  /**
   What a stretch of log does to the counts of id `id` and party `t`, with
   `repauses` pauses that threw and `losses` crashes that lost the id.
   */
  ghost predicate Balances(b: Book, log: seq<Effect>, c: Book, repauses: nat, losses: nat, id: string, t: nat) {
    && Bit(id in b.paused) + CountOf(log, Pauses(id)) + repauses == CountOf(log, Removals(id)) + losses + Bit(id in c.paused)
    && CountOf(log, Notifications(id)) == CountOf(log, ResumingRemovals(id))
    && Bit(t in b.closed) + CountOf(log, Endings(t)) <= Bit(t in c.closed)
  }

  lemma CountOne(eff: Effect, p: Effect -> bool)
    ensures CountOf([eff], p) == Bit(p(eff))
  {
    assert [eff][1..] == [];
  }

  lemma BalancesConcat(b: Book, first: seq<Effect>, c: Book, rest: seq<Effect>, d: Book, r1: nat, r2: nat, l1: nat, l2: nat, id: string, t: nat)
    requires Balances(b, first, c, r1, l1, id, t) && Balances(c, rest, d, r2, l2, id, t)
    ensures Balances(b, first + rest, d, r1 + r2, l1 + l2, id, t)
  {
    CountConcat(first, rest, Pauses(id));
    CountConcat(first, rest, Removals(id));
    CountConcat(first, rest, Notifications(id));
    CountConcat(first, rest, ResumingRemovals(id));
    CountConcat(first, rest, Endings(t));
    hide CountOf, Pauses, Removals, Notifications, ResumingRemovals, Endings;
  }

  lemma AuditBalances(b: Book, log: seq<Effect>, id: string, t: nat)
    requires Audit(b, log).Some? && Quiet(b) && Quiet(Audit(b, log).value) && b.open.Keys !! b.closed
    ensures Balances(b, log, Audit(b, log).value, 0, 0, id, t)
  {
    PausesConserved(b, log, id);
    NotificationsPaid(b, log, id);
    SettledOnce(b, log, t);
  }

  lemma CoupledBook(s: State, b: Book)
    requires Coupled(s, b)
    ensures Quiet(b) && b.open.Keys !! b.closed && b.paused == s.store.vals && KeyedById(s.store)
  {
    hide ListsMatch, PartiesMatch, TimersMatch;
  }

  lemma StepBalances(s: State, b: Book, ev: Event, id: string, t: nat)
    requires Coupled(s, b)
    ensures var o := Step(s, ev); Audited(b, o.effects, o.s) && Balances(b, o.effects, Audit(b, o.effects).value, 0, 0, id, t)
  {
    StepAudited(s, ev, b);
    var o := Step(s, ev);
    CoupledBook(s, b);
    CoupledBook(o.s, Audit(b, o.effects).value);
    AuditBalances(b, o.effects, id, t);
  }

  lemma ThrownBalances(s: State, b: Book, ev: Event, id: string, t: nat)
    requires Coupled(s, b) && (ev.HttpPause? || ev.BridgePause?) && ev.req.correlationId !in s.store.vals
    ensures Balances(b, Thrown(s, ev).1, ThrownBook(b, s, ev), Bit(ev.req.correlationId == id), 0, id, t)
  {
    ThrownCoupled(s, b, ev);
    CoupledBook(s, b);
    IdOf(ev.req, ev.now);
    hide Coupled, NewEntry;
    if ev.BridgePause? {
      CountOne(Refused(s.next), Pauses(id));
      CountOne(Refused(s.next), Removals(id));
      CountOne(Refused(s.next), Notifications(id));
      CountOne(Refused(s.next), ResumingRemovals(id));
      CountOne(Refused(s.next), Endings(t));
    }
  }

  lemma CrashBalances(x: Site, b: Book, now: int, after: S.Disk, id: string, t: nat)
    requires Sound(x) && Coupled(x.s, b) && S.Restarted(x.d.rows, now, after)
    ensures Balances(b, [], Reopened(b, after.entries), 0, Bit(Loses(x, Crash(now, after), id)), id, t)
  {
    CoupledBook(x.s, b);
    RestartKnown(x.d, x.gone, x.unwritten, now, after);
    hide Coupled, Known, S.Restarted;
  }

  /** One step or crash: the site stays sound and coupled to some book, and the counts move with it. */
  lemma AfterBalances(x: Site, b: Book, e: SiteEvent, id: string, t: nat) returns (c: Book)
    requires Sound(x) && Coupled(x.s, b) && PossibleNow(x, e)
    ensures var (y, effects) := After(x, e);
      && Sound(y) && Coupled(y.s, c)
      && Balances(b, effects, c, Bit(RepausesId(x, e, id)), Bit(Loses(x, e, id)), id, t)
  {
    hide Coupled, Known, Balances, S.Restarted, Thrown, Step, Recovered, Reopened, ThrownBook;
    match e
    case Crash(now, after) =>
      ReopenedCoupled(x, b, now, after);
      CrashBalances(x, b, now, after, id, t);
      c := Reopened(b, after.entries);
    case Serves(ev) =>
      ServeExactly(x, ev);
      if Repauses(x, ev) {
        ThrownCoupled(x.s, b, ev);
        ThrownBalances(x.s, b, ev, id, t);
        c := ThrownBook(b, x.s, ev);
      } else {
        StepBalances(x.s, b, ev, id, t);
        c := Audit(b, Step(x.s, ev).effects).value;
      }
  }

  lemma {:induction false} RunBalances(x: Site, b: Book, evs: seq<SiteEvent>, id: string, t: nat) returns (c: Book)
    requires Sound(x) && Coupled(x.s, b) && Possible(x, evs)
    ensures var (y, log) := SiteRun(x, evs);
      && Sound(y) && Coupled(y.s, c)
      && Balances(b, log, c, RepausesOf(x, evs, id), LossesOf(x, evs, id), id, t)
    decreases |evs|
  {
    hide Coupled, Sound, Balances, After, RepausesId, Loses, PossibleNow;
    if evs == [] {
      NothingBalances(b, id, t);
      c := b;
    } else {
      var (y, first) := After(x, evs[0]);
      var mid := AfterBalances(x, b, evs[0], id, t);
      c := RunBalances(y, mid, evs[1..], id, t);
      BalancesConcat(b, first, mid, SiteRun(y, evs[1..]).1, c,
        Bit(RepausesId(x, evs[0], id)), RepausesOf(y, evs[1..], id), Bit(Loses(x, evs[0], id)), LossesOf(y, evs[1..], id), id, t);
    }
  }

  lemma NothingBalances(b: Book, id: string, t: nat)
    ensures Balances(b, [], b, 0, 0, id, t)
  {
  }

  lemma NewSiteSound(ttlMs: int, maxEntries: nat)
    ensures Sound(NewSite(ttlMs, maxEntries)) && Coupled(NewSite(ttlMs, maxEntries).s, Blank)
  {
  }

  // ---- The theorems ----

  /** Every site that a new database comes to, with every step and every crash. */
  ghost predicate Reached(x: Site, log: seq<Effect>) {
    exists ttlMs, maxEntries, evs :: Possible(NewSite(ttlMs, maxEntries), evs) && SiteRun(NewSite(ttlMs, maxEntries), evs) == (x, log)
  }

  lemma ReachedSound(x: Site, log: seq<Effect>) returns (b: Book)
    requires Reached(x, log)
    ensures Sound(x) && Coupled(x.s, b)
  {
    hide Sound, Coupled, Balances, Possible, SiteRun, NewSite;
    var ttlMs, maxEntries, evs :| Possible(NewSite(ttlMs, maxEntries), evs) && SiteRun(NewSite(ttlMs, maxEntries), evs) == (x, log);
    NewSiteSound(ttlMs, maxEntries);
    b := RunBalances(NewSite(ttlMs, maxEntries), Blank, evs, "", 0);
  }

  /**
   In any run over SQLite, crashes included, the pauses answered and the repauses
   of an id equal its removals, the crashes that lost it, and one if it is still
   paused; notifications equal resuming removals; no promise or poll ends twice.
   */
  lemma ConservationOverSqlite(ttlMs: int, maxEntries: nat, evs: seq<SiteEvent>, id: string, t: nat)
    requires Possible(NewSite(ttlMs, maxEntries), evs)
    ensures var start := NewSite(ttlMs, maxEntries);
      var (x, log) := SiteRun(start, evs);
      && CountOf(log, Pauses(id)) + RepausesOf(start, evs, id)
         == CountOf(log, Removals(id)) + LossesOf(start, evs, id) + Bit(id in x.s.store.vals)
      && CountOf(log, Notifications(id)) == CountOf(log, ResumingRemovals(id))
      && CountOf(log, Endings(t)) <= 1
  {
    var start := NewSite(ttlMs, maxEntries);
    NewSiteSound(ttlMs, maxEntries);
    hide Possible, SiteRun, Coupled, Sound, RepausesOf, LossesOf;
    var c := RunBalances(start, Blank, evs, id, t);
    CoupledBook(SiteRun(start, evs).0.s, c);
  }

  ghost predicate NoCrashIn(evs: seq<SiteEvent>) {
    forall i | 0 <= i < |evs| :: evs[i].Serves?
  }

  lemma {:induction false} NoCrashLosesNone(x: Site, evs: seq<SiteEvent>, id: string)
    requires NoCrashIn(evs)
    ensures LossesOf(x, evs, id) == 0 && Possible(x, evs)
    decreases |evs|
  {
    hide After;
    if evs != [] {
      NoCrashLosesNone(After(x, evs[0]).0, evs[1..], id);
    }
  }

  /** While the process lives, pauses and removals of an id balance exactly when the id was never paused again after it had left. */
  lemma BalancedExactly(ttlMs: int, maxEntries: nat, evs: seq<SiteEvent>, id: string)
    requires NoCrashIn(evs)
    ensures var start := NewSite(ttlMs, maxEntries);
      var (x, log) := SiteRun(start, evs);
      CountOf(log, Pauses(id)) == CountOf(log, Removals(id)) + Bit(id in x.s.store.vals) <==> RepausesOf(start, evs, id) == 0
  {
    var start := NewSite(ttlMs, maxEntries);
    hide NoCrashIn, SiteRun, RepausesOf, LossesOf, Possible;
    NoCrashLosesNone(start, evs, id);
    ConservationOverSqlite(ttlMs, maxEntries, evs, id, 0);
  }

  /** Without a repause the site's run is the protocol's own run, so all its theorems hold of it. */
  lemma {:induction false} SiteRunIsRun(x: Site, evs: seq<Event>)
    requires Sound(x) && forall id :: RepausesOf(x, Served(evs), id) == 0
    ensures (SiteRun(x, Served(evs)).0.s, SiteRun(x, Served(evs)).1) == Run(x.s, evs)
    decreases |evs|
  {
    hide Sound, Step, Serve;
    if evs != [] {
      var y := Serve(x, evs[0]).0;
      assert Served(evs)[1..] == Served(evs[1..]) && Served(evs)[0] == Serves(evs[0]);
      if Repauses(x, evs[0]) {
        assert RepausesOf(x, Served(evs), evs[0].req.correlationId) > 0;
      }
      ServeExactly(x, evs[0]);
      hide Repauses;
      forall id ensures RepausesOf(y, Served(evs[1..]), id) == 0 {
        assert RepausesOf(x, Served(evs), id) == 0;
      }
      SiteRunIsRun(y, evs[1..]);
    }
  }

  function Served(evs: seq<Event>): seq<SiteEvent> {
    seq(|evs|, i requires 0 <= i < |evs| => Serves(evs[i]))
  }

  /**
   One pause, over HTTP or in a bridge, from any reachable state whose store the
   database agrees with: the insert fails exactly for an id that is not paused and
   whose row says removed, and exactly then pauses and removals no longer balance.
   */
  lemma RepauseBreaksExactly(s: State, log: seq<Effect>, d: S.Disk, removed: set<string>, ev: Event)
    requires Reachable(s, log) && d.entries == s.store && S.Coupled(d, s.store, removed) && Adds(s, ev)
    ensures var id := ev.req.correlationId;
      var (y, effects) := Serve(Site(s, d, removed, {}), ev);
      && (Throws(s, d, ev) <==> id !in s.store.vals && id in removed)
      && (CountOf(log + effects, Pauses(id)) == CountOf(log + effects, Removals(id)) + Bit(id in y.s.store.vals) <==> !Throws(s, d, ev))
  {
    var x, id := Site(s, d, removed, {}), ev.req.correlationId;
    KnownCoupled(d, removed);
    ServeExactly(x, ev);
    ReachableCoupled(s, log);
    var b := Audit(Blank, log).value;
    hide Coupled, S.Coupled, Known, Throws, Serve, Reachable;
    CoupledBook(s, b);
    AuditBalances(Blank, log, id, 0);
    var c := AfterBalances(x, b, Serves(ev), id, 0);
    CoupledBook(Serve(x, ev).0.s, c);
    BalancesConcat(Blank, log, b, Serve(x, ev).1, c, 0, Bit(RepausesId(x, Serves(ev), id)), 0, 0, id, 0);
  }

  /** An instance: every valid id that is paused, deleted and paused again. */
  lemma PausedDeletedPaused(req: PauseRequest, ttlMs: int, maxEntries: nat)
    requires req.correlationId != "" && req.webhookPath != "" && req.executionId != ""
    ensures var id, start := req.correlationId, NewSite(ttlMs, maxEntries);
      RepausesOf(start, Served([HttpPause(0, req), HttpDelete(id), HttpPause(1, req)]), id) == 1
  {
    hide NoDup, RawMap.Valid, Serve, Repauses;
    var id, start := req.correlationId, NewSite(ttlMs, maxEntries);
    var evs := Served([HttpPause(0, req), HttpDelete(id), HttpPause(1, req)]);
    var one := Serve(start, HttpPause(0, req)).0;
    var two := Serve(one, HttpDelete(id)).0;
    PausedThenDeleted(req, start);
    assert evs[1..][1..][1..] == [];
    assert RepausesOf(two, evs[1..][1..], id) == Bit(RepausesId(two, evs[2], id));
  }

  lemma PausedThenDeleted(req: PauseRequest, x: Site)
    requires req.correlationId != "" && req.webhookPath != "" && req.executionId != ""
    requires x == NewSite(x.s.ttlMs, x.s.maxEntries)
    ensures var id, pause := req.correlationId, HttpPause(0, req);
      var one := Serve(x, pause).0;
      && !Repauses(x, pause) && !Repauses(one, HttpDelete(id))
      && Repauses(Serve(one, HttpDelete(id)).0, HttpPause(1, req))
  {
    var id := req.correlationId;
    NewSiteSound(x.s.ttlMs, x.s.maxEntries);
    hide Serve, Sound, NoDup, RawMap.Valid;
    ServeExactly(x, HttpPause(0, req));
    var one := Serve(x, HttpPause(0, req)).0;
    PausedNow(x.s, req);
    ServeExactly(one, HttpDelete(id));
    DeletedNow(one, id);
  }

  lemma PausedNow(s: State, req: PauseRequest)
    requires req.correlationId != "" && req.webhookPath != "" && req.executionId != ""
    ensures req.correlationId in Step(s, HttpPause(0, req)).s.store.vals
  {
    hide NoDup, RawMap.Valid;
  }

  /** A paused id that is deleted is gone. */
  lemma DeletedNow(x: Site, id: string)
    requires Sound(x) && id in x.s.store.vals
    ensures var y := Serve(x, HttpDelete(id)).0; id !in y.s.store.vals && id in y.gone
  {
    ServeExactly(x, HttpDelete(id));
    hide NoDup, RawMap.Valid, Sound, AfterCalls, StoreCalls, Throws, RemoveFirst;
  }

  // ---- The bridge's own entry ----

  lemma ServeHolds(x: Site, b: Book, ev: Event, key: BridgeKey, t: nat)
    requires Sound(x) && Coupled(x.s, b) && Held(x.s, key, t)
    ensures Held(Serve(x, ev).0.s, key, t) || Removes(Serve(x, ev).1, key.1)
  {
    hide Sound, Coupled, Step, Serve, Removes, NoDup, RawMap.Valid;
    ServeExactly(x, ev);
    if !Repauses(x, ev) {
      HeldStep(x.s, b, ev, key, t);
    }
  }

  lemma {:induction false} SiteRunHolds(x: Site, b: Book, evs: seq<SiteEvent>, key: BridgeKey, t: nat)
    requires Sound(x) && Coupled(x.s, b) && Held(x.s, key, t) && NoCrashIn(evs)
    ensures var (y, log) := SiteRun(x, evs); Held(y.s, key, t) || Removes(log, key.1)
    decreases |evs|
  {
    hide Sound, Coupled, Held, Serve, Removes, Balances;
    if evs != [] {
      var (y, first) := Serve(x, evs[0].ev);
      ServeHolds(x, b, evs[0].ev, key, t);
      var c := AfterBalances(x, b, evs[0], "", 0);
      RemovesConcat(first, SiteRun(y, evs[1..]).1, key.1);
      if Held(y.s, key, t) {
        SiteRunHolds(y, c, evs[1..], key, t);
      }
    }
  }

  /**
   A bridge that pauses an id not paused gets a live callback exactly when the id
   had not left the store before; then entry and callback stay together over every
   later run of the process until the entry is removed. Otherwise it leaves an
   entry that nobody waits for.
   */
  lemma OwnEntryOverSqlite(x: Site, before: seq<Effect>, now: int, bridge: nat, req: PauseRequest, evs: seq<SiteEvent>)
    requires Reached(x, before) && NoCrashIn(evs)
    requires (bridge, req.correlationId) !in x.s.callbacks.vals && req.correlationId !in x.s.store.vals
    ensures var id, key := req.correlationId, (bridge, req.correlationId);
      var y := Serve(x, BridgePause(now, bridge, req)).0;
      var (z, log) := SiteRun(y, evs);
      && id in y.s.store.vals
      && (key in y.s.callbacks.vals <==> id !in x.gone)
      && (id !in x.gone ==> Held(z.s, key, x.s.next) || Removes(log, id))
  {
    var b := ReachedSound(x, before);
    var ev, key := BridgePause(now, bridge, req), (bridge, req.correlationId);
    ServeExactly(x, ev);
    var c := AfterBalances(x, b, Serves(ev), "", 0);
    PauseInBridge(x.s, now, bridge, req);
    hide Sound, Coupled, SiteRun, Serve, Balances, Reached, Step, NoDup, RawMap.Valid;
    if req.correlationId !in x.gone {
      SiteRunHolds(Serve(x, ev).0, c, evs, key, x.s.next);
    }
  }

  lemma PauseInBridge(s: State, now: int, bridge: nat, req: PauseRequest)
    requires (bridge, req.correlationId) !in s.callbacks.vals && req.correlationId !in s.store.vals
    ensures var id, e := req.correlationId, NewEntry(req, now);
      && Held(Step(s, BridgePause(now, bridge, req)).s, (bridge, id), s.next)
      && id in Added(s.store, e).vals
  {
    hide NoDup, RawMap.Valid;
  }

  // ---- After a crash ----

  /**
   A restart at `now` keeps exactly the paused entries that have not expired and
   whose insert had not failed; no bridge or poll waits for them, and no message is
   a duplicate: one that was recorded before the crash resumes again, or is unknown.
   */
  lemma CrashForgets(x: Site, log: seq<Effect>, now: int, after: S.Disk, later: int, msg: KafkaMessage)
    requires Reached(x, log) && S.Restarted(x.d.rows, now, after)
    ensures var y := Recovered(x, after);
      var hit := Match(y.s, msg.topic, later, msg.extract).2;
      && y.s.store.vals == (map id | id in x.s.store.vals && !Expired(x.s.store.vals[id], now) && id !in x.unwritten :: x.s.store.vals[id])
      && y.s.callbacks.vals == map[] && y.s.polls == map[] && y.s.waiters == map[]
      && DoKafka(y.s, later, msg).reply == (if hit.Some? then ResumedTo(BodyOf(hit.value)) else NoMatch)
  {
    var b := ReachedSound(x, log);
    RestartKnown(x.d, x.gone, x.unwritten, now, after);
    var y := Recovered(x, after).s;
    KafkaRedelivery.RemovalKeepsCache(y, msg.topic, later, msg.extract);
    hide Known, Coupled, Match, S.Restarted, NoDup, RawMap.Valid, Notify, AfterRecord, KafkaKey;
  }
}
