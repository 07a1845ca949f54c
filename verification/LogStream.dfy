/**
 The live log stream (`broadcastLog`, `replayRecentLogs` and the
 `/api/logs/stream` handler of webhook-server.ts): a replay buffer of recent lines
 and the clients that hear each new line.
 */
module LogStream {
  import opened JsMap

  const LOG_REPLAY_WINDOW_MS := 4000
  const LOG_REPLAY_MAX: nat := 200

  datatype Stamped<L> = Stamped(line: L, at: int)

  /** `heard` is what was written to each client; a client is one connection. */
  datatype State<L> = State(recent: seq<Stamped<L>>, clients: seq<nat>, heard: map<nat, seq<L>>)

  datatype Event<L> = Broadcast(line: L, now: int) | Connect(client: nat, now: int) | Close(client: nat)

  function Got<L>(heard: map<nat, seq<L>>, c: nat): seq<L> {
    if c in heard then heard[c] else []
  }

  function Heard<L>(s: State<L>, c: nat): seq<L> {
    Got(s.heard, c)
  }

  /** The buffer after shifting while its first line is old or there are too many. */
  function Shifted<L>(recent: seq<Stamped<L>>, cutoff: int): seq<Stamped<L>> {
    if recent != [] && (recent[0].at < cutoff || |recent| > LOG_REPLAY_MAX) then Shifted(recent[1..], cutoff) else recent
  }

  /** The lines still fresh, skipping old ones. */
  function Fresh<L>(recent: seq<Stamped<L>>, cutoff: int): seq<L> {
    if recent == [] then []
    else (if recent[0].at < cutoff then [] else [recent[0].line]) + Fresh(recent[1..], cutoff)
  }

  function Write<L>(heard: map<nat, seq<L>>, c: nat, lines: seq<L>): map<nat, seq<L>> {
    heard[c := Got(heard, c) + lines]
  }

  function WriteAll<L>(heard: map<nat, seq<L>>, clients: seq<nat>, line: L): map<nat, seq<L>> {
    if clients == [] then heard
    else Write(WriteAll(heard, clients[..|clients| - 1], line), clients[|clients| - 1], [line])
  }

  function Step<L>(s: State<L>, e: Event<L>): State<L> {
    match e
    case Broadcast(line, now) =>
      State(Shifted(s.recent + [Stamped(line, now)], now - LOG_REPLAY_WINDOW_MS), s.clients, WriteAll(s.heard, s.clients, line))
    case Connect(c, now) =>
      s.(clients := if c in s.clients then s.clients else s.clients + [c],
         heard := Write(s.heard, c, Fresh(s.recent, now - LOG_REPLAY_WINDOW_MS)))
    case Close(c) => s.(clients := RemoveFirst(s.clients, c))
  }

  function Init<L>(): State<L> {
    State([], [], map[])
  }

  function Run<L>(events: seq<Event<L>>): State<L> {
    if events == [] then Init() else Step(Run(events[..|events| - 1]), events[|events| - 1])
  }

  lemma WriteWrite<L>(heard: map<nat, seq<L>>, c: nat, a: seq<L>, b: seq<L>)
    ensures Write(Write(heard, c, a), c, b) == Write(heard, c, a + b)
  {
    var was := Got(heard, c);
    assert was + a + b == was + (a + b);
  }

  lemma {:induction false} FreshGrows<L>(recent: seq<Stamped<L>>, x: Stamped<L>, cutoff: int)
    ensures Fresh(recent + [x], cutoff) == Fresh(recent, cutoff) + if x.at < cutoff then [] else [x.line]
  {
    if recent == [] {
      assert [x][1..] == [] && recent + [x] == [x];
    } else {
      FreshGrows(recent[1..], x, cutoff);
      assert (recent + [x])[1..] == recent[1..] + [x];
    }
  }

  // ---- The server as written ----

  class LogServer<L> {
    var recentLogLines: seq<Stamped<L>>
    var sseClients: seq<nat>
    var heard: map<nat, seq<L>>

    ghost function Now(): State<L>
      reads this
    {
      State(recentLogLines, sseClients, heard)
    }

    constructor ()
      ensures Now() == Init()
    {
      recentLogLines, sseClients, heard := [], [], map[];
    }

    method BroadcastLog(line: L, now: int)
      modifies this
      ensures Now() == Step(old(Now()), Broadcast(line, now))
    {
      recentLogLines := recentLogLines + [Stamped(line, now)];
      var cutoff := now - LOG_REPLAY_WINDOW_MS;
      ghost var all := recentLogLines;
      while |recentLogLines| > 0 && (recentLogLines[0].at < cutoff || |recentLogLines| > LOG_REPLAY_MAX)
        invariant Shifted(recentLogLines, cutoff) == Shifted(all, cutoff)
        invariant sseClients == old(sseClients) && heard == old(heard)
      {
        recentLogLines := recentLogLines[1..];
      }
      for i := 0 to |sseClients|
        invariant sseClients == old(sseClients) && recentLogLines == Shifted(all, cutoff)
        invariant heard == WriteAll(old(heard), sseClients[..i], line)
      {
        assert sseClients[..i + 1][..i] == sseClients[..i];
        heard := Write(heard, sseClients[i], [line]);
      }
      assert sseClients[..|sseClients|] == sseClients;
    }

    method ReplayRecentLogs(client: nat, now: int)
      modifies this`heard
      ensures heard == Write(old(heard), client, Fresh(recentLogLines, now - LOG_REPLAY_WINDOW_MS))
    {
      hide Write;
      var cutoff := now - LOG_REPLAY_WINDOW_MS;
      ghost var sent: seq<L> := [];
      heard := Write(heard, client, []);
      for i := 0 to |recentLogLines|
        invariant sent == Fresh(recentLogLines[..i], cutoff) && heard == Write(old(heard), client, sent)
      {
        var entry := recentLogLines[i];
        FreshGrows(recentLogLines[..i], entry, cutoff);
        assert recentLogLines[..i + 1] == recentLogLines[..i] + [entry];
        if entry.at < cutoff {
          continue;
        }
        WriteWrite(old(heard), client, sent, [entry.line]);
        heard := Write(heard, client, [entry.line]);
        sent := sent + [entry.line];
      }
      assert recentLogLines[..|recentLogLines|] == recentLogLines;
    }

    method OnConnect(client: nat, now: int)
      modifies this
      ensures Now() == Step(old(Now()), Connect(client, now))
    {
      if client !in sseClients {
        sseClients := sseClients + [client];
      }
      ReplayRecentLogs(client, now);
    }

    method OnClose(client: nat)
      modifies this`sseClients
      ensures Now() == Step(old(Now()), Close(client))
    {
      sseClients := RemoveFirst(sseClients, client);
    }
  }

  // ---- The buffer is a window of the history ----

  function History<L>(events: seq<Event<L>>): seq<Stamped<L>> {
    if events == [] then []
    else
      var e := events[|events| - 1];
      History(events[..|events| - 1]) + if e.Broadcast? then [Stamped(e.line, e.now)] else []
  }

  /** The clock never goes back; a close reads no clock. */
  ghost predicate Monotone<L>(events: seq<Event<L>>) {
    forall i, j | 0 <= i < j < |events| :: !events[i].Close? && !events[j].Close? ==> events[i].now <= events[j].now
  }

  ghost predicate Sorted<L>(h: seq<Stamped<L>>) {
    forall i, j | 0 <= i < j < |h| :: h[i].at <= h[j].at
  }

  /** The longest suffix of `h` with at most 200 lines, none older than the window at `now`. */
  ghost predicate IsWindow<L>(w: seq<Stamped<L>>, h: seq<Stamped<L>>, now: int) {
    && |w| <= |h|
    && w == h[|h| - |w|..]
    && |w| <= 200
    && (forall i | 0 <= i < |w| :: w[i].at >= now - 4000)
    && (|w| < |h| ==> |w| == 200 || h[|h| - |w| - 1].at < now - 4000)
  }

  lemma {:induction false} ShiftedIsWindow<L>(recent: seq<Stamped<L>>, h: seq<Stamped<L>>, now: int)
    requires Sorted(h) && |recent| <= |h| && recent == h[|h| - |recent|..]
    requires |recent| < |h| ==>
      |recent| > LOG_REPLAY_MAX || h[|h| - |recent| - 1].at < now - LOG_REPLAY_WINDOW_MS || |recent| == LOG_REPLAY_MAX
    ensures IsWindow(Shifted(recent, now - LOG_REPLAY_WINDOW_MS), h, now)
  {
    var cutoff := now - LOG_REPLAY_WINDOW_MS;
    if recent != [] && (recent[0].at < cutoff || |recent| > LOG_REPLAY_MAX) {
      var rest, n := recent[1..], |h| - |recent|;
      assert recent[0] == h[n] && rest == h[n + 1..];
      assert Shifted(recent, cutoff) == Shifted(rest, cutoff);
      hide Shifted, IsWindow;
      ShiftedIsWindow(rest, h, now);
    } else {
      assert Shifted(recent, cutoff) == recent;
      hide Shifted;
      FreshSuffix(recent, h, cutoff);
    }
  }

  lemma FreshSuffix<L>(recent: seq<Stamped<L>>, h: seq<Stamped<L>>, cutoff: int)
    requires Sorted(h) && |recent| <= |h| && recent == h[|h| - |recent|..]
    requires recent != [] ==> recent[0].at >= cutoff
    ensures forall i | 0 <= i < |recent| :: recent[i].at >= cutoff
  {
    var n := |h| - |recent|;
    assert forall i | 0 <= i < |recent| :: recent[i] == h[n + i];
  }

  /** Lines of the history were broadcast no later than any event that follows them. */
  lemma {:induction false} HistoryBefore<L>(events: seq<Event<L>>, n: nat, i: nat)
    requires n <= i < |events| && Monotone(events) && !events[i].Close?
    ensures forall k | 0 <= k < |History(events[..n])| :: History(events[..n])[k].at <= events[i].now
    decreases n
  {
    if n > 0 {
      HistoryBefore(events, n - 1, i);
      assert events[..n][..n - 1] == events[..n - 1];
    }
  }

  lemma {:induction false} HistorySorted<L>(events: seq<Event<L>>)
    requires Monotone(events)
    ensures Sorted(History(events))
  {
    if events != [] {
      var n := |events| - 1;
      HistorySorted(events[..n]);
      if events[n].Broadcast? {
        HistoryBefore(events, n, n);
      }
    }
  }

  function WindowOf<L>(h: seq<Stamped<L>>, now: int): seq<Stamped<L>> {
    Shifted(h, now - LOG_REPLAY_WINDOW_MS)
  }

  lemma WindowMeaning<L>(h: seq<Stamped<L>>, now: int)
    requires Sorted(h)
    ensures IsWindow(WindowOf(h, now), h, now)
  {
    assert h[0..] == h;
    ShiftedIsWindow(h, h, now);
  }

  lemma WindowUnique<L>(a: seq<Stamped<L>>, b: seq<Stamped<L>>, h: seq<Stamped<L>>, now: int)
    requires IsWindow(a, h, now) && IsWindow(b, h, now)
    ensures a == b
  {
    NotLonger(a, b, h, now);
    NotLonger(b, a, h, now);
  }

  lemma NotLonger<L>(a: seq<Stamped<L>>, b: seq<Stamped<L>>, h: seq<Stamped<L>>, now: int)
    requires IsWindow(a, h, now) && IsWindow(b, h, now)
    ensures |b| <= |a|
  {
    assert forall i | 0 <= i < |b| :: b[i] == h[|h| - |b| + i];
  }

  /** Dropping from a window what has become too old gives the later window. */
  lemma WindowLater<L>(recent: seq<Stamped<L>>, h: seq<Stamped<L>>, before: int, now: int)
    requires Sorted(h) && IsWindow(recent, h, before) && before <= now
    ensures Shifted(recent, now - LOG_REPLAY_WINDOW_MS) == WindowOf(h, now)
  {
    ShiftedIsWindow(recent, h, now);
    WindowMeaning(h, now);
    WindowUnique(Shifted(recent, now - LOG_REPLAY_WINDOW_MS), WindowOf(h, now), h, now);
  }

  lemma RunNext<L>(events: seq<Event<L>>, e: Event<L>)
    ensures Run(events + [e]) == Step(Run(events), e)
    ensures History(events + [e]) == History(events) + if e.Broadcast? then [Stamped(e.line, e.now)] else []
  {
    assert (events + [e])[..|events|] == events;
  }

  lemma RecentNext<L>(events: seq<Event<L>>, e: Event<L>)
    ensures Run(events + [e]).recent ==
      if e.Broadcast? then Shifted(Run(events).recent + [Stamped(e.line, e.now)], e.now - LOG_REPLAY_WINDOW_MS)
      else Run(events).recent
  {
    hide Run, Shifted;
    RunNext(events, e);
  }

  lemma NothingYet<L>()
    ensures Run<L>([]) == Init() && Run<L>([]).recent == [] && History<L>([]) == []
  {
  }

  lemma MonotonePrefix<L>(events: seq<Event<L>>, e: Event<L>)
    requires Monotone(events + [e])
    ensures Monotone(events)
    ensures Sorted(History(events))
    ensures !e.Close? ==> forall k | 0 <= k < |History(events)| :: History(events)[k].at <= e.now
  {
    var all := events + [e];
    assert all[..|events|] == events;
    assert forall i | 0 <= i < |events| :: all[i] == events[i];
    HistorySorted(events);
    if !e.Close? {
      HistoryBefore(all, |events|, |events|);
    }
  }

  /** A broadcast turns the window as of the line before it into the window as of its own line. */
  lemma BroadcastWindow<L>(recent: seq<Stamped<L>>, h: seq<Stamped<L>>, x: Stamped<L>)
    requires Sorted(h + [x])
    requires if h == [] then recent == [] else IsWindow(recent, h, h[|h| - 1].at)
    ensures IsWindow(Shifted(recent + [x], x.at - LOG_REPLAY_WINDOW_MS), h + [x], x.at)
  {
    hide Shifted;
    var g, r := h + [x], recent + [x];
    BoundaryKept(recent, h, x);
    hide IsWindow, Sorted;
    assert r == g[|g| - |r|..];
    ShiftedIsWindow(r, g, x.at);
  }

  lemma BoundaryKept<L>(recent: seq<Stamped<L>>, h: seq<Stamped<L>>, x: Stamped<L>)
    requires Sorted(h + [x])
    requires if h == [] then recent == [] else IsWindow(recent, h, h[|h| - 1].at)
    ensures |recent| <= |h| && recent == h[|h| - |recent|..]
    ensures |recent| < |h| ==>
      |recent| == LOG_REPLAY_MAX || (h + [x])[|h| - |recent| - 1].at < x.at - LOG_REPLAY_WINDOW_MS
  {
    var g := h + [x];
    assert g[|h|] == x;
    if |recent| < |h| {
      assert g[|h| - 1] == h[|h| - 1] && g[|h| - |recent| - 1] == h[|h| - |recent| - 1];
    }
  }

  /** After every run whose clock does not go back, the buffer is the window of everything ever broadcast, as of the last broadcast. */
  lemma {:induction false} BufferIsWindow<L>(events: seq<Event<L>>)
    requires Monotone(events)
    ensures var h := History(events);
      if h == [] then Run(events).recent == [] else IsWindow(Run(events).recent, h, h[|h| - 1].at)
  {
    hide *;
    if events == [] {
      NothingYet<L>();
    } else {
      var n := |events| - 1;
      var prefix, e := events[..n], events[n];
      assert events == prefix + [e];
      MonotonePrefix(prefix, e);
      BufferIsWindow(prefix);
      RecentNext(prefix, e);
      RunNext(prefix, e);
      HistorySorted(events);
      var h := History(prefix);
      if e.Broadcast? {
        var x := Stamped(e.line, e.now);
        BroadcastWindow(Run(prefix).recent, h, x);
        assert (h + [x])[|h + [x]| - 1] == x;
      } else {
        assert h + [] == h;
      }
    }
  }

  function Lines<L>(w: seq<Stamped<L>>): seq<L> {
    seq(|w|, i requires 0 <= i < |w| => w[i].line)
  }

  /** On a sorted buffer, skipping old lines is dropping them from the front. */
  lemma {:induction false} FreshIsShifted<L>(recent: seq<Stamped<L>>, cutoff: int)
    requires Sorted(recent) && |recent| <= LOG_REPLAY_MAX
    ensures Fresh(recent, cutoff) == Lines(Shifted(recent, cutoff))
  {
    if recent != [] {
      FreshIsShifted(recent[1..], cutoff);
      if recent[0].at >= cutoff {
        assert recent[1..] != [] ==> recent[1..][0] == recent[1] && recent[0].at <= recent[1].at;
        assert Shifted(recent[1..], cutoff) == recent[1..];
        assert Lines(recent) == [recent[0].line] + Lines(recent[1..]);
      }
    }
  }

  /** What a client connecting at `now` hears first: the window of all history, at its own time. */
  lemma ReplayIsWindow<L>(events: seq<Event<L>>, c: nat, now: int)
    requires Monotone(events + [Connect(c, now)])
    ensures IsWindow(WindowOf(History(events), now), History(events), now)
    ensures Fresh(Run(events).recent, now - LOG_REPLAY_WINDOW_MS) == Lines(WindowOf(History(events), now))
  {
    hide *;
    var h, recent := History(events), Run(events).recent;
    MonotonePrefix(events, Connect(c, now));
    BufferIsWindow(events);
    WindowMeaning(h, now);
    if h == [] {
      NothingReplayed<L>(now);
    } else {
      LastBefore(h, now);
      WindowLater(recent, h, h[|h| - 1].at, now);
      WindowSorted(recent, h, h[|h| - 1].at);
      FreshIsShifted(recent, now - LOG_REPLAY_WINDOW_MS);
    }
  }

  lemma NothingReplayed<L>(now: int)
    ensures Fresh<L>([], now - LOG_REPLAY_WINDOW_MS) == [] && Lines(WindowOf<L>([], now)) == []
  {
  }

  lemma LastBefore<L>(h: seq<Stamped<L>>, now: int)
    requires h != [] && forall k | 0 <= k < |h| :: h[k].at <= now
    ensures h[|h| - 1].at <= now
  {
  }

  lemma WindowSorted<L>(w: seq<Stamped<L>>, h: seq<Stamped<L>>, now: int)
    requires Sorted(h) && IsWindow(w, h, now)
    ensures Sorted(w) && |w| <= LOG_REPLAY_MAX
  {
    assert forall i | 0 <= i < |w| :: w[i] == h[|h| - |w| + i];
  }

  // ---- What a client hears ----

  lemma WriteGot<L>(heard: map<nat, seq<L>>, d: nat, lines: seq<L>, c: nat)
    ensures Got(Write(heard, d, lines), c) == if c == d then Got(heard, c) + lines else Got(heard, c)
  {
  }

  lemma {:induction false} HeardAll<L>(heard: map<nat, seq<L>>, clients: seq<nat>, line: L, c: nat)
    requires NoDup(clients)
    ensures Got(WriteAll(heard, clients, line), c) == Got(heard, c) + if c in clients then [line] else []
  {
    hide Write, Got;
    if clients == [] {
      assert Got(heard, c) + [] == Got(heard, c);
    } else {
      var n := |clients| - 1;
      var front, last := clients[..n], clients[n];
      HeardAll(heard, front, line, c);
      WriteGot(WriteAll(heard, front, line), last, [line], c);
      assert clients == front + [last];
      assert last !in front;
      if c == last {
        assert Got(heard, c) + [] == Got(heard, c);
      }
    }
  }

  /** What one event writes to client `c`. */
  function Gets<L>(s: State<L>, e: Event<L>, c: nat): seq<L> {
    match e
    case Broadcast(line, _) => if c in s.clients then [line] else []
    case Connect(d, now) => if d == c then Fresh(s.recent, now - LOG_REPLAY_WINDOW_MS) else []
    case Close(_) => []
  }

  lemma StepHeard<L>(s: State<L>, e: Event<L>, c: nat)
    requires NoDup(s.clients)
    ensures NoDup(Step(s, e).clients)
    ensures Heard(Step(s, e), c) == Heard(s, c) + Gets(s, e, c)
    ensures c in Step(s, e).clients <==> (e.Connect? && e.client == c) || (c in s.clients && e != Close(c))
  {
    match e
    case Broadcast(line, _) => HeardAll(s.heard, s.clients, line, c);
    case Connect(_, _) =>
    case Close(d) => RemoveFirstElements(s.clients, d);
  }

  lemma {:induction false} ClientsDistinct<L>(events: seq<Event<L>>)
    ensures NoDup(Run(events).clients)
  {
    if events != [] {
      ClientsDistinct(events[..|events| - 1]);
      StepHeard(Run(events[..|events| - 1]), events[|events| - 1], 0);
    }
  }

  predicate NoConnect<L>(events: seq<Event<L>>, c: nat) {
    forall i | 0 <= i < |events| :: events[i].Connect? ==> events[i].client != c
  }

  predicate NoClose<L>(events: seq<Event<L>>, c: nat) {
    forall i | 0 <= i < |events| :: events[i].Close? ==> events[i].client != c
  }

  function LinesIn<L>(e: Event<L>): seq<L> {
    if e.Broadcast? then [e.line] else []
  }

  lemma HearsOne<L>(events: seq<Event<L>>, e: Event<L>, c: nat)
    requires e.Connect? ==> e.client != c
    ensures var before, after := Run(events), Run(events + [e]);
      && Heard(after, c) == Heard(before, c) + (if c in before.clients then LinesIn(e) else [])
      && (c in after.clients <==> c in before.clients && e != Close(c))
  {
    hide Run, Heard, Step, NoDup;
    RunNext(events, e);
    ClientsDistinct(events);
    StepHeard(Run(events), e, c);
  }

  lemma LinesNext<L>(events: seq<Event<L>>, e: Event<L>)
    ensures Lines(History(events + [e])) == Lines(History(events)) + LinesIn(e)
  {
    RunNext(events, e);
    LinesGrow(History(events), if e.Broadcast? then [Stamped(e.line, e.now)] else []);
  }

  /** While it stays connected a client hears each broadcast line once, in order; before and after it hears nothing. */
  lemma {:induction false} HearsNext<L>(base: seq<Event<L>>, more: seq<Event<L>>, c: nat)
    requires NoConnect(more, c)
    requires c in Run(base).clients ==> NoClose(more, c)
    ensures c in Run(base + more).clients <==> c in Run(base).clients
    ensures Heard(Run(base + more), c)
         == Heard(Run(base), c) + if c in Run(base).clients then Lines(History(more)) else []
    decreases |more|
  {
    hide *;
    if more == [] {
      NoLines<L>();
      assert base + more == base;
    } else {
      var n := |more| - 1;
      var e, init := more[n], more[..n];
      Shorter(more, c);
      HearsNext(base, init, c);
      HearsOne(base + init, e, c);
      LinesNext(init, e);
      assert base + more == base + init + [e] && more == init + [e];
      var was, x, y := Heard(Run(base), c), Lines(History(init)), LinesIn(e);
      if c in Run(base).clients {
        assert was + x + y == was + (x + y);
      }
    }
  }

  lemma NoLines<L>()
    ensures Lines(History<L>([])) == []
  {
  }

  lemma Shorter<L>(events: seq<Event<L>>, c: nat)
    requires events != [] && NoConnect(events, c)
    ensures var n := |events| - 1;
      && NoConnect(events[..n], c)
      && (events[n].Connect? ==> events[n].client != c)
      && (NoClose(events, c) ==> NoClose(events[..n], c) && events[n] != Close(c))
  {
  }

  lemma LinesGrow<L>(a: seq<Stamped<L>>, b: seq<Stamped<L>>)
    ensures Lines(a + b) == Lines(a) + Lines(b)
  {
  }

  /**
   Exactly once: a new client hears the window of past lines by replay, then each
   later line live, in broadcast order, and nothing once it has closed.
   */
  lemma ExactlyOnce<L>(past: seq<Event<L>>, c: nat, now: int, during: seq<Event<L>>, later: seq<Event<L>>)
    requires Monotone(past + [Connect(c, now)])
    requires NoConnect(past, c) && NoConnect(during, c) && NoClose(during, c) && NoConnect(later, c)
    ensures var heard := Lines(WindowOf(History(past), now)) + Lines(History(during));
      && Heard(Run(past + [Connect(c, now)] + during), c) == heard
      && Heard(Run(past + [Connect(c, now)] + during + [Close(c)] + later), c) == heard
  {
    Joins(past, c, now);
    hide Run, History, Monotone, Lines, WindowOf;
    var joined := past + [Connect(c, now)];
    HearsNext(joined, during, c);
    RunNext(joined + during, Close(c));
    ClientsDistinct(joined + during);
    StepHeard(Run(joined + during), Close(c), c);
    HearsNext(joined + during + [Close(c)], later, c);
  }

  /** A client new to the server hears exactly the replay. */
  lemma Joins<L>(past: seq<Event<L>>, c: nat, now: int)
    requires Monotone(past + [Connect(c, now)]) && NoConnect(past, c)
    ensures c in Run(past + [Connect(c, now)]).clients
    ensures Heard(Run(past + [Connect(c, now)]), c) == Lines(WindowOf(History(past), now))
  {
    hide History, Monotone, Lines, WindowOf, NoDup, IsWindow;
    NewcomerHeardNothing(past, c);
    ReplayIsWindow(past, c, now);
    RunNext(past, Connect(c, now));
    ClientsDistinct(past);
    StepHeard(Run(past), Connect(c, now), c);
    hide Run, Heard;
  }

  lemma NewcomerHeardNothing<L>(past: seq<Event<L>>, c: nat)
    requires NoConnect(past, c)
    ensures Heard(Run(past), c) == [] && c !in Run(past).clients
  {
    assert Heard(Run<L>([]), c) == [] && c !in Run<L>([]).clients;
    HearsNext([], past, c);
    assert [] + past == past;
  }

  /** The replayed lines and the live ones are a suffix of all history: no line is missed between them and none comes twice. */
  lemma ReplayMeetsLive<L>(past: seq<Event<L>>, c: nat, now: int, during: seq<Event<L>>)
    requires Monotone(past + [Connect(c, now)])
    ensures var h := History(past + [Connect(c, now)] + during);
      var heard := WindowOf(History(past), now) + History(during);
      |heard| <= |h| && heard == h[|h| - |heard|..]
  {
    hide History, Run, Monotone, WindowOf, Fresh, Lines;
    ReplayIsWindow(past, c, now);
    HistoryConcat(past + [Connect(c, now)], during);
    RunNext(past, Connect(c, now));
    SuffixGrows(WindowOf(History(past), now), History(past), History(during));
  }

  lemma SuffixGrows<L>(w: seq<Stamped<L>>, h: seq<Stamped<L>>, more: seq<Stamped<L>>)
    requires |w| <= |h| && w == h[|h| - |w|..]
    ensures var heard, all := w + more, h + [] + more; |heard| <= |all| && heard == all[|all| - |heard|..]
  {
    assert h + [] == h;
  }

  lemma {:induction false} HistoryConcat<L>(a: seq<Event<L>>, b: seq<Event<L>>)
    ensures History(a + b) == History(a) + History(b)
    decreases |b|
  {
    if b == [] {
      assert a + b == a;
    } else {
      var n := |b| - 1;
      HistoryConcat(a, b[..n]);
      assert (a + b)[..|a + b| - 1] == a + b[..n];
    }
  }

  // ---- Any clock ----

  /** How many lines a broadcast drops. */
  lemma {:induction false} ShiftedDrops<L>(r: seq<Stamped<L>>, cutoff: int) returns (k: nat)
    ensures k <= |r| && Shifted(r, cutoff) == r[k..]
    ensures forall i | 0 <= i < k :: r[i].at < cutoff || |r| - i > LOG_REPLAY_MAX
    ensures k < |r| ==> r[k].at >= cutoff && |r| - k <= LOG_REPLAY_MAX
  {
    if r != [] && (r[0].at < cutoff || |r| > LOG_REPLAY_MAX) {
      var rest := r[1..];
      var n := ShiftedDrops(rest, cutoff);
      k := n + 1;
      assert Shifted(r, cutoff) == Shifted(rest, cutoff);
      hide Shifted;
      assert forall i | 0 < i < |r| :: r[i] == rest[i - 1];
      assert rest[n..] == r[k..];
    } else {
      k := 0;
      assert r[0..] == r;
    }
  }

  /** Among the last 200 lines no old one stands behind one that is not. */
  ghost predicate NoneOldBehind<L>(r: seq<Stamped<L>>, cutoff: int) {
    forall i, j | 0 <= i < j < |r| && |r| - i <= LOG_REPLAY_MAX :: r[i].at >= cutoff ==> r[j].at >= cutoff
  }

  /** If nothing needs dropping and there is room, the line dropped last, if any, is still too old. */
  ghost predicate NoneDroppedEarly<L>(r: seq<Stamped<L>>, h: seq<Stamped<L>>, cutoff: int) {
    0 < |r| < LOG_REPLAY_MAX && r[0].at >= cutoff && |r| < |h| ==> h[|h| - |r| - 1].at < cutoff
  }

  lemma ShiftedWindowExactly<L>(r: seq<Stamped<L>>, h: seq<Stamped<L>>, now: int)
    requires 0 < |r| <= |h| && r == h[|h| - |r|..] && r[|r| - 1].at >= now - LOG_REPLAY_WINDOW_MS
    ensures var cutoff := now - LOG_REPLAY_WINDOW_MS;
      IsWindow(Shifted(r, cutoff), h, now) <==> NoneOldBehind(r, cutoff) && NoneDroppedEarly(r, h, cutoff)
  {
    var cutoff := now - LOG_REPLAY_WINDOW_MS;
    var k := ShiftedDrops(r, cutoff);
    hide Shifted;
    AllFreshWhen(r, k, cutoff);
    LongestWhen(r, h, k, cutoff);
    hide NoneOldBehind, NoneDroppedEarly;
    assert r[k..] == h[|h| - |r[k..]|..];
  }

  predicate AllFresh<L>(w: seq<Stamped<L>>, cutoff: int) {
    forall i | 0 <= i < |w| :: w[i].at >= cutoff
  }

  lemma AllFreshWhen<L>(r: seq<Stamped<L>>, k: nat, cutoff: int)
    requires k < |r| && r[k].at >= cutoff && |r| - k <= LOG_REPLAY_MAX
    requires forall i | 0 <= i < k :: r[i].at < cutoff || |r| - i > LOG_REPLAY_MAX
    ensures AllFresh(r[k..], cutoff) <==> NoneOldBehind(r, cutoff)
  {
    var w := r[k..];
    assert forall i | k <= i < |r| :: r[i] == w[i - k];
  }

  lemma LongestWhen<L>(r: seq<Stamped<L>>, h: seq<Stamped<L>>, k: nat, cutoff: int)
    requires k < |r| <= |h| && r == h[|h| - |r|..] && r[k].at >= cutoff && |r| - k <= LOG_REPLAY_MAX
    requires forall i | 0 <= i < k :: r[i].at < cutoff || |r| - i > LOG_REPLAY_MAX
    ensures var m := |r| - k;
      (m < |h| ==> m == LOG_REPLAY_MAX || h[|h| - m - 1].at < cutoff) <==> NoneDroppedEarly(r, h, cutoff)
  {
    if k > 0 {
      assert r[k - 1] == h[|h| - |r| + (k - 1)];
      assert r[0].at < cutoff || |r| > LOG_REPLAY_MAX;
    }
  }

  /** Whatever the clock did, the buffer is a suffix of the history. */
  lemma {:induction false} BufferIsSuffix<L>(events: seq<Event<L>>)
    ensures var r, h := Run(events).recent, History(events); |r| <= |h| && r == h[|h| - |r|..]
  {
    hide *;
    if events == [] {
      NothingYet<L>();
    } else {
      var n := |events| - 1;
      var prefix, e := events[..n], events[n];
      assert events == prefix + [e];
      BufferIsSuffix(prefix);
      RecentNext(prefix, e);
      RunNext(prefix, e);
      var r, h := Run(prefix).recent, History(prefix);
      if e.Broadcast? {
        var x := Stamped(e.line, e.now);
        var k := ShiftedDrops(r + [x], e.now - LOG_REPLAY_WINDOW_MS);
        assert (r + [x])[k..] == (h + [x])[|h| - |r| + k..];
      } else {
        assert h + [] == h;
      }
    }
  }

  /**
   Whatever the clock did before: after a broadcast the buffer is the window of
   all history exactly when, before it dropped anything, no old line stood behind
   a newer stamp, and no line still fresh had been dropped already.
   */
  lemma WindowExactly<L>(events: seq<Event<L>>, line: L, now: int)
    ensures var x, cutoff := Stamped(line, now), now - LOG_REPLAY_WINDOW_MS;
      var r, h := Run(events).recent + [x], History(events) + [x];
      IsWindow(Run(events + [Broadcast(line, now)]).recent, h, now)
      <==> NoneOldBehind(r, cutoff) && NoneDroppedEarly(r, h, cutoff)
  {
    hide Run, History, Shifted, IsWindow, NoneOldBehind, NoneDroppedEarly;
    var x, recent, h := Stamped(line, now), Run(events).recent, History(events);
    BufferIsSuffix(events);
    RecentNext(events, Broadcast(line, now));
    assert recent + [x] == (h + [x])[|h + [x]| - |recent + [x]|..];
    ShiftedWindowExactly(recent + [x], h + [x], now);
  }

  const BACKWARDS := [Broadcast("a", 10000), Broadcast("b", 1000), Broadcast("c", 6000)]

  /** With a clock set back, the buffer keeps a line that is too old behind one that is not. */
  lemma ClockBackKeepsOldLine()
    ensures Run(BACKWARDS).recent == [Stamped("a", 10000), Stamped("b", 1000), Stamped("c", 6000)]
  {
    var e := BACKWARDS;
    assert e[..2][..1] == e[..1] && e[..1][..0] == [];
    assert Run(e[..1]).recent == [Stamped("a", 10000)];
    assert Run(e[..2]).recent == [Stamped("a", 10000), Stamped("b", 1000)];
  }
}
