/**
 The API-mock network listener (ApiMockNetworkListener.ts): how many requests are
 in flight across delayed deliveries, stops and restarts, and who owns the socket.

 Every callback runs to completion, so one `Event` is one run between awaits. A
 closure that waits (for an awaited call, a delay timer, or a delivery after its
 delay) is an entry of `closures`, holding the epoch it captured.
 */
module MockListener {

  datatype Server = Null | Bound(socket: nat)

  datatype Closure = Awaiting(epoch: nat) | Delayed(epoch: nat) | Late(epoch: nat)

  datatype State = State(
    inFlight: int,
    runtimeEpoch: nat,
    delayTimers: set<nat>,
    server: Server,
    draining: bool,
    generation: nat,
    closures: map<nat, Closure>,
    requests: nat,
    starting: set<nat>,
    open: set<nat>,
    sockets: nat)

  const Init := State(0, 0, {}, Null, false, 0, map[], 0, {}, {}, 0)

  datatype Event =
    | Answer                // a request answered without waiting
    | Defer                 // a request answered after a delay
    | Await                 // a request that waits for its proxy or delivery
    | Resume(request: nat)  // the awaited call returned or threw
    | Fire(request: nat)    // a delay timer
    | Deliver(request: nat) // a delivery after its delay settled
    | Start(tlsOk: bool)
    | Listening(socket: nat)
    | ListenFailed(socket: nat)
    | Stop
    | Drained
    | Commit

  datatype Effect = Began(request: nat) | Released(request: nat) | Reset | Overwrote(socket: nat)

  datatype Outcome = Outcome(state: State, log: seq<Effect>)

  /** Timers are cleared; the other closures still run. */
  function Undelayed(closures: map<nat, Closure>): map<nat, Closure> {
    map r | r in closures && !closures[r].Delayed? :: closures[r]
  }

  function Canceled(s: State): State {
    s.(runtimeEpoch := s.runtimeEpoch + 1, delayTimers := {}, closures := Undelayed(s.closures), inFlight := 0)
  }

  /** A closure that captured `epoch` gives its request back. */
  function Release(s: State, epoch: nat): State {
    if s.runtimeEpoch == epoch then s.(inFlight := s.inFlight - 1) else s
  }

  function Begin(s: State): State {
    s.(inFlight := s.inFlight + 1, requests := s.requests + 1)
  }

  predicate Waits(s: State, r: nat) {
    r in s.closures
  }

  function Finish(s: State, r: nat): Outcome
    requires Waits(s, r)
  {
    Outcome(Release(s, s.closures[r].epoch).(closures := s.closures - {r}), [Released(r)])
  }

  /** One run between awaits; a closure that is not waiting cannot run. */
  function Step(s: State, e: Event): Outcome {
    match e
    case Answer => Outcome(Release(Begin(s), s.runtimeEpoch), [Began(s.requests), Released(s.requests)])
    case Defer =>
      Outcome(Begin(s).(delayTimers := s.delayTimers + {s.requests}, closures := s.closures[s.requests := Delayed(s.runtimeEpoch)]),
              [Began(s.requests)])
    case Await => Outcome(Begin(s).(closures := s.closures[s.requests := Awaiting(s.runtimeEpoch)]), [Began(s.requests)])
    case Resume(r) => if Waits(s, r) && s.closures[r].Awaiting? then Finish(s, r) else Outcome(s, [])
    case Fire(r) =>
      if Waits(s, r) && s.closures[r].Delayed?
      then Outcome(s.(delayTimers := s.delayTimers - {r}, closures := s.closures[r := Late(s.closures[r].epoch)]), [])
      else Outcome(s, [])
    case Deliver(r) => if Waits(s, r) && s.closures[r].Late? then Finish(s, r) else Outcome(s, [])
    case Start(tlsOk) =>
      if s.server != Null then Outcome(s, [])
      else
        var c := Canceled(s).(generation := 1, draining := false);
        Outcome(if tlsOk then c.(starting := s.starting + {s.sockets}, sockets := s.sockets + 1) else c, [Reset])
    case Listening(k) =>
      if k !in s.starting then Outcome(s, [])
      else Outcome(s.(starting := s.starting - {k}, open := s.open + {k}, server := Bound(k)),
                   if s.server == Null then [] else [Overwrote(s.server.socket)])
    case ListenFailed(k) => Outcome(s.(starting := s.starting - {k}), [])
    case Stop =>
      var c := Canceled(s);
      Outcome(if s.server == Null then c else c.(draining := true, server := Null, open := s.open - {s.server.socket}), [Reset])
    case Drained => Outcome(s.(draining := false), [])
    case Commit => Outcome(s.(generation := s.generation + 1), [])
  }

  /** Events, oldest first, from a new listener. */
  function Run(events: seq<Event>): Outcome {
    if events == [] then Outcome(Init, [])
    else
      var before := Run(events[..|events| - 1]);
      var last := Step(before.state, events[|events| - 1]);
      Outcome(last.state, before.log + last.log)
  }

  predicate IsRunning(s: State) {
    s.server != Null && !s.draining
  }

  // ---- The listener as written ----

  /**
   `server` holds the socket number. The ghost fields hold what the language
   runtime keeps: closures waiting to run, sockets being bound, sockets open.
   */
  class Listener {
    var inFlight: int
    var runtimeEpoch: nat
    var delayTimers: set<nat>
    var server: Server
    var draining: bool
    var generation: nat
    ghost var closures: map<nat, Closure>
    var requests: nat
    ghost var starting: set<nat>
    ghost var open: set<nat>
    var sockets: nat

    ghost function Now(): State
      reads this
    {
      State(inFlight, runtimeEpoch, delayTimers, server, draining, generation,
            closures, requests, starting, open, sockets)
    }

    constructor ()
      ensures Now() == Init
    {
      inFlight, runtimeEpoch, delayTimers, server, draining, generation := 0, 0, {}, Null, false, 0;
      closures, requests := map[], 0;
      starting, open, sockets := {}, {}, 0;
    }

    method CancelDeferredDeliveries()
      modifies this
      ensures Now() == Canceled(old(Now()))
    {
      runtimeEpoch := runtimeEpoch + 1;
      delayTimers := {};
      closures := Undelayed(closures);
      inFlight := 0;
    }

    /** `delayMs > 0` defers the answer to a timer; `waits` leaves the method at an await. */
    method ProcessRequest(delayMs: nat, waits: bool) returns (request: nat, epoch: nat)
      modifies this
      ensures request == old(requests) && epoch == old(runtimeEpoch)
      ensures Now() == Step(old(Now()), if delayMs > 0 then Defer else if waits then Await else Answer).state
    {
      request := requests;
      requests := requests + 1;
      inFlight := inFlight + 1;
      epoch := runtimeEpoch;
      if delayMs > 0 {
        delayTimers := delayTimers + {request};
        closures := closures[request := Delayed(epoch)];
      } else if waits {
        closures := closures[request := Awaiting(epoch)];
      } else if runtimeEpoch == epoch {
        inFlight := inFlight - 1;
      }
    }

    /** The rest of a request after its await, however that ended. */
    method FinishRequest(request: nat, epoch: nat)
      requires request in closures && closures[request] == Awaiting(epoch)
      modifies this
      ensures Now() == Step(old(Now()), Resume(request)).state
    {
      closures := closures - {request};
      if runtimeEpoch == epoch {
        inFlight := inFlight - 1;
      }
    }

    method FireDelayTimer(request: nat)
      requires request in closures && closures[request].Delayed?
      modifies this
      ensures Now() == Step(old(Now()), Fire(request)).state
    {
      delayTimers := delayTimers - {request};
      closures := closures[request := Late(closures[request].epoch)];
    }

    method FinishDelivery(request: nat, epoch: nat)
      requires request in closures && closures[request] == Late(epoch)
      modifies this
      ensures Now() == Step(old(Now()), Deliver(request)).state
    {
      closures := closures - {request};
      if runtimeEpoch == epoch {
        inFlight := inFlight - 1;
      }
    }

    /** `Start` up to the await; `ok` is false where the source throws. */
    method BeginStart(tlsOk: bool) returns (ok: bool, socket: nat)
      modifies this
      ensures ok <==> old(server) == Null && tlsOk
      ensures socket == old(sockets)
      ensures Now() == Step(old(Now()), Start(tlsOk)).state
    {
      socket := sockets;
      if server != Null {
        return false, socket;
      }
      CancelDeferredDeliveries();
      generation := 1;
      draining := false;
      if !tlsOk {
        return false, socket;
      }
      sockets := sockets + 1;
      starting := starting + {socket};
      return true, socket;
    }

    method EndStart(socket: nat, listens: bool)
      requires socket in starting
      modifies this
      ensures Now() == Step(old(Now()), if listens then Listening(socket) else ListenFailed(socket)).state
    {
      starting := starting - {socket};
      if listens {
        open := open + {socket};
        server := Bound(socket);
      }
    }

    /** `Stop` up to the await; `waits` is false where it returns at once. */
    method BeginStop() returns (waits: bool)
      modifies this
      ensures waits <==> old(server) != Null
      ensures Now() == Step(old(Now()), Stop).state
    {
      CancelDeferredDeliveries();
      if server == Null {
        return false;
      }
      draining := true;
      open := open - {server.socket};
      server := Null;
      return true;
    }

    method EndStop()
      modifies this
      ensures Now() == Step(old(Now()), Drained).state
    {
      draining := false;
    }

    method CommitDefinition() returns (g: nat)
      modifies this
      ensures g == old(generation) + 1 && Now() == Step(old(Now()), Commit).state
    {
      generation := generation + 1;
      g := generation;
    }
  }

  // ---- Accounting ----

  function Settle(owing: set<nat>, e: Effect): set<nat> {
    match e
    case Began(r) => owing + {r}
    case Released(r) => owing - {r}
    case Reset => {}
    case Overwrote(_) => owing
  }

  /** Requests begun since the last reset and not given back, read off the log alone. */
  function Outstanding(log: seq<Effect>): set<nat> {
    if log == [] then {} else Settle(Outstanding(log[..|log| - 1]), log[|log| - 1])
  }

  lemma OutstandingConcat(log: seq<Effect>, more: seq<Effect>)
    requires |more| <= 2
    ensures |more| == 0 ==> Outstanding(log + more) == Outstanding(log)
    ensures |more| == 1 ==> Outstanding(log + more) == Settle(Outstanding(log), more[0])
    ensures |more| == 2 ==> Outstanding(log + more) == Settle(Settle(Outstanding(log), more[0]), more[1])
  {
    if more == [] {
      assert log + more == log;
    } else {
      assert (log + more)[..|log + more| - 1] == log + more[..|more| - 1];
      if |more| == 2 {
        assert (log + [more[0]])[..|log|] == log && more[..1] == [more[0]];
      } else {
        assert log + more[..0] == log;
      }
    }
  }

  /** The owing requests are those whose closure captured the current epoch; no other can be on a timer. */
  ghost predicate Accounted(s: State, owing: set<nat>) {
    && s.inFlight == |owing|
    && (forall r :: r in owing <==> r in s.closures && s.closures[r].epoch == s.runtimeEpoch)
    && (forall r :: r in s.delayTimers <==> r in s.closures && s.closures[r].Delayed?)
    && (forall r | r in s.closures ::
          r < s.requests && s.closures[r].epoch <= s.runtimeEpoch
          && (s.closures[r].Delayed? ==> s.closures[r].epoch == s.runtimeEpoch))
  }

  /** What an event's log does to the requests owing. */
  function Owing(owing: set<nat>, log: seq<Effect>): set<nat>
    requires |log| <= 2
  {
    if log == [] then owing
    else if |log| == 1 then Settle(owing, log[0])
    else Settle(Settle(owing, log[0]), log[1])
  }

  lemma AnswerAccounted(s: State, owing: set<nat>)
    requires Accounted(s, owing)
    ensures Accounted(Step(s, Answer).state, Owing(owing, Step(s, Answer).log))
  {
    assert s.requests !in owing;
    assert owing + {s.requests} - {s.requests} == owing;
  }

  lemma DeferAccounted(s: State, owing: set<nat>)
    requires Accounted(s, owing)
    ensures Accounted(Step(s, Defer).state, Owing(owing, Step(s, Defer).log))
  {
    assert s.requests !in owing;
  }

  lemma AwaitAccounted(s: State, owing: set<nat>)
    requires Accounted(s, owing)
    ensures Accounted(Step(s, Await).state, Owing(owing, Step(s, Await).log))
  {
    assert s.requests !in owing;
  }

  lemma ResumeAccounted(s: State, r: nat, owing: set<nat>)
    requires Accounted(s, owing)
    ensures Accounted(Step(s, Resume(r)).state, Owing(owing, Step(s, Resume(r)).log))
  {
    Smaller(owing, r);
  }

  lemma FireAccounted(s: State, r: nat, owing: set<nat>)
    requires Accounted(s, owing)
    ensures Accounted(Step(s, Fire(r)).state, Owing(owing, Step(s, Fire(r)).log))
  {
  }

  lemma DeliverAccounted(s: State, r: nat, owing: set<nat>)
    requires Accounted(s, owing)
    ensures Accounted(Step(s, Deliver(r)).state, Owing(owing, Step(s, Deliver(r)).log))
  {
    Smaller(owing, r);
  }

  lemma CanceledAccounted(s: State, owing: set<nat>)
    requires Accounted(s, owing)
    ensures Accounted(Canceled(s), {})
  {
  }

  /** The fields the accounts speak of. */
  predicate SameAccounts(s: State, t: State) {
    && t.inFlight == s.inFlight && t.runtimeEpoch == s.runtimeEpoch && t.delayTimers == s.delayTimers
    && t.closures == s.closures && t.requests == s.requests
  }

  lemma SameAccounted(s: State, t: State, owing: set<nat>)
    requires Accounted(s, owing) && SameAccounts(s, t)
    ensures Accounted(t, owing)
  {
  }

  lemma StepAccounted(s: State, e: Event, owing: set<nat>)
    requires Accounted(s, owing)
    ensures Accounted(Step(s, e).state, Owing(owing, Step(s, e).log))
  {
    hide Accounted;
    var t := Step(s, e).state;
    match e {
      case Answer => AnswerAccounted(s, owing);
      case Defer => DeferAccounted(s, owing);
      case Await => AwaitAccounted(s, owing);
      case Resume(r) => ResumeAccounted(s, r, owing);
      case Fire(r) => FireAccounted(s, r, owing);
      case Deliver(r) => DeliverAccounted(s, r, owing);
      case Start(tlsOk) =>
        CanceledAccounted(s, owing);
        if s.server == Null { SameAccounted(Canceled(s), t, {}); }
      case Stop =>
        CanceledAccounted(s, owing);
        SameAccounted(Canceled(s), t, {});
      case _ => SameAccounted(s, t, owing);
    }
  }

  lemma Smaller(owing: set<nat>, r: nat)
    ensures |owing - {r}| == if r in owing then |owing| - 1 else |owing|
  {
    if r !in owing {
      assert owing - {r} == owing;
    }
  }

  /** What every run keeps. */
  lemma {:induction false} RunAccounted(events: seq<Event>)
    ensures Accounted(Run(events).state, Outstanding(Run(events).log))
  {
    hide Accounted, Step;
    if events == [] {
      NothingOwing();
    } else {
      var prefix := events[..|events| - 1];
      RunAccounted(prefix);
      var before, e := Run(prefix), events[|events| - 1];
      ShortLog(before.state, e);
      OutstandingConcat(before.log, Step(before.state, e).log);
      StepAccounted(before.state, e, Outstanding(before.log));
    }
  }

  lemma ShortLog(s: State, e: Event)
    ensures |Step(s, e).log| <= 2
  {
  }

  lemma NothingOwing()
    ensures Accounted(Init, Outstanding([]))
  {
  }

  /**
   After every run the counter is the number of requests begun since the last
   stop or start and not given back, and every pending delay timer is one of them.
   */
  lemma InFlightExact(events: seq<Event>)
    ensures var s, owing := Run(events).state, Outstanding(Run(events).log);
      && s.inFlight == |owing| >= 0
      && s.delayTimers <= owing
      && (forall r :: r in s.delayTimers <==> r in s.closures && s.closures[r].Delayed?)
  {
    RunAccounted(events);
  }

  /** A delivery or awaited call that outlived a stop or start changes no count; one that did not gives back exactly its request. */
  lemma LateReturns(events: seq<Event>, r: nat)
    ensures var s, owing := Run(events).state, Outstanding(Run(events).log);
      r in s.closures && !s.closures[r].Delayed? ==>
        Step(s, if s.closures[r].Awaiting? then Resume(r) else Deliver(r)).state.inFlight
        == if r in owing then s.inFlight - 1 else s.inFlight
  {
    RunAccounted(events);
  }

  /** Every request below `n` has left the timers. */
  ghost predicate Off(s: State, n: nat) {
    n <= s.requests && forall r :: r in s.delayTimers || (r in s.closures && s.closures[r].Delayed?) ==> n <= r
  }

  lemma ResetTurnsOff(s: State, e: Event)
    requires e == Stop || (e.Start? && s.server == Null)
    ensures Off(Step(s, e).state, s.requests)
    ensures Step(s, e).state.inFlight == 0
  {
  }

  lemma StepStaysOff(s: State, e: Event, n: nat)
    requires Off(s, n)
    ensures Off(Step(s, e).state, n)
  {
    hide Undelayed;
    UndelayedOnly(s.closures);
  }

  lemma UndelayedOnly(closures: map<nat, Closure>)
    ensures forall r :: r in Undelayed(closures) ==> r in closures && Undelayed(closures)[r] == closures[r] && !closures[r].Delayed?
  {
  }

  lemma {:induction false} RunStaysOff(events: seq<Event>, more: seq<Event>, n: nat)
    requires Off(Run(events).state, n)
    ensures Off(Run(events + more).state, n)
    decreases |more|
  {
    hide Off, Step;
    if more == [] {
      assert events + more == events;
    } else {
      var last := |more| - 1;
      RunStaysOff(events, more[..last], n);
      assert (events + more)[..|events + more| - 1] == events + more[..last];
      StepStaysOff(Run(events + more[..last]).state, more[last], n);
    }
  }

  /**
   A request begun before a stop, or before a start that got past its guard, never
   fires its delay timer after it, whatever happens in between: no dropped
   delivery reaches a client.
   */
  lemma DroppedNeverFires(events: seq<Event>, e: Event, more: seq<Event>, r: nat)
    requires e == Stop || (e.Start? && Run(events).state.server == Null)
    requires r < Run(events).state.requests
    ensures var t := Run(events + [e] + more).state;
      r !in t.delayTimers && Step(t, Fire(r)) == Outcome(t, [])
  {
    assert (events + [e])[..|events|] == events;
    ResetTurnsOff(Run(events).state, e);
    hide Undelayed;
    RunStaysOff(events + [e], more, Run(events).state.requests);
    hide Run;
  }

  /**
   A pending delay timer fires once: it leaves the set while its request stays in
   flight, and its delivery then gives back exactly that request.
   */
  lemma DeferredGivenBack(events: seq<Event>, r: nat)
    requires r in Run(events).state.delayTimers
    ensures var s, owing := Run(events).state, Outstanding(Run(events).log);
      var fired := Step(s, Fire(r));
      var given := Step(fired.state, Deliver(r));
      && r in owing && r !in fired.state.delayTimers && fired.state.inFlight == s.inFlight && fired.log == []
      && given.log == [Released(r)] && given.state.inFlight == s.inFlight - 1
      && Step(given.state, Fire(r)).state == given.state && Step(given.state, Deliver(r)).state == given.state
  {
    RunAccounted(events);
    hide Run, Outstanding;
  }

  /** A request that waits is in flight until its await returns, and gives itself back then. */
  lemma AwaitedGivenBack(events: seq<Event>)
    ensures var s := Run(events).state;
      var begun := Step(s, Await);
      var given := Step(begun.state, Resume(s.requests));
      && begun.state.inFlight == s.inFlight + 1 && begun.log == [Began(s.requests)]
      && given.state.inFlight == s.inFlight && given.log == [Released(s.requests)]
      && Step(s, Answer).state.inFlight == s.inFlight && Step(s, Answer).log == [Began(s.requests), Released(s.requests)]
      && Step(s, Defer).state.inFlight == s.inFlight + 1 && s.requests in Step(s, Defer).state.delayTimers
  {
    RunAccounted(events);
    hide Run, Outstanding;
  }

  // ---- The definition's generation ----

  function Commits(events: seq<Event>): nat {
    if events == [] then 0 else Commits(events[..|events| - 1]) + if events[|events| - 1] == Commit then 1 else 0
  }

  /** No start in `more`, run after `events`, gets past its guard. */
  predicate NoRestart(events: seq<Event>, more: seq<Event>)
    decreases |more|
  {
    more == [] ||
    (var last := |more| - 1;
     NoRestart(events, more[..last]) && !(more[last].Start? && Run(events + more[..last]).state.server == Null))
  }

  /** A start that gets past its guard begins at generation 1, whatever came before, and each commit since adds one. */
  lemma {:induction false} GenerationExact(events: seq<Event>, tlsOk: bool, more: seq<Event>)
    requires Run(events).state.server == Null && NoRestart(events + [Start(tlsOk)], more)
    ensures Run(events + [Start(tlsOk)] + more).state.generation == 1 + Commits(more)
    decreases |more|
  {
    hide Step;
    var start := events + [Start(tlsOk)];
    if more == [] {
      assert start[..|start| - 1] == events && start + more == start;
      StepGeneration(Run(events).state, Start(tlsOk));
    } else {
      var last := |more| - 1;
      GenerationExact(events, tlsOk, more[..last]);
      assert (start + more)[..|start + more| - 1] == start + more[..last];
      StepGeneration(Run(start + more[..last]).state, more[last]);
    }
  }

  lemma StepGeneration(s: State, e: Event)
    ensures Step(s, e).state.generation ==
      if e == Commit then s.generation + 1 else if e.Start? && s.server == Null then 1 else s.generation
  {
  }

  // ---- Socket ownership ----

  function Overwritten(log: seq<Effect>): set<nat> {
    if log == [] then {}
    else Overwritten(log[..|log| - 1]) + if log[|log| - 1].Overwrote? then {log[|log| - 1].socket} else {}
  }

  function Owned(s: State): set<nat> {
    if s.server == Null then {} else {s.server.socket}
  }

  ghost predicate SocketsKnown(s: State, lost: set<nat>) {
    && (forall k :: k in s.open <==> s.server == Bound(k) || k in lost)
    && (forall k | k in lost :: s.server != Bound(k))
    && (forall k | k in s.starting :: k !in s.open && k < s.sockets)
    && (forall k | k in s.open :: k < s.sockets)
  }

  /** The socket an event's log gives up. */
  function Lost(log: seq<Effect>): set<nat> {
    if |log| == 1 && log[0].Overwrote? then {log[0].socket} else {}
  }

  lemma OverwrittenConcat(log: seq<Effect>, more: seq<Effect>)
    requires |more| <= 1 || (|more| == 2 && !more[0].Overwrote? && !more[1].Overwrote?)
    ensures Overwritten(log + more) == Overwritten(log) + Lost(more)
  {
    hide Overwritten;
    if more == [] {
      assert log + more == log;
    } else if |more| == 1 {
      OverwrittenOne(log, more[0]);
      assert log + more == log + [more[0]];
    } else {
      OverwrittenOne(log, more[0]);
      OverwrittenOne(log + [more[0]], more[1]);
      assert log + more == log + [more[0]] + [more[1]];
    }
  }

  lemma OverwrittenOne(log: seq<Effect>, e: Effect)
    ensures Overwritten(log + [e]) == Overwritten(log) + if e.Overwrote? then {e.socket} else {}
  {
    assert (log + [e])[..|log|] == log;
  }

  lemma LogShape(s: State, e: Event)
    ensures var log := Step(s, e).log; |log| <= 1 || (|log| == 2 && !log[0].Overwrote? && !log[1].Overwrote?)
  {
  }

  lemma StepSockets(s: State, e: Event, lost: set<nat>)
    requires SocketsKnown(s, lost)
    ensures SocketsKnown(Step(s, e).state, lost + Lost(Step(s, e).log))
  {
    if e.Listening? {
      var t, more := Step(s, e).state, Lost(Step(s, e).log);
      if e.socket in s.starting {
        assert t.server == Bound(e.socket) && e.socket !in lost;
        assert s.server != Null ==> s.server.socket in s.open;
      } else {
        assert lost + more == lost;
      }
    } else {
      SocketsApart(s, e, lost);
    }
  }

  lemma SocketsApart(s: State, e: Event, lost: set<nat>)
    requires SocketsKnown(s, lost) && !e.Listening?
    ensures SocketsKnown(Step(s, e).state, lost + Lost(Step(s, e).log))
  {
    assert Lost(Step(s, e).log) == {};
    assert lost + {} == lost;
  }

  lemma {:induction false} RunSockets(events: seq<Event>)
    ensures SocketsKnown(Run(events).state, Overwritten(Run(events).log))
  {
    if events != [] {
      var prefix, e := events[..|events| - 1], events[|events| - 1];
      RunSockets(prefix);
      var before := Run(prefix);
      hide Step, SocketsKnown;
      LogShape(before.state, e);
      OverwrittenConcat(before.log, Step(before.state, e).log);
      StepSockets(before.state, e, Overwritten(before.log));
    }
  }

  /**
   The life of a socket, from any reachable state with no server and no start under
   way: bound by a start, it runs once it listens, is closed by the stop at once, and
   after the drain the next start is possible; a failed listen leaves no trace.
   */
  lemma SocketLife(events: seq<Event>)
    requires var s := Run(events).state; s.server == Null && s.starting == {}
    ensures var s := Run(events).state;
      var k := s.sockets;
      var started := Step(s, Start(true)).state;
      var failed := Step(started, ListenFailed(k)).state;
      var running := Step(started, Listening(k)).state;
      var draining := Step(running, Stop).state;
      var drained := Step(draining, Drained).state;
      && started.starting == {k} && started.open == s.open && k !in s.open && !IsRunning(started) && !started.draining
      && failed.starting == {} && failed.open == s.open && failed.server == Null
      && running.starting == {} && running.open == s.open + {k} && running.server == Bound(k) && IsRunning(running)
      && Step(running, Start(true)) == Outcome(running, [])
      && draining.open == s.open && draining.server == Null && draining.draining && !IsRunning(draining)
      && !drained.draining && drained.open == s.open && Step(drained, Start(true)).state.starting == {k + 1}
  {
    RunSockets(events);
    hide Run, Overwritten, Undelayed;
  }

  /** No start begins while another has not finished. */
  predicate StartsApart(events: seq<Event>) {
    events == [] ||
    (StartsApart(events[..|events| - 1])
     && (events[|events| - 1].Start? ==> Run(events[..|events| - 1]).state.starting == {}))
  }

  ghost predicate Apart(s: State) {
    && (forall j, k | j in s.starting && k in s.starting :: j == k)
    && (s.starting != {} ==> s.server == Null)
    && (s.server != Null ==> !s.draining)
    && (s.draining ==> s.starting == {})
  }

  lemma StepApart(s: State, e: Event)
    requires Apart(s)
    requires e.Start? ==> s.starting == {}
    ensures Apart(Step(s, e).state)
    ensures Lost(Step(s, e).log) == {}
  {
  }

  lemma {:induction false} ApartOwnsAll(events: seq<Event>)
    requires StartsApart(events)
    ensures Apart(Run(events).state)
    ensures Overwritten(Run(events).log) == {}
  {
    if events != [] {
      var prefix, e := events[..|events| - 1], events[|events| - 1];
      ApartOwnsAll(prefix);
      var before := Run(prefix);
      hide Step, Apart;
      LogShape(before.state, e);
      OverwrittenConcat(before.log, Step(before.state, e).log);
      StepApart(before.state, e);
    }
  }

  /** With starts apart, `isRunning` says exactly whether a socket is open, and the listener owns the only one. */
  lemma RunningMeansOpen(events: seq<Event>)
    requires StartsApart(events)
    ensures var s := Run(events).state;
      && s.open == Owned(s)
      && (IsRunning(s) <==> s.open != {})
  {
    RunSockets(events);
    ApartOwnsAll(events);
  }

  // ---- When `isRunning` tells the truth ----

  /** The listener owns every open socket, and `isRunning` says whether there is one. */
  ghost predicate Honest(s: State) {
    s.open == Owned(s) && (IsRunning(s) <==> s.open != {})
  }

  /** A start finishes over a running server, or while a stop is still draining. */
  predicate ListensLate(s: State, e: Event) {
    e.Listening? && e.socket in s.starting && (s.server != Null || s.draining)
  }

  /** In any reachable state where `isRunning` is right, a step keeps it right exactly when no start finishes late. */
  lemma StaysHonestExactly(events: seq<Event>, e: Event)
    requires Honest(Run(events).state)
    ensures Honest(Step(Run(events).state, e).state) <==> !ListensLate(Run(events).state, e)
  {
    var s := Run(events).state;
    RunSockets(events);
    hide Run;
    if ListensLate(s, e) && s.server != Null {
      assert s.server.socket in s.open && s.server.socket != e.socket;
      assert s.server.socket in Step(s, e).state.open;
    }
  }

  predicate NoneListensLate(events: seq<Event>) {
    events == [] ||
    (NoneListensLate(events[..|events| - 1]) && !ListensLate(Run(events[..|events| - 1]).state, events[|events| - 1]))
  }

  ghost predicate AlwaysHonest(events: seq<Event>) {
    Honest(Run(events).state) && (events == [] || AlwaysHonest(events[..|events| - 1]))
  }

  /** `isRunning` is right all through a run, with no socket lost, exactly when no start finishes late in it. */
  lemma {:induction false} AlwaysHonestExactly(events: seq<Event>)
    ensures AlwaysHonest(events) <==> NoneListensLate(events)
  {
    if events != [] {
      var n := |events| - 1;
      AlwaysHonestExactly(events[..n]);
      if AlwaysHonest(events[..n]) {
        StaysHonestExactly(events[..n], events[n]);
      }
      hide Honest, ListensLate, Step;
    }
  }

  const LATE_LISTEN := [Start(true), Commit, Start(true), Listening(0), Stop, Listening(1)]

  /** A start that finishes while a stop drains: until the drain ends, `isRunning` denies the open socket the listener owns. */
  lemma LateListenDenied()
    ensures var s := Run(LATE_LISTEN);
      && !IsRunning(s.state) && s.state.open == {1} == Owned(s.state) && Overwritten(s.log) == {}
      && IsRunning(Step(s.state, Drained).state)
  {
    hide Undelayed, Overwritten, Run;
    RunPrefix(LATE_LISTEN, 0);
    RunPrefix(LATE_LISTEN, 1);
    RunPrefix(LATE_LISTEN, 2);
    RunPrefix(LATE_LISTEN, 3);
    assert Run(LATE_LISTEN[..4]).state.server == Bound(0) && Run(LATE_LISTEN[..4]).state.starting == {1};
    RunPrefix(LATE_LISTEN, 4);
    RunPrefix(LATE_LISTEN, 5);
    assert LATE_LISTEN[..6] == LATE_LISTEN;
    RunSockets(LATE_LISTEN);
    assert Overwritten(Run(LATE_LISTEN).log) == {};
  }

  const TWO_STARTS := [Start(true), Commit, Start(true), Listening(0), Listening(1), Stop, Drained]

  /** A start that finishes over a running server: the socket it replaces stays open and no stop will ever close it. */
  lemma OverlappingStartsLeak()
    ensures var s := Run(TWO_STARTS).state;
      !IsRunning(s) && s.open == {0} && s.server == Null
  {
    BothListening();
    hide Run, Undelayed;
    assert TWO_STARTS[..7] == TWO_STARTS;
    RunPrefix(TWO_STARTS, 5);
    RunPrefix(TWO_STARTS, 6);
  }

  lemma BothStarting()
    ensures var s := Run(TWO_STARTS[..3]).state; s.starting == {0, 1} && s.open == {} && s.server == Null
  {
    hide Run, Undelayed;
    RunPrefix(TWO_STARTS, 0);
    RunPrefix(TWO_STARTS, 1);
    RunPrefix(TWO_STARTS, 2);
  }

  lemma BothListening()
    ensures var s := Run(TWO_STARTS[..5]).state; s.open == {0, 1} && s.server == Bound(1)
  {
    BothStarting();
    hide Run, Undelayed;
    RunPrefix(TWO_STARTS, 3);
    RunPrefix(TWO_STARTS, 4);
  }

  lemma RunPrefix(events: seq<Event>, k: nat)
    requires k < |events|
    ensures Run(events[..0]).state == Init
    ensures Run(events[..k + 1]).state == Step(Run(events[..k]).state, events[k]).state
  {
    assert events[..k + 1][..k] == events[..k];
  }
}
