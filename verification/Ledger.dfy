/**
 The contract of the pause/resume protocol as a small bookkeeping machine over
 effects, independent of how the server keeps its maps. A log of effects is
 acceptable when every entry of the book is legal:

 - an id is paused only while it is not paused, and removed only while it is,
   the removal naming the very entry that was paused;
 - a removal by resume, webhook or Kafka owes exactly one notification, with the
   entry's execution and workflow, before anything else happens;
 - a notification reaches every party then waiting for the id, each once and
   with the same letter, and is put in the mail when there is none;
 - a party is opened once, and closed once, by a letter or by its own settlement;
 - mail is claimed or expires once, and only what lies there.
 */
module Ledger {
  import opened CorrelationStore
  import opened CorrelationProtocol
  import opened Wrappers

  datatype Book = Book(
    paused: map<string, Entry>, owed: Option<Entry>,
    open: map<nat, Waiter>, closed: set<nat>,
    mail: map<string, QueuedResume>, due: set<nat>, letter: Option<QueuedResume>)

  const Blank := Book(map[], None, map[], {}, map[], {}, None)

  /** Nothing is owed or under way: the state of the book between steps. */
  predicate Quiet(b: Book) {
    b.owed == None && b.due == {} && b.letter == None
  }

  predicate Fresh(b: Book, t: nat) {
    t !in b.open && t !in b.closed
  }

  function Close(b: Book, t: nat): Book {
    b.(open := b.open - {t}, closed := b.closed + {t})
  }

  /** The parties waiting for `id`. */
  function Awaiting(b: Book, id: string): set<nat> {
    set t | t in b.open && b.open[t].id == id
  }

  predicate Legal(b: Book, eff: Effect) {
    match eff
    case Paused(e) => Quiet(b) && e.correlationId !in b.paused
    case Removed(e, _) => Quiet(b) && e.correlationId in b.paused && b.paused[e.correlationId] == e
    case Notified(id, r) =>
      && b.owed.Some? && b.owed.value.correlationId == id
      && r.executionId == b.owed.value.executionId && r.workflowId == b.owed.value.workflowId
    case Opened(w) => Quiet(b) && Fresh(b, w.token)
    case Delivered(w, r) => w.token in b.due && w.token in b.open && b.open[w.token] == w && b.letter == Some(r)
    case Settled(w, _) => Quiet(b) && w.token in b.open && b.open[w.token] == w
    case Refused(t) => Quiet(b) && Fresh(b, t)
    case Claimed(t, id, r) => Quiet(b) && Fresh(b, t) && id in b.mail && b.mail[id] == r
    case QueueExpired(id, r, now) => Quiet(b) && id in b.mail && b.mail[id] == r && QueueStale(r, now)
  }

  function Enter(b: Book, eff: Effect): Book {
    match eff
    case Paused(e) => b.(paused := b.paused[e.correlationId := e])
    case Removed(e, cause) => b.(paused := b.paused - {e.correlationId}, owed := if Resuming(cause) then Some(e) else None)
    case Notified(id, r) =>
      if Awaiting(b, id) == {} then b.(owed := None, mail := b.mail[id := r])
      else b.(owed := None, due := Awaiting(b, id), letter := Some(r))
    case Opened(w) => b.(open := b.open[w.token := w])
    case Delivered(w, r) =>
      var due := b.due - {w.token};
      Close(b, w.token).(due := due, letter := if due == {} then None else b.letter)
    case Settled(w, _) => Close(b, w.token)
    case Refused(t) => b.(closed := b.closed + {t})
    case Claimed(t, id, _) => b.(closed := b.closed + {t}, mail := b.mail - {id})
    case QueueExpired(id, _, _) => b.(mail := b.mail - {id})
  }

  /** Enters a whole log; `None` if some entry is not legal. */
  function Audit(b: Book, log: seq<Effect>): Option<Book>
    decreases |log|
  {
    if log == [] then Some(b)
    else if Legal(b, log[0]) then Audit(Enter(b, log[0]), log[1..])
    else None
  }

  lemma {:induction false} AuditConcat(b: Book, first: seq<Effect>, rest: seq<Effect>)
    ensures Audit(b, first + rest) == if Audit(b, first).Some? then Audit(Audit(b, first).value, rest) else None
    decreases |first|
  {
    if first == [] {
      assert first + rest == rest;
    } else {
      assert (first + rest)[1..] == first[1..] + rest;
      if Legal(b, first[0]) {
        AuditConcat(Enter(b, first[0]), first[1..], rest);
      }
    }
  }

  // ---- What every accepted log satisfies ----

  function CountOf(log: seq<Effect>, p: Effect -> bool): nat
    decreases |log|
  {
    if log == [] then 0 else (if p(log[0]) then 1 else 0) + CountOf(log[1..], p)
  }

  lemma {:induction false} CountConcat(first: seq<Effect>, rest: seq<Effect>, p: Effect -> bool)
    ensures CountOf(first + rest, p) == CountOf(first, p) + CountOf(rest, p)
    decreases |first|
  {
    if first == [] {
      assert first + rest == rest;
    } else {
      assert (first + rest)[1..] == first[1..] + rest;
      CountConcat(first[1..], rest, p);
    }
  }

  function Pauses(id: string): Effect -> bool {
    (eff: Effect) => eff.Paused? && eff.e.correlationId == id
  }

  function Removals(id: string): Effect -> bool {
    (eff: Effect) => eff.Removed? && eff.e.correlationId == id
  }

  function ResumingRemovals(id: string): Effect -> bool {
    (eff: Effect) => eff.Removed? && eff.e.correlationId == id && Resuming(eff.cause)
  }

  function Notifications(id: string): Effect -> bool {
    (eff: Effect) => eff.Notified? && eff.id == id
  }

  /** The effects that settle party `t` after it was opened: a letter, or its own settlement. */
  function Answers(t: nat): Effect -> bool {
    (eff: Effect) => (eff.Delivered? || eff.Settled?) && eff.w.token == t
  }

  /** All effects after which party `t` is settled. */
  function Endings(t: nat): Effect -> bool {
    (eff: Effect) => ((eff.Delivered? || eff.Settled?) && eff.w.token == t) || ((eff.Refused? || eff.Claimed?) && eff.token == t)
  }

  function Openings(t: nat): Effect -> bool {
    (eff: Effect) => eff.Opened? && eff.w.token == t
  }

  function Bit(b: bool): nat {
    if b then 1 else 0
  }

  function OwedFor(b: Book, id: string): nat {
    Bit(b.owed.Some? && b.owed.value.correlationId == id)
  }

  /** Every pause is removed exactly once or is still there. */
  lemma {:induction false} PausesConserved(b: Book, log: seq<Effect>, id: string)
    requires Audit(b, log).Some?
    ensures Bit(id in b.paused) + CountOf(log, Pauses(id)) == CountOf(log, Removals(id)) + Bit(id in Audit(b, log).value.paused)
    decreases |log|
  {
    if log != [] {
      PausesConserved(Enter(b, log[0]), log[1..], id);
    }
  }

  /** Every notification is paid for by exactly one resuming removal, and every such removal notifies. */
  lemma {:induction false} NotificationsPaid(b: Book, log: seq<Effect>, id: string)
    requires Audit(b, log).Some?
    ensures OwedFor(b, id) + CountOf(log, ResumingRemovals(id)) == CountOf(log, Notifications(id)) + OwedFor(Audit(b, log).value, id)
    ensures CountOf(log, ResumingRemovals(id)) <= CountOf(log, Removals(id))
    decreases |log|
  {
    if log != [] {
      NotificationsPaid(Enter(b, log[0]), log[1..], id);
    }
  }

  lemma SettledOnceStep(b: Book, eff: Effect, t: nat)
    requires Legal(b, eff) && b.open.Keys !! b.closed
    ensures var c := Enter(b, eff);
      && c.open.Keys !! c.closed
      && Bit(t in b.closed) + Bit(Endings(t)(eff)) == Bit(t in c.closed)
      && Bit(t in b.open) + Bit(Openings(t)(eff)) == Bit(t in c.open) + Bit(Answers(t)(eff))
  {
  }

  /** A party is settled at most once, and is open exactly when it was opened and not yet answered. */
  lemma {:induction false} SettledOnce(b: Book, log: seq<Effect>, t: nat)
    requires Audit(b, log).Some? && b.open.Keys !! b.closed
    ensures var c := Audit(b, log).value;
      && c.open.Keys !! c.closed
      && Bit(t in b.closed) + CountOf(log, Endings(t)) == Bit(t in c.closed)
      && Bit(t in b.open) + CountOf(log, Openings(t)) == Bit(t in c.open) + CountOf(log, Answers(t))
    decreases |log|
  {
    if log != [] {
      SettledOnceStep(b, log[0], t);
      SettledOnce(Enter(b, log[0]), log[1..], t);
      hide Enter, Legal, Endings, Answers, Openings;
    }
  }

  /** The letter lying for `id` is the one notified last. */
  function LastLetter(log: seq<Effect>, id: string, before: Option<QueuedResume>): Option<QueuedResume>
    decreases |log|
  {
    if log == [] then before
    else LastLetter(log[1..], id, if Notifications(id)(log[0]) then Some(log[0].r) else before)
  }

  /** No id has both mail lying and a party waiting. */
  ghost predicate Separate(b: Book) {
    forall t :: t in b.open ==> b.open[t].id !in b.mail
  }

  predicate BlindOpening(b: Book, eff: Effect) {
    eff.Opened? && eff.w.id in b.mail
  }

  /** The one way to lose that: opening a party for an id whose mail lies unread. */
  lemma SeparateExact(b: Book, eff: Effect)
    requires Separate(b) && Legal(b, eff)
    ensures Separate(Enter(b, eff)) <==> !BlindOpening(b, eff)
  {
    var c := Enter(b, eff);
    match eff
    case Opened(w) =>
      assert w.token in c.open && c.open[w.token] == w;
    case Notified(id, r) =>
      assert forall t :: t in Awaiting(b, id) <==> t in b.open && b.open[t].id == id;
    case _ =>
  }

  predicate NoBlindOpening(b: Book, log: seq<Effect>)
    decreases |log|
  {
    log == [] || (!BlindOpening(b, log[0]) && NoBlindOpening(Enter(b, log[0]), log[1..]))
  }

  /** Where no opening is blind, the mail lying for an id is always the letter notified last. */
  lemma {:induction false} MailIsLatest(b: Book, log: seq<Effect>, id: string, before: Option<QueuedResume>)
    requires Audit(b, log).Some? && Separate(b) && NoBlindOpening(b, log)
    requires id in b.mail ==> before == Some(b.mail[id])
    ensures var c := Audit(b, log).value;
      Separate(c) && (id in c.mail ==> LastLetter(log, id, before) == Some(c.mail[id]))
    decreases |log|
  {
    if log != [] {
      SeparateExact(b, log[0]);
      if log[0].Notified? && log[0].id == id && id in b.mail {
        assert Awaiting(b, id) == {};
      }
      MailIsLatest(Enter(b, log[0]), log[1..], id, if Notifications(id)(log[0]) then Some(log[0].r) else before);
    }
  }
}
