/** What becomes of every start permit a client learns of, over all runs. */
module StartPermitsRuns {
  import opened Options
  import opened StartPermits

  datatype Event =
    | Ask(allowed: bool, ids: nat -> nat)
    | Start(request: nat, conversation: string, allowed: bool, ids: nat -> nat, delivered: bool, cancelRequest: nat)
    | JoinOther(request: nat, allowed: bool, ids: nat -> nat)
    | Granted(request: nat, attempt: Attempt, expired: bool, cancelRequest: nat)
    | Rejected(request: nat, cancelRequest: nat)
    | TimedOut(request: nat, cancelRequest: nat)
    | Forgotten(request: nat)
    | Microphone(request: nat, delivered: bool, cancelRequest: nat)
    | StartedEvent(selfIn: bool)
    | End(cancelRequest: nat)
    | Confirmed(attempt: Attempt, request: nat, unknown: bool)
    | Timer(index: nat)
    | Connected
    | Disconnected
    | Tick(elapsed: nat)

  /** The permits and the IDs the client has learned. */
  datatype Client = Client(permits: Permits, learned: set<string>)

  /** Whether the client takes the permit up as one it asked for. */
  predicate Recognised(s: Permits, request: nat, a: Attempt) {
    var i := FindPreparation(s.preparations, request);
    i < |s.preparations| && s.preparations[i].conversation == a.conversation
  }

  function Begin(s: Permits, request: nat, conversation: string, delivered: bool, cancelRequest: nat): Permits {
    var t := s.(generation := s.generation + 1,
        preparations := s.preparations + [Preparation(request, conversation, s.generation + 1)]);
    if delivered then t else PreparationFailed(t, request, cancelRequest)
  }

  function StepPermits(s: Permits, e: Event): Permits {
    match e
    case Ask(allowed, ids) => RenewFrom(s, 0, ids)
    case Start(request, conversation, allowed, ids, delivered, cancelRequest) =>
      var t := RenewFrom(s, 0, ids);
      if MayStart(s, allowed) then Begin(t, request, conversation, delivered, cancelRequest) else t
    case JoinOther(request, allowed, ids) =>
      var t := RenewFrom(s, 0, ids);
      if MayStart(s, allowed) then t.(generation := t.generation + 1, pendingStart := Some(request)) else t
    case Granted(request, attempt, expired, cancelRequest) => Prepared(s, request, attempt, expired, cancelRequest)
    case Rejected(request, cancelRequest) => PreparationFailed(s, request, cancelRequest)
    case TimedOut(request, cancelRequest) => PreparationTimedOut(s, request, cancelRequest)
    case Forgotten(request) => PreparationForgotten(s, request)
    case Microphone(request, delivered, cancelRequest) =>
      if s.startAttempt.None? || s.pendingStart.Some? then s
      else if delivered then s.(pendingStart := Some(request))
      else Terminal(s, cancelRequest)
    case StartedEvent(selfIn) => Started(s, selfIn)
    case End(cancelRequest) => Terminal(s, cancelRequest)
    case Confirmed(attempt, request, unknown) => CancelConfirmed(s, attempt, request, unknown)
    case Timer(index) => if index < |s.cancellations| then RetryAt(s, index) else s
    case Connected => RetryFrom(s.(ready := true), 0)
    case Disconnected => s.(ready := false)
    case Tick(elapsed) => s.(now := s.now + elapsed)
  }

  function Step(x: Client, e: Event): Client {
    if e.Granted? then
      if !Recognised(x.permits, e.request, e.attempt) then x
      else Client(StepPermits(x.permits, e), x.learned + {e.attempt.id})
    else x.(permits := StepPermits(x.permits, e))
  }

  function Run(events: seq<Event>): Client {
    if events == [] then Client(IDLE, {}) else Step(Run(events[..|events| - 1]), events[|events| - 1])
  }

  /** The server does not grant the client an ID it gave before. */
  predicate GrantsNew(x: Client, e: Event) {
    e.Granted? && Recognised(x.permits, e.request, e.attempt) ==> e.attempt.id !in x.learned
  }

  /** In the whole run the server never grants an ID twice. */
  predicate UniqueGrants(events: seq<Event>) {
    events == [] || (UniqueGrants(events[..|events| - 1]) &&
        GrantsNew(Run(events[..|events| - 1]), events[|events| - 1]))
  }

  // ----- Invariants -----------------------------------------------------------------------------

  function One(b: bool): nat { if b then 1 else 0 }

  predicate IsCurrent(s: Permits, id: string) { s.startAttempt.Some? && s.startAttempt.value.id == id }

  predicate IsOutstanding(s: Permits, id: string) {
    exists i :: 0 <= i < |s.cancellations| && s.cancellations[i].attempt == id
  }

  /** In how many of the four places an attempt is. */
  function Places(s: Permits, id: string): nat {
    One(IsCurrent(s, id)) + One(IsOutstanding(s, id)) + One(id in s.cancelled) + One(id in s.adopted)
  }

  /** Never more than one preparation, attempt or cancellation at a time. */
  predicate OnePermit(s: Permits) { |s.preparations| + One(s.startAttempt.Some?) + |s.cancellations| <= 1 }

  ghost predicate Conserved(x: Client) { forall id: string :: Places(x.permits, id) == One(id in x.learned) }

  function Count(sent: seq<Sent>, attempt: string, deadline: int): nat {
    if sent == [] then 0
    else
      var e := sent[|sent| - 1];
      Count(sent[..|sent| - 1], attempt, deadline) + One(e.attempt == attempt && e.deadline == deadline)
  }

  /** Everything sent lies in a window of 30 seconds, and windows of one attempt do not overlap. */
  predicate WindowsApart(sent: seq<Sent>) {
    && (forall i :: 0 <= i < |sent| ==> sent[i].deadline - WINDOW <= sent[i].time < sent[i].deadline)
    && (forall i, j :: 0 <= i < j < |sent| && sent[i].attempt == sent[j].attempt ==>
          sent[i].deadline == sent[j].deadline || sent[i].deadline + WINDOW <= sent[j].deadline)
  }

  /** An outstanding cancellation counts what it sent in its window; all earlier windows ended before. */
  predicate InWindow(sent: seq<Sent>, c: Cancellation, now: int) {
    && c.sends <= MAX_SENDS && Count(sent, c.attempt, c.deadline) == c.sends
    && c.deadline <= now + WINDOW && (!c.armed ==> c.deadline <= now)
    && forall i :: 0 <= i < |sent| && sent[i].attempt == c.attempt ==>
         sent[i].deadline == c.deadline || sent[i].deadline + WINDOW <= c.deadline
  }

  ghost predicate Logged(x: Client) {
    var s := x.permits;
    && WindowsApart(s.sent)
    && (forall attempt, deadline :: Count(s.sent, attempt, deadline) <= MAX_SENDS)
    && (forall i :: 0 <= i < |s.cancellations| ==> InWindow(s.sent, s.cancellations[i], s.now))
    && (forall i :: 0 <= i < |s.sent| ==> s.sent[i].attempt in x.learned && !IsCurrent(s, s.sent[i].attempt))
  }

  ghost predicate Invariant(x: Client) { OnePermit(x.permits) && Conserved(x) && Logged(x) }

  // ----- Sending --------------------------------------------------------------------------------

  lemma {:induction false} CountAppend(sent: seq<Sent>, e: Sent, attempt: string, deadline: int)
    ensures Count(sent + [e], attempt, deadline) ==
            Count(sent, attempt, deadline) + One(e.attempt == attempt && e.deadline == deadline)
  {
    assert (sent + [e])[..|sent|] == sent;
  }

  /** What a retry appends to the log. */
  function LogAfter(sent: seq<Sent>, c: Cancellation, now: int, ready: bool): seq<Sent> {
    if SendsNow(c, now, ready) then sent + [Sent(c.attempt, c.deadline, now)] else sent
  }

  lemma {:induction false} RetryKeepsWindow(sent: seq<Sent>, c: Cancellation, now: int, ready: bool)
    requires c.sends <= MAX_SENDS && Count(sent, c.attempt, c.deadline) == c.sends && c.deadline <= now + WINDOW
    requires forall i :: 0 <= i < |sent| && sent[i].attempt == c.attempt ==>
             sent[i].deadline == c.deadline || sent[i].deadline + WINDOW <= c.deadline
    requires WindowsApart(sent) && forall attempt, deadline :: Count(sent, attempt, deadline) <= MAX_SENDS
    requires c.armed || c.sends < MAX_SENDS || c.deadline <= now
    ensures var log := LogAfter(sent, c, now, ready);
            && InWindow(log, Retried(c, now, ready), now) && WindowsApart(log)
            && forall attempt, deadline :: Count(log, attempt, deadline) <= MAX_SENDS
  {
    if SendsNow(c, now, ready) {
      var e := Sent(c.attempt, c.deadline, now);
      forall attempt, deadline ensures Count(sent + [e], attempt, deadline) ==
          Count(sent, attempt, deadline) + One(e.attempt == attempt && e.deadline == deadline) {
        CountAppend(sent, e, attempt, deadline);
      }
    }
  }

  lemma {:induction false} CountNone(sent: seq<Sent>, attempt: string, deadline: int)
    requires forall i :: 0 <= i < |sent| && sent[i].attempt == attempt ==> sent[i].deadline != deadline
    ensures Count(sent, attempt, deadline) == 0
  {
    if sent != [] { CountNone(sent[..|sent| - 1], attempt, deadline); }
  }

  /** The parts the invariant is about. */
  predicate Agree(s: Permits, t: Permits) {
    && |s.preparations| == |t.preparations| && s.startAttempt == t.startAttempt && s.cancellations == t.cancellations
    && s.now <= t.now && s.sent == t.sent && s.cancelled == t.cancelled && s.adopted == t.adopted
  }

  lemma AgreeingKeeps(x: Client, t: Permits)
    requires Invariant(x) && Agree(x.permits, t)
    ensures Invariant(x.(permits := t))
  {
    forall id: string ensures Places(t, id) == Places(x.permits, id) {
      assert IsOutstanding(t, id) <==> IsOutstanding(x.permits, id);
    }
  }

  lemma OnlyOutstanding(s: Permits, id: string)
    requires |s.cancellations| == 1
    ensures IsOutstanding(s, id) <==> s.cancellations[0].attempt == id
  {
  }

  /** A client with one cancellation, put back after it was looked at again. */
  lemma {:induction false} PutBack(x: Client, c: Cancellation, log: seq<Sent>)
    requires Invariant(x) && |x.permits.cancellations| == 1 && c.attempt == x.permits.cancellations[0].attempt
    requires WindowsApart(log) && (forall attempt, deadline :: Count(log, attempt, deadline) <= MAX_SENDS) &&
             InWindow(log, c, x.permits.now)
    requires forall i :: 0 <= i < |log| ==>
             (i < |x.permits.sent| && log[i] == x.permits.sent[i]) || log[i].attempt == c.attempt
    ensures Invariant(x.(permits := x.permits.(cancellations := [c], sent := log)))
  {
    var s, t := x.permits, x.permits.(cancellations := [c], sent := log);
    forall id: string ensures Places(t, id) == Places(s, id) {
      OnlyOutstanding(t, id);
      OnlyOutstanding(s, id);
    }
  }

  /** The one cancellation of a client, looked at again, with a new window or the same. */
  lemma RetryOne(x: Client, d: Cancellation)
    requires Invariant(x) && |x.permits.cancellations| == 1
    requires var c := x.permits.cancellations[0];
             d == c || (!c.armed && d.attempt == c.attempt && d.sends == 0 && !d.armed &&
                 d.deadline == x.permits.now + WINDOW)
    ensures var s := x.permits;
            Invariant(x.(permits := s.(cancellations := [Retried(d, s.now, s.ready)],
                sent := LogAfter(s.sent, d, s.now, s.ready))))
  {
    var s, c := x.permits, x.permits.cancellations[0];
    assert InWindow(s.sent, c, s.now);
    if d != c { CountNone(s.sent, d.attempt, d.deadline); }
    RetryKeepsWindow(s.sent, d, s.now, s.ready);
    PutBack(x, Retried(d, s.now, s.ready), LogAfter(s.sent, d, s.now, s.ready));
  }

  lemma RetryIsOk(x: Client, i: nat)
    requires Invariant(x) && i < |x.permits.cancellations|
    ensures Invariant(x.(permits := RetryAt(x.permits, i)))
  {
    var s, c := x.permits, x.permits.cancellations[0];
    RetryOne(x, c);
    assert s.cancellations[0 := Retried(c, s.now, s.ready)] == [Retried(c, s.now, s.ready)];
  }

  lemma RenewIsOk(x: Client, request: nat)
    requires Invariant(x) && |x.permits.cancellations| == 1
    ensures Invariant(x.(permits := RenewAt(x.permits, 0, request)))
  {
    var s, c := x.permits, x.permits.cancellations[0];
    if !c.armed {
      var d := c.(request := request, sends := 0, deadline := s.now + WINDOW);
      RetryOne(x, d);
      assert s.cancellations[0 := d][0 := Retried(d, s.now, s.ready)] == [Retried(d, s.now, s.ready)];
    }
  }

  lemma RenewAllIsOk(x: Client, ids: nat -> nat)
    requires Invariant(x)
    ensures Invariant(x.(permits := RenewFrom(x.permits, 0, ids)))
    ensures x.permits.cancellations == [] ==> RenewFrom(x.permits, 0, ids) == x.permits
  {
    if x.permits.cancellations != [] {
      RenewIsOk(x, ids(0));
      assert RenewFrom(x.permits, 0, ids) == RenewFrom(RenewAt(x.permits, 0, ids(0)), 1, ids);
    }
  }

  lemma RetryAllIsOk(x: Client)
    requires Invariant(x)
    ensures Invariant(x.(permits := RetryFrom(x.permits, 0)))
  {
    if x.permits.cancellations != [] {
      RetryIsOk(x, 0);
      assert RetryFrom(x.permits, 0) == RetryFrom(RetryAt(x.permits, 0), 1);
    }
  }

  // ----- Permits on the move --------------------------------------------------------------------

  /** A learned attempt that is in no place yet, on a client that holds nothing else. */
  ghost predicate Loose(x: Client, id: string) {
    var s := x.permits;
    && s.preparations == [] && s.startAttempt.None? && s.cancellations == []
    && id in x.learned && Places(s, id) == 0 && Logged(x)
    && (forall other: string :: other != id ==> Places(s, other) == One(other in x.learned))
    && (forall i :: 0 <= i < |s.sent| ==> s.sent[i].attempt != id)
  }

  /** What cancelling a loose attempt leaves: one cancellation, looked at once, and what that sent. */
  lemma CancelMakes(x: Client, a: Attempt, request: nat)
    requires Loose(x, a.id)
    ensures var s, t := x.permits, Cancel(x.permits, a, request);
            var c := Cancellation(a.id, a.conversation, request, 0, s.now + WINDOW, false);
            t == s.(cancellations := [Retried(c, s.now, s.ready)], sent := LogAfter(s.sent, c, s.now, s.ready))
  {
  }

  lemma CancelPlaces(x: Client, a: Attempt, c: Cancellation, sent: seq<Sent>)
    requires Loose(x, a.id) && c.attempt == a.id
    ensures Conserved(x.(permits := x.permits.(cancellations := [c], sent := sent)))
  {
    var s, t := x.permits, x.permits.(cancellations := [c], sent := sent);
    forall id: string ensures Places(t, id) == One(id in x.learned) {
      OnlyOutstanding(t, id);
      assert !IsOutstanding(s, id);
    }
  }

  /** The first look at a cancellation, in a window of its own. */
  lemma {:induction false} NewWindow(sent: seq<Sent>, c: Cancellation, now: int, ready: bool)
    requires WindowsApart(sent) && forall attempt, deadline :: Count(sent, attempt, deadline) <= MAX_SENDS
    requires c.sends == 0 && c.deadline == now + WINDOW && forall i :: 0 <= i < |sent| ==> sent[i].attempt != c.attempt
    ensures var log := LogAfter(sent, c, now, ready);
            && InWindow(log, Retried(c, now, ready), now) && WindowsApart(log)
            && forall attempt, deadline :: Count(log, attempt, deadline) <= MAX_SENDS
  {
    CountNone(sent, c.attempt, c.deadline);
    RetryKeepsWindow(sent, c, now, ready);
  }

  lemma CancelLogged(x: Client, a: Attempt, c: Cancellation)
    requires Loose(x, a.id) && c == Cancellation(a.id, a.conversation, c.request, 0, x.permits.now + WINDOW, false)
    ensures var s := x.permits;
            Logged(x.(permits := s.(cancellations := [Retried(c, s.now, s.ready)],
                                    sent := LogAfter(s.sent, c, s.now, s.ready))))
  {
    NewWindow(x.permits.sent, c, x.permits.now, x.permits.ready);
    SentIsKnown(x, a.id, c);
  }

  /** Whatever is logged after looking at the cancellation was learned, and no attempt is current. */
  lemma SentIsKnown(x: Client, id: string, c: Cancellation)
    requires Loose(x, id) && c.attempt == id
    ensures var log := LogAfter(x.permits.sent, c, x.permits.now, x.permits.ready);
            forall i :: 0 <= i < |log| ==> log[i].attempt in x.learned && !IsCurrent(x.permits, log[i].attempt)
  {
  }

  lemma CancelLoose(x: Client, a: Attempt, request: nat)
    requires Loose(x, a.id)
    ensures Invariant(x.(permits := Cancel(x.permits, a, request)))
  {
    var s := x.permits;
    var c := Cancellation(a.id, a.conversation, request, 0, s.now + WINDOW, false);
    CancelMakes(x, a, request);
    CancelLogged(x, a, c);
    CancelPlaces(x, a, Retried(c, s.now, s.ready), LogAfter(s.sent, c, s.now, s.ready));
  }

  lemma UseLoose(x: Client, a: Attempt)
    requires Loose(x, a.id)
    ensures Invariant(x.(permits := x.permits.(startAttempt := Some(a))))
  {
    var s, t := x.permits, x.permits.(startAttempt := Some(a));
    forall id: string ensures Places(t, id) == One(id in x.learned) {
      assert !IsOutstanding(s, id) && !IsOutstanding(t, id);
    }
  }

  lemma AttemptIsLoose(x: Client)
    requires Invariant(x) && x.permits.startAttempt.Some?
    ensures Loose(x.(permits := x.permits.(startAttempt := None)), x.permits.startAttempt.value.id)
  {
    var s, t := x.permits, x.permits.(startAttempt := None);
    var id := s.startAttempt.value.id;
    assert Places(s, id) == One(id in x.learned);
    forall other: string ensures Places(t, other) == Places(s, other) - One(other == id) {
      assert IsOutstanding(t, other) <==> IsOutstanding(s, other);
    }
  }

  lemma TerminalIsOk(x: Client, request: nat)
    requires Invariant(x)
    ensures Invariant(x.(permits := Terminal(x.permits, request)))
  {
    var s := x.permits;
    if s.startAttempt.Some? {
      AttemptIsLoose(x);
      CancelLoose(x.(permits := s.(startAttempt := None)), s.startAttempt.value, request);
      AgreeingKeeps(x.(permits := Cancel(s.(startAttempt := None), s.startAttempt.value, request)),
          Terminal(s, request));
    } else {
      AgreeingKeeps(x, Terminal(s, request));
    }
  }

  lemma WithoutIsOk(x: Client, i: nat)
    requires Invariant(x) && i < |x.permits.preparations|
    ensures Invariant(x.(permits := WithoutPreparation(x.permits, i)))
  {
    var s, t := x.permits, WithoutPreparation(x.permits, i);
    forall id: string ensures Places(t, id) == Places(s, id) {
      assert IsOutstanding(t, id) <==> IsOutstanding(s, id);
    }
  }

  lemma PreparedIsOk(x: Client, request: nat, a: Attempt, expired: bool, cancelRequest: nat)
    requires Invariant(x) && a.id !in x.learned && Recognised(x.permits, request, a)
    ensures Invariant(Client(Prepared(x.permits, request, a, expired, cancelRequest), x.learned + {a.id}))
  {
    var s := x.permits;
    var i := FindPreparation(s.preparations, request);
    var p, t := s.preparations[i], WithoutPreparation(s, i);
    var y := Client(t, x.learned + {a.id});
    WithoutIsOk(x, i);
    assert Places(t, a.id) == One(a.id in x.learned);
    assert Loose(y, a.id);
    if p.generation != s.generation || expired {
      CancelLoose(y, a, cancelRequest);
      if p.generation == s.generation { TerminalIsOk(y.(permits := Cancel(t, a, cancelRequest)), cancelRequest); }
    } else {
      UseLoose(y, a);
    }
  }

  lemma ConfirmedIsOk(x: Client, a: Attempt, request: nat, unknown: bool)
    requires Invariant(x)
    ensures Invariant(x.(permits := CancelConfirmed(x.permits, a, request, unknown)))
  {
    var s, t := x.permits, CancelConfirmed(x.permits, a, request, unknown);
    if t != s {
      assert s.cancellations[0].attempt == a.id && t.cancellations == [];
      forall id: string ensures Places(t, id) == Places(s, id) {
        assert IsOutstanding(s, id) <==> id == a.id;
        assert Places(s, a.id) == One(a.id in x.learned);
      }
    }
  }

  lemma StartedIsOk(x: Client, selfIn: bool)
    requires Invariant(x)
    ensures Invariant(x.(permits := Started(x.permits, selfIn)))
  {
    var s, t := x.permits, Started(x.permits, selfIn);
    if s.cancellations == [] && s.pendingStart.Some? && selfIn && s.startAttempt.Some? {
      AttemptIsLoose(x);
      forall id: string ensures Places(t, id) == One(id in x.learned) {
        assert Places(s, id) == One(id in x.learned);
        assert IsOutstanding(t, id) <==> IsOutstanding(s, id);
      }
    } else {
      AgreeingKeeps(x, t);
    }
  }

  lemma FailedIsOk(x: Client, request: nat, cancelRequest: nat)
    requires Invariant(x)
    ensures Invariant(x.(permits := PreparationFailed(x.permits, request, cancelRequest)))
  {
    var i := FindPreparation(x.permits.preparations, request);
    if i < |x.permits.preparations| {
      WithoutIsOk(x, i);
      if x.permits.preparations[i].generation == x.permits.generation {
        TerminalIsOk(x.(permits := WithoutPreparation(x.permits, i)), cancelRequest);
      }
    }
  }

  lemma BeginIsOk(x: Client, request: nat, conversation: string, delivered: bool, cancelRequest: nat)
    requires Invariant(x) && MayStart(x.permits, true)
    ensures Invariant(x.(permits := Begin(x.permits, request, conversation, delivered, cancelRequest)))
  {
    var s := x.permits;
    var t := s.(generation := s.generation + 1,
        preparations := s.preparations + [Preparation(request, conversation, s.generation + 1)]);
    forall id: string ensures Places(t, id) == Places(s, id) {
      assert IsOutstanding(t, id) <==> IsOutstanding(s, id);
    }
    assert Invariant(x.(permits := t));
    if !delivered { FailedIsOk(x.(permits := t), request, cancelRequest); }
  }

  lemma AskedIsOk(x: Client, e: Event)
    requires Invariant(x) && (e.Ask? || e.Start? || e.JoinOther?)
    ensures Invariant(Step(x, e))
  {
    var s := x.permits;
    match e
    case Ask(_, ids) => RenewAllIsOk(x, ids);
    case Start(request, conversation, allowed, ids, delivered, cancelRequest) =>
      RenewAllIsOk(x, ids);
      if MayStart(s, allowed) { BeginIsOk(x, request, conversation, delivered, cancelRequest); }
    case JoinOther(request, allowed, ids) =>
      RenewAllIsOk(x, ids);
      if MayStart(s, allowed) { AgreeingKeeps(x, s.(generation := s.generation + 1, pendingStart := Some(request))); }
  }

  lemma AnsweredIsOk(x: Client, e: Event)
    requires Invariant(x) && (e.Granted? || e.Rejected? || e.TimedOut? || e.Forgotten?) && GrantsNew(x, e)
    ensures Invariant(Step(x, e))
  {
    var s := x.permits;
    match e
    case Granted(request, attempt, expired, cancelRequest) =>
      if Recognised(s, request, attempt) { PreparedIsOk(x, request, attempt, expired, cancelRequest); }
    case Rejected(request, cancelRequest) => FailedIsOk(x, request, cancelRequest);
    case TimedOut(_, cancelRequest) => TerminalIsOk(x, cancelRequest);
    case Forgotten(request) =>
      if FindPreparation(s.preparations, request) < |s.preparations| {
        WithoutIsOk(x, FindPreparation(s.preparations, request));
      }
  }

  lemma ConnectedIsOk(x: Client)
    requires Invariant(x)
    ensures Invariant(x.(permits := RetryFrom(x.permits.(ready := true), 0)))
  {
    AgreeingKeeps(x, x.permits.(ready := true));
    RetryAllIsOk(x.(permits := x.permits.(ready := true)));
  }

  lemma StepKeepsInvariant(x: Client, e: Event)
    requires Invariant(x) && GrantsNew(x, e)
    ensures Invariant(Step(x, e))
  {
    var s := x.permits;
    match e
    case Microphone(request, _, cancelRequest) =>
      TerminalIsOk(x, cancelRequest);
      AgreeingKeeps(x, s.(pendingStart := Some(request)));
    case StartedEvent(selfIn) => StartedIsOk(x, selfIn);
    case End(cancelRequest) => TerminalIsOk(x, cancelRequest);
    case Confirmed(attempt, request, unknown) => ConfirmedIsOk(x, attempt, request, unknown);
    case Timer(index) => if index < |s.cancellations| { RetryIsOk(x, index); }
    case Connected => ConnectedIsOk(x);
    case Disconnected => AgreeingKeeps(x, s.(ready := false));
    case Tick(elapsed) => AgreeingKeeps(x, s.(now := s.now + elapsed));
    case _ => if e.Ask? || e.Start? || e.JoinOther? { AskedIsOk(x, e); } else { AnsweredIsOk(x, e); }
  }

  lemma {:induction false} RunKeepsInvariant(events: seq<Event>)
    requires UniqueGrants(events)
    ensures Invariant(Run(events))
  {
    if events != [] {
      RunKeepsInvariant(events[..|events| - 1]);
      StepKeepsInvariant(Run(events[..|events| - 1]), events[|events| - 1]);
    } else {
      forall id: string ensures Places(IDLE, id) == 0 { assert !IsOutstanding(IDLE, id); }
    }
  }

  // ----- What every run keeps -------------------------------------------------------------------

  /**
   * Every attempt the client learned of is current, being cancelled, confirmed cancelled or adopted:
   * exactly one of these.
   */
  lemma {:induction false} EveryAttemptOnce(events: seq<Event>, id: string)
    requires UniqueGrants(events)
    ensures Places(Run(events).permits, id) == One(id in Run(events).learned)
  {
    RunKeepsInvariant(events);
  }

  /** The client never holds more than one preparation, attempt or cancellation. */
  lemma {:induction false} OnePermitAtATime(events: seq<Event>)
    requires UniqueGrants(events)
    ensures OnePermit(Run(events).permits)
  {
    RunKeepsInvariant(events);
  }

  /**
   * A new start begins only when no attempt is current and no cancellation outstanding; then there is
   * nothing to renew.
   */
  lemma {:induction false} NoStartWhileOutstanding(events: seq<Event>, request: nat, conversation: string,
                                                   allowed: bool, ids: nat -> nat, cancelRequest: nat)
    requires UniqueGrants(events)
    requires var s := Run(events).permits;
             |StepPermits(s, Start(request, conversation, allowed, ids, true,
                 cancelRequest)).preparations| > |s.preparations|
    ensures forall id :: id in Run(events).learned ==>
            id in Run(events).permits.cancelled || id in Run(events).permits.adopted
  {
    RunKeepsInvariant(events);
    var x := Run(events);
    RenewAllKeepsPreparations(x.permits, 0, ids);
    forall id | id in x.learned ensures id in x.permits.cancelled || id in x.permits.adopted {
      assert Places(x.permits, id) == 1;
    }
  }

  lemma {:induction false} RenewAllKeepsPreparations(s: Permits, i: nat, ids: nat -> nat)
    ensures RenewFrom(s, i, ids).preparations == s.preparations
    decreases |s.cancellations| - i
  {
    if i < |s.cancellations| { RenewAllKeepsPreparations(RenewAt(s, i, ids(i)), i + 1, ids); }
  }

  /** At most four cancels per attempt and window of 30 seconds, and the windows of an attempt do not overlap. */
  lemma {:induction false} FourPerWindow(events: seq<Event>, attempt: string, deadline: int)
    requires UniqueGrants(events)
    ensures Count(Run(events).permits.sent, attempt, deadline) <= MAX_SENDS && WindowsApart(Run(events).permits.sent)
  {
    RunKeepsInvariant(events);
  }
}
