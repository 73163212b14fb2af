/** The permits a client needs to start group calls: prepared, used, cancelled and confirmed. */
module StartPermits {
  import opened Options

  datatype Attempt = Attempt(conversation: string, id: string)

  datatype Preparation = Preparation(request: nat, conversation: string, generation: nat)

  /** `armed` is whether a timer is set. */
  datatype Cancellation = Cancellation(attempt: string, conversation: string, request: nat, sends: nat, deadline: int,
                                       armed: bool)

  /** One `cancel_start` on the wire, with the deadline of the window it was sent in. */
  datatype Sent = Sent(attempt: string, deadline: int, time: int)

  const WINDOW := 30_000
  const MAX_SENDS := 4

  datatype Permits = Permits(
    generation: nat,
    preparations: seq<Preparation>,
    startAttempt: Option<Attempt>,
    pendingStart: Option<nat>,
    cancellations: seq<Cancellation>,
    ready: bool,
    now: int,
    sent: seq<Sent>,
    cancelled: set<string>,
    adopted: set<string>)

  const IDLE := Permits(0, [], None, None, [], false, 0, [], {}, {})

  // ----- Cancelling -----------------------------------------------------------------------------

  predicate SendsNow(c: Cancellation, now: int, ready: bool) { now < c.deadline && c.sends < MAX_SENDS && ready }

  function Retried(c: Cancellation, now: int, ready: bool): Cancellation {
    if now >= c.deadline then c.(armed := false)
    else if c.sends >= MAX_SENDS then c
    else c.(sends := if ready then c.sends + 1 else c.sends, armed := true)
  }

  function RetryAt(s: Permits, i: nat): Permits
    requires i < |s.cancellations|
  {
    var c := s.cancellations[i];
    s.(cancellations := s.cancellations[i := Retried(c, s.now, s.ready)],
       sent := if SendsNow(c, s.now, s.ready) then s.sent + [Sent(c.attempt, c.deadline, s.now)] else s.sent)
  }

  /** Where the attempt's cancellation is, or the length if there is none. */
  function Find(cancellations: seq<Cancellation>, attempt: string): (i: nat)
    ensures i <= |cancellations|
    ensures i < |cancellations| ==> cancellations[i].attempt == attempt
    ensures forall k :: 0 <= k < i ==> cancellations[k].attempt != attempt
  {
    if cancellations == [] || cancellations[0].attempt == attempt then 0 else 1 + Find(cancellations[1..], attempt)
  }

  function Cancel(s: Permits, a: Attempt, request: nat): Permits {
    if Find(s.cancellations, a.id) < |s.cancellations| then s
    else RetryAt(s.(cancellations := s.cancellations +
        [Cancellation(a.id, a.conversation, request, 0, s.now + WINDOW, false)]), |s.cancellations|)
  }

  /** An attempt whose window is over gets another one, when a call is asked for again. */
  function RenewAt(s: Permits, i: nat, request: nat): Permits
    requires i < |s.cancellations|
  {
    var c := s.cancellations[i];
    if c.armed then s
    else RetryAt(s.(cancellations := s.cancellations[i := c.(request := request, sends := 0,
        deadline := s.now + WINDOW)]), i)
  }

  function RenewFrom(s: Permits, i: nat, ids: nat -> nat): Permits
    decreases |s.cancellations| - i
  {
    if i >= |s.cancellations| then s else RenewFrom(RenewAt(s, i, ids(i)), i + 1, ids)
  }

  function RetryFrom(s: Permits, i: nat): Permits
    decreases |s.cancellations| - i
  {
    if i >= |s.cancellations| then s else RetryFrom(RetryAt(s, i), i + 1)
  }

  /** Whether a call may start; `allowed` is what the rest of the facade says. */
  predicate MayStart(s: Permits, allowed: bool) {
    s.cancellations == [] && s.preparations == [] && s.startAttempt.None? && s.pendingStart.None? && allowed
  }

  // ----- Events ---------------------------------------------------------------------------------

  /** What every end of a call does to its permit. */
  function Terminal(s: Permits, request: nat): Permits {
    var t := if s.startAttempt.Some? then Cancel(s.(startAttempt := None), s.startAttempt.value, request) else s;
    t.(pendingStart := None, generation := s.generation + 1)
  }

  function FindPreparation(preparations: seq<Preparation>, request: nat): (i: nat)
    ensures i <= |preparations| && (i < |preparations| ==> preparations[i].request == request)
  {
    if preparations == [] || preparations[0].request == request then 0
      else 1 + FindPreparation(preparations[1..], request)
  }

  function WithoutPreparation(s: Permits, i: nat): Permits
    requires i < |s.preparations|
  {
    s.(preparations := s.preparations[..i] + s.preparations[i + 1..])
  }

  /** The server grants a permit: it is used if the start still waits for it, and cancelled otherwise. */
  function Prepared(s: Permits, request: nat, a: Attempt, expired: bool, cancelRequest: nat): Permits {
    var i := FindPreparation(s.preparations, request);
    if i == |s.preparations| || s.preparations[i].conversation != a.conversation then s
    else
      var p, t := s.preparations[i], WithoutPreparation(s, i);
      if p.generation != s.generation || expired then
        var u := Cancel(t, a, cancelRequest);
        if p.generation == s.generation then Terminal(u, cancelRequest) else u
      else t.(startAttempt := Some(a))
  }

  /** A preparation that was rejected, or could not be sent. */
  function PreparationFailed(s: Permits, request: nat, cancelRequest: nat): Permits {
    var i := FindPreparation(s.preparations, request);
    if i == |s.preparations| then s
    else if s.preparations[i].generation == s.generation then Terminal(WithoutPreparation(s, i), cancelRequest)
    else WithoutPreparation(s, i)
  }

  /** It takes too long: the start fails, but a late permit is still recognised. */
  function PreparationTimedOut(s: Permits, request: nat, cancelRequest: nat): Permits {
    var i := FindPreparation(s.preparations, request);
    if i < |s.preparations| && s.preparations[i].generation == s.generation then Terminal(s, cancelRequest) else s
  }

  function PreparationForgotten(s: Permits, request: nat): Permits {
    var i := FindPreparation(s.preparations, request);
    if i == |s.preparations| then s else WithoutPreparation(s, i)
  }

  function CancelConfirmed(s: Permits, a: Attempt, request: nat, unknown: bool): Permits {
    var i := Find(s.cancellations, a.id);
    if i == |s.cancellations| || s.cancellations[i].request != request ||
        s.cancellations[i].conversation != a.conversation || unknown then s
    else s.(cancellations := s.cancellations[..i] + s.cancellations[i + 1..], cancelled := s.cancelled + {a.id})
  }

  /** An accepted `started` event: the call this client started has a room. */
  function Started(s: Permits, selfIn: bool): Permits {
    if s.cancellations != [] || (s.pendingStart.Some? && !selfIn) then s
    else if s.pendingStart.Some? && s.startAttempt.Some? then
      s.(adopted := s.adopted + {s.startAttempt.value.id}, startAttempt := None, pendingStart := None)
    else s.(pendingStart := None)
  }

  // ----- The facade -----------------------------------------------------------------------------

  class Starter {
    var generation: nat
    var preparations: seq<Preparation>
    var startAttempt: Option<Attempt>
    var pendingStart: Option<nat>
    var startCancellations: seq<Cancellation>
    var ready: bool
    var now: int
    var sent: seq<Sent>
    var cancelled: set<string>
    var adopted: set<string>

    constructor ()
      ensures View() == IDLE
    {
      generation, preparations, startAttempt, pendingStart := 0, [], None, None;
      startCancellations, ready, now, sent, cancelled, adopted := [], false, 0, [], {}, {};
    }

    function View(): Permits
      reads this
    {
      Permits(generation, preparations, startAttempt, pendingStart, startCancellations, ready, now, sent, cancelled,
          adopted)
    }

    method RetryStartCancellation(i: nat)
      requires i < |startCancellations|
      modifies this`startCancellations, this`sent
      ensures View() == RetryAt(old(View()), i)
    {
      var c := startCancellations[i];
      if now >= c.deadline {
        startCancellations := startCancellations[i := c.(armed := false)];
        return;
      }
      if c.sends >= 4 {
        assert startCancellations == startCancellations[i := c];
        return;
      }
      if ready {
        c := c.(sends := c.sends + 1);
        sent := sent + [Sent(c.attempt, c.deadline, now)];
      }
      startCancellations := startCancellations[i := c.(armed := true)];
    }

    method CancelStartAttempt(a: Attempt, request: nat)
      modifies this`startCancellations, this`sent
      ensures View() == Cancel(old(View()), a, request)
    {
      if Find(startCancellations, a.id) < |startCancellations| { return; }
      startCancellations := startCancellations + [Cancellation(a.id, a.conversation, request, 0, now + WINDOW, false)];
      RetryStartCancellation(|startCancellations| - 1);
    }

    /** Asking is also what gives an expired cancellation another window. */
    method CanStart(allowed: bool, ids: nat -> nat) returns (may: bool)
      modifies this`startCancellations, this`sent
      ensures may <==> MayStart(old(View()), allowed)
      ensures View() == RenewFrom(old(View()), 0, ids)
    {
      if |startCancellations| > 0 {
        var i := 0;
        while i < |startCancellations|
          invariant 0 <= i <= |startCancellations|
          invariant RenewFrom(View(), i, ids) == RenewFrom(old(View()), 0, ids)
          invariant old(startCancellations) != []
        {
          var c := startCancellations[i];
          if !c.armed {
            startCancellations := startCancellations[i := c.(request := ids(i), sends := 0, deadline := now + WINDOW)];
            RetryStartCancellation(i);
          }
          i := i + 1;
        }
        return false;
      }
      if |preparations| > 0 { return false; }
      if startAttempt.Some? || pendingStart.Some? { return false; }
      may := allowed;
    }

    method Reconnected()
      modifies this`ready, this`startCancellations, this`sent
      ensures View() == RetryFrom(old(View()).(ready := true), 0)
    {
      ready := true;
      var i := 0;
      while i < |startCancellations|
        invariant 0 <= i <= |startCancellations|
        invariant RetryFrom(View(), i) == RetryFrom(old(View()).(ready := true), 0)
      {
        RetryStartCancellation(i);
        i := i + 1;
      }
    }

    method EndCall(request: nat)
      modifies this
      ensures View() == Terminal(old(View()), request)
    {
      var attempt := startAttempt;
      startAttempt := None;
      if attempt.Some? { CancelStartAttempt(attempt.value, request); }
      pendingStart := None;
      generation := generation + 1;
    }

    method RemovePreparation(i: nat)
      requires i < |preparations|
      modifies this`preparations
      ensures View() == WithoutPreparation(old(View()), i)
    {
      preparations := preparations[..i] + preparations[i + 1..];
    }

    method StartPrepared(request: nat, a: Attempt, expired: bool, cancelRequest: nat)
      modifies this
      ensures View() == Prepared(old(View()), request, a, expired, cancelRequest)
    {
      var i := FindPreparation(preparations, request);
      if i == |preparations| || preparations[i].conversation != a.conversation { return; }
      var current := preparations[i].generation == generation;
      RemovePreparation(i);
      if !current || expired {
        CancelStartAttempt(a, cancelRequest);
        if current { EndCall(cancelRequest); }
      } else {
        startAttempt := Some(a);
      }
    }

    method PreparationRejected(request: nat, cancelRequest: nat)
      modifies this
      ensures View() == PreparationFailed(old(View()), request, cancelRequest)
    {
      var i := FindPreparation(preparations, request);
      if i == |preparations| { return; }
      var current := preparations[i].generation == generation;
      RemovePreparation(i);
      if current { EndCall(cancelRequest); }
    }

    method StartCancelled(a: Attempt, request: nat, unknown: bool)
      modifies this`startCancellations, this`cancelled
      ensures View() == CancelConfirmed(old(View()), a, request, unknown)
    {
      var i := Find(startCancellations, a.id);
      if i == |startCancellations| { return; }
      if startCancellations[i].request != request || startCancellations[i].conversation != a.conversation { return; }
      if unknown { return; }
      startCancellations := startCancellations[..i] + startCancellations[i + 1..];
      cancelled := cancelled + {a.id};
    }

    method GroupCallStarted(selfIn: bool)
      modifies this`startAttempt, this`pendingStart, this`adopted
      ensures View() == Started(old(View()), selfIn)
    {
      if |startCancellations| > 0 { return; }
      if pendingStart.Some? && !selfIn { return; }
      if pendingStart.Some? && startAttempt.Some? {
        adopted := adopted + {startAttempt.value.id};
        startAttempt := None;
      }
      pendingStart := None;
    }
  }
}
