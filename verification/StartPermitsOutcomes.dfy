/** What every event does with the client's permit: used, cancelled, asked for again or given back, and exactly when. */
module StartPermitsOutcomes {
  import opened Options
  import opened StartPermits
  import opened StartPermitsRuns

  // ----- Cancels on the wire --------------------------------------------------------------------

  /**
   * Looking at a cancellation sends a cancel exactly while its window is open, fewer than four were sent in it and
   * the connection is up.  It stays armed for as long as the window is open.
   */
  lemma RetrySends(s: Permits, i: nat)
    requires i < |s.cancellations|
    ensures var c, t := s.cancellations[i], RetryAt(s, i);
            var d := t.cancellations[i];
            var due := s.now < c.deadline && c.sends < 4 && s.ready;
            && t.sent == (if due then s.sent + [Sent(c.attempt, c.deadline, s.now)] else s.sent)
            && d.sends == c.sends + (if due then 1 else 0)
            && d.attempt == c.attempt && d.conversation == c.conversation && d.request == c.request
            && d.deadline == c.deadline
            && (d.armed <==> s.now < c.deadline && (c.sends < 4 || c.armed))
    ensures var t := RetryAt(s, i);
            |t.cancellations| == |s.cancellations| && forall k :: 0 <= k < |s.cancellations| && k != i ==>
              t.cancellations[k] == s.cancellations[k]
  {
  }

  /** A cancellation just begun, in a window of 30 seconds from now, and what it has sent at once. */
  predicate Begun(s: Permits, t: Permits, a: Attempt, request: nat) {
    && t.cancellations == [Cancellation(a.id, a.conversation, request, if s.ready then 1 else 0, s.now + 30_000, true)]
    && t.sent == (if s.ready then s.sent + [Sent(a.id, s.now + 30_000, s.now)] else s.sent)
  }

  /** Nothing is cancelled and nothing sent. */
  predicate Quiet(s: Permits, t: Permits) { t.cancellations == s.cancellations && t.sent == s.sent }

  predicate SameOutcomes(s: Permits, t: Permits) {
    t.cancelled == s.cancelled && t.adopted == s.adopted && t.ready == s.ready && t.now == s.now
  }

  lemma CancelBegins(s: Permits, a: Attempt, request: nat)
    requires s.cancellations == []
    ensures Begun(s, Cancel(s, a, request), a, request) && SameOutcomes(s, Cancel(s, a, request))
    ensures var t := Cancel(s, a, request);
            t.startAttempt == s.startAttempt && t.preparations == s.preparations &&
            t.pendingStart == s.pendingStart && t.generation == s.generation
  {
    var c := Cancellation(a.id, a.conversation, request, 0, s.now + WINDOW, false);
    assert s.cancellations + [c] == [c];
    RetrySends(s.(cancellations := [c]), 0);
  }

  // ----- The end of a call ----------------------------------------------------------------------

  /** The call is over: an attempt it held is being cancelled, and nothing waits for it any more. */
  predicate Ended(s: Permits, t: Permits, request: nat) {
    && t.startAttempt.None? && t.pendingStart.None? && t.generation == s.generation + 1 && SameOutcomes(s, t)
    && (if s.startAttempt.Some? then Begun(s, t, s.startAttempt.value, request) else Quiet(s, t))
  }

  lemma EndExactly(s: Permits, request: nat)
    requires OnePermit(s)
    ensures Ended(s, StepPermits(s, End(request)), request)
    ensures StepPermits(s, End(request)).preparations == s.preparations
  {
    if s.startAttempt.Some? { CancelBegins(s.(startAttempt := None), s.startAttempt.value, request); }
  }

  // ----- Asking for a permit --------------------------------------------------------------------

  /** Nothing the client asked for is still under way. */
  predicate Idle(s: Permits) {
    s.preparations == [] && s.startAttempt.None? && s.pendingStart.None? && s.cancellations == []
  }

  /** Asking for a call gives an outstanding cancellation a new window exactly if its last one is over. */
  predicate Renewed(s: Permits, t: Permits, ids: nat -> nat) {
    if s.cancellations != [] && !s.cancellations[0].armed
    then Begun(s, t, Attempt(s.cancellations[0].conversation, s.cancellations[0].attempt), ids(0))
    else Quiet(s, t)
  }

  lemma {:induction false} AskExactly(s: Permits, ids: nat -> nat)
    requires OnePermit(s)
    ensures var t := RenewFrom(s, 0, ids);
            && Renewed(s, t, ids) && SameOutcomes(s, t) && t.preparations == s.preparations
            && t.startAttempt == s.startAttempt && t.pendingStart == s.pendingStart && t.generation == s.generation
  {
    if s.cancellations != [] {
      var c := s.cancellations[0];
      assert RenewFrom(s, 0, ids) == RenewFrom(RenewAt(s, 0, ids(0)), 1, ids);
      if !c.armed {
        var d := c.(request := ids(0), sends := 0, deadline := s.now + WINDOW);
        assert s.cancellations[0 := d] == [d];
        RetrySends(s.(cancellations := [d]), 0);
        assert RetryAt(s.(cancellations := [d]), 0).cancellations ==
          [RetryAt(s.(cancellations := [d]), 0).cancellations[0]];
      }
    }
  }

  /**
   * A start that is delivered begins a preparation of the next generation exactly if nothing is under way and the
   * rest of the facade allows it; otherwise it only asks again for what is outstanding.
   */
  lemma {:induction false} StartExactly(s: Permits, request: nat, conversation: string, allowed: bool, ids: nat -> nat,
                                        cancelRequest: nat)
    requires OnePermit(s)
    ensures var t := StepPermits(s, Start(request, conversation, allowed, ids, true, cancelRequest));
            if Idle(s) && allowed then
              t == s.(generation := s.generation + 1,
                      preparations := [Preparation(request, conversation, s.generation + 1)])
            else t == RenewFrom(s, 0, ids)
  {
    if Idle(s) {
      AskExactly(s, ids);
      assert RenewFrom(s, 0, ids) == s;
      assert [] + [Preparation(request, conversation, s.generation + 1)] ==
        [Preparation(request, conversation, s.generation + 1)];
    }
  }

  /** One that could not be sent leaves nothing behind. */
  lemma UndeliveredStart(s: Permits, request: nat, conversation: string, ids: nat -> nat, cancelRequest: nat)
    requires Idle(s)
    ensures StepPermits(s, Start(request, conversation, true, ids, false, cancelRequest)) ==
            s.(generation := s.generation + 2)
  {
    var p := Preparation(request, conversation, s.generation + 1);
    var t := s.(generation := s.generation + 1, preparations := s.preparations + [p]);
    assert RenewFrom(s, 0, ids) == s && t.preparations == [p];
    assert FindPreparation([p], request) == 0;
    assert t.preparations[..0] + t.preparations[1..] == [];
  }

  /** Joining another call waits for the request exactly if nothing is under way and it is allowed. */
  lemma {:induction false} JoinExactly(s: Permits, request: nat, allowed: bool, ids: nat -> nat)
    requires OnePermit(s)
    ensures StepPermits(s, JoinOther(request, allowed, ids)) ==
            if Idle(s) && allowed then s.(generation := s.generation + 1, pendingStart := Some(request))
            else RenewFrom(s, 0, ids)
  {
    if Idle(s) { assert RenewFrom(s, 0, ids) == s; }
  }

  // ----- The server's answers -------------------------------------------------------------------

  /** The preparation the answer is about. */
  predicate IsAbout(s: Permits, request: nat) { s.preparations != [] && s.preparations[0].request == request }

  lemma {:induction false} OnlyPreparation(s: Permits, request: nat)
    requires OnePermit(s)
    ensures IsAbout(s, request) <==> FindPreparation(s.preparations, request) < |s.preparations|
    ensures IsAbout(s, request) ==>
              && FindPreparation(s.preparations, request) == 0 && s.startAttempt.None? && s.cancellations == []
              && WithoutPreparation(s, 0) == s.(preparations := [])
  {
    if |s.preparations| == 1 { assert s.preparations[1..] == []; }
  }

  /**
   * A permit is used exactly if the client asked for it, for this conversation, the start still waits for it and it
   * has not expired; one that comes too late is cancelled at once, and any other is none of the client's.
   */
  lemma GrantExactly(s: Permits, request: nat, a: Attempt, expired: bool, cancelRequest: nat)
    requires OnePermit(s)
    ensures var t := StepPermits(s, Granted(request, a, expired, cancelRequest));
            if !IsAbout(s, request) || s.preparations[0].conversation != a.conversation then t == s
            else if s.preparations[0].generation == s.generation && !expired
            then t == s.(preparations := [], startAttempt := Some(a))
            else
              && t.preparations == [] && t.startAttempt.None? && Begun(s, t, a, cancelRequest) && SameOutcomes(s, t)
              && (if s.preparations[0].generation == s.generation
                  then t.pendingStart.None? && t.generation == s.generation + 1
                  else t.pendingStart == s.pendingStart && t.generation == s.generation)
  {
    OnlyPreparation(s, request);
    if IsAbout(s, request) { CancelBegins(s.(preparations := []), a, cancelRequest); }
  }

  /** A rejected preparation is gone, and the start that still waits for it ends. */
  lemma RejectedExactly(s: Permits, request: nat, cancelRequest: nat)
    requires OnePermit(s)
    ensures StepPermits(s, Rejected(request, cancelRequest)) ==
            if !IsAbout(s, request) then s
            else if s.preparations[0].generation == s.generation
            then s.(preparations := [], pendingStart := None, generation := s.generation + 1)
            else s.(preparations := [])
  {
    OnlyPreparation(s, request);
  }

  /** One that takes too long ends the start, but is kept, so that a late permit is still recognised. */
  lemma TimedOutExactly(s: Permits, request: nat, cancelRequest: nat)
    requires OnePermit(s)
    ensures StepPermits(s, TimedOut(request, cancelRequest)) ==
            if IsAbout(s, request) && s.preparations[0].generation == s.generation
            then s.(pendingStart := None, generation := s.generation + 1) else s
  {
    OnlyPreparation(s, request);
  }

  /** Until it is forgotten. */
  lemma ForgottenExactly(s: Permits, request: nat)
    requires OnePermit(s)
    ensures StepPermits(s, Forgotten(request)) == if IsAbout(s, request) then s.(preparations := []) else s
  {
    OnlyPreparation(s, request);
  }

  /** A permit granted although the start has given up is cancelled, not lost: the late answer is recognised. */
  lemma LateGrantIsCancelled(s: Permits, request: nat, a: Attempt, cancelRequest: nat)
    requires OnePermit(s) && IsAbout(s, request) && s.preparations[0].generation == s.generation
    requires s.preparations[0].conversation == a.conversation
    ensures var t := StepPermits(s, TimedOut(request, cancelRequest));
            var u := StepPermits(t, Granted(request, a, false, cancelRequest));
            u.startAttempt.None? && Begun(t, u, a, cancelRequest)
  {
    TimedOutExactly(s, request, cancelRequest);
    GrantExactly(StepPermits(s, TimedOut(request, cancelRequest)), request, a, false, cancelRequest);
  }

  /** The microphone is there: the start is sent, or the call ends if it cannot be. */
  lemma MicrophoneExactly(s: Permits, request: nat, delivered: bool, cancelRequest: nat)
    requires OnePermit(s)
    ensures var t := StepPermits(s, Microphone(request, delivered, cancelRequest));
            if s.startAttempt.None? || s.pendingStart.Some? then t == s
            else if delivered then t == s.(pendingStart := Some(request))
            else Ended(s, t, cancelRequest)
  {
    EndExactly(s, cancelRequest);
  }

  /**
   * The room of the started call adopts the attempt exactly if the client waits for it and is in it, and nothing is
   * being cancelled.
   */
  lemma StartedExactly(s: Permits, selfIn: bool)
    ensures StepPermits(s, StartedEvent(selfIn)) ==
            if s.cancellations != [] || (s.pendingStart.Some? && !selfIn) then s
            else if s.pendingStart.Some? && s.startAttempt.Some?
            then s.(adopted := s.adopted + {s.startAttempt.value.id}, startAttempt := None, pendingStart := None)
            else s.(pendingStart := None)
  {
  }

  /** A cancellation is over exactly when the server confirms the request sent last, for its conversation. */
  lemma ConfirmedExactly(s: Permits, a: Attempt, request: nat, unknown: bool)
    requires OnePermit(s)
    ensures StepPermits(s, Confirmed(a, request, unknown)) ==
            if s.cancellations != [] && s.cancellations[0].attempt == a.id && s.cancellations[0].request == request &&
               s.cancellations[0].conversation == a.conversation && !unknown
            then s.(cancellations := [], cancelled := s.cancelled + {a.id}) else s
  {
    if |s.cancellations| == 1 {
      assert s.cancellations[..0] + s.cancellations[1..] == [];
      assert Find(s.cancellations, a.id) == if s.cancellations[0].attempt == a.id then 0 else 1;
    }
  }

  /** Coming back sends the outstanding cancel again, within its window and four times at most. */
  lemma ConnectedExactly(s: Permits)
    requires OnePermit(s)
    ensures var t := StepPermits(s, Connected);
            && t.ready && t.now == s.now && t.startAttempt == s.startAttempt && t.preparations == s.preparations
            && t.pendingStart == s.pendingStart && t.generation == s.generation
            && t.cancelled == s.cancelled && t.adopted == s.adopted
            && (if s.cancellations == [] then Quiet(s, t)
                else
                  var c := s.cancellations[0];
                  && |t.cancellations| == 1 && t.cancellations[0].attempt == c.attempt
                  && t.sent == (if s.now < c.deadline && c.sends < 4
                                then s.sent + [Sent(c.attempt, c.deadline, s.now)] else s.sent))
  {
    var u := s.(ready := true);
    if s.cancellations != [] {
      RetrySends(u, 0);
      assert RetryFrom(u, 0) == RetryFrom(RetryAt(u, 0), 1);
    }
  }

  /** A permit that was used and then given up is cancelled, confirmed and gone: the client may start again. */
  lemma CancelledAndConfirmed(s: Permits, request: nat)
    requires OnePermit(s) && s.startAttempt.Some?
    ensures var a := s.startAttempt.value;
            var t := StepPermits(StepPermits(s, End(request)), Confirmed(a, request, false));
            a.id in t.cancelled && Idle(t) && (s.ready ==> Sent(a.id, s.now + WINDOW, s.now) in t.sent)
  {
    EndExactly(s, request);
    ConfirmedExactly(StepPermits(s, End(request)), s.startAttempt.value, request, false);
  }

  /** While the connection is down a cancellation is kept without being sent; once it is back, it is sent. */
  lemma CancelledOffline(s: Permits, request: nat)
    requires OnePermit(s) && s.startAttempt.Some?
    ensures var t := StepPermits(StepPermits(s, Disconnected), End(request));
            && t.sent == s.sent
            && StepPermits(t, Connected).sent == s.sent + [Sent(s.startAttempt.value.id, s.now + 30_000, s.now)]
  {
    var down := StepPermits(s, Disconnected);
    EndExactly(down, request);
    ConnectedExactly(StepPermits(down, End(request)));
  }

  /** Once its window is over nothing is sent for a cancellation, until the next start gives it a new one. */
  lemma WindowCloses(s: Permits, elapsed: nat, ids: nat -> nat)
    requires OnePermit(s) && s.cancellations != [] && s.cancellations[0].deadline <= s.now + elapsed
    ensures var t := StepPermits(StepPermits(s, Tick(elapsed)), Connected);
            var u := RenewFrom(t, 0, ids);
            && t.sent == s.sent
            && u.sent == s.sent + [Sent(s.cancellations[0].attempt, s.now + elapsed + 30_000, s.now + elapsed)]
  {
    var late := StepPermits(s, Tick(elapsed));
    ConnectedExactly(late);
    var t := StepPermits(late, Connected);
    RetrySends(late.(ready := true), 0);
    assert RetryFrom(late.(ready := true), 0) == RetryFrom(RetryAt(late.(ready := true), 0), 1);
    AskExactly(t, ids);
  }
}
