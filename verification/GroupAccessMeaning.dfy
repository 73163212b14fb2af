/** What every event makes of a group: when it is hidden, shown or removed, and which lookups then count. */
module GroupAccessMeaning {
  import opened Options
  import opened GroupAccess
  import opened GroupAccessFences
  import opened GroupAccessOutcomes

  // ----- The kinds of events --------------------------------------------------------------------

  /** The event says something newer about the membership than all that is known. */
  predicate IsNews(s: State, revision: nat, c: Context) { revision > s.revision && revision > c.projectionRevision }

  /** The departure is over, and something newer had been seen that was no removal. */
  predicate MustReconcile(s: State, id: nat) {
    IsDeparture(s, id) && s.revision > s.departure.value.revision && !(Removing(s) && s.removedRevision.Some?)
  }

  /** The reply cannot be about what the group is now: a departure or its removal came in between. */
  predicate Overtaken(s: State, l: Lookup, g: Projection) {
    || (g.sameGroup && AboveDeparture(s, g.membershipRevision)) || Outdated(s, l, g)
    || (Removing(s) && (s.removedRevision.Some? || !s.quarantined))
  }

  /** The error is that of the request that counts. */
  predicate Counts(s: State, id: nat) { id in s.lookups && !Superseded(s, s.lookups[id]) }

  /** The group is authorized. */
  predicate Authorizes(s: State, e: Event) {
    match e
    case EvProjectItem(revision, _) => ListRestores(s, revision)
    case EvLookupReplies(id, g) =>
      id in s.lookups && (Answers(s, s.lookups[id], g) || Catches(s, s.lookups[id], g))
    case _ => false
  }

  /** The group is removed. */
  predicate Removes(s: State, e: Event) {
    match e
    case EvDefinitiveRemoval(revision) => !(Settled(s) && s.removedRevision.value >= Max(revision, s.revision))
    case EvProjectAbsence(_) => !s.quarantined && s.removedRevision.None?
    case EvMembershipChanged(revision, deleted, c) => deleted && IsNews(s, revision, c)
    case EvDepartureSucceeds(id) => IsDeparture(s, id) && s.revision == s.departure.value.revision &&
      !(Removing(s) && s.removedRevision.Some?)
    case EvLookupReplies(id, g) =>
      id in s.lookups && Removing(s) && s.removedRevision.None? && !s.quarantined && !Outdated(s, s.lookups[id], g) &&
      !(g.sameGroup && AboveDeparture(s, g.membershipRevision))
    case EvLookupFails(id, error) => Counts(s, id) && error == NotFound
    case _ => false
  }

  /** The group is hidden, whether or not it was before. */
  predicate Hides(s: State, e: Event) {
    match e
    case EvProjectItem(revision, _) => AboveDeparture(s, revision)
    case EvMembershipChanged(revision, deleted, c) => !deleted && IsNews(s, revision, c)
    case EvVerifyQuarantined(_) => true
    case EvQuarantineForVerification(_) => true
    case EvDepartureSucceeds(id) => MustReconcile(s, id)
    case EvDepartureFails(id) => IsDeparture(s, id) && !Removing(s)
    case EvLookupReplies(id, g) =>
      id in s.lookups &&
      ((g.sameGroup && AboveDeparture(s, g.membershipRevision)) || Outdated(s, s.lookups[id], g) ||
       (ShowsNewer(s, s.lookups[id], g) && !Catches(s, s.lookups[id], g) && !Overtaken(s, s.lookups[id], g)))
    case EvLookupFails(id, error) =>
      Counts(s, id) && AboveDeparture(s, s.revision) && !Removing(s) && error != NotFound
    case _ => false
  }

  /** The revision the event shows, or 0 if it shows nothing that counts. */
  function Seen(s: State, e: Event): nat {
    match e
    case EvMarkAuthorized(revision) => revision
    case EvDefinitiveRemoval(revision) => revision
    case EvAcceptProjection(revision) => revision
    case EvProjectItem(revision, _) =>
      if s.quarantined && !AboveDeparture(s, revision) && !ListRestores(s, revision) then 0 else revision
    case EvProjectAbsence(revision) => if Removes(s, e) then revision else 0
    case EvMembershipChanged(revision, _, c) => if IsNews(s, revision, c) then revision else 0
    case EvDepart(revision, _) => if s.departure.Some? then 0 else revision
    case EvLookupReplies(id, g) =>
      if id !in s.lookups then 0
      else if Removes(s, e) then s.lookups[id].targetRevision
      else if Authorizes(s, e) || Hides(s, e) then g.membershipRevision
      else 0
    case EvLookupFails(id, _) => if Removes(s, e) then s.lookups[id].targetRevision else 0
    case _ => 0
  }

  /** A projection or an event shows the group above the removal fence. */
  predicate Lifts(s: State, e: Event) {
    match e
    case EvAcceptProjection(revision) => revision >= s.revision && AboveRemoval(s, revision)
    case EvProjectItem(revision, _) => !s.quarantined && !AboveDeparture(s, revision) && revision >= s.revision &&
      AboveRemoval(s, revision)
    case EvMembershipChanged(revision, deleted, c) => !deleted && IsNews(s, revision, c)
    case _ => false
  }

  /** Hidden, fenced and known up to: what an event leaves. */
  predicate Shows(s: State, e: Event, t: State) {
    && t.quarantined == (Hides(s, e) || (s.quarantined && !Authorizes(s, e) && !Removes(s, e)))
    && t.removedRevision == (if Removes(s, e) then Some(t.revision)
                             else if Authorizes(s, e) || Lifts(s, e) then None else s.removedRevision)
    && t.revision == Max(s.revision, Seen(s, e))
  }

  // ----- Event by event -------------------------------------------------------------------------

  lemma RejectShows(s: State, id: nat, l: Lookup, g: Projection)
    requires RevisionsOrdered(s) && id in s.lookups && l == s.lookups[id] && !Overtaken(s, l, g) && !Answers(s, l, g)
    ensures Shows(s, EvLookupReplies(id, g), RejectReply(s, id, l, g).0)
  {
  }

  lemma OvertakenShows(s: State, id: nat, l: Lookup, g: Projection)
    requires RevisionsOrdered(s) && id in s.lookups && l == s.lookups[id] && Overtaken(s, l, g)
    ensures Shows(s, EvLookupReplies(id, g), HandleReply(s, id, l, g).0)
  {
  }

  lemma AnswerShows(s: State, id: nat, l: Lookup, g: Projection)
    requires RevisionsOrdered(s) && id in s.lookups && l == s.lookups[id] && Answers(s, l, g)
    ensures Shows(s, EvLookupReplies(id, g), HandleReply(s, id, l, g).0)
  {
  }

  lemma ReplyShowsIt(s: State, id: nat, g: Projection)
    requires RevisionsOrdered(s) && id in s.lookups
    ensures Shows(s, EvLookupReplies(id, g), HandleReply(s, id, s.lookups[id], g).0)
  {
    var l := s.lookups[id];
    if Overtaken(s, l, g) {
      OvertakenShows(s, id, l, g);
    } else if Answers(s, l, g) {
      AnswerShows(s, id, l, g);
    } else {
      NoAnswer(s, id, l, g);
      RejectShows(s, id, l, g);
    }
  }

  lemma NotFoundShows(s: State, id: nat, t: State)
    requires RevisionsOrdered(s) && Counts(s, id)
    requires t.revision == s.revision && t.removedRevision == s.removedRevision
    ensures Shows(s, EvLookupFails(id, NotFound), Remove(t, Max(s.lookups[id].targetRevision, t.revision)))
  {
  }

  lemma FailureReportShows(s: State, id: nat, reason: string)
    requires RevisionsOrdered(s) && Counts(s, id)
    ensures Shows(s, EvLookupFails(id, Failure(reason)), HandleError(s, s.lookups[id], Failure(reason)).0)
  {
  }

  lemma ErrorShows(s: State, id: nat, error: LookupError)
    requires RevisionsOrdered(s) && id in s.lookups
    ensures Shows(s, EvLookupFails(id, error), HandleError(s, s.lookups[id], error).0)
  {
    if Counts(s, id) {
      match error {
        case NotFound =>
          if AboveDeparture(s, s.revision) && !Removing(s) {
            PartsShow(s, 0, None, s.departure.value.context);
            NotFoundShows(s, id, AbandonDeparture(Quarantine(s, s.departure.value.context).(failed := true)));
          } else {
            NotFoundShows(s, id, s);
          }
        case Failure(reason) => FailureReportShows(s, id, reason);
      }
    }
  }

  lemma CompleteShows(s: State, e: Event, t: State, id: nat, retry: bool)
    requires Shows(s, e, t)
    ensures Shows(s, e, Complete(t, id, retry))
  {
  }

  /** Asking, cancelling and hiding leave the rest of what is shown alone. */
  predicate SameButHidden(s: State, t: State) {
    t.removedRevision == s.removedRevision && t.revision == s.revision
  }

  lemma PartsShow(s: State, revision: nat, context: Option<Context>, c: Context)
    ensures SameButHidden(s, RequestGroup(s, revision, context)) && SameButHidden(s, CancelRequest(s))
    ensures RequestGroup(s, revision, context).quarantined == CancelRequest(s).quarantined == s.quarantined
    ensures CancelRequest(s).departure == s.departure && !CancelRequest(s).inFlight
    ensures SameButHidden(s, Quarantine(s, c)) && Quarantine(s, c).quarantined
  {
  }

  lemma MembershipShows(s: State, revision: nat, deleted: bool, c: Context)
    requires RevisionsOrdered(s)
    ensures Shows(s, EvMembershipChanged(revision, deleted, c), MembershipChanged(s, revision, deleted, c))
  {
    if IsNews(s, revision, c) {
      var t := Advance(s, revision);
      if deleted {
        var u := if t.departure.Some? && Max(s.revision, c.projectionRevision) == t.departure.value.revision
                 then t.(departure := Some(t.departure.value.(removalObserved := true))) else t;
        PartsShow(u, revision, None, c);
        RemoveAnyway(CancelRequest(u), revision);
      } else {
        var u := if t.removedRevision.Some? && revision > t.removedRevision.value then t.(removedRevision := None)
                 else t;
        PartsShow(u, revision, None, c);
        PartsShow(Quarantine(u, c), revision, None, c);
      }
    }
  }

  lemma RemoveAnyway(s: State, revision: nat)
    requires s.removedRevision.Some? ==> s.removedRevision.value <= s.revision
    ensures var t := Remove(s, revision);
            !t.quarantined && t.revision == Max(revision, s.revision) && t.removedRevision == Some(t.revision)
  {
  }

  lemma ListShows(s: State, revision: nat, current: bool)
    requires RevisionsOrdered(s)
    ensures Shows(s, EvProjectItem(revision, current), ProjectItem(s, revision, current).0)
  {
  }

  lemma SuccessShows(s: State, id: nat)
    requires RevisionsOrdered(s)
    ensures Shows(s, EvDepartureSucceeds(id), DepartureSucceeds(s, id))
  {
    if MustReconcile(s, id) {
      var t := StartReconciliation(s, s.departure.value);
      assert t.quarantined && SameButHidden(s, t);
    }
  }

  lemma FailureShows(s: State, id: nat)
    requires RevisionsOrdered(s)
    ensures Shows(s, EvDepartureFails(id), DepartureFails(s, id))
  {
    if IsDeparture(s, id) && !Removing(s) {
      PartsShow(s, 0, None, s.departure.value.context);
      PartsShow(Quarantine(s, s.departure.value.context), 0, None, s.departure.value.context);
    }
  }

  lemma RequestShows(s: State, c: Context)
    requires RevisionsOrdered(s)
    ensures Shows(s, EvConversationCreated(c), ConversationCreated(s, c))
    ensures Shows(s, EvVerifyQuarantined(c), VerifyQuarantined(s, c))
    ensures Shows(s, EvQuarantineForVerification(c), QuarantineForVerification(s, c))
    ensures Shows(s, EvRetryQuarantined, RetryQuarantined(s))
  {
    PartsShow(s, s.revision, Some(c), c);
    PartsShow(s, s.revision, None, c);
    PartsShow(Quarantine(s, c), s.revision, Some(c), c);
  }

  lemma DefinitiveShows(s: State, revision: nat)
    requires RevisionsOrdered(s)
    ensures Shows(s, EvDefinitiveRemoval(revision), DefinitiveRemoval(s, revision))
  {
    PartsShow(s, revision, None, Context(false, 0, 0));
    RemoveAnyway(CancelRequest(s), revision);
  }

  lemma AcceptShows(s: State, revision: nat)
    requires RevisionsOrdered(s)
    ensures Shows(s, EvAcceptProjection(revision), AcceptProjection(s, revision).0)
  {
  }

  lemma MarkShows(s: State, revision: nat)
    requires RevisionsOrdered(s)
    ensures Shows(s, EvMarkAuthorized(revision), MarkAuthorized(s, revision))
  {
  }

  lemma AbsenceShows(s: State, revision: nat)
    requires RevisionsOrdered(s)
    ensures Shows(s, EvProjectAbsence(revision), ProjectAbsence(s, revision))
  {
  }

  lemma DepartShows(s: State, revision: nat, c: Context)
    requires RevisionsOrdered(s)
    ensures Shows(s, EvDepart(revision, c), Depart(s, revision, c))
  {
  }

  /**
   * After every event of every run: the group is hidden exactly if the event hides it, or it was hidden and is
   * neither authorized nor removed; it is fenced exactly at its revision if it is removed, not at all if it is
   * authorized or shown above the fence, and as before otherwise; and nothing seen is forgotten.
   */
  lemma {:induction false} ShowsExactly(s: State, e: Event)
    requires Invariant(s)
    ensures Shows(s, e, Step(s, e))
  {
    match e
    case EvDefinitiveRemoval(revision) => DefinitiveShows(s, revision);
    case EvAcceptProjection(revision) => AcceptShows(s, revision);
    case EvProjectItem(revision, current) => ListShows(s, revision, current);
    case EvMembershipChanged(revision, deleted, c) => MembershipShows(s, revision, deleted, c);
    case EvConversationCreated(c) => RequestShows(s, c);
    case EvVerifyQuarantined(c) => RequestShows(s, c);
    case EvQuarantineForVerification(c) => RequestShows(s, c);
    case EvRetryQuarantined => RequestShows(s, Context(false, 0, 0));
    case EvDepartureSucceeds(id) => SuccessShows(s, id);
    case EvDepartureFails(id) => FailureShows(s, id);
    case EvLookupReplies(id, g) => RepliesShow(s, id, g);
    case EvLookupFails(id, error) => FailsShow(s, id, error);
    case EvMarkAuthorized(revision) => MarkShows(s, revision);
    case EvProjectAbsence(revision) => AbsenceShows(s, revision);
    case EvDepart(revision, c) => DepartShows(s, revision, c);
  }

  lemma RepliesShow(s: State, id: nat, g: Projection)
    requires RevisionsOrdered(s)
    ensures Shows(s, EvLookupReplies(id, g), LookupReplies(s, id, g))
  {
    if id in s.lookups {
      var (t, retry) := HandleReply(s, id, s.lookups[id], g);
      ReplyShowsIt(s, id, g);
      CompleteShows(s, EvLookupReplies(id, g), t, id, retry);
    }
  }

  lemma FailsShow(s: State, id: nat, error: LookupError)
    requires RevisionsOrdered(s)
    ensures Shows(s, EvLookupFails(id, error), LookupFails(s, id, error))
  {
    if id in s.lookups {
      var (t, retry) := HandleError(s, s.lookups[id], error);
      ErrorShows(s, id, error);
      CompleteShows(s, EvLookupFails(id, error), t, id, retry);
    }
  }

  // ----- Replies that count ---------------------------------------------------------------------

  /**
   * A reply that may show the group does: afterwards it is not hidden and not fenced, its revision is the reply's,
   * and the last outcome authorizes that revision for the remembered context.
   */
  lemma GoodReplyRestores(s: State, id: nat, g: Projection)
    requires Invariant(s) && id in s.lookups && Answers(s, s.lookups[id], g)
    ensures var t := Step(s, EvLookupReplies(id, g));
            && !t.quarantined && t.removedRevision.None? && t.revision == g.membershipRevision
            && t.log == Then(s.log, Authorized(g.membershipRevision, s.context.Some? && s.context.value.selected,
                 if s.context.Some? then Some(s.context.value.navigationIntentVersion) else None, Some(id)))
  {
    Reports(s, EvLookupReplies(id, g));
    ShowsExactly(s, EvLookupReplies(id, g));
    LoggedOne(s.log, Grant(s, g.membershipRevision, Some(id)));
  }

  predicate AnyAuthorized(outcomes: seq<Entry>) { exists i :: 0 <= i < |outcomes| && outcomes[i].Authorized? }

  /** A group is authorized by nothing else: a reply that may show it, a newer one that nothing fences, or a list. */
  lemma AuthorizedExactly(s: State, e: Event)
    requires Invariant(s)
    ensures Step(s, e).log == Logged(s.log, Outcomes(s, e))
    ensures AnyAuthorized(Outcomes(s, e)) <==> Authorizes(s, e)
  {
    Reports(s, e);
    OutcomesAuthorize(s, e);
  }

  lemma RepliesAuthorize(s: State, id: nat, l: Lookup, g: Projection)
    ensures AnyAuthorized(ReplyOutcomes(s, id, l, g)) <==> Answers(s, l, g) || Catches(s, l, g)
  {
    if Answers(s, l, g) || Catches(s, l, g) { assert ReplyOutcomes(s, id, l, g)[0].Authorized?; }
  }

  lemma OutcomesAuthorize(s: State, e: Event)
    ensures AnyAuthorized(Outcomes(s, e)) <==> Authorizes(s, e)
  {
    if e.EvLookupReplies? {
      if e.id in s.lookups { RepliesAuthorize(s, e.id, s.lookups[e.id], e.projection); }
    } else if Authorizes(s, e) {
      assert Outcomes(s, e)[0].Authorized?;
    }
  }

  predicate AnyRemoved(outcomes: seq<Entry>) { exists i :: 0 <= i < |outcomes| && outcomes[i].Removed? }

  lemma RemovedExactly(s: State, e: Event)
    requires Invariant(s)
    ensures AnyRemoved(Outcomes(s, e)) <==> Removes(s, e)
  {
    if Removes(s, e) {
      var outcomes := Outcomes(s, e);
      assert outcomes != [] && (outcomes[0].Removed? || outcomes[|outcomes| - 1].Removed?);
    }
  }
}
