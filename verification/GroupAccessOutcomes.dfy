/**
 * What the facade reports for every event, and when: in particular that a reply that may show a group does, and
 * that no other does.
 */
module GroupAccessOutcomes {
  import opened Options
  import opened GroupAccess
  import opened GroupAccessFences
  import opened GroupAccessRuns

  // ----- When a reply counts --------------------------------------------------------------------

  /** Above a pending departure. */
  predicate AboveDeparture(s: State, revision: nat) { s.departure.Some? && revision > s.departure.value.revision }

  /** Above every removal there is a fence for. */
  predicate AboveRemoval(s: State, revision: nat) { s.removedRevision.Some? ==> revision > s.removedRevision.value }

  /** Begun before the last departure succeeded, and showing more than that departure knew. */
  predicate Outdated(s: State, l: Lookup, g: Projection) {
    s.departureFence.Some? && l.departureGeneration < s.departureFence.value.generation && g.sameGroup &&
    g.membershipRevision > s.departureFence.value.revision
  }

  /** A departure is pending and its removal was seen. */
  predicate Removing(s: State) { s.departure.Some? && s.departure.value.removalObserved }

  /** Something else was asked for since the lookup began. */
  predicate Superseded(s: State, l: Lookup) { l.fetchRevision != s.requestRevision }

  /**
   * The reply to the request that counts: about the group, at least at everything asked for and known, above every
   * removal, not from before the last departure and not above a pending one.
   */
  predicate Answers(s: State, l: Lookup, g: Projection) {
    && !Superseded(s, l) && g.sameGroup
    && g.membershipRevision >= l.targetRevision && g.membershipRevision >= s.revision
    && AboveRemoval(s, g.membershipRevision) && !AboveDeparture(s, g.membershipRevision) && !Outdated(s, l, g)
    && (Removing(s) ==> s.removedRevision.None? && s.quarantined)
  }

  /** The reply to a request that does not count any more shows something newer than all that is known. */
  predicate ShowsNewer(s: State, l: Lookup, g: Projection) {
    && Superseded(s, l) && g.sameGroup && g.membershipRevision > s.revision && AboveRemoval(s, g.membershipRevision)
  }

  /** And no departure stands in the way. */
  predicate Catches(s: State, l: Lookup, g: Projection) {
    ShowsNewer(s, l, g) && s.departure.None? && !s.departureReconciliationRequired && !Outdated(s, l, g)
  }

  /** A list lifts the quarantine unless it is older than what is known or a departure stands in the way. */
  predicate ListRestores(s: State, revision: nat) {
    && s.quarantined && s.departure.None? && !s.departureReconciliationRequired
    && revision >= s.revision && AboveRemoval(s, revision)
  }

  // ----- What is reported -----------------------------------------------------------------------

  /** The authorization for the remembered context. */
  function Grant(s: State, revision: nat, lookup: Option<nat>): Entry {
    Authorized(revision, s.context.Some? && s.context.value.selected,
               if s.context.Some? then Some(s.context.value.navigationIntentVersion) else None, lookup)
  }

  /** Hiding is reported once. */
  function Hiding(s: State, selected: bool): seq<Entry> { if s.quarantined then [] else [Quarantined(selected)] }

  /** A lookup begins unless one is in flight. */
  function Asking(s: State): seq<Entry> { if s.inFlight then [] else [LookupBegan(s.lookupsBegun)] }

  /** What is hidden with while a departure is pending. */
  predicate DepartingSelected(s: State)
    requires s.departure.Some?
  {
    if s.context.Some? then s.context.value.selected else s.departure.value.context.selected
  }

  /** Removed, and nothing happened since that hides it: nothing is asked any more. */
  predicate Settled(s: State) { s.removedRevision.Some? && !s.quarantined }

  /** The outcomes of a reply to a live lookup, and the lookup it makes necessary. */
  function ReplyOutcomes(s: State, id: nat, l: Lookup, g: Projection): seq<Entry> {
    if g.sameGroup && AboveDeparture(s, g.membershipRevision) then Hiding(s, DepartingSelected(s))
    else if Outdated(s, l, g) then (if Superseded(s, l) then [LookupBegan(s.lookupsBegun)] else [])
    else if Removing(s) && s.removedRevision.Some? then [DepartureFinished(false)]
    else if Removing(s) && !s.quarantined then [Removed(Max(l.targetRevision, s.revision))]
    else if Answers(s, l, g) then [Grant(s, g.membershipRevision, Some(id))]
    else if !Superseded(s, l) then [Retryable("unavailable", s.quarantined)]
    else
      (if Catches(s, l, g) then [Authorized(g.membershipRevision, false, None, Some(id))] else []) +
      (if s.departure.None? && (ShowsNewer(s, l, g) || !Settled(s)) then [LookupBegan(s.lookupsBegun)] else [])
  }

  /** The outcomes of an error: a superseded lookup is asked again, unless the group is settled as removed. */
  function ErrorOutcomes(s: State, l: Lookup, error: LookupError): seq<Entry> {
    if Superseded(s, l) then (if Settled(s) then [] else [LookupBegan(s.lookupsBegun)])
    else
      var givesUp := AboveDeparture(s, s.revision) && !Removing(s);
      (if givesUp then Hiding(s, s.departure.value.context.selected) + [DepartureFinished(true)] else []) +
      (match error
       case NotFound => [Removed(Max(l.targetRevision, s.revision))]
       case Failure(reason) => [Retryable(reason, s.quarantined || givesUp)])
  }

  /** What a list reports for a group it names. */
  function ListedOutcomes(s: State, revision: nat): seq<Entry> {
    if AboveDeparture(s, revision) then Hiding(s, DepartingSelected(s))
    else if ListRestores(s, revision) then [Grant(s, revision, None)]
    else []
  }

  function MembershipOutcomes(s: State, revision: nat, deleted: bool, c: Context): seq<Entry> {
    if revision <= s.revision || revision <= c.projectionRevision then []
    else if deleted then [Removed(revision)]
    else Hiding(s, c.selected) + Asking(s)
  }

  /** What the end of a departure reports. */
  function DepartureOutcomes(s: State, d: Departure): seq<Entry> {
    if d.removalObserved && s.removedRevision.Some? then [DepartureFinished(false)]
    else if s.revision > d.revision
      then [DepartureReconciling(d.revision), DepartureFinished(false), LookupBegan(s.lookupsBegun)]
    else [Removed(d.revision), DepartureFinished(false)]
  }

  predicate IsDeparture(s: State, id: nat) { s.departure.Some? && s.departure.value.id == id }

  /** Everything an event reports, and the lookups it begins, in order. */
  function Outcomes(s: State, e: Event): seq<Entry> {
    match e
    case EvMarkAuthorized(_) => []
    case EvAcceptProjection(_) => []
    case EvDefinitiveRemoval(revision) =>
      if Settled(s) && s.removedRevision.value >= Max(revision, s.revision) then []
      else [Removed(Max(revision, s.revision))]
    case EvProjectItem(revision, _) => ListedOutcomes(s, revision)
    case EvProjectAbsence(revision) =>
      if s.quarantined || s.removedRevision.Some? then [] else [Removed(Max(revision, s.revision))]
    case EvMembershipChanged(revision, deleted, c) => MembershipOutcomes(s, revision, deleted, c)
    case EvConversationCreated(_) => Asking(s)
    case EvVerifyQuarantined(c) => Hiding(s, c.selected) + Asking(s)
    case EvQuarantineForVerification(c) => Hiding(s, c.selected)
    case EvRetryQuarantined => if s.quarantined || Removing(s) then Asking(s) else []
    case EvDepart(revision, _) => if s.departure.Some? then [] else [DeparturePending(Max(s.revision, revision))]
    case EvDepartureSucceeds(id) => if IsDeparture(s, id) then DepartureOutcomes(s, s.departure.value) else []
    case EvDepartureFails(id) =>
      if !IsDeparture(s, id) then []
      else if Removing(s) then [DepartureFinished(true)]
      else Hiding(s, s.departure.value.context.selected) + [LookupBegan(s.lookupsBegun), DepartureFinished(true)]
    case EvLookupReplies(id, g) => if id in s.lookups then ReplyOutcomes(s, id, s.lookups[id], g) else []
    case EvLookupFails(id, error) => if id in s.lookups then ErrorOutcomes(s, s.lookups[id], error) else []
  }

  /** The log with outcomes added to it. */
  function Logged(log: Log, outcomes: seq<Entry>): Log {
    if outcomes == [] then log
    else Then(Logged(log, outcomes[..|outcomes| - 1]), outcomes[|outcomes| - 1])
  }

  lemma {:induction false} LoggedOne(log: Log, a: Entry)
    ensures Logged(log, [a]) == Then(log, a)
  {
    assert [a][..0] == [];
  }

  lemma {:induction false} LoggedTwo(log: Log, a: Entry, b: Entry)
    ensures Logged(log, [a] + [b]) == Then(Then(log, a), b)
  {
    assert ([a] + [b])[..1] == [a];
    LoggedOne(log, a);
  }

  lemma {:induction false} LoggedThree(log: Log, a: Entry, b: Entry, c: Entry)
    ensures Logged(log, [a, b, c]) == Then(Then(Then(log, a), b), c)
  {
    assert [a, b, c][..2] == [a] + [b];
    LoggedTwo(log, a, b);
  }

  lemma {:induction false} LoggedMore(log: Log, first: seq<Entry>, more: seq<Entry>)
    ensures |more| == 0 ==> Logged(log, first + more) == Logged(log, first)
    ensures |more| == 1 ==> Logged(log, first + more) == Then(Logged(log, first), more[0])
    ensures |more| == 2 ==> Logged(log, first + more) == Then(Then(Logged(log, first), more[0]), more[1])
  {
    if |more| == 0 {
      assert first + more == first;
    } else if |more| == 1 {
      assert (first + more)[..|first|] == first;
    } else if |more| == 2 {
      assert (first + more)[..|first| + 1] == first + [more[0]];
      assert (first + [more[0]])[..|first|] == first;
    }
  }

  lemma HidingLogs(s: State, c: Context)
    ensures Quarantine(s, c).log == Logged(s.log, Hiding(s, c.selected))
    ensures Quarantine(s, c).inFlight == s.inFlight && Quarantine(s, c).lookupsBegun == s.lookupsBegun
  {
    LoggedOne(s.log, Quarantined(c.selected));
  }

  lemma ChangeReports(s: State, u: State, revision: nat, c: Context)
    requires u.log == s.log && u.quarantined == s.quarantined && u.inFlight == s.inFlight
    requires u.lookupsBegun == s.lookupsBegun
    ensures RequestGroup(Quarantine(u, c), revision, None).log == Logged(s.log, Hiding(s, c.selected) + Asking(s))
  {
    HidingLogs(u, c);
    LoggedMore(s.log, Hiding(s, c.selected), Asking(s));
  }

  lemma MembershipReports(s: State, revision: nat, deleted: bool, c: Context)
    ensures MembershipChanged(s, revision, deleted, c).log == Logged(s.log, MembershipOutcomes(s, revision, deleted, c))
  {
    LoggedOne(s.log, Removed(revision));
    if revision > Max(s.revision, c.projectionRevision) && !deleted {
      var t := Advance(s, revision);
      var u := if t.removedRevision.Some? && revision > t.removedRevision.value then t.(removedRevision := None)
               else t;
      ChangeReports(s, u, revision, c);
    }
  }

  lemma ListedReports(s: State, revision: nat, current: bool)
    ensures ProjectItem(s, revision, current).0.log == Logged(s.log, ListedOutcomes(s, revision))
  {
    if AboveDeparture(s, revision) {
      HidingLogs(Raise(s, revision), HidingContext(s));
    } else {
      LoggedOne(s.log, Grant(s, revision, None));
    }
  }

  lemma DepartureReports(s: State, id: nat)
    requires Invariant(s) && IsDeparture(s, id)
    ensures DepartureSucceeds(s, id).log == Logged(s.log, DepartureOutcomes(s, s.departure.value))
  {
    var d := s.departure.value;
    LoggedOne(s.log, DepartureFinished(false));
    LoggedThree(s.log, DepartureReconciling(d.revision), DepartureFinished(false), LookupBegan(s.lookupsBegun));
    LoggedTwo(s.log, Removed(d.revision), DepartureFinished(false));
    assert [Removed(d.revision)] + [DepartureFinished(false)] == [Removed(d.revision), DepartureFinished(false)];
  }

  lemma DepartureErrorReports(s: State, id: nat)
    ensures DepartureFails(s, id).log == Logged(s.log, Outcomes(s, EvDepartureFails(id)))
  {
    if IsDeparture(s, id) {
      LoggedOne(s.log, DepartureFinished(true));
      var c := s.departure.value.context;
      HidingLogs(s, c);
      LoggedMore(s.log, Hiding(s, c.selected), [LookupBegan(s.lookupsBegun), DepartureFinished(true)]);
    }
  }

  /** The end of a lookup logs only the next one. */
  lemma CompleteLogs(t: State, id: nat, retry: bool)
    ensures Complete(t, id, retry).log ==
            if retry && !Settled(t) then Then(t.log, LookupBegan(t.lookupsBegun)) else t.log
  {
  }

  /** What a reply that does not count authorizes, and whether it is asked again. */
  lemma RejectLogs(s: State, id: nat, l: Lookup, g: Projection)
    requires Superseded(s, l) && !Outdated(s, l, g)
    ensures var (t, retry) := RejectReply(s, id, l, g);
            && t.log == (if Catches(s, l, g) then Then(s.log, Authorized(g.membershipRevision, false, None, Some(id)))
                         else s.log)
            && t.lookupsBegun == s.lookupsBegun
            && (retry && !Settled(t) <==> s.departure.None? && (ShowsNewer(s, l, g) || !Settled(s)))
  {
  }

  lemma RejectReports(s: State, id: nat, l: Lookup, g: Projection)
    requires Superseded(s, l) && !Outdated(s, l, g)
    ensures var (t, retry) := RejectReply(s, id, l, g);
            Complete(t, id, retry).log == Logged(s.log,
              (if Catches(s, l, g) then [Authorized(g.membershipRevision, false, None, Some(id))] else []) +
              (if s.departure.None? && (ShowsNewer(s, l, g) || !Settled(s)) then [LookupBegan(s.lookupsBegun)] else []))
  {
    var (t, retry) := RejectReply(s, id, l, g);
    var grant := Authorized(g.membershipRevision, false, None, Some(id));
    var first := if Catches(s, l, g) then [grant] else [];
    RejectLogs(s, id, l, g);
    CompleteLogs(t, id, retry);
    LoggedOne(s.log, grant);
    LoggedMore(s.log, first, if retry && !Settled(t) then [LookupBegan(s.lookupsBegun)] else []);
  }

  lemma UnusableReports(s: State, id: nat, l: Lookup, g: Projection)
    requires !Superseded(s, l)
    ensures var (t, retry) := RejectReply(s, id, l, g);
            Complete(t, id, retry).log == Logged(s.log, [Retryable("unavailable", s.quarantined)])
  {
    LoggedOne(s.log, Retryable("unavailable", s.quarantined));
  }

  lemma ReplyReports(s: State, id: nat, g: Projection)
    requires id in s.lookups
    ensures LookupReplies(s, id, g).log == Logged(s.log, ReplyOutcomes(s, id, s.lookups[id], g))
  {
    var l := s.lookups[id];
    var (t, retry) := HandleReply(s, id, l, g);
    CompleteLogs(t, id, retry);
    if g.sameGroup && AboveDeparture(s, g.membershipRevision) {
      HidingLogs(Raise(s, g.membershipRevision), HidingContext(s));
    } else if Outdated(s, l, g) {
      LoggedOne(s.log, LookupBegan(s.lookupsBegun));
    } else if Removing(s) && s.removedRevision.Some? {
      LoggedOne(s.log, DepartureFinished(false));
    } else if Removing(s) && !s.quarantined {
      LoggedOne(s.log, Removed(Max(l.targetRevision, s.revision)));
    } else if Answers(s, l, g) {
      LoggedOne(s.log, Grant(s, g.membershipRevision, Some(id)));
    } else {
      NoAnswer(s, id, l, g);
      if Superseded(s, l) { RejectReports(s, id, l, g); } else { UnusableReports(s, id, l, g); }
    }
  }

  lemma NoAnswer(s: State, id: nat, l: Lookup, g: Projection)
    requires !(g.sameGroup && AboveDeparture(s, g.membershipRevision)) && !Outdated(s, l, g)
    requires !(Removing(s) && s.removedRevision.Some?) && !(Removing(s) && !s.quarantined) && !Answers(s, l, g)
    ensures HandleReply(s, id, l, g) == RejectReply(s, id, l, g)
  {
  }

  /** The last outcome of an error that counts. */
  lemma {:induction false} ErrorLogs(t: State, l: Lookup, error: LookupError, log: Log, first: seq<Entry>)
    requires t.log == Logged(log, first)
    ensures Remove(t, Max(l.targetRevision, t.revision)).log ==
            Logged(log, first + [Removed(Max(l.targetRevision, t.revision))])
    ensures forall failed, reason ::
              Report(t, failed, reason).log == Logged(log, first + [Retryable(reason, t.quarantined)])
  {
    LoggedMore(log, first, [Removed(Max(l.targetRevision, t.revision))]);
    forall reason: string
      ensures Logged(log, first + [Retryable(reason, t.quarantined)]) ==
              Then(Logged(log, first), Retryable(reason, t.quarantined))
    {
      LoggedMore(log, first, [Retryable(reason, t.quarantined)]);
    }
  }

  /** A departure is given up before the error is reported. */
  lemma GivingUpLogs(s: State)
    requires s.departure.Some?
    ensures var t := AbandonDeparture(Quarantine(s, s.departure.value.context).(failed := true));
            && t.log == Logged(s.log, Hiding(s, s.departure.value.context.selected) + [DepartureFinished(true)])
            && t.quarantined && t.revision == s.revision && t.departure.None?
  {
    var c := s.departure.value.context;
    HidingLogs(s, c);
    LoggedMore(s.log, Hiding(s, c.selected), [DepartureFinished(true)]);
  }

  lemma HandledErrorLogs(s: State, l: Lookup, error: LookupError)
    requires !Superseded(s, l)
    ensures HandleError(s, l, error).0.log == Logged(s.log, ErrorOutcomes(s, l, error)) && !HandleError(s, l, error).1
  {
    if AboveDeparture(s, s.revision) && !Removing(s) {
      GivingUpLogs(s);
      ErrorLogs(AbandonDeparture(Quarantine(s, s.departure.value.context).(failed := true)), l, error, s.log,
                Hiding(s, s.departure.value.context.selected) + [DepartureFinished(true)]);
    } else {
      ErrorLogs(s, l, error, s.log, []);
    }
  }

  lemma ErrorReports(s: State, id: nat, error: LookupError)
    requires id in s.lookups
    ensures LookupFails(s, id, error).log == Logged(s.log, ErrorOutcomes(s, s.lookups[id], error))
  {
    var l := s.lookups[id];
    var (t, retry) := HandleError(s, l, error);
    CompleteLogs(t, id, retry);
    if Superseded(s, l) {
      LoggedOne(s.log, LookupBegan(s.lookupsBegun));
    } else {
      HandledErrorLogs(s, l, error);
    }
  }

  lemma DefinitiveReports(s: State, revision: nat)
    ensures DefinitiveRemoval(s, revision).log == Logged(s.log, Outcomes(s, EvDefinitiveRemoval(revision)))
  {
    LoggedOne(s.log, Removed(Max(revision, s.revision)));
  }

  lemma AbsenceReports(s: State, revision: nat)
    ensures ProjectAbsence(s, revision).log == Logged(s.log, Outcomes(s, EvProjectAbsence(revision)))
  {
    LoggedOne(s.log, Removed(Max(revision, s.revision)));
  }

  lemma RequestReports(s: State, revision: nat, c: Option<Context>)
    ensures RequestGroup(s, revision, c).log == Logged(s.log, Asking(s))
  {
    LoggedOne(s.log, LookupBegan(s.lookupsBegun));
  }

  lemma VerifyReports(s: State, c: Context)
    ensures VerifyQuarantined(s, c).log == Logged(s.log, Hiding(s, c.selected) + Asking(s))
  {
    HidingLogs(s, c);
    LoggedMore(s.log, Hiding(s, c.selected), Asking(s));
  }

  lemma DepartReports(s: State, revision: nat, c: Context)
    ensures Depart(s, revision, c).log == Logged(s.log, Outcomes(s, EvDepart(revision, c)))
  {
    LoggedOne(s.log, DeparturePending(Max(s.revision, revision)));
  }

  predicate IsLookupEvent(e: Event) {
    e.EvDepartureSucceeds? || e.EvDepartureFails? || e.EvLookupReplies? || e.EvLookupFails?
  }

  lemma AnswerReports(s: State, e: Event)
    requires Invariant(s) && IsLookupEvent(e)
    ensures Step(s, e).log == Logged(s.log, Outcomes(s, e))
  {
    match e
    case EvDepartureSucceeds(id) => if IsDeparture(s, id) { DepartureReports(s, id); }
    case EvDepartureFails(id) => DepartureErrorReports(s, id);
    case EvLookupReplies(id, g) => if id in s.lookups { ReplyReports(s, id, g); }
    case EvLookupFails(id, error) => if id in s.lookups { ErrorReports(s, id, error); }
  }

  /** Every event reports exactly its outcomes. */
  lemma Reports(s: State, e: Event)
    requires Invariant(s)
    ensures Step(s, e).log == Logged(s.log, Outcomes(s, e))
  {
    match e
    case EvMarkAuthorized(_) =>
    case EvAcceptProjection(_) =>
    case EvDefinitiveRemoval(revision) => DefinitiveReports(s, revision);
    case EvProjectItem(revision, current) => ListedReports(s, revision, current);
    case EvProjectAbsence(revision) => AbsenceReports(s, revision);
    case EvMembershipChanged(revision, deleted, c) => MembershipReports(s, revision, deleted, c);
    case EvConversationCreated(c) => RequestReports(s, s.revision, Some(c));
    case EvVerifyQuarantined(c) => VerifyReports(s, c);
    case EvQuarantineForVerification(c) => HidingLogs(s, c);
    case EvRetryQuarantined => RequestReports(s, s.revision, None);
    case EvDepart(revision, c) => DepartReports(s, revision, c);
    case _ => AnswerReports(s, e);
  }
}
