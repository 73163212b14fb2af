/**
 * What every event keeps of a group's state and its log: the fences restrict what may be authorized next,
 * and the state remembers as much of the log as they need.
 */
module GroupAccessFences {
  import opened Options
  import opened GroupAccess

  /** The log so far as an observer sums it up: highest removal, open departure, lookups begun since reconciling. */
  datatype Watch = Watch(removed: Option<nat>, departing: Option<nat>, begunSince: Option<set<nat>>)

  function Observe(w: Watch, e: Entry): Watch {
    match e
    case Removed(r) => w.(removed := Some(if w.removed.Some? then Max(w.removed.value, r) else r), begunSince := None)
    case Authorized(_, _, _, _) => w.(begunSince := None)
    case DeparturePending(r) => w.(departing := Some(r))
    case DepartureFinished(_) => w.(departing := None)
    case DepartureReconciling(_) => w.(begunSince := Some({}))
    case LookupBegan(id) => w.(begunSince := if w.begunSince.Some? then Some(w.begunSince.value + {id}) else None)
    case _ => w
  }

  /** The fences restrict authorizations; departures do not nest. */
  predicate Allowed(w: Watch, e: Entry) {
    && (e.Authorized? ==>
          && (w.removed.Some? ==> e.revision > w.removed.value)
          && (w.departing.Some? ==> e.revision <= w.departing.value)
          && (w.begunSince.Some? ==> e.lookup.Some? && e.lookup.value in w.begunSince.value))
    && (e.DeparturePending? ==> w.departing.None?)
  }

  function WatchOf(log: Log): Watch {
    match log
    case Start => Watch(None, None, None)
    case Then(before, e) => Observe(WatchOf(before), e)
  }

  predicate AllAllowed(log: Log) {
    match log
    case Start => true
    case Then(before, e) => AllAllowed(before) && Allowed(WatchOf(before), e)
  }

  // ----- The state invariant ------------------------------------------------------------------

  predicate RevisionsOrdered(s: State) {
    && (s.removedRevision.Some? ==> s.removedRevision.value <= s.revision)
    && (s.departure.Some? ==> s.departure.value.revision <= s.revision)
    && (s.departureReconciliationRequired ==>
         s.quarantined && s.departureFence.Some? && s.revision > s.departureFence.value.revision)
  }

  predicate LookupsKnown(s: State) {
    && (s.request.Some? ==> s.request.value in s.lookups)
    && (s.departureFence.Some? ==> s.departureFence.value.generation == s.departureGeneration)
    && (forall id <- s.lookups :: id < s.lookupsBegun && s.lookups[id].departureGeneration <= s.departureGeneration)
  }

  /** What the state must remember of the log for the fences to hold. */
  predicate LogRemembered(s: State, w: Watch) {
    && (w.removed.Some? ==>
         w.removed.value < s.revision || (s.removedRevision.Some? && w.removed.value <= s.removedRevision.value))
    && w.departing == (if s.departure.Some? then Some(s.departure.value.revision) else None)
    && (w.begunSince.Some? <==> s.departureReconciliationRequired)
    && (w.begunSince.Some? && s.departureFence.Some? ==>
          forall id <- s.lookups :: s.lookups[id].departureGeneration >= s.departureFence.value.generation ==>
              id in w.begunSince.value)
  }

  predicate Invariant(s: State) {
    && RevisionsOrdered(s)
    && LookupsKnown(s)
    && AllAllowed(s.log)
    && LogRemembered(s, WatchOf(s.log))
  }

  lemma NewStateInvariant()
    ensures Invariant(NEW_STATE)
  {
  }

  lemma QuarantineKeeps(s: State, c: Context)
    requires Invariant(s)
    ensures Invariant(Quarantine(s, c))
    ensures Quarantine(s, c).quarantined && Quarantine(s, c).revision == s.revision
  {
  }

  lemma RemoveKeeps(s: State, revision: nat)
    requires Invariant(s)
    ensures Invariant(Remove(s, revision))
  {
  }

  lemma CancelKeeps(s: State)
    requires Invariant(s)
    ensures Invariant(CancelRequest(s))
  {
  }

  lemma FetchKeeps(s: State)
    requires Invariant(s)
    ensures Invariant(FetchLatest(s))
  {
  }

  /** The request bookkeeping plays no part in the invariant. */
  lemma BookkeepingKeeps(s: State, context: Option<Context>, requestRevision: nat, requestedRevision: nat)
    requires Invariant(s)
    ensures Invariant(s.(context := context, requestRevision := requestRevision,
            requestedRevision := requestedRevision))
  {
  }

  lemma RequestKeeps(s: State, revision: nat, c: Option<Context>)
    requires Invariant(s)
    ensures Invariant(RequestGroup(s, revision, c))
  {
    var latest := Max(s.requestedRevision, revision);
    var context := if s.context.None? then c else s.context;
    var requestRevision := s.requestRevision + (if !s.inFlight || latest > s.requestedRevision then 1 else 0);
    BookkeepingKeeps(s, context, requestRevision, latest);
    FetchKeeps(s.(context := context, requestRevision := requestRevision, requestedRevision := latest));
  }

  lemma FinishKeeps(s: State)
    requires Invariant(s)
    ensures Invariant(FinishDeparture(s))
  {
  }

  lemma AbandonKeeps(s: State)
    requires Invariant(s)
    ensures Invariant(AbandonDeparture(s))
  {
  }

  lemma RaiseKeeps(s: State, revision: nat)
    requires Invariant(s)
    ensures Invariant(Raise(s, revision))
  {
  }

  lemma SupersedeKeeps(s: State, revision: nat)
    requires Invariant(s)
    ensures Invariant(Supersede(s, revision))
  {
  }

  lemma AdvanceKeeps(s: State, revision: nat)
    requires Invariant(s) && revision > s.revision
    ensures Invariant(Advance(s, revision))
  {
  }

  /** Dropping a fence is safe once the revision is above it. */
  lemma UnfenceKeeps(s: State)
    requires Invariant(s)
    requires s.removedRevision.Some? ==> s.removedRevision.value < s.revision
    ensures Invariant(Unfence(s)) && Invariant(s.(removedRevision := None))
  {
  }

  lemma AcceptProjectionKeeps(s: State, revision: nat)
    requires Invariant(s)
    ensures Invariant(AcceptProjection(s, revision).0)
  {
    if revision < s.revision || (s.removedRevision.Some? && revision <= s.removedRevision.value) {
    } else if revision > s.revision {
      AdvanceKeeps(s, revision);
      UnfenceKeeps(Advance(s, revision));
    } else {
      UnfenceKeeps(s);
    }
  }

  /** A list may lift a quarantine at or above the known revision unless a departure fences it. */
  lemma ListAuthorizationKeeps(s: State, revision: nat)
    requires Invariant(s) && !ProjectionIsFenced(s)
    requires revision >= s.revision && (s.removedRevision.None? || revision > s.removedRevision.value)
    ensures Invariant(AuthorizeListed(s, revision))
  {
  }

  lemma ProjectItemKeeps(s: State, revision: nat, current: bool)
    requires Invariant(s)
    ensures Invariant(ProjectItem(s, revision, current).0)
  {
    if s.departure.Some? && revision > s.departure.value.revision {
      RaiseKeeps(s, revision);
      QuarantineKeeps(Raise(s, revision), HidingContext(s));
    } else if s.quarantined && !ProjectionIsFenced(s) && revision >= s.revision &&
              (s.removedRevision.None? || revision > s.removedRevision.value) {
      SupersedeKeeps(s, revision);
      CancelKeeps(Supersede(s, revision));
      ListAuthorizationKeeps(CancelRequest(Supersede(s, revision)), revision);
    } else if !s.quarantined {
      AcceptProjectionKeeps(s, revision);
    }
  }

  lemma ObserveRemovalKeeps(s: State)
    requires Invariant(s) && s.departure.Some?
    ensures Invariant(s.(departure := Some(s.departure.value.(removalObserved := true))))
  {
  }

  lemma MembershipChangedKeeps(s: State, revision: nat, deleted: bool, c: Context)
    requires Invariant(s)
    ensures Invariant(MembershipChanged(s, revision, deleted, c))
  {
    var previous := Max(s.revision, c.projectionRevision);
    if revision > previous {
      AdvanceKeeps(s, revision);
      var t := Advance(s, revision);
      if deleted {
        if t.departure.Some? { ObserveRemovalKeeps(t); }
        var u := if t.departure.Some? && previous == t.departure.value.revision
                 then t.(departure := Some(t.departure.value.(removalObserved := true))) else t;
        CancelKeeps(u);
        RemoveKeeps(CancelRequest(u), revision);
      } else {
        UnfenceKeeps(t);
        var u := if t.removedRevision.Some? && revision > t.removedRevision.value then t.(removedRevision := None)
            else t;
        QuarantineKeeps(u, c);
        RequestKeeps(Quarantine(u, c), revision, None);
      }
    }
  }

  lemma PendingKeeps(s: State, context: Context)
    requires Invariant(s) && s.departure.None?
    ensures Invariant(OpenDeparture(s, context))
  {
  }

  lemma DepartKeeps(s: State, revision: nat, c: Context)
    requires Invariant(s)
    ensures Invariant(Depart(s, revision, c))
  {
    if s.departure.None? {
      RaiseKeeps(s, revision);
      PendingKeeps(Raise(s, revision), c);
      CancelKeeps(OpenDeparture(Raise(s, revision), c));
    }
  }

  lemma MarkAuthorizedKeeps(s: State, revision: nat)
    requires Invariant(s)
    ensures Invariant(MarkAuthorized(s, revision))
  {
  }

  lemma DefinitiveRemovalKeeps(s: State, revision: nat)
    requires Invariant(s)
    ensures Invariant(DefinitiveRemoval(s, revision))
  {
    CancelKeeps(s);
    RemoveKeeps(CancelRequest(s), revision);
  }

  lemma VerifyKeeps(s: State, c: Context)
    requires Invariant(s)
    ensures Invariant(VerifyQuarantined(s, c))
  {
    QuarantineKeeps(s, c);
    RequestKeeps(Quarantine(s, c), s.revision, Some(c));
  }

  lemma ReconciliationKeeps(s: State, d: Departure)
    requires Invariant(s) && s.departure == Some(d) && s.revision > d.revision
    ensures Invariant(StartReconciliation(s, d))
  {
  }

  lemma DepartureSucceedsKeeps(s: State, id: nat)
    requires Invariant(s)
    ensures Invariant(DepartureSucceeds(s, id))
  {
    if s.departure.Some? && s.departure.value.id == id {
      var d := s.departure.value;
      if d.removalObserved && s.removedRevision.Some? {
        FinishKeeps(s);
      } else if s.revision > d.revision {
        ReconciliationKeeps(s, d);
        FinishKeeps(StartReconciliation(s, d));
        FetchKeeps(FinishDeparture(StartReconciliation(s, d)));
      } else {
        RemoveKeeps(s, d.revision);
        FinishKeeps(Remove(s, d.revision));
      }
    }
  }

  lemma DepartureFailsKeeps(s: State, id: nat)
    requires Invariant(s)
    ensures Invariant(DepartureFails(s, id))
  {
    if s.departure.Some? && s.departure.value.id == id {
      var d := s.departure.value;
      if d.removalObserved {
        AbandonKeeps(s);
      } else {
        QuarantineKeeps(s, d.context);
        CancelKeeps(Quarantine(s, d.context));
        var q := CancelRequest(Quarantine(s, d.context));
        FetchKeeps(q.(requestRevision := q.requestRevision + 1));
        AbandonKeeps(FetchLatest(q.(requestRevision := q.requestRevision + 1)));
      }
    }
  }

  lemma ReportKeeps(s: State, failed: bool, reason: string)
    requires Invariant(s)
    ensures Invariant(Report(s, failed, reason))
  {
  }

  lemma HideNewerKeeps(s: State, revision: nat)
    requires Invariant(s)
    ensures Invariant(HideNewer(s, revision))
  {
  }

  lemma AuthorizeSupersededKeeps(s: State, id: nat, revision: nat)
    requires Invariant(s) && revision > s.revision && !ProjectionIsFenced(s)
    ensures Invariant(AuthorizeSuperseded(s, id, revision))
  {
  }

  lemma RejectReplyKeeps(s: State, id: nat, g: Projection)
    requires Invariant(s) && id in s.lookups
    ensures Invariant(RejectReply(s, id, s.lookups[id], g).0)
  {
    var l := s.lookups[id];
    if l.fetchRevision == s.requestRevision {
      ReportKeeps(s, s.quarantined, "unavailable");
    } else if g.sameGroup && g.membershipRevision > s.revision {
      HideNewerKeeps(s, g.membershipRevision);
      if !ProjectionIsFenced(s) { AuthorizeSupersededKeeps(s, id, g.membershipRevision); }
    }
  }

  /** An accepted reply obeys all three fences; a reconciling group needs a lookup begun since. */
  lemma AcceptReplyKeeps(s: State, id: nat, g: Projection)
    requires Invariant(s) && id in s.lookups
    requires !Unusable(s, s.lookups[id], g) && !BegunBeforeFence(s, s.lookups[id], g)
    requires s.departure.Some? ==> g.membershipRevision <= s.departure.value.revision
    ensures Invariant(AcceptReply(s, id, s.lookups[id], g))
  {
    var l := s.lookups[id];
    if s.departureReconciliationRequired {
      assert l.departureGeneration >= s.departureFence.value.generation;
    }
  }

  lemma HandleReplyKeeps(s: State, id: nat, g: Projection)
    requires Invariant(s) && id in s.lookups
    ensures Invariant(HandleReply(s, id, s.lookups[id], g).0)
  {
    var l := s.lookups[id];
    if s.departure.Some? && g.sameGroup && g.membershipRevision > s.departure.value.revision {
      RaiseKeeps(s, g.membershipRevision);
      QuarantineKeeps(Raise(s, g.membershipRevision), HidingContext(s));
    } else if g.sameGroup && BegunBeforeFence(s, l, g) {
      HideNewerKeeps(s, g.membershipRevision);
    } else if s.departure.Some? && s.departure.value.removalObserved && s.removedRevision.Some? {
      FinishKeeps(s);
    } else if s.departure.Some? && s.departure.value.removalObserved && !s.quarantined {
      RemoveKeeps(s, Max(l.targetRevision, s.revision));
    } else if Unusable(s, l, g) {
      RejectReplyKeeps(s, id, g);
    } else if s.departure.Some? && s.revision > s.departure.value.revision {
    } else {
      AcceptReplyKeeps(s, id, g);
    }
  }

  lemma HandleErrorKeeps(s: State, l: Lookup, error: LookupError)
    requires Invariant(s)
    ensures Invariant(HandleError(s, l, error).0)
  {
    if l.fetchRevision == s.requestRevision {
      var t := s;
      if s.departure.Some? && s.revision > s.departure.value.revision && !s.departure.value.removalObserved {
        QuarantineKeeps(s, s.departure.value.context);
        var q := Quarantine(s, s.departure.value.context).(failed := true);
        t := AbandonDeparture(q);
        AbandonKeeps(q);
      }
      match error {
        case NotFound => RemoveKeeps(t, Max(l.targetRevision, t.revision));
        case Failure(reason) =>
          ReportKeeps(t, t.quarantined || (t.departure.Some? && t.departure.value.removalObserved), reason);
      }
    }
  }

  lemma CompleteKeeps(s: State, id: nat, retry: bool)
    requires Invariant(s)
    ensures Invariant(Complete(s, id, retry))
  {
    var t := s.(lookups := s.lookups - {id}, request := if s.request == Some(id) then None else s.request,
        inFlight := false);
    assert Invariant(t);
    FetchKeeps(t);
  }

  lemma LookupRepliesKeeps(s: State, id: nat, g: Projection)
    requires Invariant(s)
    ensures Invariant(LookupReplies(s, id, g))
  {
    if id in s.lookups {
      HandleReplyKeeps(s, id, g);
      var (t, retry) := HandleReply(s, id, s.lookups[id], g);
      CompleteKeeps(t, id, retry);
    }
  }

  lemma LookupFailsKeeps(s: State, id: nat, error: LookupError)
    requires Invariant(s)
    ensures Invariant(LookupFails(s, id, error))
  {
    if id in s.lookups {
      HandleErrorKeeps(s, s.lookups[id], error);
      var (t, retry) := HandleError(s, s.lookups[id], error);
      CompleteKeeps(t, id, retry);
    }
  }

  /** Every event keeps the invariant, and with it the three fences. */
  lemma StepKeepsInvariant(s: State, e: Event)
    requires Invariant(s)
    ensures Invariant(Step(s, e))
  {
    match e {
      case EvMarkAuthorized(r) => MarkAuthorizedKeeps(s, r);
      case EvDefinitiveRemoval(r) => DefinitiveRemovalKeeps(s, r);
      case EvAcceptProjection(r) => AcceptProjectionKeeps(s, r);
      case EvProjectItem(r, current) => ProjectItemKeeps(s, r, current);
      case EvProjectAbsence(r) => RemoveKeeps(s, r);
      case EvMembershipChanged(r, deleted, c) => MembershipChangedKeeps(s, r, deleted, c);
      case EvConversationCreated(c) => RequestKeeps(s, s.revision, Some(c));
      case EvVerifyQuarantined(c) => VerifyKeeps(s, c);
      case EvQuarantineForVerification(c) => QuarantineKeeps(s, c);
      case EvRetryQuarantined => RequestKeeps(s, s.revision, None);
      case EvDepart(r, c) => DepartKeeps(s, r, c);
      case EvDepartureSucceeds(id) => DepartureSucceedsKeeps(s, id);
      case EvDepartureFails(id) => DepartureFailsKeeps(s, id);
      case EvLookupReplies(id, g) => LookupRepliesKeeps(s, id, g);
      case EvLookupFails(id, error) => LookupFailsKeeps(s, id, error);
    }
  }

  lemma {:induction false} RunKeepsInvariant(s: State, events: seq<Event>)
    requires Invariant(s)
    ensures Invariant(Run(s, events))
    decreases |events|
  {
    if events != [] {
      StepKeepsInvariant(s, events[0]);
      RunKeepsInvariant(Step(s, events[0]), events[1..]);
    }
  }
}
