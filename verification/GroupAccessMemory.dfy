/** What the facade remembers of a hidden group, and that it does not forget one. */
module GroupAccessMemory {
  import opened Options
  import opened GroupAccess
  import opened GroupAccessFences
  import opened GroupAccessOutcomes
  import opened GroupAccessMeaning
  import opened GroupAccessLookups

  // ----- The remembered context -----------------------------------------------------------------

  /** A group that is hidden remembers the context; one that was hidden without any takes a selected one. */
  function Kept(s: State, c: Context): Option<Context> {
    if !s.quarantined || (s.context.None? && c.selected) then Some(c) else s.context
  }

  /** The context a group is hidden with while a departure is pending. */
  function PendingContext(s: State): Context
    requires s.departure.Some?
  {
    if s.context.Some? then s.context.value else s.departure.value.context
  }

  /** An error gives the departure up and hides the group. */
  predicate GivesUp(s: State, e: Event) { e.EvLookupFails? && Finishes(s, e) }

  /** The context remembered after an event. */
  function ContextAfter(s: State, e: Event): Option<Context> {
    if Removes(s, e) then None
    else
      match e
      case EvProjectItem(revision, _) =>
        if AboveDeparture(s, revision) then Kept(s, PendingContext(s))
        else if ListRestores(s, revision) then None else s.context
      case EvMembershipChanged(revision, _, c) => if IsNews(s, revision, c) then Kept(s, c) else s.context
      case EvConversationCreated(c) => if s.context.None? then Some(c) else s.context
      case EvVerifyQuarantined(c) => if Kept(s, c).None? && !s.inFlight then Some(c) else Kept(s, c)
      case EvQuarantineForVerification(c) => Kept(s, c)
      case EvDepart(_, _) => if s.departure.None? then None else s.context
      case EvDepartureSucceeds(id) => if MustReconcile(s, id) then Some(s.departure.value.context) else s.context
      case EvDepartureFails(id) =>
        if IsDeparture(s, id) && !Removing(s) then Kept(s, s.departure.value.context) else s.context
      case EvLookupReplies(id, g) =>
        if id !in s.lookups then s.context
        else if g.sameGroup && AboveDeparture(s, g.membershipRevision) then Kept(s, PendingContext(s))
        else if Answers(s, s.lookups[id], g) then None
        else s.context
      case EvLookupFails(_, _) => if GivesUp(s, e) then Kept(s, s.departure.value.context) else s.context
      case _ => s.context
  }

  // ----- Failures -------------------------------------------------------------------------------

  /** A reply that counts but cannot be used: it is reported, and leaves a hidden group failed. */
  predicate Unavailable(s: State, l: Lookup, g: Projection) {
    !Superseded(s, l) && !Overtaken(s, l, g) && !Answers(s, l, g)
  }

  /** Whether a hidden group's last lookup failed. */
  predicate FailedAfter(s: State, e: Event) {
    !Removes(s, e) && !Authorizes(s, e) &&
    match e
    case EvProjectItem(revision, _) => s.failed && (AboveDeparture(s, revision) ==> s.quarantined)
    case EvMembershipChanged(_, _, _) => s.failed && (Hides(s, e) ==> s.quarantined)
    case EvVerifyQuarantined(_) => s.failed && s.quarantined
    case EvQuarantineForVerification(_) => s.failed && s.quarantined
    case EvDepartureSucceeds(id) => s.failed && !MustReconcile(s, id)
    case EvDepartureFails(_) => s.failed && (Hides(s, e) ==> s.quarantined)
    case EvLookupReplies(id, g) =>
      if id !in s.lookups then s.failed
      else if Unavailable(s, s.lookups[id], g) then s.quarantined
      else if g.sameGroup && AboveDeparture(s, g.membershipRevision) then s.failed && s.quarantined
      else s.failed && !Hides(s, e)
    case EvLookupFails(id, _) => if Counts(s, id) then s.quarantined || GivesUp(s, e) || Removing(s) else s.failed
    case _ => s.failed
  }

  predicate Remembers(s: State, e: Event, t: State) {
    t.context == ContextAfter(s, e) && (t.failed <==> FailedAfter(s, e))
  }

  // ----- Event by event -------------------------------------------------------------------------

  lemma HidingRemembers(s: State, c: Context)
    ensures var t := Quarantine(s, c);
            t.context == Kept(s, c) && (t.failed <==> s.failed && s.quarantined) && t.inFlight == s.inFlight
  {
  }

  lemma OtherPartsRemember(s: State, revision: nat, c: Option<Context>)
    ensures CancelRequest(s).context == s.context && CancelRequest(s).failed == s.failed
    ensures CancelRequest(s).quarantined == s.quarantined
    ensures FetchLatest(s).context == s.context && FetchLatest(s).failed == s.failed
    ensures RequestGroup(s, revision, c).failed == s.failed
    ensures RequestGroup(s, revision, c).context == if s.context.None? then c else s.context
    ensures Remove(s, revision).context.None? && !Remove(s, revision).failed
    ensures Advance(s, revision).context == s.context && Advance(s, revision).failed == s.failed
    ensures Advance(s, revision).quarantined == s.quarantined
  {
  }

  lemma CompleteRemembers(s: State, id: nat, retry: bool)
    ensures Complete(s, id, retry).context == s.context && Complete(s, id, retry).failed == s.failed
  {
  }

  lemma RemovalRemembers(s: State, revision: nat, c: Context)
    requires RevisionsOrdered(s)
    ensures Remembers(s, EvMarkAuthorized(revision), MarkAuthorized(s, revision))
    ensures Remembers(s, EvDefinitiveRemoval(revision), DefinitiveRemoval(s, revision))
    ensures Remembers(s, EvProjectAbsence(revision), ProjectAbsence(s, revision))
  {
    OtherPartsRemember(CancelRequest(s), revision, None);
    OtherPartsRemember(s, revision, None);
  }

  lemma AcceptRemembers(s: State, revision: nat)
    ensures var t := AcceptProjection(s, revision).0; t.context == s.context && t.failed == s.failed
  {
  }

  lemma ListRemembers(s: State, revision: nat, current: bool)
    ensures Remembers(s, EvProjectItem(revision, current), ProjectItem(s, revision, current).0)
  {
    if AboveDeparture(s, revision) { HidingRemembers(Raise(s, revision), HidingContext(s)); }
    AcceptRemembers(s, revision);
  }

  lemma MembershipRemembers(s: State, revision: nat, deleted: bool, c: Context)
    ensures Remembers(s, EvMembershipChanged(revision, deleted, c), MembershipChanged(s, revision, deleted, c))
  {
    if IsNews(s, revision, c) {
      var t := Advance(s, revision);
      OtherPartsRemember(s, revision, None);
      if deleted {
        var u := if t.departure.Some? && Max(s.revision, c.projectionRevision) == t.departure.value.revision
                 then t.(departure := Some(t.departure.value.(removalObserved := true))) else t;
        OtherPartsRemember(CancelRequest(u), revision, None);
      } else {
        var u := if t.removedRevision.Some? && revision > t.removedRevision.value then t.(removedRevision := None)
                 else t;
        HidingRemembers(u, c);
        OtherPartsRemember(Quarantine(u, c), revision, None);
      }
    }
  }

  lemma RequestRemembers(s: State, revision: nat, c: Context)
    ensures Remembers(s, EvConversationCreated(c), ConversationCreated(s, c))
    ensures Remembers(s, EvVerifyQuarantined(c), VerifyQuarantined(s, c))
    ensures Remembers(s, EvQuarantineForVerification(c), QuarantineForVerification(s, c))
    ensures Remembers(s, EvRetryQuarantined, RetryQuarantined(s))
  {
    HidingRemembers(s, c);
    OtherPartsRemember(s, s.revision, Some(c));
    OtherPartsRemember(s, s.revision, None);
    OtherPartsRemember(Quarantine(s, c), s.revision, Some(c));
  }

  lemma DepartRemembers(s: State, revision: nat, c: Context)
    ensures Remembers(s, EvDepart(revision, c), Depart(s, revision, c))
  {
    OtherPartsRemember(OpenDeparture(Raise(s, revision), c), 0, None);
  }

  lemma ReconcilingRemembers(s: State, d: Departure)
    ensures StartReconciliation(s, d).context == Some(d.context) && !StartReconciliation(s, d).failed
  {
  }

  lemma SuccessRemembers(s: State, id: nat)
    requires RevisionsOrdered(s)
    ensures Remembers(s, EvDepartureSucceeds(id), DepartureSucceeds(s, id))
  {
    if IsDeparture(s, id) {
      ReconcilingRemembers(s, s.departure.value);
      OtherPartsRemember(s, s.departure.value.revision, None);
    }
  }

  lemma FailureRemembers(s: State, id: nat)
    ensures Remembers(s, EvDepartureFails(id), DepartureFails(s, id))
  {
    if IsDeparture(s, id) && !Removing(s) {
      HidingRemembers(s, s.departure.value.context);
      OtherPartsRemember(Quarantine(s, s.departure.value.context), 0, None);
    }
  }

  lemma RejectRemembers(s: State, id: nat, l: Lookup, g: Projection)
    requires id in s.lookups && l == s.lookups[id] && !Overtaken(s, l, g) && !Answers(s, l, g)
    ensures Remembers(s, EvLookupReplies(id, g), RejectReply(s, id, l, g).0)
  {
  }

  lemma OvertakenRemembers(s: State, id: nat, g: Projection)
    requires id in s.lookups && Overtaken(s, s.lookups[id], g)
    ensures Remembers(s, EvLookupReplies(id, g), HandleReply(s, id, s.lookups[id], g).0)
  {
    var l := s.lookups[id];
    if g.sameGroup && AboveDeparture(s, g.membershipRevision) {
      HidingRemembers(Raise(s, g.membershipRevision), HidingContext(s));
    } else if !Outdated(s, l, g) && s.removedRevision.None? {
      OtherPartsRemember(s, Max(l.targetRevision, s.revision), None);
    }
  }

  lemma AnswerRemembers(s: State, id: nat, g: Projection)
    requires id in s.lookups && Answers(s, s.lookups[id], g)
    ensures Remembers(s, EvLookupReplies(id, g), HandleReply(s, id, s.lookups[id], g).0)
  {
  }

  lemma ReplyRemembers(s: State, id: nat, g: Projection)
    ensures Remembers(s, EvLookupReplies(id, g), LookupReplies(s, id, g))
  {
    if id in s.lookups {
      var l := s.lookups[id];
      var (t, retry) := HandleReply(s, id, l, g);
      if Overtaken(s, l, g) { OvertakenRemembers(s, id, g); }
      else if Answers(s, l, g) { AnswerRemembers(s, id, g); }
      else {
        NoAnswer(s, id, l, g);
        RejectRemembers(s, id, l, g);
      }
      CompleteRemembers(t, id, retry);
    }
  }

  lemma HandlingErrorRemembers(s: State, id: nat, error: LookupError)
    requires id in s.lookups
    ensures Remembers(s, EvLookupFails(id, error), HandleError(s, s.lookups[id], error).0)
  {
    if AboveDeparture(s, s.revision) { HidingRemembers(s, s.departure.value.context); }
  }

  lemma ErrorRemembers(s: State, id: nat, error: LookupError)
    ensures Remembers(s, EvLookupFails(id, error), LookupFails(s, id, error))
  {
    if id in s.lookups {
      var (t, retry) := HandleError(s, s.lookups[id], error);
      HandlingErrorRemembers(s, id, error);
      CompleteRemembers(t, id, retry);
    }
  }

  /** After every event of every run: the context remembered, and whether the last lookup of a hidden group failed. */
  lemma {:induction false} RemembersExactly(s: State, e: Event)
    requires Invariant(s)
    ensures Remembers(s, e, Step(s, e))
  {
    match e
    case EvMarkAuthorized(revision) => RemovalRemembers(s, revision, Context(false, 0, 0));
    case EvDefinitiveRemoval(revision) => RemovalRemembers(s, revision, Context(false, 0, 0));
    case EvProjectAbsence(revision) => RemovalRemembers(s, revision, Context(false, 0, 0));
    case EvAcceptProjection(revision) => AcceptRemembers(s, revision);
    case EvProjectItem(revision, current) => ListRemembers(s, revision, current);
    case EvMembershipChanged(revision, deleted, c) => MembershipRemembers(s, revision, deleted, c);
    case EvConversationCreated(c) => RequestRemembers(s, 0, c);
    case EvVerifyQuarantined(c) => RequestRemembers(s, 0, c);
    case EvQuarantineForVerification(c) => RequestRemembers(s, 0, c);
    case EvRetryQuarantined => RequestRemembers(s, 0, Context(false, 0, 0));
    case EvDepart(revision, c) => DepartRemembers(s, revision, c);
    case EvDepartureSucceeds(id) => SuccessRemembers(s, id);
    case EvDepartureFails(id) => FailureRemembers(s, id);
    case EvLookupReplies(id, g) => ReplyRemembers(s, id, g);
    case EvLookupFails(id, error) => ErrorRemembers(s, id, error);
  }

  // ----- Projections that are out of date -------------------------------------------------------

  /** A projection made before the event is out of date: what it may show has changed. */
  predicate Outdates(s: State, e: Event) {
    || Removes(s, e) || Authorizes(s, e)
    || match e
       case EvMarkAuthorized(revision) => revision > s.revision
       case EvAcceptProjection(revision) => Lifts(s, e) && (revision > s.revision || s.removedRevision.Some?)
       case EvProjectItem(revision, _) =>
         if Lifts(s, e) then revision > s.revision || s.removedRevision.Some? else Hides(s, e) && !s.quarantined
       case EvMembershipChanged(revision, _, c) => IsNews(s, revision, c)
       case EvVerifyQuarantined(_) => !s.quarantined
       case EvQuarantineForVerification(_) => !s.quarantined
       case EvDepartureFails(_) => Hides(s, e) && !s.quarantined
       case EvLookupReplies(id, g) =>
         id in s.lookups && g.sameGroup && AboveDeparture(s, g.membershipRevision) && !s.quarantined
       case EvLookupFails(_, _) => GivesUp(s, e) && !s.quarantined
       case _ => false
  }

  predicate Counted(s: State, e: Event, t: State) {
    t.projectionGeneration >= s.projectionGeneration &&
    (t.projectionGeneration > s.projectionGeneration <==> Outdates(s, e))
  }

  lemma ReplyCounted(s: State, id: nat, g: Projection)
    requires RevisionsOrdered(s)
    ensures Counted(s, EvLookupReplies(id, g), LookupReplies(s, id, g))
  {
    if id in s.lookups {
      var l := s.lookups[id];
      if !Overtaken(s, l, g) && !Answers(s, l, g) {
        NoAnswer(s, id, l, g);
        RejectCounted(s, id, l, g);
      }
    }
  }

  lemma RejectCounted(s: State, id: nat, l: Lookup, g: Projection)
    requires !Overtaken(s, l, g) && !Answers(s, l, g)
    ensures RejectReply(s, id, l, g).0.projectionGeneration ==
            s.projectionGeneration + (if Catches(s, l, g) then 1 else 0)
  {
  }

  lemma ErrorCounted(s: State, id: nat, error: LookupError)
    ensures Counted(s, EvLookupFails(id, error), LookupFails(s, id, error))
  {
  }

  lemma MembershipCounted(s: State, revision: nat, deleted: bool, c: Context)
    ensures Counted(s, EvMembershipChanged(revision, deleted, c), MembershipChanged(s, revision, deleted, c))
  {
  }

  lemma ListCounted(s: State, revision: nat, current: bool)
    requires RevisionsOrdered(s)
    ensures Counted(s, EvAcceptProjection(revision), AcceptProjection(s, revision).0)
    ensures Counted(s, EvProjectItem(revision, current), ProjectItem(s, revision, current).0)
  {
  }

  lemma SuccessCounted(s: State, id: nat)
    requires RevisionsOrdered(s)
    ensures Counted(s, EvDepartureSucceeds(id), DepartureSucceeds(s, id))
  {
  }

  lemma FailureCounted(s: State, id: nat)
    ensures Counted(s, EvDepartureFails(id), DepartureFails(s, id))
  {
  }

  lemma SimpleCounted(s: State, e: Event)
    requires RevisionsOrdered(s)
    requires e.EvMarkAuthorized? || e.EvDefinitiveRemoval? || e.EvProjectAbsence? || e.EvDepart?
    ensures Counted(s, e, Step(s, e))
  {
  }

  lemma AskingCounted(s: State, e: Event)
    requires e.EvConversationCreated? || e.EvVerifyQuarantined? || e.EvQuarantineForVerification? ||
             e.EvRetryQuarantined?
    ensures Counted(s, e, Step(s, e))
  {
  }

  /** The projection generation grows with exactly the events that outdate a projection, and never goes back. */
  lemma OutdatesExactly(s: State, e: Event)
    requires Invariant(s)
    ensures Counted(s, e, Step(s, e))
  {
    match e
    case EvAcceptProjection(revision) => ListCounted(s, revision, false);
    case EvProjectItem(revision, current) => ListCounted(s, revision, current);
    case EvMembershipChanged(revision, deleted, c) => MembershipCounted(s, revision, deleted, c);
    case EvDepartureSucceeds(id) => SuccessCounted(s, id);
    case EvDepartureFails(id) => FailureCounted(s, id);
    case EvLookupReplies(id, g) => ReplyCounted(s, id, g);
    case EvLookupFails(id, error) => ErrorCounted(s, id, error);
    case EvMarkAuthorized(_) => SimpleCounted(s, e);
    case EvDefinitiveRemoval(_) => SimpleCounted(s, e);
    case EvProjectAbsence(_) => SimpleCounted(s, e);
    case EvDepart(_, _) => SimpleCounted(s, e);
    case _ => AskingCounted(s, e);
  }

  // ----- No group is forgotten ------------------------------------------------------------------

  /** A hidden group waits for a lookup or the end of a departure, or its last lookup was reported as failed. */
  predicate LookedAfter(s: State) { s.quarantined ==> s.failed || s.lookups != map[] || s.departure.Some? }

  /** A lookup in flight is live; none was asked for later than now, nor before the fence without being superseded. */
  predicate InOrder(s: State) {
    && (s.inFlight ==> s.lookups != map[])
    && (forall id <- s.lookups :: InTime(s, s.lookups[id]))
  }

  predicate InTime(s: State, l: Lookup) {
    && l.fetchRevision <= s.requestRevision
    && (s.departureFence.Some? && l.departureGeneration < s.departureFence.value.generation ==> Superseded(s, l))
  }

  lemma StepKeepsOrder(s: State, e: Event)
    requires Invariant(s) && InOrder(s)
    ensures InOrder(Step(s, e))
  {
    var t := Step(s, e);
    TracksExactly(s, e);
    forall id | id in t.lookups ensures InTime(t, t.lookups[id]) {
      if id in s.lookups && t.lookups[id] == s.lookups[id] {
        StillInTime(s, e, t, s.lookups[id]);
      }
    }
    if t.inFlight { FlightIsLive(s, e, t); }
  }

  lemma StillInTime(s: State, e: Event, t: State, l: Lookup)
    requires InTime(s, l) && Tracks(s, e, t)
    ensures InTime(t, l)
  {
  }

  lemma FlightIsLive(s: State, e: Event, t: State)
    requires InOrder(s) && Tracks(s, e, t) && t.inFlight
    ensures t.lookups != map[]
  {
    if Begins(s, e) {
      assert s.lookupsBegun in t.lookups;
    } else {
      NotEnded(s, e);
      assert t.lookups == s.lookups;
    }
  }

  lemma NotEnded(s: State, e: Event)
    requires !Stops(s, e)
    ensures s.lookups - Ended(s, e) == s.lookups
  {
  }

  lemma {:induction false} RunKeepsOrder(s: State, events: seq<Event>)
    requires Invariant(s) && InOrder(s)
    ensures Invariant(Run(s, events)) && InOrder(Run(s, events))
    decreases |events|
  {
    if events != [] {
      StepKeepsInvariant(s, events[0]);
      StepKeepsOrder(s, events[0]);
      RunKeepsOrder(Step(s, events[0]), events[1..]);
    }
  }

  /** The end of a departure whose removal was seen, although the group was hidden again since and nobody asks. */
  predicate LeavesHidden(s: State, rest: set<nat>) { s.quarantined && !s.failed && s.lookups.Keys <= rest }

  /**
   * The event leaves a hidden group that nobody looks after: it was hidden for a verification that was not asked for,
   * or a departure ends whose removal was seen while the group is hidden again.
   */
  predicate Forgets(s: State, e: Event) {
    match e
    case EvQuarantineForVerification(_) => !s.quarantined && s.lookups == map[] && s.departure.None?
    case EvDepartureSucceeds(id) =>
      IsDeparture(s, id) && Removing(s) && s.removedRevision.Some? && LeavesHidden(s, {})
    case EvDepartureFails(id) => IsDeparture(s, id) && Removing(s) && LeavesHidden(s, {})
    case EvLookupReplies(id, _) => Finishes(s, e) && LeavesHidden(s, {id})
    case _ => false
  }

  /** What is known of the state after an event. */
  predicate Follows(s: State, e: Event, t: State) { Shows(s, e, t) && Tracks(s, e, t) && Remembers(s, e, t) }

  lemma BegunIsLive(s: State, e: Event, t: State)
    requires Tracks(s, e, t) && Begins(s, e)
    ensures t.lookups != map[]
  {
    assert s.lookupsBegun in t.lookups;
  }

  lemma StillLive(s: State, e: Event, t: State)
    requires Tracks(s, e, t) && !Begins(s, e) && !Cancels(s, e) && !e.EvLookupReplies? && !e.EvLookupFails?
    ensures t.lookups == s.lookups
  {
    assert s.lookups - {} == s.lookups;
  }

  lemma RestLive(s: State, id: nat, t: State)
    requires t.lookups == s.lookups - {id}
    ensures t.lookups == map[] <==> s.lookups.Keys <= {id}
  {
    if s.lookups.Keys <= {id} {
      assert forall i :: i !in t.lookups;
    } else {
      var i :| i in s.lookups && i != id;
      assert i in t.lookups;
    }
  }

  lemma ReplyLooksAfter(s: State, id: nat, g: Projection, t: State)
    requires InOrder(s) && LookedAfter(s) && Follows(s, EvLookupReplies(id, g), t)
    ensures LookedAfter(t) <==> !Forgets(s, EvLookupReplies(id, g))
  {
    var e := EvLookupReplies(id, g);
    if id !in s.lookups {
      assert s.lookups - {id} == s.lookups;
    } else {
      assert InTime(s, s.lookups[id]);
      if Begins(s, e) { BegunIsLive(s, e, t); } else { RestLive(s, id, t); }
    }
  }

  lemma ErrorLooksAfter(s: State, id: nat, error: LookupError, t: State)
    requires InOrder(s) && LookedAfter(s) && Follows(s, EvLookupFails(id, error), t)
    ensures LookedAfter(t)
  {
    var e := EvLookupFails(id, error);
    if id !in s.lookups {
      assert s.lookups - {id} == s.lookups;
    } else if Begins(s, e) {
      BegunIsLive(s, e, t);
    }
  }

  lemma DepartureLooksAfter(s: State, e: Event, t: State)
    requires InOrder(s) && LookedAfter(s) && RevisionsOrdered(s) && Follows(s, e, t)
    requires e.EvDepartureSucceeds? || e.EvDepartureFails?
    ensures LookedAfter(t) <==> !Forgets(s, e)
  {
    if Begins(s, e) { BegunIsLive(s, e, t); } else { StillLive(s, e, t); }
  }

  lemma OtherLooksAfter(s: State, e: Event, t: State)
    requires InOrder(s) && LookedAfter(s) && Follows(s, e, t)
    requires !e.EvDepartureSucceeds? && !e.EvDepartureFails? && !e.EvLookupReplies? && !e.EvLookupFails?
    ensures LookedAfter(t) <==> !Forgets(s, e)
  {
    if Begins(s, e) { BegunIsLive(s, e, t); } else if !Cancels(s, e) { StillLive(s, e, t); }
  }

  /** From a state in which no hidden group is forgotten, only these events forget one. */
  lemma ForgetsExactly(s: State, e: Event)
    requires Invariant(s) && InOrder(s) && LookedAfter(s)
    ensures LookedAfter(Step(s, e)) <==> !Forgets(s, e)
  {
    var t := Step(s, e);
    ShowsExactly(s, e);
    TracksExactly(s, e);
    RemembersExactly(s, e);
    match e
    case EvLookupReplies(id, g) => ReplyLooksAfter(s, id, g, t);
    case EvLookupFails(id, error) => ErrorLooksAfter(s, id, error, t);
    case EvDepartureSucceeds(_) => DepartureLooksAfter(s, e, t);
    case EvDepartureFails(_) => DepartureLooksAfter(s, e, t);
    case _ => OtherLooksAfter(s, e, t);
  }

  /** No event of the run forgets the group. */
  predicate NeverForgets(s: State, events: seq<Event>)
    decreases |events|
  {
    events != [] ==> !Forgets(s, events[0]) && NeverForgets(Step(s, events[0]), events[1..])
  }

  lemma {:induction false} RunLooksAfter(s: State, events: seq<Event>)
    requires Invariant(s) && InOrder(s) && LookedAfter(s) && NeverForgets(s, events)
    ensures LookedAfter(Run(s, events))
    decreases |events|
  {
    if events != [] {
      StepKeepsInvariant(s, events[0]);
      StepKeepsOrder(s, events[0]);
      ForgetsExactly(s, events[0]);
      RunLooksAfter(Step(s, events[0]), events[1..]);
    }
  }

  /** As long as no such event occurs, a hidden group is shown or removed by a lookup, waits for one, or has failed. */
  lemma {:induction false} NoGroupForgotten(events: seq<Event>)
    requires NeverForgets(NEW_STATE, events)
    ensures LookedAfter(Run(NEW_STATE, events))
  {
    RunLooksAfter(NEW_STATE, events);
  }

  /** Retrying looks after every hidden group again, and after one whose departure was found removed. */
  lemma RetryLooksAfter(s: State)
    requires Invariant(s) && InOrder(s)
    ensures var t := Step(s, EvRetryQuarantined);
            t.quarantined || Removing(t) ==> t.inFlight && t.lookups != map[]
  {
    var t := Step(s, EvRetryQuarantined);
    ShowsExactly(s, EvRetryQuarantined);
    TracksExactly(s, EvRetryQuarantined);
    StepKeepsOrder(s, EvRetryQuarantined);
  }

  /** Left, and found removed behind revision 6 while the departure is pending. */
  predicate LeftAndRemoved(s: State, c: Context) {
    && s.departure == Some(Departure(0, 5, c, true)) && s.removedRevision == Some(6) && s.revision == 6
    && !s.quarantined && !s.failed && !s.inFlight && s.lookups == map[] && s.request.None? && s.lookupsBegun == 0
    && s.departureFence.None? && s.requestRevision == 0
  }

  lemma LeaveAndLose(c: Context)
    requires c.projectionRevision == 0
    ensures LeftAndRemoved(Step(Step(NEW_STATE, EvDepart(5, c)), EvMembershipChanged(6, true, c)), c)
  {
    var s := Step(NEW_STATE, EvDepart(5, c));
    assert s.departure == Some(Departure(0, 5, c, false)) && s.revision == 5 && s.request.None?;
  }

  lemma VerifyAndLookUp(s: State, c: Context)
    requires LeftAndRemoved(s, c)
    ensures var t := Step(Step(s, EvVerifyQuarantined(c)), EvLookupReplies(0, Projection(true, 7)));
            && t.departure == s.departure && t.removedRevision == Some(6) && t.quarantined && !t.failed
            && t.lookups == map[]
  {
    var u := Step(s, EvVerifyQuarantined(c));
    assert u.quarantined && !u.failed && u.departure == s.departure && u.removedRevision == Some(6);
    assert u.lookups == map[0 := Now(u)];
    var t := Step(u, EvLookupReplies(0, Projection(true, 7)));
    assert forall id :: id !in t.lookups;
  }

  /**
   * It happens without a verification that was not asked for: a group is left and found removed, then verified again,
   * and a lookup shows it above the departure's revision.  When the departure ends, the group stays hidden, and
   * nothing asks for it any more.
   */
  lemma DepartureForgets(c: Context)
    requires c.projectionRevision == 0
    ensures var events := [EvDepart(5, c), EvMembershipChanged(6, true, c), EvVerifyQuarantined(c),
                EvLookupReplies(0, Projection(true, 7))];
            var s := Run(NEW_STATE, events);
            LookedAfter(s) && !LookedAfter(Step(s, EvDepartureSucceeds(0)))
  {
    LeaveAndLose(c);
    VerifyAndLookUp(Step(Step(NEW_STATE, EvDepart(5, c)), EvMembershipChanged(6, true, c)), c);
    RunFour(NEW_STATE, EvDepart(5, c), EvMembershipChanged(6, true, c), EvVerifyQuarantined(c),
            EvLookupReplies(0, Projection(true, 7)));
  }

  lemma {:induction false} RunFour(s: State, a: Event, b: Event, c: Event, d: Event)
    ensures Run(s, [a, b, c, d]) == Step(Step(Step(Step(s, a), b), c), d)
  {
    var events := [a, b, c, d];
    assert events[1..] == [b, c, d] && [b, c, d][1..] == [c, d] && [c, d][1..] == [d] && [d][1..] == [];
    assert Run(Step(Step(Step(s, a), b), c), [d]) == Step(Step(Step(Step(s, a), b), c), d);
    assert Run(Step(Step(s, a), b), [c, d]) == Run(Step(Step(Step(s, a), b), c), [d]);
  }
}
