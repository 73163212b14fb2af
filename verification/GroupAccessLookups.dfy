/** Which lookups are live and count after an event, what becomes of a departure, and what is remembered. */
module GroupAccessLookups {
  import opened Options
  import opened GroupAccess
  import opened GroupAccessFences
  import opened GroupAccessOutcomes
  import opened GroupAccessMeaning

  // ----- Lookups --------------------------------------------------------------------------------

  /** The reply does not count but is not overtaken either: the group is looked up again. */
  predicate AsksAgain(s: State, l: Lookup, g: Projection) {
    Superseded(s, l) && !Overtaken(s, l, g) && s.departure.None? && (ShowsNewer(s, l, g) || !Settled(s))
  }

  /** The event begins a lookup. */
  predicate Begins(s: State, e: Event) {
    match e
    case EvMembershipChanged(revision, deleted, c) => !deleted && IsNews(s, revision, c) && !s.inFlight
    case EvConversationCreated(_) => !s.inFlight
    case EvVerifyQuarantined(_) => !s.inFlight
    case EvRetryQuarantined => (s.quarantined || Removing(s)) && !s.inFlight
    case EvDepartureSucceeds(id) => MustReconcile(s, id)
    case EvDepartureFails(id) => IsDeparture(s, id) && !Removing(s)
    case EvLookupReplies(id, g) =>
      id in s.lookups &&
      (AsksAgain(s, s.lookups[id], g) || (Outdated(s, s.lookups[id], g) && Superseded(s, s.lookups[id]) &&
         !AboveDeparture(s, g.membershipRevision)))
    case EvLookupFails(id, _) => id in s.lookups && Superseded(s, s.lookups[id]) && !Settled(s)
    case _ => false
  }

  /** The event cancels the registered lookup. */
  predicate Cancels(s: State, e: Event) {
    match e
    case EvDefinitiveRemoval(_) => Removes(s, e)
    case EvProjectItem(revision, _) => ListRestores(s, revision)
    case EvMembershipChanged(revision, deleted, c) => deleted && IsNews(s, revision, c)
    case EvDepart(_, _) => s.departure.None?
    case EvDepartureSucceeds(id) => MustReconcile(s, id)
    case EvDepartureFails(id) => IsDeparture(s, id) && !Removing(s)
    case _ => false
  }

  /** The lookups that are live no more: the one that answered, or the one cancelled. */
  function Ended(s: State, e: Event): set<nat> {
    match e
    case EvLookupReplies(id, _) => {id}
    case EvLookupFails(id, _) => {id}
    case _ => if Cancels(s, e) && s.request.Some? then {s.request.value} else {}
  }

  /** No lookup counts as in flight. */
  predicate Stops(s: State, e: Event) {
    || Cancels(s, e) || Removes(s, e)
    || (e.EvLookupReplies? && e.id in s.lookups) || (e.EvLookupFails? && e.id in s.lookups)
  }

  /** A newer revision is known, so that the lookup in flight cannot answer any more. */
  predicate Outruns(s: State, e: Event) {
    match e
    case EvAcceptProjection(revision) => revision > s.revision
    case EvProjectItem(revision, _) => !s.quarantined && !AboveDeparture(s, revision) && revision > s.revision
    case EvMembershipChanged(revision, _, c) => IsNews(s, revision, c)
    case EvProjectAbsence(_) => Removes(s, e)
    case EvLookupReplies(_, _) => Removes(s, e)
    case EvLookupFails(_, _) => Removes(s, e)
    case EvDepartureSucceeds(_) => Removes(s, e)
    case EvConversationCreated(_) => s.revision > s.requestedRevision
    case _ => false
  }

  /** What was in flight does not count any more: something else was asked for, or replaces it. */
  predicate Supersedes(s: State, e: Event) {
    || (s.inFlight && Outruns(s, e))
    || (Begins(s, e) && !e.EvLookupReplies? && !e.EvLookupFails?)
    || (e.EvProjectItem? && ListRestores(s, e.revision))
  }

  /** What a lookup is asked to reach at least. */
  function Wanted(s: State, e: Event): nat {
    match e
    case EvAcceptProjection(revision) => if s.inFlight && Outruns(s, e) then revision else 0
    case EvProjectItem(revision, _) =>
      if ListRestores(s, revision) || (s.inFlight && Outruns(s, e)) then revision else 0
    case EvMembershipChanged(revision, deleted, _) =>
      if Outruns(s, e) && (s.inFlight || !deleted) then revision else 0
    case EvConversationCreated(_) => s.revision
    case EvVerifyQuarantined(_) => if Begins(s, e) then s.revision else 0
    case EvRetryQuarantined => if Begins(s, e) then s.revision else 0
    case _ => 0
  }

  /** The lookup that counts for what is asked now. */
  function Now(t: State): Lookup { Lookup(t.requestRevision, t.departureGeneration, t.requestedRevision) }

  /** The lookups an event leaves live. */
  predicate LeavesLive(s: State, e: Event, t: State) {
    && t.lookups == (if Begins(s, e) then (s.lookups - Ended(s, e))[s.lookupsBegun := Now(t)]
                     else s.lookups - Ended(s, e))
    && t.lookupsBegun == s.lookupsBegun + (if Begins(s, e) then 1 else 0)
  }

  /** The one that can be cancelled, and whether it counts as in flight. */
  predicate Registers(s: State, e: Event, t: State) {
    && t.request == (if Begins(s, e) then Some(s.lookupsBegun)
                     else if s.request.Some? && s.request.value in Ended(s, e) then None else s.request)
    && (t.inFlight <==> Begins(s, e) || (s.inFlight && !Stops(s, e)))
  }

  /** What a lookup must be asked for to count. */
  predicate Asks(s: State, e: Event, t: State) {
    && t.requestRevision == s.requestRevision + (if Supersedes(s, e) then 1 else 0)
    && t.requestedRevision == Max(s.requestedRevision, Wanted(s, e))
  }

  /** The lookups an event leaves. */
  predicate LooksUp(s: State, e: Event, t: State) { LeavesLive(s, e, t) && Registers(s, e, t) && Asks(s, e, t) }

  // ----- Departures -----------------------------------------------------------------------------

  /** The departure ends. */
  predicate Finishes(s: State, e: Event) {
    match e
    case EvDepartureSucceeds(id) => IsDeparture(s, id)
    case EvDepartureFails(id) => IsDeparture(s, id)
    case EvLookupReplies(id, g) =>
      id in s.lookups && Removing(s) && s.removedRevision.Some? && !Outdated(s, s.lookups[id], g) &&
      !(g.sameGroup && AboveDeparture(s, g.membershipRevision))
    case EvLookupFails(id, _) => Counts(s, id) && AboveDeparture(s, s.revision) && !Removing(s)
    case _ => false
  }

  /** The membership is deleted at the very revision the departure began from. */
  predicate Observes(s: State, e: Event) {
    e.EvMembershipChanged? && e.deleted && IsNews(s, e.revision, e.context) &&
    s.departure.Some? && s.departure.value.revision == Max(s.revision, e.context.projectionRevision)
  }

  /** A lookup begun since the departure succeeded answers. */
  predicate Reconciles(s: State, e: Event) {
    e.EvLookupReplies? && e.id in s.lookups && Answers(s, s.lookups[e.id], e.projection) &&
    s.departureFence.Some? && s.lookups[e.id].departureGeneration >= s.departureFence.value.generation
  }

  /** What an event makes of a departure. */
  predicate Departs(s: State, e: Event, t: State) {
    && t.departure == (if e.EvDepart? && s.departure.None?
                       then Some(Departure(s.departuresBegun, Max(s.revision, e.revision), e.context, false))
                       else if Finishes(s, e) then None
                       else if Observes(s, e) then Some(s.departure.value.(removalObserved := true))
                       else s.departure)
    && t.departuresBegun == s.departuresBegun + (if e.EvDepart? && s.departure.None? then 1 else 0)
  }

  /** The departure succeeded behind something newer. */
  predicate Reopens(s: State, e: Event) { e.EvDepartureSucceeds? && MustReconcile(s, e.id) }

  /** What an event makes of the fence a departure leaves. */
  predicate FencesOff(s: State, e: Event, t: State) {
    && t.departureGeneration == s.departureGeneration + (if Reopens(s, e) then 1 else 0)
    && t.departureFence == (if Reopens(s, e) then Some(Fence(t.departureGeneration, s.departure.value.revision))
                            else s.departureFence)
    && (t.departureReconciliationRequired <==>
          Reopens(s, e) || (s.departureReconciliationRequired && !Removes(s, e) && !Reconciles(s, e) &&
            !(e.EvProjectItem? && ListRestores(s, e.revision))))
  }

  predicate Tracks(s: State, e: Event, t: State) { LooksUp(s, e, t) && Departs(s, e, t) && FencesOff(s, e, t) }

  // ----- The parts of an operation --------------------------------------------------------------

  predicate SameLookups(s: State, t: State) {
    t.lookups == s.lookups && t.lookupsBegun == s.lookupsBegun && t.request == s.request
  }

  predicate SameDeparture(s: State, t: State) {
    t.departure == s.departure && t.departuresBegun == s.departuresBegun &&
    t.departureGeneration == s.departureGeneration && t.departureFence == s.departureFence
  }

  predicate SameAsked(s: State, t: State) {
    t.requestRevision == s.requestRevision && t.requestedRevision == s.requestedRevision
  }

  /** Nothing this is about. */
  predicate Untouched(s: State, t: State) {
    SameLookups(s, t) && SameDeparture(s, t) && SameAsked(s, t) && t.inFlight == s.inFlight &&
    t.departureReconciliationRequired == s.departureReconciliationRequired
  }

  lemma HidingPart(s: State, c: Context)
    ensures Untouched(s, Quarantine(s, c)) && Quarantine(s, c).revision == s.revision
    ensures Quarantine(s, c).removedRevision == s.removedRevision && Quarantine(s, c).quarantined
  {
  }

  lemma RemovalPart(s: State, revision: nat)
    ensures var t := Remove(s, revision);
            && SameLookups(s, t) && SameDeparture(s, t) && !t.inFlight && !t.departureReconciliationRequired
            && t.requestedRevision == s.requestedRevision
            && t.requestRevision == s.requestRevision + (if s.inFlight then 1 else 0)
  {
  }

  lemma CancelPart(s: State)
    ensures var t := CancelRequest(s);
            && t.lookups == s.lookups - (if s.request.Some? then {s.request.value} else {})
            && t.request.None? && !t.inFlight && t.lookupsBegun == s.lookupsBegun
            && SameDeparture(s, t) && SameAsked(s, t)
            && t.departureReconciliationRequired == s.departureReconciliationRequired
            && t.revision == s.revision && t.removedRevision == s.removedRevision
  {
    if s.request.None? { assert s.lookups - {} == s.lookups; }
  }

  lemma FetchPart(s: State)
    ensures var t := FetchLatest(s);
            && t.lookups == s.lookups[s.lookupsBegun := Now(t)] && t.lookupsBegun == s.lookupsBegun + 1
            && t.request == Some(s.lookupsBegun) && t.inFlight && SameDeparture(s, t) && SameAsked(s, t)
            && t.departureReconciliationRequired == s.departureReconciliationRequired
  {
  }

  /** What is asked for, before anything is fetched. */
  lemma RequestPart(s: State, revision: nat, c: Option<Context>)
    ensures var t := RequestGroup(s, revision, c);
            && (s.inFlight ==> SameLookups(s, t))
            && (!s.inFlight ==>
                  && t.lookups == s.lookups[s.lookupsBegun := Now(t)] && t.lookupsBegun == s.lookupsBegun + 1
                  && t.request == Some(s.lookupsBegun))
            && t.inFlight && SameDeparture(s, t)
            && t.departureReconciliationRequired == s.departureReconciliationRequired
            && t.requestedRevision == Max(s.requestedRevision, revision)
            && t.requestRevision == s.requestRevision + (if !s.inFlight || revision > s.requestedRevision then 1 else 0)
  {
  }

  lemma AdvancePart(s: State, revision: nat)
    ensures var t := Advance(s, revision);
            && SameLookups(s, t) && SameDeparture(s, t) && t.inFlight == s.inFlight
            && t.departureReconciliationRequired == s.departureReconciliationRequired
            && t.requestRevision == s.requestRevision + (if s.inFlight then 1 else 0)
            && t.requestedRevision == (if s.inFlight then Max(s.requestedRevision, revision) else s.requestedRevision)
  {
  }

  lemma CompletePart(s: State, id: nat, retry: bool)
    ensures var t, again := Complete(s, id, retry), retry && !Settled(s);
            && t.lookups == (if again then (s.lookups - {id})[s.lookupsBegun := Now(t)] else s.lookups - {id})
            && t.lookupsBegun == s.lookupsBegun + (if again then 1 else 0)
            && t.request == (if again then Some(s.lookupsBegun) else if s.request == Some(id) then None else s.request)
            && t.inFlight == again && SameDeparture(s, t) && SameAsked(s, t)
            && t.departureReconciliationRequired == s.departureReconciliationRequired
  {
  }

  // ----- Event by event -------------------------------------------------------------------------

  /** Nothing is ended and nothing is begun. */
  lemma NothingEnded(s: State, e: Event)
    requires !Cancels(s, e) && !e.EvLookupReplies? && !e.EvLookupFails?
    ensures Ended(s, e) == {} && s.lookups - Ended(s, e) == s.lookups
  {
    assert s.lookups - {} == s.lookups;
  }

  lemma SimpleTracks(s: State, e: Event, t: State)
    requires e.EvMarkAuthorized? || e.EvQuarantineForVerification? || (e.EvRetryQuarantined? && !Begins(s, e))
    requires Untouched(s, t)
    ensures Tracks(s, e, t)
  {
    NothingEnded(s, e);
  }

  lemma DefinitiveTracks(s: State, revision: nat)
    requires RevisionsOrdered(s) && LookupsKnown(s)
    ensures Tracks(s, EvDefinitiveRemoval(revision), DefinitiveRemoval(s, revision))
  {
    var e := EvDefinitiveRemoval(revision);
    if Removes(s, e) {
      CancelPart(s);
      RemovalPart(CancelRequest(s), revision);
    } else {
      NothingEnded(s, e);
    }
  }

  lemma UnfencePart(s: State)
    ensures Untouched(s, Unfence(s))
  {
  }

  lemma AcceptPart(s: State, revision: nat)
    requires RevisionsOrdered(s)
    ensures var t, outrun := AcceptProjection(s, revision).0, s.inFlight && revision > s.revision;
            && SameLookups(s, t) && SameDeparture(s, t) && t.inFlight == s.inFlight
            && t.departureReconciliationRequired == s.departureReconciliationRequired
            && t.requestRevision == s.requestRevision + (if outrun then 1 else 0)
            && t.requestedRevision == (if outrun then Max(s.requestedRevision, revision) else s.requestedRevision)
  {
    AdvancePart(s, revision);
    UnfencePart(s);
    UnfencePart(Advance(s, revision));
  }

  lemma AcceptTracks(s: State, revision: nat)
    requires RevisionsOrdered(s)
    ensures Tracks(s, EvAcceptProjection(revision), AcceptProjection(s, revision).0)
  {
    AcceptPart(s, revision);
    NothingEnded(s, EvAcceptProjection(revision));
  }

  lemma ListTracks(s: State, revision: nat, current: bool)
    requires RevisionsOrdered(s) && LookupsKnown(s)
    ensures Tracks(s, EvProjectItem(revision, current), ProjectItem(s, revision, current).0)
  {
    var e := EvProjectItem(revision, current);
    if AboveDeparture(s, revision) {
      HidingPart(Raise(s, revision), HidingContext(s));
      NothingEnded(s, e);
    } else if ListRestores(s, revision) {
      CancelPart(Supersede(s, revision));
    } else {
      AcceptPart(s, revision);
      NothingEnded(s, e);
    }
  }

  lemma AbsenceTracks(s: State, revision: nat)
    ensures Tracks(s, EvProjectAbsence(revision), ProjectAbsence(s, revision))
  {
    RemovalPart(s, revision);
    NothingEnded(s, EvProjectAbsence(revision));
  }

  /** Only the lookup in flight is superseded so far. */
  predicate Outran(s: State, revision: nat, u: State) {
    && SameLookups(s, u) && u.inFlight == s.inFlight && u.departuresBegun == s.departuresBegun
    && u.departureGeneration == s.departureGeneration && u.departureFence == s.departureFence
    && u.departureReconciliationRequired == s.departureReconciliationRequired
    && u.requestRevision == s.requestRevision + (if s.inFlight then 1 else 0)
    && u.requestedRevision == (if s.inFlight then Max(s.requestedRevision, revision) else s.requestedRevision)
  }

  lemma DeletedAfter(s: State, revision: nat, c: Context, u: State)
    requires IsNews(s, revision, c) && Outran(s, revision, u) && Departs(s, EvMembershipChanged(revision, true, c), u)
    ensures Tracks(s, EvMembershipChanged(revision, true, c), Remove(CancelRequest(u), revision))
  {
    CancelPart(u);
    RemovalPart(CancelRequest(u), revision);
  }

  lemma DeletedTracks(s: State, revision: nat, c: Context)
    requires IsNews(s, revision, c)
    ensures Tracks(s, EvMembershipChanged(revision, true, c), MembershipChanged(s, revision, true, c))
  {
    var t := Advance(s, revision);
    AdvancePart(s, revision);
    DeletedAfter(s, revision, c, if t.departure.Some? && Max(s.revision, c.projectionRevision) ==
                   t.departure.value.revision
                 then t.(departure := Some(t.departure.value.(removalObserved := true))) else t);
  }

  lemma ChangedAfter(s: State, revision: nat, c: Context, u: State)
    requires IsNews(s, revision, c) && Outran(s, revision, u) && u.departure == s.departure
    ensures Tracks(s, EvMembershipChanged(revision, false, c), RequestGroup(u, revision, None))
  {
    RequestPart(u, revision, None);
    NothingEnded(s, EvMembershipChanged(revision, false, c));
  }

  lemma ChangedTracks(s: State, revision: nat, c: Context)
    requires IsNews(s, revision, c)
    ensures Tracks(s, EvMembershipChanged(revision, false, c), MembershipChanged(s, revision, false, c))
  {
    var t := Advance(s, revision);
    var u := if t.removedRevision.Some? && revision > t.removedRevision.value then t.(removedRevision := None) else t;
    AdvancePart(s, revision);
    HidingPart(u, c);
    ChangedAfter(s, revision, c, Quarantine(u, c));
  }

  lemma MembershipTracks(s: State, revision: nat, deleted: bool, c: Context)
    ensures Tracks(s, EvMembershipChanged(revision, deleted, c), MembershipChanged(s, revision, deleted, c))
  {
    if IsNews(s, revision, c) {
      if deleted { DeletedTracks(s, revision, c); } else { ChangedTracks(s, revision, c); }
    } else {
      NothingEnded(s, EvMembershipChanged(revision, deleted, c));
    }
  }

  lemma CreatedTracks(s: State, c: Context)
    ensures Tracks(s, EvConversationCreated(c), ConversationCreated(s, c))
  {
    RequestPart(s, s.revision, Some(c));
    NothingEnded(s, EvConversationCreated(c));
  }

  lemma VerifyTracks(s: State, c: Context)
    ensures Tracks(s, EvVerifyQuarantined(c), VerifyQuarantined(s, c))
  {
    HidingPart(s, c);
    RequestPart(Quarantine(s, c), s.revision, Some(c));
    NothingEnded(s, EvVerifyQuarantined(c));
  }

  lemma RetryTracks(s: State)
    ensures Tracks(s, EvRetryQuarantined, RetryQuarantined(s))
  {
    RequestPart(s, s.revision, None);
    NothingEnded(s, EvRetryQuarantined);
  }

  lemma DepartTracks(s: State, revision: nat, c: Context)
    ensures Tracks(s, EvDepart(revision, c), Depart(s, revision, c))
  {
    if s.departure.None? {
      CancelPart(OpenDeparture(Raise(s, revision), c));
    } else {
      NothingEnded(s, EvDepart(revision, c));
    }
  }

  lemma ReconcilingPart(s: State, d: Departure)
    ensures var t := StartReconciliation(s, d);
            && t.lookups == s.lookups - (if s.request.Some? then {s.request.value} else {})
            && t.request.None? && t.lookupsBegun == s.lookupsBegun
            && t.departure == s.departure && t.departuresBegun == s.departuresBegun
            && t.departureGeneration == s.departureGeneration + 1
            && t.departureFence == Some(Fence(s.departureGeneration + 1, d.revision))
            && t.departureReconciliationRequired
            && t.requestRevision == s.requestRevision + 1 && t.requestedRevision == s.requestedRevision
  {
    CancelPart(s.(quarantined := true, failed := false, context := Some(d.context),
        departureGeneration := s.departureGeneration + 1,
        departureFence := Some(Fence(s.departureGeneration + 1, d.revision)),
        departureReconciliationRequired := true));
  }

  lemma SuccessTracks(s: State, id: nat)
    requires RevisionsOrdered(s)
    ensures Tracks(s, EvDepartureSucceeds(id), DepartureSucceeds(s, id))
  {
    var e := EvDepartureSucceeds(id);
    if MustReconcile(s, id) {
      ReconcilingPart(s, s.departure.value);
      FetchPart(FinishDeparture(StartReconciliation(s, s.departure.value)));
    } else {
      NothingEnded(s, e);
      RemovalPart(s, if s.departure.Some? then s.departure.value.revision else 0);
    }
  }

  lemma FailureTracks(s: State, id: nat)
    ensures Tracks(s, EvDepartureFails(id), DepartureFails(s, id))
  {
    var e := EvDepartureFails(id);
    if IsDeparture(s, id) && !Removing(s) {
      var q := Quarantine(s, s.departure.value.context);
      HidingPart(s, s.departure.value.context);
      CancelPart(q);
      var u := CancelRequest(q);
      FetchPart(u.(requestRevision := u.requestRevision + 1));
    } else {
      NothingEnded(s, e);
    }
  }

  // ----- Replies and errors ---------------------------------------------------------------------

  lemma RejectPart(s: State, id: nat, l: Lookup, g: Projection)
    ensures var (t, retry) := RejectReply(s, id, l, g);
            && SameLookups(s, t) && SameDeparture(s, t) && SameAsked(s, t)
            && t.departureReconciliationRequired == s.departureReconciliationRequired
            && (Superseded(s, l) && !Outdated(s, l, g) ==>
                  (retry && !Settled(t) <==> s.departure.None? && (ShowsNewer(s, l, g) || !Settled(s))))
            && (!Superseded(s, l) ==> !retry)
  {
  }

  /** What a reply leaves before its lookup ends; `t` is the state and `retry` whether it is asked again. */
  predicate Handled(s: State, id: nat, g: Projection, t: State, retry: bool)
    requires id in s.lookups
  {
    var e := EvLookupReplies(id, g);
    && SameLookups(s, t) && t.requestedRevision == s.requestedRevision
    && t.requestRevision == s.requestRevision + (if s.inFlight && Removes(s, e) then 1 else 0)
    && Departs(s, e, t) && FencesOff(s, e, t)
    && (retry && !Settled(t) <==> Begins(s, e))
  }

  lemma OvertakenPart(s: State, id: nat, g: Projection)
    requires id in s.lookups && Overtaken(s, s.lookups[id], g)
    ensures var (t, retry) := HandleReply(s, id, s.lookups[id], g); Handled(s, id, g, t, retry)
  {
    var l := s.lookups[id];
    if g.sameGroup && AboveDeparture(s, g.membershipRevision) {
      HidingPart(Raise(s, g.membershipRevision), HidingContext(s));
    } else if !Outdated(s, l, g) && s.removedRevision.None? {
      RemovalPart(s, Max(l.targetRevision, s.revision));
    }
  }

  lemma AnswerPart(s: State, id: nat, g: Projection)
    requires id in s.lookups && Answers(s, s.lookups[id], g)
    ensures var (t, retry) := HandleReply(s, id, s.lookups[id], g); Handled(s, id, g, t, retry)
  {
  }

  lemma LatePart(s: State, id: nat, g: Projection)
    requires id in s.lookups && !Overtaken(s, s.lookups[id], g) && !Answers(s, s.lookups[id], g)
    ensures var (t, retry) := HandleReply(s, id, s.lookups[id], g); Handled(s, id, g, t, retry)
  {
    NoAnswer(s, id, s.lookups[id], g);
    RejectPart(s, id, s.lookups[id], g);
  }

  lemma HandledTracks(s: State, id: nat, g: Projection, t: State, retry: bool)
    requires id in s.lookups && Handled(s, id, g, t, retry)
    ensures Tracks(s, EvLookupReplies(id, g), Complete(t, id, retry))
  {
    CompletePart(t, id, retry);
  }

  lemma ReplyTracks(s: State, id: nat, g: Projection)
    requires LookupsKnown(s)
    ensures Tracks(s, EvLookupReplies(id, g), LookupReplies(s, id, g))
  {
    if id in s.lookups {
      var l := s.lookups[id];
      var (t, retry) := HandleReply(s, id, l, g);
      if Overtaken(s, l, g) { OvertakenPart(s, id, g); }
      else if Answers(s, l, g) { AnswerPart(s, id, g); }
      else { LatePart(s, id, g); }
      HandledTracks(s, id, g, t, retry);
    } else {
      assert s.lookups - {id} == s.lookups;
    }
  }

  /** The same for an error. */
  predicate HandledError(s: State, id: nat, error: LookupError, t: State, retry: bool)
    requires id in s.lookups
  {
    var e := EvLookupFails(id, error);
    && SameLookups(s, t) && t.requestedRevision == s.requestedRevision
    && t.requestRevision == s.requestRevision + (if s.inFlight && Removes(s, e) then 1 else 0)
    && Departs(s, e, t) && FencesOff(s, e, t)
    && (retry && !Settled(t) <==> Begins(s, e))
  }

  lemma GivingUpPart(s: State)
    requires s.departure.Some?
    ensures var t := AbandonDeparture(Quarantine(s, s.departure.value.context).(failed := true));
            && SameLookups(s, t) && SameAsked(s, t) && t.inFlight == s.inFlight && t.departure.None?
            && t.departuresBegun == s.departuresBegun && t.departureGeneration == s.departureGeneration
            && t.departureFence == s.departureFence
            && t.departureReconciliationRequired == s.departureReconciliationRequired && t.revision == s.revision
  {
    HidingPart(s, s.departure.value.context);
  }

  /** What a counting error does after a departure was given up, if it was. */
  lemma CountingPart(s: State, id: nat, error: LookupError, t: State)
    requires Counts(s, id) && SameLookups(s, t) && SameAsked(s, t) && t.inFlight == s.inFlight
    requires Departs(s, EvLookupFails(id, error), t) && t.departureGeneration == s.departureGeneration
    requires t.departureFence == s.departureFence
    requires t.departureReconciliationRequired == s.departureReconciliationRequired
    ensures error == NotFound ==>
              HandledError(s, id, error, Remove(t, Max(s.lookups[id].targetRevision, t.revision)), false)
    ensures forall failed, reason ::
              error == Failure(reason) ==> HandledError(s, id, error, Report(t, failed, reason), false)
  {
    if error == NotFound { RemovalPart(t, Max(s.lookups[id].targetRevision, t.revision)); }
  }

  lemma ErrorPart(s: State, id: nat, error: LookupError)
    requires id in s.lookups
    ensures var (t, retry) := HandleError(s, s.lookups[id], error); HandledError(s, id, error, t, retry)
  {
    if Counts(s, id) {
      if AboveDeparture(s, s.revision) && !Removing(s) {
        GivingUpPart(s);
        CountingPart(s, id, error, AbandonDeparture(Quarantine(s, s.departure.value.context).(failed := true)));
      } else {
        CountingPart(s, id, error, s);
      }
    }
  }

  lemma ErrorTracks(s: State, id: nat, error: LookupError)
    requires LookupsKnown(s)
    ensures Tracks(s, EvLookupFails(id, error), LookupFails(s, id, error))
  {
    if id in s.lookups {
      var (t, retry) := HandleError(s, s.lookups[id], error);
      ErrorPart(s, id, error);
      CompletePart(t, id, retry);
    } else {
      assert s.lookups - {id} == s.lookups;
    }
  }

  /**
   * After every event of every run: exactly these lookups are live, a new one answers to all that is asked for,
   * and what was in flight counts no more exactly if something else is; and the departure, its generation and its
   * fence are as the event makes them.
   */
  lemma {:induction false} TracksExactly(s: State, e: Event)
    requires Invariant(s)
    ensures Tracks(s, e, Step(s, e))
  {
    match e
    case EvMarkAuthorized(revision) => SimpleTracks(s, e, MarkAuthorized(s, revision));
    case EvDefinitiveRemoval(revision) => DefinitiveTracks(s, revision);
    case EvAcceptProjection(revision) => AcceptTracks(s, revision);
    case EvProjectItem(revision, current) => ListTracks(s, revision, current);
    case EvProjectAbsence(revision) => AbsenceTracks(s, revision);
    case EvMembershipChanged(revision, deleted, c) => MembershipTracks(s, revision, deleted, c);
    case EvConversationCreated(c) => CreatedTracks(s, c);
    case EvVerifyQuarantined(c) => VerifyTracks(s, c);
    case EvQuarantineForVerification(c) =>
      HidingPart(s, c);
      SimpleTracks(s, e, Quarantine(s, c));
    case EvRetryQuarantined => RetryTracks(s);
    case EvDepart(revision, c) => DepartTracks(s, revision, c);
    case EvDepartureSucceeds(id) => SuccessTracks(s, id);
    case EvDepartureFails(id) => FailureTracks(s, id);
    case EvLookupReplies(id, g) => ReplyTracks(s, id, g);
    case EvLookupFails(id, error) => ErrorTracks(s, id, error);
  }
}
