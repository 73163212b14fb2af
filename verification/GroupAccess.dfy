/**
 * One group's access projection: the values behind the facade's fields and the effect of every
 * operation on them.  Lookups answer late or never; each live one keeps what it captured when it
 * began.  The log records the outcomes the facade reports and, between them, when a lookup began
 * and when a departure succeeded although a newer revision had been seen.
 */
module GroupAccess {
  import opened Options

  datatype Context = Context(selected: bool, navigationIntentVersion: nat, projectionRevision: nat)

  datatype Entry =
    | Quarantined(selected: bool)
    | Authorized(revision: nat, restoreSelected: bool, navigationIntentVersion: Option<nat>, lookup: Option<nat>)
    | Removed(revision: nat)
    | Retryable(reason: string, quarantined: bool)
    | DeparturePending(revision: nat)
    | DepartureFinished(failed: bool)
    | LookupBegan(id: nat)
    | DepartureReconciling(revision: nat)

  /** The log, newest entry last. */
  datatype Log = Start | Then(before: Log, entry: Entry)

  datatype Fence = Fence(generation: nat, revision: nat)

  datatype Departure = Departure(id: nat, revision: nat, context: Context, removalObserved: bool)

  datatype Lookup = Lookup(fetchRevision: nat, departureGeneration: nat, targetRevision: nat)

  /** `request` is the lookup the facade can still cancel; other live lookups can only be outlived. */
  datatype State = State(
    revision: nat,
    removedRevision: Option<nat>,
    quarantined: bool,
    failed: bool,
    context: Option<Context>,
    requestRevision: nat,
    requestedRevision: nat,
    inFlight: bool,
    departureGeneration: nat,
    departureFence: Option<Fence>,
    departureReconciliationRequired: bool,
    departure: Option<Departure>,
    lookups: map<nat, Lookup>,
    request: Option<nat>,
    lookupsBegun: nat,
    departuresBegun: nat,
    projectionGeneration: nat,
    log: Log)

  /** A reply: whether it is about this group, and the revision it shows. */
  datatype Projection = Projection(sameGroup: bool, membershipRevision: nat)

  datatype LookupError = NotFound | Failure(reason: string)

  datatype Shown = Hidden | ShowItem | ShowExisting

  const NEW_STATE := State(0, None, false, false, None, 0, 0, false, 0, None, false, None, map[], None, 0, 0, 0, Start)

  function Max(a: nat, b: nat): nat { if a < b then b else a }

  function Emit(s: State, e: Entry): State { s.(log := Then(s.log, e)) }

  function Quarantine(s: State, context: Context): State {
    if !s.quarantined then
      Emit(s.(quarantined := true, failed := false, context := Some(context),
          projectionGeneration := s.projectionGeneration + 1),
           Quarantined(context.selected))
    else if s.context.None? && context.selected then s.(context := Some(context))
    else s
  }

  /** Installs the removal fence and reports it. */
  function Remove(s: State, revision: nat): State {
    var r := Max(revision, s.revision);
    Emit(s.(revision := r,
            requestRevision := s.requestRevision + (if s.inFlight then 1 else 0),
            inFlight := false,
            removedRevision := Some(Max(if s.removedRevision.Some? then s.removedRevision.value else 0, r)),
            quarantined := false,
            failed := false,
            departureReconciliationRequired := false,
            context := None,
            projectionGeneration := s.projectionGeneration + 1),
         Removed(r))
  }

  /** Unsubscribing the registered lookup runs its finalizer; its callbacks never run. */
  function CancelRequest(s: State): State {
    if s.request.None? then s.(inFlight := false)
    else s.(lookups := s.lookups - {s.request.value}, request := None, inFlight := false)
  }

  function FetchLatest(s: State): State {
    Emit(s.(inFlight := true,
            lookups := s.lookups[s.lookupsBegun := Lookup(s.requestRevision, s.departureGeneration,
                s.requestedRevision)],
            request := Some(s.lookupsBegun),
            lookupsBegun := s.lookupsBegun + 1),
         LookupBegan(s.lookupsBegun))
  }

  function RequestGroup(s: State, requestedRevision: nat, context: Option<Context>): State {
    var latest := Max(s.requestedRevision, requestedRevision);
    var t := s.(
      context := if s.context.None? then context else s.context,
      requestRevision := s.requestRevision + (if !s.inFlight || latest > s.requestedRevision then 1 else 0),
      requestedRevision := latest);
    if s.inFlight then t else FetchLatest(t)
  }

  predicate ProjectionIsFenced(s: State) { s.departureReconciliationRequired || s.departure.Some? }

  function FinishDeparture(s: State): State {
    Emit(s.(departure := None), DepartureFinished(false))
  }

  function AbandonDeparture(s: State): State {
    Emit(s.(departure := None), DepartureFinished(true))
  }

  function MarkAuthorized(s: State, revision: nat): State {
    if revision > s.revision then s.(revision := revision, projectionGeneration := s.projectionGeneration + 1) else s
  }

  function DefinitiveRemoval(s: State, revision: nat): State {
    if s.removedRevision.Some? && s.removedRevision.value >= Max(revision, s.revision) && !s.quarantined then s
    else Remove(CancelRequest(s), revision)
  }

  function Raise(s: State, revision: nat): State { s.(revision := Max(s.revision, revision)) }

  function Supersede(s: State, revision: nat): State {
    s.(requestedRevision := Max(s.requestedRevision, revision), requestRevision := s.requestRevision + 1)
  }

  /** The context to restore while a departure is pending. */
  function HidingContext(s: State): Context
    requires s.departure.Some?
  {
    if s.context.Some? then s.context.value else s.departure.value.context
  }

  /** Moves to a newer revision; a lookup in flight is superseded. */
  function Advance(s: State, revision: nat): State {
    s.(revision := revision,
       requestedRevision := if s.inFlight then Max(s.requestedRevision, revision) else s.requestedRevision,
       requestRevision := s.requestRevision + (if s.inFlight then 1 else 0),
       projectionGeneration := s.projectionGeneration + 1)
  }

  function Unfence(s: State): State {
    if s.removedRevision.Some? then s.(removedRevision := None, projectionGeneration := s.projectionGeneration + 1)
      else s
  }

  function AcceptProjection(s: State, revision: nat): (State, bool) {
    if revision < s.revision || (s.removedRevision.Some? && revision <= s.removedRevision.value) then (s, false)
    else
      var t := if revision > s.revision then Advance(s, revision) else s;
      (Unfence(t), !t.quarantined)
  }

  function AuthorizeListed(s: State, revision: nat): State {
    Emit(s.(revision := revision, removedRevision := None, quarantined := false, failed := false,
            departureReconciliationRequired := false, context := None,
                projectionGeneration := s.projectionGeneration + 1),
         Authorized(revision, Restores(s.context), IntentOf(s.context), None))
  }

  /** One group item of an authorized conversation list; `current` says whether the caller shows the group already. */
  function ProjectItem(s: State, revision: nat, current: bool): (State, Shown) {
    if s.departure.Some? && revision > s.departure.value.revision then
      (Quarantine(Raise(s, revision), HidingContext(s)), Hidden)
    else if s.quarantined && !ProjectionIsFenced(s) && revision >= s.revision &&
            (s.removedRevision.None? || revision > s.removedRevision.value) then
      (AuthorizeListed(CancelRequest(Supersede(s, revision)), revision), ShowItem)
    else if s.quarantined then (s, Hidden)
    else
      var (t, accepted) := AcceptProjection(s, revision);
      // A removal fence at revision 0 reads as no fence here.
      (t, if accepted then ShowItem
          else if current && (t.removedRevision.None? || t.removedRevision.value == 0) then ShowExisting
          else Hidden)
  }

  function Restores(context: Option<Context>): bool { context.Some? && context.value.selected }

  function IntentOf(context: Option<Context>): Option<nat> {
    if context.Some? then Some(context.value.navigationIntentVersion) else None
  }

  /** A group the caller shows and an authoritative list leaves out. */
  function ProjectAbsence(s: State, membershipRevision: nat): State {
    if !s.quarantined && s.removedRevision.None? then Remove(s, membershipRevision) else s
  }

  function MembershipChanged(s: State, revision: nat, deleted: bool, context: Context): State {
    var previous := Max(s.revision, context.projectionRevision);
    if revision <= previous then s
    else
      var t := Advance(s, revision);
      if deleted then
        Remove(CancelRequest(
          if t.departure.Some? && previous == t.departure.value.revision
          then t.(departure := Some(t.departure.value.(removalObserved := true))) else t), revision)
      else
        RequestGroup(Quarantine(
          if t.removedRevision.Some? && revision > t.removedRevision.value then t.(removedRevision := None)
            else t, context),
          revision, None)
  }

  function ConversationCreated(s: State, context: Context): State {
    RequestGroup(s, s.revision, Some(context))
  }

  function QuarantineForVerification(s: State, context: Context): State {
    Quarantine(s, context)
  }

  function VerifyQuarantined(s: State, context: Context): State {
    var t := Quarantine(s, context);
    if t.inFlight then t else RequestGroup(t, t.revision, Some(context))
  }

  function RetryQuarantined(s: State): State {
    if (s.quarantined || (s.departure.Some? && s.departure.value.removalObserved)) && !s.inFlight
    then RequestGroup(s, s.revision, None) else s
  }

  function Depart(s: State, projectionRevision: nat, context: Context): State {
    if s.departure.Some? then s
    else CancelRequest(OpenDeparture(Raise(s, projectionRevision), context))
  }

  function OpenDeparture(s: State, context: Context): State {
    Emit(s.(departure := Some(Departure(s.departuresBegun, s.revision, context, false)), context := None,
            departuresBegun := s.departuresBegun + 1),
         DeparturePending(s.revision))
  }

  /** The leave succeeded although a newer revision had been seen: hide the group until a later lookup. */
  function StartReconciliation(s: State, d: Departure): State {
    var t := CancelRequest(s.(
      quarantined := true, failed := false, context := Some(d.context),
      departureGeneration := s.departureGeneration + 1,
      departureFence := Some(Fence(s.departureGeneration + 1, d.revision)),
      departureReconciliationRequired := true));
    Emit(t.(requestRevision := t.requestRevision + 1), DepartureReconciling(d.revision))
  }

  function DepartureSucceeds(s: State, id: nat): State {
    if s.departure.None? || s.departure.value.id != id then s
    else
      var d := s.departure.value;
      if d.removalObserved && s.removedRevision.Some? then FinishDeparture(s)
      else if s.revision > d.revision then FetchLatest(FinishDeparture(StartReconciliation(s, d)))
      else if s.revision == d.revision then FinishDeparture(Remove(s, d.revision))
      else FinishDeparture(s)
  }

  function DepartureFails(s: State, id: nat): State {
    if s.departure.None? || s.departure.value.id != id then s
    else
      var d := s.departure.value;
      var t := if d.removalObserved then s
               else
                 var q := CancelRequest(Quarantine(s, d.context));
                 FetchLatest(q.(requestRevision := q.requestRevision + 1));
      AbandonDeparture(t)
  }

  // ----- Late replies -------------------------------------------------------------------------

  predicate BegunBeforeFence(s: State, l: Lookup, g: Projection) {
    s.departureFence.Some? && l.departureGeneration < s.departureFence.value.generation &&
        g.membershipRevision > s.departureFence.value.revision
  }

  predicate Unusable(s: State, l: Lookup, g: Projection) {
    || !g.sameGroup
    || g.membershipRevision < Max(l.targetRevision, s.revision)
    || (s.removedRevision.Some? && g.membershipRevision <= s.removedRevision.value)
    || l.fetchRevision != s.requestRevision
  }

  function HideNewer(s: State, revision: nat): State {
    s.(revision := Max(s.revision, revision), quarantined := true, failed := false)
  }

  function AuthorizeSuperseded(s: State, id: nat, revision: nat): State {
    Emit(s.(revision := revision, removedRevision := None, quarantined := false, failed := false,
            projectionGeneration := s.projectionGeneration + 1),
         Authorized(revision, false, None, Some(id)))
  }

  function Report(s: State, failed: bool, reason: string): State {
    Emit(s.(failed := failed), Retryable(reason, s.quarantined))
  }

  /** A reply that is not the one asked for last; it may still show something newer. */
  function RejectReply(s: State, id: nat, l: Lookup, g: Projection): (State, bool) {
    var superseded := l.fetchRevision != s.requestRevision;
    var t :=
      if g.sameGroup && g.membershipRevision > s.revision && superseded &&
         (s.removedRevision.None? || g.membershipRevision > s.removedRevision.value) then
        if ProjectionIsFenced(s) || BegunBeforeFence(s, l, g) then HideNewer(s, g.membershipRevision)
        else AuthorizeSuperseded(s, id, g.membershipRevision)
      else s;
    if superseded && t.departure.None? && !(t.removedRevision.Some? && !t.quarantined) then (t, true)
    else if superseded then (t, false)
    else (Report(t, t.quarantined, "unavailable"), false)
  }

  function AcceptReply(s: State, id: nat, l: Lookup, g: Projection): State {
    Emit(s.(revision := g.membershipRevision,
            removedRevision := None,
            quarantined := false,
            failed := false,
            departureReconciliationRequired :=
              s.departureReconciliationRequired &&
                  !(s.departureFence.Some? && l.departureGeneration >= s.departureFence.value.generation),
            context := None,
            projectionGeneration := s.projectionGeneration + 1),
         Authorized(g.membershipRevision, Restores(s.context), IntentOf(s.context), Some(id)))
  }

  /** The reply callback; the flag asks for another lookup once this one has completed. */
  function HandleReply(s: State, id: nat, l: Lookup, g: Projection): (State, bool) {
    if s.departure.Some? && g.sameGroup && g.membershipRevision > s.departure.value.revision then
      (Quarantine(Raise(s, g.membershipRevision), HidingContext(s)), false)
    else if g.sameGroup && BegunBeforeFence(s, l, g) then
      (HideNewer(s, g.membershipRevision), l.fetchRevision != s.requestRevision)
    else if s.departure.Some? && s.departure.value.removalObserved && s.removedRevision.Some?
      then (FinishDeparture(s), false)
    else if s.departure.Some? && s.departure.value.removalObserved && !s.quarantined then
      (Remove(s, Max(l.targetRevision, s.revision)), false)
    else if Unusable(s, l, g) then RejectReply(s, id, l, g)
    else if s.departure.Some? && s.revision > s.departure.value.revision then
      (s.(revision := g.membershipRevision, failed := false), false)
    else (AcceptReply(s, id, l, g), false)
  }

  function HandleError(s: State, l: Lookup, error: LookupError): (State, bool) {
    if l.fetchRevision != s.requestRevision then (s, true)
    else
      var t :=
        if s.departure.Some? && s.revision > s.departure.value.revision && !s.departure.value.removalObserved then
          AbandonDeparture(Quarantine(s, s.departure.value.context).(failed := true))
        else s;
      match error
      case NotFound => (Remove(t, Max(l.targetRevision, t.revision)), false)
      case Failure(reason) =>
        (Report(t, t.quarantined || (t.departure.Some? && t.departure.value.removalObserved), reason), false)
  }

  /** The finalizer of a lookup that replied or failed. */
  function Complete(s: State, id: nat, retry: bool): State {
    var t := s.(lookups := s.lookups - {id}, request := if s.request == Some(id) then None else s.request,
        inFlight := false);
    if retry && !(t.removedRevision.Some? && !t.quarantined) then FetchLatest(t) else t
  }

  function LookupReplies(s: State, id: nat, g: Projection): State {
    if id !in s.lookups then s
    else var (t, retry) := HandleReply(s, id, s.lookups[id], g); Complete(t, id, retry)
  }

  function LookupFails(s: State, id: nat, error: LookupError): State {
    if id !in s.lookups then s
    else var (t, retry) := HandleError(s, s.lookups[id], error); Complete(t, id, retry)
  }

  // ----- Everything that can happen to a group ------------------------------------------------

  datatype Event =
    | EvMarkAuthorized(revision: nat)
    | EvDefinitiveRemoval(revision: nat)
    | EvAcceptProjection(revision: nat)
    | EvProjectItem(revision: nat, current: bool)
    | EvProjectAbsence(revision: nat)
    | EvMembershipChanged(revision: nat, deleted: bool, context: Context)
    | EvConversationCreated(context: Context)
    | EvVerifyQuarantined(context: Context)
    | EvQuarantineForVerification(context: Context)
    | EvRetryQuarantined
    | EvDepart(revision: nat, context: Context)
    | EvDepartureSucceeds(id: nat)
    | EvDepartureFails(id: nat)
    | EvLookupReplies(id: nat, projection: Projection)
    | EvLookupFails(id: nat, error: LookupError)

  function Step(s: State, e: Event): State {
    match e
    case EvMarkAuthorized(r) => MarkAuthorized(s, r)
    case EvDefinitiveRemoval(r) => DefinitiveRemoval(s, r)
    case EvAcceptProjection(r) => AcceptProjection(s, r).0
    case EvProjectItem(r, current) => ProjectItem(s, r, current).0
    case EvProjectAbsence(r) => ProjectAbsence(s, r)
    case EvMembershipChanged(r, deleted, c) => MembershipChanged(s, r, deleted, c)
    case EvConversationCreated(c) => ConversationCreated(s, c)
    case EvVerifyQuarantined(c) => VerifyQuarantined(s, c)
    case EvQuarantineForVerification(c) => QuarantineForVerification(s, c)
    case EvRetryQuarantined => RetryQuarantined(s)
    case EvDepart(r, c) => Depart(s, r, c)
    case EvDepartureSucceeds(id) => DepartureSucceeds(s, id)
    case EvDepartureFails(id) => DepartureFails(s, id)
    case EvLookupReplies(id, g) => LookupReplies(s, id, g)
    case EvLookupFails(id, error) => LookupFails(s, id, error)
  }

  function Run(s: State, events: seq<Event>): State
    decreases |events|
  {
    if events == [] then s else Run(Step(s, events[0]), events[1..])
  }
}
