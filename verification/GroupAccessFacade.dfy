/**
 * The facade that owns the groups' states.  Every operation takes a group's ID, changes that group's state
 * in the map and leaves the others alone; the list projection does so for every group a list names.
 *
 * Each contract equates the new map with the value of the operation in GroupAccess, and says what that
 * means for the group: where it is fenced, whether it is hidden, and which lookup will count.
 */
module GroupAccessFacade {
  import opened Options
  import opened GroupAccess
  import opened GroupAccessFences
  import opened GroupAccessLists

  /** Removed, and nothing above the fence has been seen. */
  predicate Fenced(s: State) {
    s.removedRevision.Some? && !s.quarantined && s.removedRevision.value >= s.revision
  }

  /** Then a projection is accepted exactly above the removal fence. */
  lemma FencedAccepts(s: State, projected: nat)
    requires Fenced(s)
    ensures AcceptProjection(s, projected).1 <==> projected > s.removedRevision.value
  {
  }

  /** A lookup in flight whose reply will count, begun for everything requested so far. */
  predicate Asked(s: State) {
    s.inFlight && s.request.Some? && s.request.value in s.lookups &&
    s.lookups[s.request.value] == Lookup(s.requestRevision, s.departureGeneration, s.requestedRevision)
  }

  /** The operation shows a group that was hidden. */
  predicate Restored(s: State, t: State) { s.quarantined && !t.quarantined }

  class HomeGroupAccessFacade {
    var states: States

    constructor ()
      ensures states == map[]
    {
      states := map[];
    }

    // ----- Shared parts -------------------------------------------------------------------------

    /** Hides the group, reporting it once, and moves no fence. */
    method Hide(groupID: GroupID, context: Context)
      modifies this
      ensures states == old(states)[groupID := Quarantine(StateOf(old(states), groupID), context)]
      ensures var s, state := StateOf(old(states), groupID), states[groupID];
              && state.quarantined && state.revision == s.revision && state.removedRevision == s.removedRevision
              && state.log == if s.quarantined then s.log else Then(s.log, Quarantined(context.selected))
    {
      var state := StateOf(states, groupID);
      if !state.quarantined {
        state := state.(quarantined := true);
        state := state.(failed := false);
        state := state.(context := Some(context));
        state := state.(projectionGeneration := state.projectionGeneration + 1);
        state := Emit(state, Quarantined(context.selected));
      } else if state.context.None? && context.selected {
        state := state.(context := Some(context));
      }
      states := states[groupID := state];
    }

    /** Fences the group at everything seen so far; a lookup in flight will not count. */
    method MarkRemoved(groupID: GroupID, revision: nat)
      modifies this
      ensures states == old(states)[groupID := Remove(StateOf(old(states), groupID), revision)]
      ensures var s, state := StateOf(old(states), groupID), states[groupID];
              && Fenced(state) && state.removedRevision.value >= Max(revision, s.revision)
              && (s.removedRevision.Some? ==> state.removedRevision.value >= s.removedRevision.value)
              && (s.inFlight ==> state.requestRevision > s.requestRevision)
    {
      var state := StateOf(states, groupID);
      var removalRevision := Max(revision, state.revision);
      state := state.(revision := removalRevision);
      if state.inFlight {
        state := state.(requestRevision := state.requestRevision + 1);
      }
      state := state.(inFlight := false);
      var fence := if state.removedRevision.Some? then state.removedRevision.value else 0;
      state := state.(removedRevision := Some(Max(fence, removalRevision)));
      state := state.(quarantined := false);
      state := state.(failed := false);
      state := state.(departureReconciliationRequired := false);
      state := state.(context := None);
      state := state.(projectionGeneration := state.projectionGeneration + 1);
      state := Emit(state, Removed(state.revision));
      states := states[groupID := state];
    }

    method UnsubscribeRequest(groupID: GroupID)
      modifies this
      ensures states == old(states)[groupID := CancelRequest(StateOf(old(states), groupID))]
    {
      var state := StateOf(states, groupID);
      if state.request.Some? {
        state := state.(lookups := state.lookups - {state.request.value});
        state := state.(request := None);
      }
      state := state.(inFlight := false);
      states := states[groupID := state];
    }

    /** Begins a lookup that answers to everything requested so far; the live ones stay as they are. */
    method Fetch(groupID: GroupID)
      modifies this
      ensures states == old(states)[groupID := FetchLatest(StateOf(old(states), groupID))]
      ensures var s, state := StateOf(old(states), groupID), states[groupID];
              && Asked(state) && state.request == Some(s.lookupsBegun)
              && forall id <- s.lookups :: id != s.lookupsBegun ==>
                   id in state.lookups && state.lookups[id] == s.lookups[id]
    {
      var state := StateOf(states, groupID);
      var id := state.lookupsBegun;
      var lookup := Lookup(state.requestRevision, state.departureGeneration, state.requestedRevision);
      state := state.(inFlight := true);
      state := state.(lookups := state.lookups[id := lookup]);
      state := state.(request := Some(id));
      state := state.(lookupsBegun := id + 1);
      state := Emit(state, LookupBegan(id));
      states := states[groupID := state];
    }

    /** The lookup in flight, or the next one, is asked for the revision too. */
    method Want(groupID: GroupID, revision: nat, context: Option<Context>)
      modifies this
      ensures var s := StateOf(old(states), groupID);
              var latest := Max(s.requestedRevision, revision);
              states == old(states)[groupID := s.(
                context := if s.context.None? then context else s.context,
                requestRevision := s.requestRevision + (if !s.inFlight || latest > s.requestedRevision then 1 else 0),
                requestedRevision := latest)]
    {
      var state := StateOf(states, groupID);
      if context.Some? && state.context.None? {
        state := state.(context := context);
      }
      var latestRevision := Max(state.requestedRevision, revision);
      if !state.inFlight {
        state := state.(requestRevision := state.requestRevision + 1);
      } else if latestRevision > state.requestedRevision {
        state := state.(requestRevision := state.requestRevision + 1);
      }
      state := state.(requestedRevision := latestRevision);
      states := states[groupID := state];
    }

    /** A lookup that counts is in flight, or the one in flight is superseded if something newer is wanted. */
    method Request(groupID: GroupID, revision: nat, context: Option<Context>)
      modifies this
      ensures states == old(states)[groupID := RequestGroup(StateOf(old(states), groupID), revision, context)]
      ensures var s, state := StateOf(old(states), groupID), states[groupID];
              && state.inFlight && state.requestedRevision >= Max(revision, s.requestedRevision)
              && (!s.inFlight ==> Asked(state) && state.requestRevision > s.requestRevision)
              && (s.inFlight ==> state.lookups == s.lookups)
              && (s.inFlight ==> (state.requestRevision > s.requestRevision <==> revision > s.requestedRevision))
    {
      Want(groupID, revision, context);
      if states[groupID].inFlight { return; }
      Fetch(groupID);
    }

    method Finish(groupID: GroupID)
      modifies this
      ensures states == old(states)[groupID := FinishDeparture(StateOf(old(states), groupID))]
    {
      var state := StateOf(states, groupID).(departure := None);
      state := Emit(state, DepartureFinished(false));
      states := states[groupID := state];
    }

    method MoveTo(groupID: GroupID, revision: nat)
      modifies this
      ensures states == old(states)[groupID := Advance(StateOf(old(states), groupID), revision)]
    {
      var state := StateOf(states, groupID).(revision := revision);
      if state.inFlight {
        state := state.(requestedRevision := Max(state.requestedRevision, revision));
        state := state.(requestRevision := state.requestRevision + 1);
      }
      state := state.(projectionGeneration := state.projectionGeneration + 1);
      states := states[groupID := state];
    }

    // ----- Projections and events ---------------------------------------------------------------

    /** The revision only rises, and no fence is lifted. */
    method RecordAuthorized(groupID: GroupID, revision: nat)
      modifies this
      ensures states == old(states)[groupID := MarkAuthorized(StateOf(old(states), groupID), revision)]
      ensures var s, state := StateOf(old(states), groupID), states[groupID];
              && state.revision == Max(s.revision, revision)
              && state.removedRevision == s.removedRevision && state.quarantined == s.quarantined && state.log == s.log
    {
      var state := StateOf(states, groupID);
      if revision > state.revision {
        state := state.(revision := revision);
        state := state.(projectionGeneration := state.projectionGeneration + 1);
      }
      states := states[groupID := state];
    }

    /** Whatever the state was, only a projection above the removal and all that was seen is accepted next. */
    method RemoveDefinitively(groupID: GroupID, revision: nat)
      modifies this
      ensures states == old(states)[groupID := DefinitiveRemoval(StateOf(old(states), groupID), revision)]
      ensures var s, state := StateOf(old(states), groupID), states[groupID];
              && Fenced(state) && state.removedRevision.value >= Max(revision, s.revision)
              && (state.log == s.log || state.log == Then(s.log, Removed(state.revision)))
    {
      var state := StateOf(states, groupID);
      states := states[groupID := state];
      if state.removedRevision.Some? && state.removedRevision.value >= Max(revision, state.revision) &&
         !state.quarantined {
        return;
      }
      UnsubscribeRequest(groupID);
      MarkRemoved(groupID, revision);
    }

    method LiftRemoval(groupID: GroupID, revision: nat)
      requires var s := StateOf(states, groupID); s.removedRevision.Some? ==> revision > s.removedRevision.value
      modifies this
      ensures states == old(states)[groupID := Unfence(StateOf(old(states), groupID))]
    {
      var state := StateOf(states, groupID);
      if state.removedRevision.Some? && revision > state.removedRevision.value {
        state := state.(removedRevision := None);
        state := state.(projectionGeneration := state.projectionGeneration + 1);
      }
      states := states[groupID := state];
    }

    /** Accepted exactly when the group is not hidden and the projection is not old and above the removal fence. */
    method Accept(groupID: GroupID, revision: nat) returns (accepted: bool)
      modifies this
      ensures var (state, answer) := AcceptProjection(StateOf(old(states), groupID), revision);
              states == old(states)[groupID := state] && accepted == answer
      ensures var s := StateOf(old(states), groupID);
              accepted <==> !s.quarantined && revision >= s.revision &&
                            (s.removedRevision.Some? ==> revision > s.removedRevision.value)
      ensures accepted ==>
                states[groupID].revision == revision && states[groupID].removedRevision.None? &&
                    !states[groupID].quarantined
    {
      var state := StateOf(states, groupID);
      states := states[groupID := state];
      if revision < state.revision || (state.removedRevision.Some? && revision <= state.removedRevision.value) {
        return false;
      }
      var projectionWasCurrent := revision == state.revision;
      if revision > state.revision {
        MoveTo(groupID, revision);
      }
      LiftRemoval(groupID, revision);
      accepted := !states[groupID].quarantined && (projectionWasCurrent || revision == states[groupID].revision);
    }

    /** A newer revision while a departure is pending is uncertain access: the group is hidden, not restored. */
    method HideDeparting(groupID: GroupID, revision: nat)
      requires StateOf(states, groupID).departure.Some?
      modifies this
      ensures var s := StateOf(old(states), groupID);
              states == old(states)[groupID := Quarantine(Raise(s, revision), HidingContext(s))]
      ensures states[groupID].quarantined && states[groupID].revision >= revision
    {
      var state := StateOf(states, groupID);
      state := state.(revision := Max(state.revision, revision));
      states := states[groupID := state];
      Hide(groupID, if state.context.Some? then state.context.value else state.departure.value.context);
    }

    /** A shown group is not hidden, a shown item is the newest thing known, and nothing passes a departure. */
    method ProjectListed(groupID: GroupID, revision: nat, current: bool) returns (shown: Shown)
      modifies this
      ensures var (state, answer) := ProjectItem(StateOf(old(states), groupID), revision, current);
              states == old(states)[groupID := state] && shown == answer
      ensures var s, state := StateOf(old(states), groupID), states[groupID];
              && (shown != Hidden ==> !state.quarantined)
              && (shown == ShowItem ==> state.revision == revision >= s.revision && state.removedRevision.None?)
              && (s.departure.Some? && revision > s.departure.value.revision ==> shown == Hidden && state.quarantined)
    {
      var state := StateOf(states, groupID);
      if state.departure.Some? && revision > state.departure.value.revision {
        HideDeparting(groupID, revision);
        return Hidden;
      }
      if state.quarantined && !ProjectionIsFenced(state) && revision >= state.revision &&
         (state.removedRevision.None? || revision > state.removedRevision.value) {
        RestoreListed(groupID, revision);
        return ShowItem;
      }
      states := states[groupID := state];
      if state.quarantined { return Hidden; }
      var accepted := Accept(groupID, revision);
      if accepted { return ShowItem; }
      var removed := states[groupID].removedRevision.Some? && states[groupID].removedRevision.value != 0;
      if current && !removed { return ShowExisting; }
      return Hidden;
    }

    /** An authorized list lifts the quarantine; the lookup in flight is superseded and cancelled before. */
    method RestoreListed(groupID: GroupID, revision: nat)
      modifies this
      ensures states == old(states)[groupID :=
                AuthorizeListed(CancelRequest(Supersede(StateOf(old(states), groupID), revision)), revision)]
    {
      var state := StateOf(states, groupID);
      state := state.(requestedRevision := Max(state.requestedRevision, revision));
      state := state.(requestRevision := state.requestRevision + 1);
      states := states[groupID := state];
      UnsubscribeRequest(groupID);
      state := states[groupID];
      state := state.(revision := revision);
      state := state.(removedRevision := None);
      state := state.(quarantined := false);
      state := state.(failed := false);
      state := state.(departureReconciliationRequired := false);
      var context := state.context;
      state := state.(context := None);
      state := state.(projectionGeneration := state.projectionGeneration + 1);
      state := Emit(state, Authorized(revision, Restores(context), IntentOf(context), None));
      states := states[groupID := state];
    }

    /** A group an authoritative list leaves out is hidden or removed afterwards, whatever it was. */
    method ProjectUnlisted(groupID: GroupID, membershipRevision: nat)
      modifies this
      ensures states == old(states)[groupID := ProjectAbsence(StateOf(old(states), groupID), membershipRevision)]
      ensures states[groupID].quarantined || states[groupID].removedRevision.Some?
    {
      var state := StateOf(states, groupID);
      states := states[groupID := state];
      if !state.quarantined && state.removedRevision.None? {
        MarkRemoved(groupID, membershipRevision);
      }
    }

    /** An old event changes nothing; a newer one removes the group, or hides it while a lookup is in flight. */
    method ChangeMembership(groupID: GroupID, revision: nat, deleted: bool, context: Context)
      modifies this
      ensures states == old(states)[groupID := MembershipChanged(StateOf(old(states), groupID), revision, deleted,
              context)]
      ensures var s, state := StateOf(old(states), groupID), states[groupID];
              var isNew := revision > Max(s.revision, context.projectionRevision);
              && (!isNew ==> state == s)
              && (isNew ==> state.revision == revision)
              && (isNew && deleted ==> Fenced(state) && !state.inFlight)
              && (isNew && !deleted ==> state.quarantined && state.inFlight && state.requestedRevision >= revision)
    {
      var state := StateOf(states, groupID);
      var effectiveCurrentRevision := Max(state.revision, context.projectionRevision);
      states := states[groupID := state];
      if revision <= effectiveCurrentRevision { return; }
      MoveTo(groupID, revision);
      if deleted {
        LoseMembership(groupID, effectiveCurrentRevision, revision);
      } else {
        HideChanged(groupID, revision, context);
      }
    }

    /** A deletion right after a departure was asked for is remembered as that departure's. */
    method LoseMembership(groupID: GroupID, previous: nat, revision: nat)
      requires StateOf(states, groupID).revision == revision
      modifies this
      ensures var s := StateOf(old(states), groupID);
              states == old(states)[groupID := Remove(CancelRequest(
                if s.departure.Some? && previous == s.departure.value.revision
                then s.(departure := Some(s.departure.value.(removalObserved := true))) else s), revision)]
      ensures Fenced(states[groupID]) && !states[groupID].inFlight && states[groupID].revision == revision
    {
      var state := StateOf(states, groupID);
      if state.departure.Some? && previous == state.departure.value.revision {
        state := state.(departure := Some(state.departure.value.(removalObserved := true)));
      }
      states := states[groupID := state];
      UnsubscribeRequest(groupID);
      MarkRemoved(groupID, revision);
    }

    /** Any other change hides the group until a lookup shows what it is now. */
    method HideChanged(groupID: GroupID, revision: nat, context: Context)
      requires StateOf(states, groupID).revision == revision
      modifies this
      ensures var s := StateOf(old(states), groupID);
              states == old(states)[groupID := RequestGroup(Quarantine(
                if s.removedRevision.Some? && revision > s.removedRevision.value
                then s.(removedRevision := None) else s, context), revision, None)]
      ensures var state := states[groupID];
              state.quarantined && state.inFlight && state.requestedRevision >= revision == state.revision
    {
      var state := StateOf(states, groupID);
      if state.removedRevision.Some? && revision > state.removedRevision.value {
        state := state.(removedRevision := None);
      }
      states := states[groupID := state];
      Hide(groupID, context);
      Request(groupID, revision, None);
    }

    /** The group is hidden, a lookup is in flight, and a selected context is remembered. */
    method Verify(groupID: GroupID, context: Context)
      modifies this
      ensures states == old(states)[groupID := VerifyQuarantined(StateOf(old(states), groupID), context)]
      ensures var state := states[groupID];
              state.quarantined && state.inFlight && (context.selected ==> state.context.Some?)
    {
      var state := StateOf(states, groupID);
      if !state.quarantined {
        Hide(groupID, context);
      } else {
        if state.context.None? && context.selected {
          state := state.(context := Some(context));
        }
        states := states[groupID := state];
      }
      if !states[groupID].inFlight {
        Request(groupID, states[groupID].revision, Some(context));
      }
    }

    /** No group that waits is left without a lookup in flight; one that has a lookup is left alone. */
    method Retry(groupID: GroupID)
      modifies this
      ensures states == old(states)[groupID := RetryQuarantined(StateOf(old(states), groupID))]
      ensures var s, state := StateOf(old(states), groupID), states[groupID];
              && (state.quarantined || (state.departure.Some? && state.departure.value.removalObserved) ==>
                   state.inFlight)
              && (s.inFlight ==> state == s)
    {
      var state := StateOf(states, groupID);
      states := states[groupID := state];
      if (state.quarantined || (state.departure.Some? && state.departure.value.removalObserved)) && !state.inFlight {
        Request(groupID, state.revision, None);
      }
    }

    /** Looks again for every group that waits for it, one group after the other. */
    method RetryQuarantinedGroups()
      modifies this
      ensures states.Keys == old(states).Keys
      ensures forall g <- states :: states[g] == RetryQuarantined(old(states)[g])
    {
      var todo := states.Keys;
      while todo != {}
        invariant todo <= states.Keys == old(states).Keys
        invariant forall g <- states ::
                    states[g] == if g in todo then old(states)[g] else RetryQuarantined(old(states)[g])
        decreases |todo|
      {
        var g :| g in todo;
        Retry(g);
        todo := todo - {g};
      }
    }

    // ----- Departures ---------------------------------------------------------------------------

    /** One departure at a time, at the highest revision known, with the lookup in flight cancelled. */
    method BeginDeparture(groupID: GroupID, projectionRevision: nat, context: Context)
      modifies this
      ensures states == old(states)[groupID := Depart(StateOf(old(states), groupID), projectionRevision, context)]
      ensures var s, state := StateOf(old(states), groupID), states[groupID];
              && state.departure.Some? && (s.departure.Some? ==> state == s)
              && (s.departure.None? ==>
                    && state.departure.value.revision == state.revision == Max(s.revision, projectionRevision)
                    && state.request.None? && !state.inFlight)
    {
      var state := StateOf(states, groupID);
      states := states[groupID := state];
      if state.departure.Some? { return; }
      state := state.(revision := Max(state.revision, projectionRevision));
      state := state.(departure := Some(Departure(state.departuresBegun, state.revision, context, false)));
      state := state.(departuresBegun := state.departuresBegun + 1);
      state := state.(context := None);
      state := Emit(state, DeparturePending(state.revision));
      states := states[groupID := state];
      UnsubscribeRequest(groupID);
    }

    /** The group is hidden behind a new departure fence; no lookup begun before counts any more. */
    method BeginReconciliation(groupID: GroupID, departure: Departure)
      modifies this
      ensures states == old(states)[groupID := StartReconciliation(StateOf(old(states), groupID), departure)]
      ensures var s, state := StateOf(old(states), groupID), states[groupID];
              && state.quarantined && state.departureReconciliationRequired && !state.inFlight
              && state.departureFence == Some(Fence(state.departureGeneration, departure.revision))
              && state.departureGeneration > s.departureGeneration && state.requestRevision > s.requestRevision
    {
      var state := StateOf(states, groupID);
      state := state.(quarantined := true);
      state := state.(failed := false);
      state := state.(context := Some(departure.context));
      state := state.(departureGeneration := state.departureGeneration + 1);
      state := state.(departureFence := Some(Fence(state.departureGeneration, departure.revision)));
      state := state.(departureReconciliationRequired := true);
      states := states[groupID := state];
      UnsubscribeRequest(groupID);
      state := states[groupID];
      state := state.(requestRevision := state.requestRevision + 1);
      state := Emit(state, DepartureReconciling(departure.revision));
      states := states[groupID := state];
    }

    /**
     * The pending departure ends.  If something newer had been seen and no removal, the group is hidden behind a
     * new departure fence and a lookup of the new generation is in flight.
     */
    method DepartureReplied(groupID: GroupID, id: nat)
      modifies this
      ensures states == old(states)[groupID := DepartureSucceeds(StateOf(old(states), groupID), id)]
      ensures var s, state := StateOf(old(states), groupID), states[groupID];
              && (s.departure.None? || s.departure.value.id != id ==> state == s)
              && (s.departure.Some? && s.departure.value.id == id ==> state.departure.None?)
              && (state.departureGeneration != s.departureGeneration ==> Reconciling(s, state, id))
    {
      DepartureSuccess(StateOf(states, groupID), id);
      var state := StateOf(states, groupID);
      states := states[groupID := state];
      if state.departure.None? || state.departure.value.id != id { return; }
      var departure := state.departure.value;
      if departure.removalObserved && state.removedRevision.Some? {
        Finish(groupID);
        return;
      }
      var reconcileAfterDeparture := false;
      if state.revision > departure.revision {
        BeginReconciliation(groupID, departure);
        reconcileAfterDeparture := true;
      } else if state.revision == departure.revision {
        MarkRemoved(groupID, departure.revision);
      }
      Finish(groupID);
      if reconcileAfterDeparture {
        Fetch(groupID);
      }
    }

    /** The pending departure is given up; unless a removal was seen the group is hidden and looked up again. */
    method DepartureErrored(groupID: GroupID, id: nat)
      modifies this
      ensures states == old(states)[groupID := DepartureFails(StateOf(old(states), groupID), id)]
      ensures var s, state := StateOf(old(states), groupID), states[groupID];
              && (s.departure.None? || s.departure.value.id != id ==> state == s)
              && (s.departure.Some? && s.departure.value.id == id ==>
                    state.departure.None? && (!s.departure.value.removalObserved ==> state.quarantined && Asked(state)))
    {
      var state := StateOf(states, groupID);
      states := states[groupID := state];
      if state.departure.None? || state.departure.value.id != id { return; }
      if !state.departure.value.removalObserved {
        HideAgain(groupID, state.departure.value.context);
      }
      state := Emit(states[groupID], DepartureFinished(true));
      state := state.(departure := None);
      states := states[groupID := state];
    }

    /** The response is ambiguous: the group is hidden at once, and a fresh lookup says what it is. */
    method HideAgain(groupID: GroupID, context: Context)
      modifies this
      ensures var q := CancelRequest(Quarantine(StateOf(old(states), groupID), context));
              states == old(states)[groupID := FetchLatest(q.(requestRevision := q.requestRevision + 1))]
      ensures states[groupID].quarantined && Asked(states[groupID])
    {
      Hide(groupID, context);
      UnsubscribeRequest(groupID);
      var state := states[groupID];
      state := state.(requestRevision := state.requestRevision + 1);
      states := states[groupID := state];
      Fetch(groupID);
    }

    // ----- Late replies -------------------------------------------------------------------------

    /**
     * Such a reply shows a hidden group only if a newer request superseded it, it is newer than all that is known,
     * and no departure fences it.  Another lookup is wanted only after a superseded reply.
     */
    method RejectLate(groupID: GroupID, id: nat, l: Lookup, group: Projection) returns (retryAfterCompletion: bool)
      modifies this
      ensures var (state, retry) := RejectReply(StateOf(old(states), groupID), id, l, group);
              states == old(states)[groupID := state] && retryAfterCompletion == retry
      ensures var s, state := StateOf(old(states), groupID), states[groupID];
              && (Restored(s, state) ==>
                    && group.sameGroup && state.revision == group.membershipRevision > s.revision
                    && l.fetchRevision != s.requestRevision && !ProjectionIsFenced(s) && !BegunBeforeFence(s, l, group))
              && (retryAfterCompletion ==> l.fetchRevision != s.requestRevision && state.departure.None?)
    {
      retryAfterCompletion := false;
      var state := StateOf(states, groupID);
      var superseded := l.fetchRevision != state.requestRevision;
      if group.sameGroup && group.membershipRevision > state.revision && superseded &&
         (state.removedRevision.None? || group.membershipRevision > state.removedRevision.value) {
        state := state.(revision := group.membershipRevision);
        if ProjectionIsFenced(state) || BegunBeforeFence(state, l, group) {
          state := state.(quarantined := true);
          state := state.(failed := false);
        } else {
          state := state.(removedRevision := None);
          state := state.(quarantined := false);
          state := state.(failed := false);
          state := state.(projectionGeneration := state.projectionGeneration + 1);
          state := Emit(state, Authorized(group.membershipRevision, false, None, Some(id)));
        }
      }
      if superseded && state.departure.None? && !(state.removedRevision.Some? && !state.quarantined) {
        retryAfterCompletion := true;
      } else if !superseded {
        state := state.(failed := state.quarantined);
        state := Emit(state, Retryable("unavailable", state.quarantined));
      }
      states := states[groupID := state];
    }

    /** A lookup begun before a departure succeeded cannot restore the group, whatever it shows. */
    method HideStale(groupID: GroupID, revision: nat)
      modifies this
      ensures states == old(states)[groupID := HideNewer(StateOf(old(states), groupID), revision)]
      ensures states[groupID].quarantined && states[groupID].revision >= revision
    {
      var state := StateOf(states, groupID);
      state := state.(revision := Max(state.revision, revision));
      state := state.(quarantined := true);
      state := state.(failed := false);
      states := states[groupID := state];
    }

    /** The reply asked for last shows the group with its revision and may end a reconciliation. */
    method AcceptLookup(groupID: GroupID, id: nat, l: Lookup, group: Projection)
      modifies this
      ensures states == old(states)[groupID := AcceptReply(StateOf(old(states), groupID), id, l, group)]
      ensures var s, state := StateOf(old(states), groupID), states[groupID];
              && !state.quarantined && state.removedRevision.None? && state.revision == group.membershipRevision
              && (s.departureReconciliationRequired && !state.departureReconciliationRequired ==>
                    s.departureFence.Some? && l.departureGeneration >= s.departureFence.value.generation)
    {
      var state := StateOf(states, groupID);
      state := state.(revision := group.membershipRevision);
      state := state.(removedRevision := None);
      state := state.(quarantined := false);
      state := state.(failed := false);
      if state.departureFence.Some? && l.departureGeneration >= state.departureFence.value.generation {
        state := state.(departureReconciliationRequired := false);
      }
      var context := state.context;
      state := state.(context := None);
      state := state.(projectionGeneration := state.projectionGeneration + 1);
      state := Emit(state, Authorized(group.membershipRevision, Restores(context), IntentOf(context), Some(id)));
      states := states[groupID := state];
    }

    /**
     * A reply shows a hidden group only with a revision that is not old and passes the departure fence, and never
     * above a pending departure's; such a revision hides the group instead.
     */
    method ReplyReceived(groupID: GroupID, id: nat, l: Lookup, group: Projection) returns (retryAfterCompletion: bool)
      modifies this
      ensures var (state, retry) := HandleReply(StateOf(old(states), groupID), id, l, group);
              states == old(states)[groupID := state] && retryAfterCompletion == retry
      ensures var s, state := StateOf(old(states), groupID), states[groupID];
              && (Restored(s, state) ==>
                    && group.sameGroup && state.revision == group.membershipRevision >= s.revision
                    && state.removedRevision.None? && !BegunBeforeFence(s, l, group))
              && (s.departure.Some? && group.sameGroup && group.membershipRevision > s.departure.value.revision ==>
                    state.quarantined && state.revision >= group.membershipRevision)
    {
      ReplyShows(StateOf(states, groupID), id, l, group);
      retryAfterCompletion := false;
      var state := StateOf(states, groupID);
      states := states[groupID := state];
      if state.departure.Some? && group.sameGroup && group.membershipRevision > state.departure.value.revision {
        HideDeparting(groupID, group.membershipRevision);
        return;
      }
      if group.sameGroup && BegunBeforeFence(state, l, group) {
        HideStale(groupID, group.membershipRevision);
        retryAfterCompletion := l.fetchRevision != state.requestRevision;
        return;
      }
      if state.departure.Some? && state.departure.value.removalObserved && state.removedRevision.Some? {
        Finish(groupID);
        return;
      }
      if state.departure.Some? && state.departure.value.removalObserved && !state.quarantined {
        MarkRemoved(groupID, Max(l.targetRevision, state.revision));
        return;
      }
      if !group.sameGroup || group.membershipRevision < Max(l.targetRevision, state.revision) ||
         (state.removedRevision.Some? && group.membershipRevision <= state.removedRevision.value) ||
         l.fetchRevision != state.requestRevision {
        retryAfterCompletion := RejectLate(groupID, id, l, group);
        return;
      }
      if state.departure.Some? && state.revision > state.departure.value.revision {
        // Such a reply was taken care of above.
        assert false;
      }
      AcceptLookup(groupID, id, l, group);
    }

    /**
     * An error other than "not found" never shows a hidden group; a superseded one changes nothing, and
     * "not found" removes the group.
     */
    method ErrorReceived(groupID: GroupID, l: Lookup, error: LookupError) returns (retryAfterCompletion: bool)
      modifies this
      ensures var (state, retry) := HandleError(StateOf(old(states), groupID), l, error);
              states == old(states)[groupID := state] && retryAfterCompletion == retry
      ensures var s, state := StateOf(old(states), groupID), states[groupID];
              && (retryAfterCompletion <==> l.fetchRevision != s.requestRevision)
              && (retryAfterCompletion ==> state == s)
              && (!retryAfterCompletion && error == NotFound ==>
                    Fenced(state) && state.removedRevision.value >= Max(l.targetRevision, s.revision))
              && (error != NotFound ==> !Restored(s, state))
    {
      retryAfterCompletion := false;
      var state := StateOf(states, groupID);
      states := states[groupID := state];
      if l.fetchRevision != state.requestRevision { return true; }
      if state.departure.Some? && state.revision > state.departure.value.revision &&
         !state.departure.value.removalObserved {
        Hide(groupID, state.departure.value.context);
        state := states[groupID];
        state := state.(failed := true);
        state := state.(departure := None);
        state := Emit(state, DepartureFinished(true));
        states := states[groupID := state];
      }
      match error {
        case NotFound =>
          MarkRemoved(groupID, Max(l.targetRevision, state.revision));
        case Failure(reason) =>
          if state.departure.Some? && state.departure.value.removalObserved {
            state := state.(failed := true);
          } else {
            state := state.(failed := state.quarantined);
          }
          state := Emit(state, Retryable(reason, state.quarantined));
          states := states[groupID := state];
      }
    }

    /** The lookup is over; another is in flight exactly when one was wanted and the group is not settled as removed. */
    method Finalize(groupID: GroupID, id: nat, retryAfterCompletion: bool)
      modifies this
      ensures states == old(states)[groupID := Complete(StateOf(old(states), groupID), id, retryAfterCompletion)]
      ensures var s, state := StateOf(old(states), groupID), states[groupID];
              && (state.inFlight <==> retryAfterCompletion && !(state.removedRevision.Some? && !state.quarantined))
              && (state.inFlight ==> Asked(state))
              && (id < s.lookupsBegun ==> id !in state.lookups)
    {
      var state := StateOf(states, groupID);
      state := state.(lookups := state.lookups - {id});
      if state.request == Some(id) {
        state := state.(request := None);
      }
      state := state.(inFlight := false);
      states := states[groupID := state];
      if retryAfterCompletion && !(state.removedRevision.Some? && !state.quarantined) {
        Fetch(groupID);
      }
    }

    /** A reply to a live lookup is handled and the lookup ends; any other reply changes nothing. */
    method LookupReplied(groupID: GroupID, id: nat, group: Projection)
      modifies this
      ensures states == old(states)[groupID := LookupReplies(StateOf(old(states), groupID), id, group)]
      ensures id !in StateOf(old(states), groupID).lookups ==> states[groupID] == StateOf(old(states), groupID)
    {
      var state := StateOf(states, groupID);
      states := states[groupID := state];
      if id in state.lookups {
        var retryAfterCompletion := ReplyReceived(groupID, id, state.lookups[id], group);
        Finalize(groupID, id, retryAfterCompletion);
      }
    }

    method LookupErrored(groupID: GroupID, id: nat, error: LookupError)
      modifies this
      ensures states == old(states)[groupID := LookupFails(StateOf(old(states), groupID), id, error)]
      ensures id !in StateOf(old(states), groupID).lookups ==> states[groupID] == StateOf(old(states), groupID)
    {
      var state := StateOf(states, groupID);
      states := states[groupID := state];
      if id in state.lookups {
        var retryAfterCompletion := ErrorReceived(groupID, state.lookups[id], error);
        Finalize(groupID, id, retryAfterCompletion);
      }
    }

    // ----- The conversation list ----------------------------------------------------------------

    /**
     * Shows what the fetched list and the groups' fences allow.  Whatever was shown is afterwards
     * neither quarantined nor fenced, except a caller's own copy kept behind a fence at revision 0.
     */
    method ProjectConversationList(items: seq<Conversation>, currentGroups: seq<Conversation>,
                                   authoritativeAbsence: bool)
      returns (projected: seq<Conversation>)
      modifies this
      ensures (states, projected) == ProjectList(old(states), items, currentGroups, authoritativeAbsence)
    {
      projected := [];
      var i := 0;
      while i < |items|
        invariant 0 <= i <= |items|
        invariant (states, projected) == ListItems(old(states), items[..i], currentGroups)
      {
        var item := items[i];
        assert items[..i + 1][..i] == items[..i];
        if item.Direct? {
          projected := projected + [item];
        } else {
          var existing := CurrentCopy(currentGroups, item.id);
          var shown := ProjectListed(item.id, item.membershipRevision, existing.Some?);
          match shown {
            case ShowItem => projected := projected + [item];
            case ShowExisting =>
              if existing.Some? {
                projected := projected + [existing.value];
              } else {
                assert projected + [] == projected;
              }
            case Hidden => assert projected + [] == projected;
          }
        }
        i := i + 1;
      }
      assert items[..i] == items;
      if !authoritativeAbsence { return; }
      ghost var listed := states;
      i := 0;
      while i < |currentGroups|
        invariant 0 <= i <= |currentGroups|
        invariant states == ListAbsences(listed, items, currentGroups[..i])
      {
        var group := currentGroups[i];
        assert currentGroups[..i + 1][..i] == currentGroups[..i];
        if group.Group? && !Listed(items, group.id) {
          ProjectUnlisted(group.id, group.membershipRevision);
        }
        i := i + 1;
      }
      assert currentGroups[..i] == currentGroups;
    }
  }

  // ----- Facts about departures and replies -----------------------------------------------------

  /** Departure `id` ended behind something newer: hidden, a new fence, and a lookup of the new generation. */
  predicate Reconciling(s: State, t: State, id: nat) {
    && s.departure.Some? && s.departure.value.id == id && s.revision > s.departure.value.revision
    && !(s.departure.value.removalObserved && s.removedRevision.Some?)
    && t.quarantined && t.departureReconciliationRequired && Asked(t)
    && t.departureFence == Some(Fence(t.departureGeneration, s.departure.value.revision))
  }

  /** A departure that ended opens a new departure generation exactly when it must be reconciled. */
  lemma DepartureSuccess(s: State, id: nat)
    ensures var t := DepartureSucceeds(s, id);
            && (s.departure.Some? && s.departure.value.id == id ==> t.departure.None?)
            && (t.departureGeneration != s.departureGeneration <==> Reconciling(s, t, id))
  {
  }

  /** A reply shows a hidden group only with a revision that is not old and passes the departure fence. */
  lemma ReplyShows(s: State, id: nat, l: Lookup, group: Projection)
    ensures var t := HandleReply(s, id, l, group).0;
            Restored(s, t) ==>
              && group.sameGroup && t.revision == group.membershipRevision >= s.revision
              && t.removedRevision.None? && !BegunBeforeFence(s, l, group)
  {
  }
}
