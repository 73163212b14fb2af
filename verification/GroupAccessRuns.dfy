/**
 * What the fences guarantee over whole runs, in terms of the log alone: after a removal only newer
 * revisions are authorized, a pending departure hides newer revisions, and a departure that found a
 * newer revision is undone only by a lookup begun after it.
 */
module GroupAccessRuns {
  import opened Options
  import opened GroupAccess
  import opened GroupAccessFences

  // ----- The fences, read off the log ---------------------------------------------------------

  function Entries(log: Log): seq<Entry> {
    match log
    case Start => []
    case Then(before, e) => Entries(before) + [e]
  }

  lemma {:induction false} RemovalSeen(log: Log, i: nat)
    requires i < |Entries(log)| && Entries(log)[i].Removed?
    ensures WatchOf(log).removed.Some? && WatchOf(log).removed.value >= Entries(log)[i].revision
  {
    if i < |Entries(log)| - 1 {
      RemovalSeen(log.before, i);
    }
  }

  lemma {:induction false} AuthorizedAboveRemoval(log: Log, i: nat, j: nat)
    requires AllAllowed(log) && i < j < |Entries(log)|
    requires Entries(log)[i].Removed? && Entries(log)[j].Authorized?
    ensures Entries(log)[j].revision > Entries(log)[i].revision
  {
    if j < |Entries(log)| - 1 {
      AuthorizedAboveRemoval(log.before, i, j);
    } else {
      RemovalSeen(log.before, i);
    }
  }

  predicate NoneBetween(entries: seq<Entry>, i: nat, j: nat, stop: Entry -> bool)
    requires j <= |entries|
  {
    forall k :: i < k < j ==> !stop(entries[k])
  }

  predicate EndsDeparture(e: Entry) { e.DepartureFinished? }

  predicate EndsReconciliation(e: Entry) { e.Authorized? || e.Removed? }

  lemma {:induction false} DepartureStaysOpen(log: Log, i: nat)
    requires AllAllowed(log) && i < |Entries(log)| && Entries(log)[i].DeparturePending?
    requires NoneBetween(Entries(log), i, |Entries(log)|, EndsDeparture)
    ensures WatchOf(log).departing == Some(Entries(log)[i].revision)
  {
    if i < |Entries(log)| - 1 {
      var last := |Entries(log)| - 1;
      assert Entries(log)[last] == log.entry;
      assert forall k :: i < k < last ==> Entries(log.before)[k] == Entries(log)[k];
      DepartureStaysOpen(log.before, i);
    }
  }

  lemma {:induction false} AuthorizedBelowDeparture(log: Log, i: nat, j: nat)
    requires AllAllowed(log) && i < j < |Entries(log)|
    requires Entries(log)[i].DeparturePending? && Entries(log)[j].Authorized?
    requires NoneBetween(Entries(log), i, j, EndsDeparture)
    ensures Entries(log)[j].revision <= Entries(log)[i].revision
  {
    assert forall k :: 0 <= k < |Entries(log)| - 1 ==> Entries(log.before)[k] == Entries(log)[k];
    if j < |Entries(log)| - 1 {
      AuthorizedBelowDeparture(log.before, i, j);
    } else {
      DepartureStaysOpen(log.before, i);
    }
  }

  /** Whatever counts as begun since reconciling did begin since. */
  lemma {:induction false} BegunSince(log: Log, i: nat)
    requires i < |Entries(log)| && Entries(log)[i].DepartureReconciling?
    requires NoneBetween(Entries(log), i, |Entries(log)|, EndsReconciliation)
    ensures WatchOf(log).begunSince.Some?
    ensures forall id <- WatchOf(log).begunSince.value :: exists k ::
            i < k < |Entries(log)| && Entries(log)[k] == LookupBegan(id)
  {
    var n := |Entries(log)|;
    if i < n - 1 {
      assert Entries(log)[n - 1] == log.entry;
      assert forall k :: 0 <= k < n - 1 ==> Entries(log.before)[k] == Entries(log)[k];
      BegunSince(log.before, i);
      forall id | id in WatchOf(log).begunSince.value
        ensures exists k :: i < k < n && Entries(log)[k] == LookupBegan(id)
      {
        if id in WatchOf(log.before).begunSince.value {
          var k :| i < k < n - 1 && Entries(log.before)[k] == LookupBegan(id);
          assert Entries(log)[k] == LookupBegan(id);
        } else {
          assert Entries(log)[n - 1] == LookupBegan(id);
        }
      }
    }
  }

  lemma {:induction false} AuthorizedByLaterLookup(log: Log, i: nat, j: nat)
    requires AllAllowed(log) && i < j < |Entries(log)|
    requires Entries(log)[i].DepartureReconciling? && Entries(log)[j].Authorized?
    requires NoneBetween(Entries(log), i, j, EndsReconciliation)
    ensures Entries(log)[j].lookup.Some?
    ensures exists k :: i < k < j && Entries(log)[k] == LookupBegan(Entries(log)[j].lookup.value)
  {
    var n := |Entries(log)|;
    assert forall k :: 0 <= k < n - 1 ==> Entries(log.before)[k] == Entries(log)[k];
    if j < n - 1 {
      AuthorizedByLaterLookup(log.before, i, j);
      var k :| i < k < j && Entries(log.before)[k] == LookupBegan(Entries(log)[j].lookup.value);
      assert Entries(log)[k] == Entries(log.before)[k];
    } else {
      BegunSince(log.before, i);
      var k :| i < k < n - 1 && Entries(log.before)[k] == LookupBegan(Entries(log)[j].lookup.value);
      assert Entries(log)[k] == Entries(log.before)[k];
    }
  }

  // ----- Theorems over every run --------------------------------------------------------------

  /** After a removal at revision R no authorization at or below R is ever reported. */
  lemma {:induction false} RemovalFence(events: seq<Event>, i: nat, j: nat)
    ensures var log := Entries(Run(NEW_STATE, events).log);
            i < j < |log| && log[i].Removed? && log[j].Authorized? ==> log[j].revision > log[i].revision
  {
    RunKeepsInvariant(NEW_STATE, events);
    var s := Run(NEW_STATE, events);
    if i < j < |Entries(s.log)| && Entries(s.log)[i].Removed? && Entries(s.log)[j].Authorized? {
      AuthorizedAboveRemoval(s.log, i, j);
    }
  }

  /** While a departure at revision d is pending, nothing above d is authorized. */
  lemma {:induction false} DepartureFence(events: seq<Event>, i: nat, j: nat)
    ensures var log := Entries(Run(NEW_STATE, events).log);
            i < j < |log| && log[i].DeparturePending? && log[j].Authorized? && NoneBetween(log, i, j, EndsDeparture)
            ==> log[j].revision <= log[i].revision
  {
    RunKeepsInvariant(NEW_STATE, events);
    var s := Run(NEW_STATE, events);
    var log := Entries(s.log);
    if i < j < |log| && log[i].DeparturePending? && log[j].Authorized? && NoneBetween(log, i, j, EndsDeparture) {
      AuthorizedBelowDeparture(s.log, i, j);
    }
  }

  /**
   * After a departure that succeeded with a newer revision already seen, the next authorization, if
   * no removal came first, is by a lookup that began after that success.
   */
  lemma {:induction false} ReconciliationFence(events: seq<Event>, i: nat, j: nat)
    ensures var log := Entries(Run(NEW_STATE, events).log);
            i < j < |log| && log[i].DepartureReconciling? && log[j].Authorized? &&
                NoneBetween(log, i, j, EndsReconciliation)
            ==> log[j].lookup.Some? && exists k :: i < k < j && log[k] == LookupBegan(log[j].lookup.value)
  {
    RunKeepsInvariant(NEW_STATE, events);
    var s := Run(NEW_STATE, events);
    var log := Entries(s.log);
    if i < j < |log| && log[i].DepartureReconciling? && log[j].Authorized? &&
        NoneBetween(log, i, j, EndsReconciliation) {
      AuthorizedByLaterLookup(s.log, i, j);
    }
  }

  lemma ReplyRevision(s: State, id: nat, l: Lookup, g: Projection)
    ensures s.revision <= HandleReply(s, id, l, g).0.revision
  {
    assert s.revision <= RejectReply(s, id, l, g).0.revision;
  }

  lemma ErrorRevision(s: State, l: Lookup, error: LookupError)
    ensures s.revision <= HandleError(s, l, error).0.revision
  {
  }

  lemma DepartureRevision(s: State, id: nat)
    ensures s.revision <= DepartureSucceeds(s, id).revision
  {
    if s.departure.Some? {
      assert StartReconciliation(s, s.departure.value).revision == s.revision;
    }
  }

  lemma DepartureErrorRevision(s: State, id: nat)
    ensures DepartureFails(s, id).revision == s.revision
  {
    if s.departure.Some? {
      assert CancelRequest(Quarantine(s, s.departure.value.context)).revision == s.revision;
    }
  }

  lemma MembershipRevision(s: State, revision: nat, deleted: bool, c: Context)
    ensures s.revision <= MembershipChanged(s, revision, deleted, c).revision
  {
  }

  lemma ProjectItemRevision(s: State, revision: nat, current: bool)
    ensures s.revision <= ProjectItem(s, revision, current).0.revision
  {
  }

  lemma CompletionRevision(s: State, id: nat, retry: bool)
    ensures Complete(s, id, retry).revision == s.revision
  {
  }

  lemma RevisionNeverDecreases(s: State, e: Event)
    ensures s.revision <= Step(s, e).revision
  {
    match e {
      case EvLookupReplies(id, g) =>
        if id in s.lookups {
          var (t, retry) := HandleReply(s, id, s.lookups[id], g);
          ReplyRevision(s, id, s.lookups[id], g);
          CompletionRevision(t, id, retry);
        }
      case EvLookupFails(id, error) =>
        if id in s.lookups {
          var (t, retry) := HandleError(s, s.lookups[id], error);
          ErrorRevision(s, s.lookups[id], error);
          CompletionRevision(t, id, retry);
        }
      case EvMembershipChanged(r, deleted, c) => MembershipRevision(s, r, deleted, c);
      case EvProjectItem(r, current) => ProjectItemRevision(s, r, current);
      case EvDepartureSucceeds(id) => DepartureRevision(s, id);
      case EvDepartureFails(id) => DepartureErrorRevision(s, id);
      case EvDefinitiveRemoval(r) => assert CancelRequest(s).revision == s.revision;
      case EvVerifyQuarantined(c) => assert Quarantine(s, c).revision == s.revision;
      case _ =>
    }
  }

  /** After every run the revisions are ordered and a required reconciliation keeps the group hidden. */
  lemma {:induction false} StateInvariant(events: seq<Event>)
    ensures RevisionsOrdered(Run(NEW_STATE, events))
  {
    RunKeepsInvariant(NEW_STATE, events);
  }

  /** A projection is accepted for display only above every removal reported so far. */
  lemma {:induction false} AcceptedAboveRemovals(events: seq<Event>, revision: nat, i: nat)
    ensures var s := Run(NEW_STATE, events);
            AcceptProjection(s, revision).1 && i < |Entries(s.log)| && Entries(s.log)[i].Removed? ==>
              revision > Entries(s.log)[i].revision && !s.quarantined
  {
    RunKeepsInvariant(NEW_STATE, events);
    var s := Run(NEW_STATE, events);
    if i < |Entries(s.log)| && Entries(s.log)[i].Removed? {
      RemovalSeen(s.log, i);
    }
  }

  // ----- Lists --------------------------------------------------------------------------------

  /**
   * A group a list leaves on display is not quarantined, and it is behind a removal fence exactly
   * when the fence stands at revision 0 and the caller's own copy, older than the known revision, is kept.
   */
  lemma ShownGroupIsAccessible(s: State, revision: nat, current: bool)
    requires revision >= 1
    ensures var (t, shown) := ProjectItem(s, revision, current);
            shown != Hidden ==>
              && !t.quarantined
              && (t.removedRevision.Some? <==>
                   s.removedRevision == Some(0) && revision < s.revision && shown == ShowExisting)
  {
  }

  /** The exception is reachable: a lookup answered "not found" before any revision was known. */
  lemma RemovedAtZeroStaysShown(c: Context)
    ensures var s := Run(NEW_STATE, [EvConversationCreated(c), EvLookupFails(0, NotFound), EvMarkAuthorized(5)]);
            && s.removedRevision == Some(0)
            && ProjectItem(s, 3, true) == (s, ShowExisting)
  {
    var s1 := Step(NEW_STATE, EvConversationCreated(c));
    var s2 := Step(s1, EvLookupFails(0, NotFound));
    var s3 := Step(s2, EvMarkAuthorized(5));
    var events := [EvConversationCreated(c), EvLookupFails(0, NotFound), EvMarkAuthorized(5)];
    assert Run(NEW_STATE, events) == Run(s1, events[1..]) == Run(s2, events[2..]) == s3;
  }
}
