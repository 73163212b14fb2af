/** Exactly what a projected list shows, and what it does to the groups it names and leaves out. */
module GroupAccessListing {
  import opened Options
  import opened GroupAccess
  import opened GroupAccessFences
  import opened GroupAccessLists
  import opened GroupAccessMeaning
  import opened GroupAccessOutcomes

  /** The list's own item is shown: it is not old, above every removal, and nothing hides the group. */
  predicate ShowsOwn(s: State, revision: nat) {
    && revision >= s.revision && AboveRemoval(s, revision) && !AboveDeparture(s, revision)
    && (s.quarantined ==> s.departure.None? && !s.departureReconciliationRequired)
  }

  /** The copy already shown stays: the item is old, and the group is neither hidden nor removed above revision 0. */
  predicate KeepsCopy(s: State, revision: nat) {
    && !ShowsOwn(s, revision) && !AboveDeparture(s, revision) && !s.quarantined
    && (s.removedRevision.Some? ==> s.removedRevision.value == 0)
  }

  lemma ItemExactly(s: State, revision: nat, current: bool)
    requires RevisionsOrdered(s)
    ensures var shown := ProjectItem(s, revision, current).1;
            && (shown == ShowItem <==> ShowsOwn(s, revision))
            && (shown == ShowExisting <==> current && KeepsCopy(s, revision))
  {
  }

  /** The last of the groups with the ID. */
  predicate IsLastCopy(groups: seq<Conversation>, g: GroupID, k: int) {
    && 0 <= k < |groups| && groups[k].Group? && groups[k].id == g
    && forall j :: k < j < |groups| ==> !(groups[j].Group? && groups[j].id == g)
  }

  lemma {:induction false} CopyExactly(groups: seq<Conversation>, g: GroupID) returns (k: int)
    ensures CurrentCopy(groups, g).Some? ==> IsLastCopy(groups, g, k) && CurrentCopy(groups, g).value == groups[k]
    ensures CurrentCopy(groups, g).None? ==>
              forall j :: 0 <= j < |groups| ==> !(groups[j].Group? && groups[j].id == g)
  {
    k := 0;
    if groups != [] {
      var n := |groups| - 1;
      if groups[n].Group? && groups[n].id == g { k := n; } else { k := CopyExactly(groups[..n], g); }
    }
  }

  /** What one item contributes to the projected list, by the states before the list arrived. */
  function Piece(states: States, item: Conversation, groups: seq<Conversation>): seq<Conversation> {
    if item.Direct? then [item]
    else
      var s, copy := StateOf(states, item.id), CurrentCopy(groups, item.id);
      if ShowsOwn(s, item.membershipRevision) then [item]
      else if copy.Some? && KeepsCopy(s, item.membershipRevision) then [copy.value]
      else []
  }

  function Pieces(states: States, items: seq<Conversation>, groups: seq<Conversation>): seq<Conversation> {
    if items == [] then []
    else Pieces(states, items[..|items| - 1], groups) + Piece(states, items[|items| - 1], groups)
  }

  lemma NotBefore(items: seq<Conversation>)
    requires DistinctGroups(items) && items != [] && items[|items| - 1].Group?
    ensures forall item <- items[..|items| - 1] :: item.Group? ==> item.id != items[|items| - 1].id
  {
    var n := |items| - 1;
    forall item | item in items[..n] && item.Group? ensures item.id != items[n].id {
      var k :| 0 <= k < n && items[..n][k] == item;
      assert items[k] == item;
    }
  }

  lemma {:induction false} ItemsExactly(states: States, items: seq<Conversation>, groups: seq<Conversation>)
    requires DistinctGroups(items) && AllInvariant(states)
    ensures ListItems(states, items, groups).1 == Pieces(states, items, groups)
  {
    if items != [] {
      var n := |items| - 1;
      ItemsExactly(states, items[..n], groups);
      if items[n].Group? {
        NotBefore(items);
        UnlistedUntouched(states, items[..n], groups, items[n].id);
        NewStateInvariant();
        ItemExactly(StateOf(states, items[n].id), items[n].membershipRevision,
                    CurrentCopy(groups, items[n].id).Some?);
      }
    }
  }

  /** The projected list: every direct conversation, and of each listed group its item, the copy shown or nothing. */
  lemma {:induction false} ListExactly(states: States, items: seq<Conversation>, groups: seq<Conversation>,
                                       authoritativeAbsence: bool)
    requires DistinctGroups(items) && AllInvariant(states)
    ensures ProjectList(states, items, groups, authoritativeAbsence).1 == Pieces(states, items, groups)
  {
    ItemsExactly(states, items, groups);
  }

  /** What the list makes of a group it names is what its item makes of it. */
  lemma {:induction false} ListedGroup(states: States, items: seq<Conversation>, groups: seq<Conversation>,
                                       authoritativeAbsence: bool, i: nat)
    requires DistinctGroups(items) && AllInvariant(states) && i < |items| && items[i].Group?
    ensures var g := items[i].id;
            var t := StateOf(ProjectList(states, items, groups, authoritativeAbsence).0, g);
            Shows(StateOf(states, g), EvProjectItem(items[i].membershipRevision, CurrentCopy(groups, g).Some?), t)
  {
    var g := items[i].id;
    ListedOnce(states, items, groups, i);
    assert items[i] in items && Listed(items, g);
    ListedKeptByAbsences(ListItems(states, items, groups).0, items, groups, g);
    NewStateInvariant();
    ShowsExactly(StateOf(states, g), EvProjectItem(items[i].membershipRevision, CurrentCopy(groups, g).Some?));
  }

  predicate Shown(groups: seq<Conversation>, g: GroupID) {
    exists k :: 0 <= k < |groups| && groups[k].Group? && groups[k].id == g
  }

  lemma ShownNext(groups: seq<Conversation>, g: GroupID)
    requires groups != []
    ensures var n := |groups| - 1;
            Shown(groups, g) <==> Shown(groups[..n], g) || (groups[n].Group? && groups[n].id == g)
  {
    var n := |groups| - 1;
    assert forall k :: 0 <= k < n ==> groups[..n][k] == groups[k];
  }

  lemma {:induction false} AbsentUntouched(states: States, items: seq<Conversation>, groups: seq<Conversation>,
                                           g: GroupID)
    requires Listed(items, g) || !Shown(groups, g)
    ensures StateOf(ListAbsences(states, items, groups), g) == StateOf(states, g)
  {
    if groups != [] {
      var n := |groups| - 1;
      ShownNext(groups, g);
      AbsentUntouched(states, items, groups[..n], g);
    }
  }

  /** A group the list does not name is left alone, unless absence counts and it is shown. */
  lemma {:induction false} UnnamedGroup(states: States, items: seq<Conversation>, groups: seq<Conversation>,
                                        authoritativeAbsence: bool, g: GroupID)
    requires !Listed(items, g) && (!authoritativeAbsence || !Shown(groups, g))
    ensures StateOf(ProjectList(states, items, groups, authoritativeAbsence).0, g) == StateOf(states, g)
  {
    UnlistedUntouched(states, items, groups, g);
    if authoritativeAbsence { AbsentUntouched(ListItems(states, items, groups).0, items, groups, g); }
  }

  lemma {:induction false} AbsentRemoved(states: States, items: seq<Conversation>, groups: seq<Conversation>,
                                         g: GroupID)
    requires !Listed(items, g) && Shown(groups, g)
    ensures var s, t := StateOf(states, g), StateOf(ListAbsences(states, items, groups), g);
            if s.quarantined || s.removedRevision.Some? then t == s
            else t.removedRevision.Some? && !t.quarantined && t.revision >= s.revision
  {
    var n := |groups| - 1;
    ShownNext(groups, g);
    if Shown(groups[..n], g) {
      AbsentRemoved(states, items, groups[..n], g);
    } else {
      AbsentUntouched(states, items, groups[..n], g);
    }
  }

  /** A group shown so far that an authoritative list leaves out is removed, unless it is hidden or removed already. */
  lemma {:induction false} AbsentGroup(states: States, items: seq<Conversation>, groups: seq<Conversation>, g: GroupID)
    requires !Listed(items, g) && Shown(groups, g)
    ensures var s, t := StateOf(states, g), StateOf(ProjectList(states, items, groups, true).0, g);
            if s.quarantined || s.removedRevision.Some? then t == s
            else t.removedRevision.Some? && !t.quarantined && t.revision >= s.revision
  {
    UnlistedUntouched(states, items, groups, g);
    AbsentRemoved(ListItems(states, items, groups).0, items, groups, g);
  }
}
