/** How a fetched conversation list is projected, and what that guarantees about every group. */
module GroupAccessLists {
  import opened Options
  import opened GroupAccess
  import opened GroupAccessFences
  import opened GroupAccessRuns

  type GroupID = nat

  datatype Conversation = Direct(id: nat) | Group(id: GroupID, membershipRevision: nat)

  type States = map<GroupID, State>

  function StateOf(states: States, g: GroupID): State {
    if g in states then states[g] else NEW_STATE
  }

  /** The caller's own copy of group `g`; of several the last counts. */
  function CurrentCopy(groups: seq<Conversation>, g: GroupID): Option<Conversation> {
    if groups == [] then None
    else
      var last := groups[|groups| - 1];
      if last.Group? && last.id == g then Some(last) else CurrentCopy(groups[..|groups| - 1], g)
  }

  function ListItem(states: States, item: Conversation, groups: seq<Conversation>): (States, seq<Conversation>) {
    match item
    case Direct(_) => (states, [item])
    case Group(g, revision) =>
      var copy := CurrentCopy(groups, g);
      var (t, shown) := ProjectItem(StateOf(states, g), revision, copy.Some?);
      (states[g := t],
       match shown
       case ShowItem => [item]
       case ShowExisting => if copy.Some? then [copy.value] else []
       case Hidden => [])
  }

  function ListItems(states: States, items: seq<Conversation>, groups: seq<Conversation>): (States, seq<Conversation>) {
    if items == [] then (states, [])
    else
      var (s, projected) := ListItems(states, items[..|items| - 1], groups);
      var (t, more) := ListItem(s, items[|items| - 1], groups);
      (t, projected + more)
  }

  predicate Listed(items: seq<Conversation>, g: GroupID) { exists item <- items :: item.Group? && item.id == g }

  function ListAbsence(states: States, items: seq<Conversation>, group: Conversation): States {
    if group.Direct? || Listed(items, group.id) then states
    else states[group.id := ProjectAbsence(StateOf(states, group.id), group.membershipRevision)]
  }

  function ListAbsences(states: States, items: seq<Conversation>, groups: seq<Conversation>): States {
    if groups == [] then states
    else ListAbsence(ListAbsences(states, items, groups[..|groups| - 1]), items, groups[|groups| - 1])
  }

  function ProjectList(states: States, items: seq<Conversation>, groups: seq<Conversation>,
                       authoritativeAbsence: bool): (States, seq<Conversation>) {
    var (s, projected) := ListItems(states, items, groups);
    (if authoritativeAbsence then ListAbsences(s, items, groups) else s, projected)
  }

  // ----- What a projection keeps ----------------------------------------------------------------

  predicate AllInvariant(states: States) {
    forall g <- states :: Invariant(states[g])
  }

  /** Storing the outcome of any event of one group keeps every group's fences. */
  lemma StoredKeeps(states: States, g: GroupID, e: Event)
    requires AllInvariant(states)
    ensures AllInvariant(states[g := Step(StateOf(states, g), e)])
  {
    NewStateInvariant();
    StepKeepsInvariant(StateOf(states, g), e);
  }

  /** So does retrying every group that waits. */
  lemma RetryKeepsFences(states: States, retried: States)
    requires AllInvariant(states) && retried.Keys == states.Keys
    requires forall g <- states :: retried[g] == RetryQuarantined(states[g])
    ensures AllInvariant(retried)
  {
    forall g | g in retried ensures Invariant(retried[g]) { StepKeepsInvariant(states[g], EvRetryQuarantined); }
  }

  predicate DistinctGroups(items: seq<Conversation>) {
    forall i, j :: 0 <= i < j < |items| && items[i].Group? && items[j].Group? ==> items[i].id != items[j].id
  }

  lemma {:induction false} ItemsKeepInvariant(states: States, items: seq<Conversation>, groups: seq<Conversation>)
    requires AllInvariant(states)
    ensures AllInvariant(ListItems(states, items, groups).0)
  {
    if items != [] {
      var last := items[|items| - 1];
      ItemsKeepInvariant(states, items[..|items| - 1], groups);
      if last.Group? {
        var s := StateOf(ListItems(states, items[..|items| - 1], groups).0, last.id);
        NewStateInvariant();
        ProjectItemKeeps(s, last.membershipRevision, CurrentCopy(groups, last.id).Some?);
      }
    }
  }

  lemma {:induction false} AbsencesKeepInvariant(states: States, items: seq<Conversation>, groups: seq<Conversation>)
    requires AllInvariant(states)
    ensures AllInvariant(ListAbsences(states, items, groups))
  {
    if groups != [] {
      var last := groups[|groups| - 1];
      AbsencesKeepInvariant(states, items, groups[..|groups| - 1]);
      if last.Group? && !Listed(items, last.id) {
        var s := StateOf(ListAbsences(states, items, groups[..|groups| - 1]), last.id);
        NewStateInvariant();
        RemoveKeeps(s, last.membershipRevision);
      }
    }
  }

  /** A list keeps every group's fences, whatever it names and leaves out. */
  lemma ListKeepsFences(states: States, items: seq<Conversation>, groups: seq<Conversation>, authoritativeAbsence: bool)
    requires AllInvariant(states)
    ensures AllInvariant(ProjectList(states, items, groups, authoritativeAbsence).0)
  {
    ItemsKeepInvariant(states, items, groups);
    AbsencesKeepInvariant(ListItems(states, items, groups).0, items, groups);
  }

  /** A group is affected by its own item only. */
  lemma {:induction false} UnlistedUntouched(states: States, items: seq<Conversation>, groups: seq<Conversation>,
                                             g: GroupID)
    requires forall item <- items :: item.Group? ==> item.id != g
    ensures StateOf(ListItems(states, items, groups).0, g) == StateOf(states, g)
  {
    if items != [] {
      UnlistedUntouched(states, items[..|items| - 1], groups, g);
      assert items[|items| - 1] in items;
    }
  }

  function ItemResult(states: States, item: Conversation, groups: seq<Conversation>): (State, Shown)
    requires item.Group?
  {
    ProjectItem(StateOf(states, item.id), item.membershipRevision, CurrentCopy(groups, item.id).Some?)
  }

  lemma {:induction false} ListedOnce(states: States, items: seq<Conversation>, groups: seq<Conversation>, i: nat)
    requires DistinctGroups(items) && i < |items| && items[i].Group?
    ensures StateOf(ListItems(states, items, groups).0, items[i].id) == ItemResult(states, items[i], groups).0
  {
    var n := |items| - 1;
    var before := items[..n];
    if i < n {
      assert before[i] == items[i];
      ListedOnce(states, before, groups, i);
    } else {
      forall item | item in before && item.Group? ensures item.id != items[n].id {
        var k :| 0 <= k < n && before[k] == item;
        assert items[k] == item;
      }
      UnlistedUntouched(states, before, groups, items[n].id);
    }
  }

  lemma {:induction false} CopyIsOfGroup(groups: seq<Conversation>, g: GroupID)
    ensures CurrentCopy(groups, g).Some? ==> CurrentCopy(groups, g).value.Group? && CurrentCopy(groups, g).value.id == g
  {
    if groups != [] { CopyIsOfGroup(groups[..|groups| - 1], g); }
  }

  /** Whatever group is shown was shown for its own item. */
  lemma {:induction false} ShownForItem(states: States, items: seq<Conversation>, groups: seq<Conversation>,
                                        c: Conversation)
    returns (i: nat)
    requires DistinctGroups(items) && c.Group? && c in ListItems(states, items, groups).1
    ensures i < |items| && items[i].Group? && items[i].id == c.id
    ensures ItemResult(states, items[i], groups).1 != Hidden
  {
    var n := |items| - 1;
    var before := items[..n];
    var (s, projected) := ListItems(states, before, groups);
    if c in projected {
      i := ShownForItem(states, before, groups, c);
    } else {
      i := n;
      assert c in ListItem(s, items[n], groups).1;
      CopyIsOfGroup(groups, items[n].id);
      forall item | item in before && item.Group? ensures item.id != items[n].id {
        var k :| 0 <= k < n && before[k] == item;
        assert items[k] == item;
      }
      UnlistedUntouched(states, before, groups, items[n].id);
    }
  }

  lemma {:induction false} ListedKeptByAbsences(states: States, items: seq<Conversation>, groups: seq<Conversation>,
                                                g: GroupID)
    requires Listed(items, g)
    ensures StateOf(ListAbsences(states, items, groups), g) == StateOf(states, g)
  {
    if groups != [] {
      ListedKeptByAbsences(states, items, groups[..|groups| - 1], g);
    }
  }

  /**
   * Every group on the projected list is afterwards not quarantined; and it is behind a removal fence
   * exactly when its fence stood at revision 0 and the list's revision was below the known one.
   */
  lemma ShownGroupsAreAccessible(states: States, items: seq<Conversation>, groups: seq<Conversation>,
                                 authoritativeAbsence: bool, c: Conversation)
    requires DistinctGroups(items) && forall item <- items :: item.Group? ==> item.membershipRevision >= 1
    ensures var (after, projected) := ProjectList(states, items, groups, authoritativeAbsence);
            c in projected && c.Group? ==>
              && !StateOf(after, c.id).quarantined
              && (StateOf(after, c.id).removedRevision.Some? <==>
                    StateOf(states, c.id).removedRevision == Some(0)
                    && exists item <- items :: item.Group? && item.id == c.id &&
                         item.membershipRevision < StateOf(states, c.id).revision)
  {
    var (after, projected) := ProjectList(states, items, groups, authoritativeAbsence);
    if c in projected && c.Group? {
      var i := ShownForItem(states, items, groups, c);
      ListedOnce(states, items, groups, i);
      assert items[i] in items && Listed(items, c.id);
      ListedKeptByAbsences(ListItems(states, items, groups).0, items, groups, c.id);
      ShownGroupIsAccessible(StateOf(states, c.id), items[i].membershipRevision, CurrentCopy(groups, c.id).Some?);
      var known := StateOf(states, c.id).revision;
      if item :| item in items && item.Group? && item.id == c.id && item.membershipRevision < known {
        var k :| 0 <= k < |items| && items[k] == item;
        assert k == i;
      }
    }
  }
}
