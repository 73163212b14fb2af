/** Any number of tabs over one storage and one lock: what no run can do. */
module AuthTabsRuns {
  import opened Options
  import opened AuthTabs

  type TabID = nat

  datatype Waiting = Waiting(tab: TabID, job: Job)

  datatype Lock = Free | Refreshing(tab: TabID) | Running(tab: TabID, stage: Stage)

  datatype Browser = Browser(store: Store, tabs: map<TabID, Tab>, waiting: seq<Waiting>, lock: Lock)

  const START := Browser(Store(None, None), map[], [], Free)

  /**
   * A call, the lock being granted, a reply or a storage event in one tab.  Receipts are what the random
   * generator gives.
   */
  datatype Event =
    | Open
    | Close
    | CallLogin
    | CallAcceptToken(accepted: Token)
    | CallRestore(revocation: Option<Token>, expired: bool)
    | CallLogout(revoke: bool, expired: bool, receipt: string)
    | CallRetry
    | CallAbandon
    | AskSession
    | StorageEvent(pendingKey: bool)
    | GrantRefresh
    | RefreshReply(reply: Reply)
    | GrantJob(index: nat, receipt: string)
    | JobReply(signedIn: Option<Token>, confirmed: bool, uncleared: bool)
    | Cancel

  datatype Action = Action(tab: TabID, event: Event)

  function Put(b: Browser, t: TabID, tab: Tab, store: Store): Browser { b.(tabs := b.tabs[t := tab], store := store) }

  function Jobs(t: TabID, jobs: seq<Job>): seq<Waiting> {
    seq(|jobs|, i requires 0 <= i < |jobs| => Waiting(t, jobs[i]))
  }

  function Enqueue(b: Browser, t: TabID, jobs: seq<Job>): Browser { b.(waiting := b.waiting + Jobs(t, jobs)) }

  function Of(waiting: seq<Waiting>, t: TabID, keep: bool): seq<Waiting> {
    if waiting == [] then []
    else
      var rest := Of(waiting[..|waiting| - 1], t, keep);
      if (waiting[|waiting| - 1].tab == t) == keep then rest + [waiting[|waiting| - 1]] else rest
  }

  /** A refresh that is over: everyone who waited has the result, and the lock is free again. */
  function RefreshOver(b: Browser, t: TabID, tab: Tab, store: Store, restored: Option<Token>): Browser
    requires tab.refresh.Some?
  {
    var (u, jobs) := DeliveredAll(tab, tab.refresh.value.subscribers, restored);
    Enqueue(Put(b, t, u.(refresh := None), store), t, jobs)
  }

  function RefreshGranted(b: Browser, t: TabID, tab: Tab): Browser
    requires tab.refresh.Some?
  {
    var r := tab.refresh.value;
    var target := RefreshTarget(tab, b.store, r);
    if target.None? then RefreshOver(b, t, tab, b.store, None)
    else Put(b, t, tab.(refresh := Some(r.(requested := Some(target.value.generation)))),
        b.store).(lock := Refreshing(t))
  }

  function RefreshReplied(b: Browser, t: TabID, tab: Tab, reply: Reply): Browser
    requires tab.refresh.Some?
  {
    var (u, store, restored) := Replied(tab, b.store, tab.refresh.value, reply);
    RefreshOver(b.(lock := Free), t, u, store, restored)
  }

  /** A job that got the lock: it either ends at once or sends a request and keeps the lock. */
  function JobGranted(b: Browser, t: TabID, tab: Tab, job: Job, receipt: string): Browser {
    match job
    case SignIn(generation) => if b.store.pending.Some? then b else b.(lock := Running(t, SigningIn(generation)))
    case RemoveOwn(owned) => b.(store := RemoveOwnedBinding(b.store, owned))
    case Revoke(l, current, selector, rotated) =>
      var (u, store, stage) := RevokeGranted(tab, b.store, l, current, selector, rotated, receipt);
      Put(b, t, u, store).(lock := if stage.Some? then Running(t, stage.value) else Free)
    case RetryLogout =>
      var stage := RetryGranted(b.store);
      b.(lock := if stage.Some? then Running(t, stage.value) else Free)
    case AbandonLogout =>
      var (u, store) := AbandonGranted(tab, b.store);
      Put(b, t, u, store)
  }

  function JobReplied(b: Browser, t: TabID, tab: Tab, stage: Stage, token: Option<Token>, confirmed: bool,
                      uncleared: bool): Browser {
    var free := b.(lock := Free);
    match stage
    case SigningIn(generation) =>
      if token.None? || generation != tab.generation then free
      else
        var (u, store) := AcceptToken(tab, b.store, token.value);
        Put(free, t, u, store)
    case Revoking(sent, generation) =>
      if confirmed then
        var (u, store) := RevokeConfirmed(tab, b.store, sent, generation);
        Put(free, t, u, store)
      else if uncleared then Put(free, t, RevokedUncleared(tab, generation), b.store)
      else free
    case Retrying(sent, ofLogout) =>
      if confirmed then
        var (u, store) := RetryConfirmed(tab, b.store, sent, ofLogout);
        Put(free, t, u, store)
      else if uncleared && ofLogout.Some? then Put(free, t, RevokedUncleared(tab, ofLogout.value), b.store)
      else free
  }

  /** A closed page takes its requests and its place in the queue with it. */
  function Closed(b: Browser, t: TabID): Browser {
    b.(tabs := b.tabs - {t}, waiting := Of(b.waiting, t, false),
       lock := if b.lock.Free? || b.lock.tab != t then b.lock else Free)
  }

  /** A call or a storage event in the tab. */
  function Called(b: Browser, t: TabID, tab: Tab, e: Event): Browser {
    match e
    case CallLogin =>
      if b.store.pending.Some? then b
      else Enqueue(Put(b, t, tab.(generation := tab.generation + 1), b.store), t, [SignIn(tab.generation + 1)])
    case CallAcceptToken(accepted) =>
      var (u, store) := AcceptToken(tab, b.store, accepted);
      Put(b, t, u, store)
    case CallRestore(revocation, expired) => Put(b, t, Restore(tab, b.store, revocation, expired), b.store)
    case CallLogout(revoke, expired, receipt) =>
      var (u, store, jobs) := LogoutCalled(tab, b.store, revoke, expired, receipt);
      Enqueue(Put(b, t, u, store), t, jobs)
    case CallRetry => Enqueue(b, t, [RetryLogout])
    case CallAbandon => Enqueue(b, t, [AbandonLogout])
    case AskSession => Put(b, t, SessionIsCurrent(tab, b.store), b.store)
    case StorageEvent(pendingKey) => Put(b, t, StorageChanged(tab, b.store, pendingKey), b.store)
    case _ => b
  }

  /** The lock being granted to the tab, a reply to what it sent, or its giving up. */
  function AtLock(b: Browser, t: TabID, tab: Tab, e: Event): Browser {
    match e
    case GrantRefresh =>
      if !b.lock.Free? || tab.refresh.None? || tab.refresh.value.requested.Some? then b else RefreshGranted(b, t, tab)
    case RefreshReply(reply) =>
      if b.lock != Refreshing(t) || tab.refresh.None? then b else RefreshReplied(b, t, tab, reply)
    case GrantJob(index, receipt) =>
      if !b.lock.Free? || index >= |b.waiting| || b.waiting[index].tab != t then b
      else JobGranted(Dequeued(b, index), t, tab, b.waiting[index].job, receipt)
    case JobReply(signedIn, confirmed, uncleared) =>
      if b.lock.Running? && b.lock.tab == t then JobReplied(b, t, tab, b.lock.stage, signedIn, confirmed, uncleared)
        else b
    case Cancel => if b.lock.Running? && b.lock.tab == t then b.(lock := Free) else b
    case _ => b
  }

  function Dequeued(b: Browser, index: nat): Browser
    requires index < |b.waiting|
  {
    b.(waiting := b.waiting[..index] + b.waiting[index + 1..])
  }

  predicate ConcernsLock(e: Event) { e.GrantRefresh? || e.RefreshReply? || e.GrantJob? || e.JobReply? || e.Cancel? }

  function Step(b: Browser, a: Action): Browser {
    if a.event.Open? then (if a.tab in b.tabs then b else b.(tabs := b.tabs[a.tab := FRESH_TAB]))
    else if a.tab !in b.tabs then b
    else if a.event.Close? then Closed(b, a.tab)
    else if ConcernsLock(a.event) then AtLock(b, a.tab, b.tabs[a.tab], a.event)
    else Called(b, a.tab, b.tabs[a.tab], a.event)
  }

  function Run(steps: seq<Action>): Browser {
    if steps == [] then START else Step(Run(steps[..|steps| - 1]), steps[|steps| - 1])
  }

  // ----- Invariant ------------------------------------------------------------------------------

  /**
   * About one tab's refresh: it has been sent exactly while it holds the lock; nobody waits from a later
   * session; and once a sign-out record appears, everyone who waits is from an earlier one.
   */
  predicate TabOk(tab: Tab, pending: bool, holds: bool) {
    && (holds <==> tab.RefreshOwnsLock())
    && (tab.refresh.Some? ==>
          var r := tab.refresh.value;
          forall i :: 0 <= i < |r.subscribers| && r.subscribers[i].Restorer? ==>
            && r.subscribers[i].generation <= tab.generation
            && (r.requested.Some? && pending && r.revocation.None? && !r.subscribers[i].revocation ==>
                 r.subscribers[i].generation < tab.generation))
  }

  predicate TabOkIn(b: Browser, t: TabID)
    requires t in b.tabs
  {
    TabOk(b.tabs[t], b.store.pending.Some?, b.lock == Refreshing(t))
  }

  predicate Invariant(b: Browser) {
    (forall t <- b.tabs :: TabOkIn(b, t)) && (b.lock.Refreshing? ==> b.lock.tab in b.tabs)
  }

  /** Later generations and the same refresh are fine. */
  lemma LaterIsOk(tab: Tab, u: Tab, pending: bool, holds: bool)
    requires TabOk(tab, pending, holds) && u.refresh == tab.refresh && u.generation >= tab.generation
    ensures TabOk(u, pending, holds)
  {
  }

  /** A refresh that was not sent does not mind the record changing. */
  lemma UnsentIsOk(tab: Tab, u: Tab, pending: bool, pending': bool)
    requires TabOk(tab, pending, false) && u.refresh == tab.refresh && u.generation >= tab.generation
    ensures TabOk(u, pending', false)
  {
  }

  lemma RestoreIsOk(tab: Tab, store: Store, revocation: Option<Token>, expired: bool, holds: bool)
    requires TabOk(tab, store.pending.Some?, holds)
    ensures TabOk(Restore(tab, store, revocation, expired), store.pending.Some?, holds)
  {
  }

  lemma LogoutIsOk(tab: Tab, store: Store, revoke: bool, expired: bool, receipt: string, holds: bool)
    requires TabOk(tab, store.pending.Some?, holds)
    ensures var (u, kept, jobs) := LogoutCalled(tab, store, revoke, expired, receipt);
            TabOk(u, kept.pending.Some?, holds)
    ensures LogoutCalled(tab, store, revoke, expired, receipt).1 != store ==>
            tab.RefreshOwnsLock() && store.pending.None?
  {
  }

  /** What a job does to its own tab when it gets the lock. */
  lemma JobGrantedIsOk(b: Browser, t: TabID, job: Job, receipt: string)
    requires t in b.tabs && TabOkIn(b, t) && b.lock.Free?
    ensures var c := JobGranted(b, t, b.tabs[t], job, receipt); t in c.tabs && TabOkIn(c, t) && !c.lock.Refreshing?
  {
    var c := JobGranted(b, t, b.tabs[t], job, receipt);
    UnsentIsOk(b.tabs[t], c.tabs[t], b.store.pending.Some?, c.store.pending.Some?);
  }

  lemma JobRepliedIsOk(b: Browser, t: TabID, signedIn: Option<Token>, confirmed: bool, uncleared: bool)
    requires t in b.tabs && TabOkIn(b, t) && b.lock.Running?
    ensures var c := JobReplied(b, t, b.tabs[t], b.lock.stage, signedIn, confirmed, uncleared);
            t in c.tabs && TabOkIn(c, t) && c.lock.Free?
  {
    var c := JobReplied(b, t, b.tabs[t], b.lock.stage, signedIn, confirmed, uncleared);
    UnsentIsOk(b.tabs[t], c.tabs[t], b.store.pending.Some?, c.store.pending.Some?);
  }

  lemma CalledIsOk(b: Browser, t: TabID, e: Event)
    requires t in b.tabs && TabOkIn(b, t)
    ensures var c := Called(b, t, b.tabs[t], e); t in c.tabs && TabOkIn(c, t) && c.lock == b.lock
  {
    var tab := b.tabs[t];
    match e
    case CallRestore(revocation, expired) => RestoreIsOk(tab, b.store, revocation, expired, b.lock == Refreshing(t));
    case CallLogout(revoke, expired, receipt) =>
      LogoutIsOk(tab, b.store, revoke, expired, receipt, b.lock == Refreshing(t));
    case _ => LaterIsOk(tab, Called(b, t, tab, e).tabs[t], b.store.pending.Some?, b.lock == Refreshing(t));
  }

  lemma AtLockIsOk(b: Browser, t: TabID, e: Event)
    requires t in b.tabs && TabOkIn(b, t)
    ensures var c := AtLock(b, t, b.tabs[t], e); t in c.tabs && TabOkIn(c, t)
  {
    var tab := b.tabs[t];
    match e
    case GrantRefresh =>
    case GrantJob(index, receipt) =>
      if b.lock.Free? && index < |b.waiting| && b.waiting[index].tab == t {
        JobGrantedIsOk(Dequeued(b, index), t, b.waiting[index].job, receipt);
      }
    case JobReply(signedIn, confirmed, uncleared) =>
      if b.lock.Running? && b.lock.tab == t { JobRepliedIsOk(b, t, signedIn, confirmed, uncleared); }
    case _ =>
  }

  lemma ActorIsOk(b: Browser, a: Action)
    requires Invariant(b) && a.tab in Step(b, a).tabs
    ensures TabOkIn(Step(b, a), a.tab)
  {
    if a.tab in b.tabs {
      assert TabOkIn(b, a.tab);
      if !a.event.Open? && !a.event.Close? {
        if ConcernsLock(a.event) { AtLockIsOk(b, a.tab, a.event); } else { CalledIsOk(b, a.tab, a.event); }
      }
    }
  }

  /**
   * What one tab does leaves the others as they are, and the record and the lock too while another's
   * refresh is out.
   */
  predicate LeavesOther(b: Browser, c: Browser, t: TabID) {
    && (t in c.tabs <==> t in b.tabs)
    && (t in b.tabs ==> c.tabs[t] == b.tabs[t])
    && (b.lock == Refreshing(t) ==> c.lock == b.lock && c.store.pending == b.store.pending)
    && (b.lock != Refreshing(t) ==> c.lock != Refreshing(t))
  }

  lemma AtLockLeaves(b: Browser, t: TabID, e: Event, other: TabID)
    requires t in b.tabs && other != t
    ensures LeavesOther(b, AtLock(b, t, b.tabs[t], e), other)
  {
  }

  lemma OthersKeep(b: Browser, a: Action, t: TabID)
    requires Invariant(b) && t != a.tab
    ensures LeavesOther(b, Step(b, a), t)
  {
    if a.tab in b.tabs && !a.event.Open? && !a.event.Close? {
      assert TabOkIn(b, a.tab);
      if ConcernsLock(a.event) { AtLockLeaves(b, a.tab, a.event, t); }
    }
  }

  lemma StepKeepsInvariant(b: Browser, a: Action)
    requires Invariant(b)
    ensures Invariant(Step(b, a))
  {
    var c := Step(b, a);
    forall t | t in c.tabs ensures TabOkIn(c, t) {
      if t == a.tab {
        ActorIsOk(b, a);
      } else {
        OthersKeep(b, a, t);
        assert TabOkIn(b, t);
      }
    }
    if c.lock.Refreshing? && c.lock.tab != a.tab { OthersKeep(b, a, c.lock.tab); }
  }

  lemma {:induction false} RunKeepsInvariant(actions: seq<Action>)
    ensures Invariant(Run(actions))
  {
    if actions != [] {
      RunKeepsInvariant(actions[..|actions| - 1]);
      StepKeepsInvariant(Run(actions[..|actions| - 1]), actions[|actions| - 1]);
    }
  }

  // ----- Installing a token ---------------------------------------------------------------------

  /** The step puts a token into a tab that it did not have. */
  predicate Installs(b: Browser, a: Action, t: TabID) {
    && t in Step(b, a).tabs && Step(b, a).tabs[t].token.Some?
    && (t in b.tabs ==> Step(b, a).tabs[t].token != b.tabs[t].token)
  }

  /** The refresh, or one of those who wait for it, was asked for with a revocation token. */
  predicate ForRevocation(tab: Tab) {
    tab.refresh.Some? &&
      (tab.refresh.value.revocation.Some? ||
       exists i :: 0 <= i < |tab.refresh.value.subscribers| && tab.refresh.value.subscribers[i].Restorer? &&
           tab.refresh.value.subscribers[i].revocation)
  }

  /** Only those who wait from the tab's present session receive a token. */
  lemma {:induction false} OnlyPresentReceive(tab: Tab, subscribers: seq<Subscriber>, restored: Option<Token>)
    requires restored.None? || forall i :: 0 <= i < |subscribers| && subscribers[i].Restorer? ==>
             subscribers[i].generation != tab.generation
    ensures DeliveredAll(tab, subscribers, restored).0.token == tab.token
    decreases |subscribers|
  {
    if subscribers != [] {
      var t := if subscribers[0].Restorer? then Delivered(tab, subscribers[0], restored)
          else Continue(tab, subscribers[0].logout, restored).0;
      OnlyPresentReceive(t, subscribers[1..], restored);
    }
  }

  lemma ReplyInstalls(b: Browser, t: TabID, reply: Reply)
    requires t in b.tabs && TabOkIn(b, t) && b.store.pending.Some?
    requires Installs(b, Action(t, RefreshReply(reply)), t)
    ensures ForRevocation(b.tabs[t])
  {
    var tab := b.tabs[t];
    if !ForRevocation(tab) && b.lock == Refreshing(t) {
      var (u, store, restored) := Replied(tab, b.store, tab.refresh.value, reply);
      OnlyPresentReceive(u, tab.refresh.value.subscribers, restored);
    }
  }

  /** Beside a sign-out record, a token comes only from a refresh for revocation. */
  lemma InstallingStep(b: Browser, a: Action, t: TabID)
    requires Invariant(b) && Installs(b, a, t) && b.store.pending.Some?
    ensures a.tab == t && t in b.tabs && a.event.RefreshReply? && ForRevocation(b.tabs[t])
  {
    if t != a.tab {
      OthersKeep(b, a, t);
      assert false;
    }
    if t in b.tabs && !a.event.Open? && !a.event.Close? && !ConcernsLock(a.event) {
      CallInstallsNothing(b, t, a.event);
    }
    match a.event
    case RefreshReply(reply) =>
      assert TabOkIn(b, t);
      ReplyInstalls(b, t, reply);
    case GrantRefresh => GrantInstallsNothing(b, t);
    case GrantJob(_, _) =>
    case JobReply(_, _, _) =>
    case _ =>
  }

  /** How many wait from the tab's present session. */
  function Present(subscribers: seq<Subscriber>, generation: nat): nat
    decreases |subscribers|
  {
    if subscribers == [] then 0
    else
      var waits := subscribers[0].Restorer? && subscribers[0].generation == generation;
      (if waits then 1 else 0) + Present(subscribers[1..], generation)
  }

  /** The tab's token once all were told of `token`: a single one who waits gives up on a change of subject. */
  lemma {:induction false} TokenDelivered(tab: Tab, subscribers: seq<Subscriber>, token: Token)
    requires token.subject.Some?
    ensures DeliveredAll(tab, subscribers, Some(token)).0.token ==
            (var n := Present(subscribers, tab.generation);
             if n == 0 then tab.token
             else if n == 1 && SubjectsDiffer(tab.token, Some(token)) then None
             else Some(token))
    decreases |subscribers|
  {
    if subscribers != [] {
      var t := if subscribers[0].Restorer? then Delivered(tab, subscribers[0], Some(token))
               else Continue(tab, subscribers[0].logout, Some(token)).0;
      TokenDelivered(t, subscribers[1..], token);
    }
  }

  /**
   * The answer is the expected one, the target is unchanged, and someone who waits from the present
   * session takes it.
   */
  predicate Reaches(tab: Tab, store: Store, token: Token)
    requires tab.refresh.Some?
  {
    var r := tab.refresh.value;
    && Expected(r, token)
    && (r.generation == tab.generation ==> Unchanged(r, store))
    && tab.token != Some(token)
    && Present(r.subscribers, tab.generation) >= (if SubjectsDiffer(tab.token, Some(token)) then 2 else 1)
  }

  lemma ReplyInstallsExactly(b: Browser, t: TabID, reply: Reply)
    requires t in b.tabs && TabOkIn(b, t)
    ensures Installs(b, Action(t, RefreshReply(reply)), t) <==>
            b.lock == Refreshing(t) && reply.Answer? && Reaches(b.tabs[t], b.store, reply.token)
  {
    var tab := b.tabs[t];
    if b.lock == Refreshing(t) {
      var (u, store, restored) := Replied(tab, b.store, tab.refresh.value, reply);
      if restored.Some? {
        TokenDelivered(u, tab.refresh.value.subscribers, restored.value);
      } else {
        OnlyPresentReceive(u, tab.refresh.value.subscribers, None);
      }
    }
  }

  /**
   * Beside a sign-out record, exactly one thing installs a token: the reply to the tab's own refresh that holds
   * the lock, when it reaches someone who waits from the present session; and then one of them, or the refresh,
   * was for revocation.
   */
  lemma InstallsBesideRecord(b: Browser, a: Action, t: TabID)
    requires Invariant(b) && b.store.pending.Some?
    ensures Installs(b, a, t) <==>
            && a.tab == t && t in b.tabs && b.lock == Refreshing(t) && b.tabs[t].refresh.Some?
            && a.event.RefreshReply? && a.event.reply.Answer? && Reaches(b.tabs[t], b.store, a.event.reply.token)
    ensures Installs(b, a, t) ==> ForRevocation(b.tabs[t])
  {
    if Installs(b, a, t) { InstallingStep(b, a, t); }
    if a.tab == t && t in b.tabs && a.event.RefreshReply? {
      assert TabOkIn(b, t);
      ReplyInstallsExactly(b, t, a.event.reply);
    }
  }

  lemma CallInstallsNothing(b: Browser, t: TabID, e: Event)
    requires t in b.tabs && b.store.pending.Some?
    ensures var u := Called(b, t, b.tabs[t], e).tabs[t]; u.token.None? || u.token == b.tabs[t].token
  {
  }

  lemma GrantInstallsNothing(b: Browser, t: TabID)
    requires t in b.tabs
    ensures !Installs(b, Action(t, GrantRefresh), t)
  {
    var tab := b.tabs[t];
    if tab.refresh.Some? { OnlyPresentReceive(tab, tab.refresh.value.subscribers, None); }
  }

  predicate AsksRevocation(a: Action) { a.event.CallRestore? && a.event.revocation.Some? }

  lemma CalledForNone(b: Browser, t: TabID, e: Event)
    requires t in b.tabs && !ForRevocation(b.tabs[t]) && !(e.CallRestore? && e.revocation.Some?)
    ensures !ForRevocation(Called(b, t, b.tabs[t], e).tabs[t])
  {
  }

  lemma AtLockForNone(b: Browser, t: TabID, e: Event)
    requires t in b.tabs && !ForRevocation(b.tabs[t])
    ensures !ForRevocation(AtLock(b, t, b.tabs[t], e).tabs[t])
  {
  }

  lemma {:induction false} NothingForRevocation(actions: seq<Action>)
    requires forall i :: 0 <= i < |actions| ==> !AsksRevocation(actions[i])
    ensures forall t <- Run(actions).tabs :: !ForRevocation(Run(actions).tabs[t])
  {
    if actions != [] {
      var front, a := actions[..|actions| - 1], actions[|actions| - 1];
      NothingForRevocation(front);
      RunKeepsInvariant(front);
      forall t | t in Run(actions).tabs ensures !ForRevocation(Run(actions).tabs[t]) {
        if t != a.tab { OthersKeep(Run(front), a, t); }
        else if t in Run(front).tabs && !a.event.Open? && !a.event.Close? {
          if ConcernsLock(a.event) { AtLockForNone(Run(front), t, a.event); }
            else { CalledForNone(Run(front), t, a.event); }
        }
      }
    }
  }

  /** As long as no call asks for revocation, a tab installs a token only when no sign-out record exists. */
  lemma {:induction false} InstallsOnlyWithoutRecord(actions: seq<Action>, a: Action, t: TabID)
    requires forall i :: 0 <= i < |actions| ==> !AsksRevocation(actions[i])
    requires Installs(Run(actions), a, t)
    ensures Run(actions).store.pending.None?
  {
    RunKeepsInvariant(actions);
    NothingForRevocation(actions);
    if Run(actions).store.pending.Some? { InstallingStep(Run(actions), a, t); }
  }

  lemma {:induction false} RunNext(actions: seq<Action>, a: Action)
    ensures Run(actions + [a]) == Step(Run(actions), a)
  {
    assert (actions + [a])[..|actions|] == actions;
  }

  const EXAMPLE := Token(1, Some("u"), Some(Selector(None, "b", "g")))

  /** A sign-out record beside the session record it belongs to, and a tab that holds no token. */
  predicate RecordBesideSession(b: Browser) {
    && b.lock.Free? && b.store.pending.Some? && b.store.intended == Some(Binding("u", "b", "g"))
    && 0 in b.tabs && b.tabs[0].token.None? && b.tabs[0].refresh.None? && b.tabs[0].ownedBinding.None?
    && b.tabs[0].browserSelector == Some(Selector(Some("u"), "b", "g"))
  }

  lemma RestoreBesideRecord(b: Browser) returns (c: Browser)
    requires RecordBesideSession(b)
    ensures c == Step(Step(b, Action(0, CallRestore(Some(EXAMPLE), true))), Action(0, GrantRefresh))
    ensures c.store == b.store && c.lock == Refreshing(0) && 0 in c.tabs && c.tabs[0].token.None?
    ensures c.tabs[0].refresh ==
            Some(Refresh(c.tabs[0].generation, Binding("u", "b", "g"), "b", Some(EXAMPLE), Some("g"),
                [Restorer(c.tabs[0].generation, true)]))
  {
    var b1 := Step(b, Action(0, CallRestore(Some(EXAMPLE), true)));
    var r := Refresh(b.tabs[0].generation, Binding("u", "b", "g"), "b", Some(EXAMPLE), None,
        [Restorer(b.tabs[0].generation, true)]);
    assert [] + r.subscribers == r.subscribers;
    assert b1.tabs[0].refresh == Some(r) && b1.store == b.store && b1.lock.Free?;
    c := Step(b1, Action(0, GrantRefresh));
  }

  lemma ReplyBesideRecord(c: Browser)
    requires c.store.pending.Some? && c.store.intended == Some(Binding("u", "b", "g")) && c.lock == Refreshing(0) &&
             0 in c.tabs && c.tabs[0].token.None?
    requires c.tabs[0].refresh ==
             Some(Refresh(c.tabs[0].generation, Binding("u", "b", "g"), "b", Some(EXAMPLE), Some("g"),
                 [Restorer(c.tabs[0].generation, true)]))
    ensures Installs(c, Action(0, RefreshReply(Answer(EXAMPLE))), 0)
  {
    var tab := c.tabs[0];
    var (u, store, restored) := Replied(tab, c.store, tab.refresh.value, Answer(EXAMPLE));
    assert tab.refresh.value.subscribers[1..] == [];
    assert DeliveredAll(u, tab.refresh.value.subscribers, restored).0.token == Some(EXAMPLE);
  }

  /** A page is reopened and signs out without a token, and the server's answer is lost. */
  lemma SignOutLost(b: Browser) returns (c: Browser)
    requires b.store == Store(Some(Binding("u", "b", "g")), None) && b.tabs == map[0 := FRESH_TAB] &&
             b.waiting == [] && b.lock.Free?
    ensures c == Step(Step(Step(b, Action(0, CallLogout(true, false, "r"))), Action(0, GrantJob(0, "r"))),
            Action(0, JobReply(None, false, false)))
    ensures RecordBesideSession(c)
  {
    var b1 := Step(b, Action(0, CallLogout(true, false, "r")));
    var selector := Selector(Some("u"), "b", "g");
    var l := Logout(true, None, Some(selector), false, Some(Binding("u", "b", "g")), None, 1, false);
    assert b1.waiting == [Waiting(0, Revoke(l, None, selector, false))];
    var b2 := SignOutGranted(b1, l, selector);
    c := Step(b2, Action(0, JobReply(None, false, false)));
  }

  lemma SignOutGranted(b: Browser, l: Logout, selector: Selector) returns (c: Browser)
    requires l == Logout(true, None, Some(selector), false, Some(Binding("u", "b", "g")), None, 1, false) &&
             selector == Selector(Some("u"), "b", "g")
    requires b.store == Store(Some(Binding("u", "b", "g")), None) && b.lock.Free? &&
             b.waiting == [Waiting(0, Revoke(l, None, selector, false))]
    requires 0 in b.tabs && b.tabs[0].token.None? && b.tabs[0].refresh.None? && b.tabs[0].ownedBinding.None? &&
             b.tabs[0].browserSelector == Some(selector)
    ensures c == Step(b, Action(0, GrantJob(0, "r")))
    ensures c.lock == Running(0, Retrying(PendingLogout(Binding("u", "b", "g"), "r"), Some(1)))
    ensures c.store.pending.Some? && c.store.intended == b.store.intended
    ensures 0 in c.tabs && c.tabs[0] == b.tabs[0].(revokeBinding := Some(Binding("u", "b", "g")))
  {
    c := Step(b, Action(0, GrantJob(0, "r")));
  }

  lemma Reopened(actions: seq<Action>) returns (b: Browser)
    requires actions == [Action(0, Open), Action(0, CallAcceptToken(EXAMPLE)), Action(0, Close), Action(0, Open)]
    ensures b == Run(actions)
    ensures b.store == Store(Some(Binding("u", "b", "g")), None) && b.tabs == map[0 := FRESH_TAB] &&
            b.waiting == [] && b.lock.Free?
  {
    RunNext([], actions[0]);
    RunNext(actions[..1], actions[1]);
    RunNext(actions[..2], actions[2]);
    RunNext(actions[..3], actions[3]);
    assert actions[..1] == [] + [actions[0]] && actions[..2] == actions[..1] + [actions[1]];
    assert actions[..3] == actions[..2] + [actions[2]] && actions == actions[..3] + [actions[3]];
    b := Run(actions);
  }

  /** A call that asks for revocation can install a token beside the record: the condition is needed. */
  lemma RevocationInstallsBesideRecord() returns (actions: seq<Action>, a: Action)
    ensures Run(actions).store.pending.Some? && Installs(Run(actions), a, a.tab)
  {
    var start := [Action(0, Open), Action(0, CallAcceptToken(EXAMPLE)), Action(0, Close), Action(0, Open)];
    var b := Reopened(start);
    var lost := start + [Action(0, CallLogout(true, false, "r"))];
    RunNext(start, Action(0, CallLogout(true, false, "r")));
    RunNext(lost, Action(0, GrantJob(0, "r")));
    lost := lost + [Action(0, GrantJob(0, "r"))];
    RunNext(lost, Action(0, JobReply(None, false, false)));
    lost := lost + [Action(0, JobReply(None, false, false))];
    var c := SignOutLost(b);
    RunNext(lost, Action(0, CallRestore(Some(EXAMPLE), true)));
    actions := lost + [Action(0, CallRestore(Some(EXAMPLE), true))];
    RunNext(actions, Action(0, GrantRefresh));
    actions := actions + [Action(0, GrantRefresh)];
    var d := RestoreBesideRecord(c);
    a := Action(0, RefreshReply(Answer(EXAMPLE)));
    ReplyBesideRecord(d);
  }

  // ----- Who writes the records -----------------------------------------------------------------

  /** The tab acts under the lock: it holds it, or takes it in this step. */
  predicate ActsUnderLock(b: Browser, a: Action) {
    b.lock == Refreshing(a.tab) || (b.lock.Running? && b.lock.tab == a.tab) || (b.lock.Free? && a.event.GrantJob?)
  }

  /** The sign-out record is written and removed only under the lock. */
  lemma {:induction false} RecordChangesUnderLock(actions: seq<Action>, a: Action)
    requires Step(Run(actions), a).store.pending != Run(actions).store.pending
    ensures ActsUnderLock(Run(actions), a)
  {
    RunKeepsInvariant(actions);
    var b := Run(actions);
    if a.event.CallLogout? {
      assert TabOkIn(b, a.tab);
      LogoutIsOk(b.tabs[a.tab], b.store, a.event.revoke, a.event.expired, a.event.receipt, b.lock == Refreshing(a.tab));
    }
  }

  /** The step abandons the pending sign-out, or clears it because the server confirmed its receipt. */
  predicate Releases(b: Browser, a: Action, receipt: string) {
    match a.event
    case GrantJob(index, _) => b.lock.Free? && index < |b.waiting| && b.waiting[index] == Waiting(a.tab, AbandonLogout)
    case JobReply(_, confirmed, _) =>
      && confirmed && b.lock.Running? && b.lock.tab == a.tab
      && (b.lock.stage.Revoking? || b.lock.stage.Retrying?) && b.lock.stage.sent.receipt == receipt
    case _ => false
  }

  predicate HasReceipt(store: Store, receipt: string) { store.pending.Some? && store.pending.value.receipt == receipt }

  lemma ReceiptStep(b: Browser, a: Action, receipt: string)
    requires Invariant(b) && HasReceipt(b.store, receipt) && !Releases(b, a, receipt)
    ensures HasReceipt(Step(b, a).store, receipt)
  {
    if a.event.CallLogout? && a.tab in b.tabs {
      assert TabOkIn(b, a.tab);
      LogoutIsOk(b.tabs[a.tab], b.store, a.event.revoke, a.event.expired, a.event.receipt, b.lock == Refreshing(a.tab));
    }
  }

  /** However the run goes on, a sign-out record keeps its receipt until a step releases that receipt. */
  lemma {:induction false} ReceiptStays(before: seq<Action>, after: seq<Action>, receipt: string)
    requires HasReceipt(Run(before).store, receipt)
    ensures HasReceipt(Run(before + after).store, receipt) || exists i ::
            0 <= i < |after| && Releases(Run(before + after[..i]), after[i], receipt)
  {
    if after == [] {
      assert before + after == before;
    } else {
      var n := |after| - 1;
      ReceiptStays(before, after[..n], receipt);
      if HasReceipt(Run(before + after[..n]).store, receipt) {
        RunKeepsInvariant(before + after[..n]);
        assert before + after == (before + after[..n]) + [after[n]];
        RunNext(before + after[..n], after[n]);
        if !Releases(Run(before + after[..n]), after[n], receipt) {
          ReceiptStep(Run(before + after[..n]), after[n], receipt);
        }
      } else {
        var i :| 0 <= i < n && Releases(Run(before + after[..n][..i]), after[..n][i], receipt);
        assert after[..n][..i] == after[..i];
      }
    }
  }

  predicate JobDeletes(store: Store, job: Job, binding: Binding) {
    match job
    case RemoveOwn(owned) => owned == Some(binding)
    case Revoke(l, _, _, _) => l.owned == Some(binding)
    case AbandonLogout => store.pending.Some? && store.pending.value.binding == binding
    case _ => false
  }

  /** The step deletes what it may: the binding its sign-out began from, or the one in the sign-out record. */
  predicate DeletesOwn(b: Browser, a: Action, binding: Binding) {
    match a.event
    case GrantJob(index, _) =>
      && index < |b.waiting| && b.waiting[index].tab == a.tab
      && JobDeletes(b.store, b.waiting[index].job, binding)
    case JobReply(_, confirmed, _) => confirmed && b.store.pending.Some? && b.store.pending.value.binding == binding
    case _ => false
  }

  /** The session record is deleted only by its own or the pending sign-out. */
  lemma SessionDeletedByOwner(b: Browser, a: Action)
    requires b.store.intended.Some? && Step(b, a).store.intended.None?
    ensures DeletesOwn(b, a, b.store.intended.value)
  {
  }

  predicate SignsIn(b: Browser, a: Action)
    requires a.tab in b.tabs
  {
    a.event.CallAcceptToken? || (a.event.JobReply? && b.lock.Running? &&
        b.lock.stage == SigningIn(b.tabs[a.tab].generation))
  }

  /** A step writes the session record by signing in, or by a refresh whose session the record still names. */
  lemma SessionWrittenForItsGeneration(b: Browser, a: Action)
    requires Step(b, a).store.intended.Some? && Step(b, a).store.intended != b.store.intended
    ensures a.tab in b.tabs
    ensures a.event.RefreshReply? ==> b.tabs[a.tab].refresh.Some? && Unchanged(b.tabs[a.tab].refresh.value, b.store)
                                      && b.tabs[a.tab].refresh.value.generation == b.tabs[a.tab].generation
    ensures !a.event.RefreshReply? ==> b.store.pending.None? && SignsIn(b, a)
  {
    if a.event.RefreshReply? && b.lock == Refreshing(a.tab) && b.tabs[a.tab].refresh.Some? {
      var tab := b.tabs[a.tab];
      assert Step(b, a).store == Replied(tab, b.store, tab.refresh.value, a.event.reply).1;
    }
  }
}
