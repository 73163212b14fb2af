/** What every step does to a tab's session and to the two records, and exactly when. */
module AuthTabsOutcomes {
  import opened Options
  import opened AuthTabs
  import opened AuthTabsRuns

  // ----- The session of the acting tab ----------------------------------------------------------

  /** The session record names the session the tab believes it has. */
  predicate Owns(tab: Tab, store: Store) { tab.ownedBinding.Some? && store.intended == tab.ownedBinding }

  /** The token says who it is for, and for which session of which browser. */
  predicate HasIdentity(token: Token) { token.subject.Some? && token.selector.Some? }

  /** The session a token with an identity is for. */
  function SessionOf(token: Token): Binding
    requires HasIdentity(token)
  {
    Binding(token.subject.value, token.selector.value.browser, token.selector.value.generation)
  }

  /** A sign-in may be accepted: no sign-out is pending, and the token has an identity. */
  predicate MayAccept(store: Store, token: Token) { store.pending.None? && HasIdentity(token) }

  /** A sign-out is turned down or handed on at once, and leaves the tab alone. */
  predicate Refused(tab: Tab, store: Store, revoke: bool) {
    revoke && (tab.logoutCookieUncleared || (tab.token.None? && store.pending.Some?))
  }

  /** A call or a storage event finds the tab's session gone. */
  predicate FindsGone(tab: Tab, store: Store, e: Event) {
    match e
    case CallRestore(revocation, _) =>
      (revocation.None? && store.pending.Some?) || (tab.token.Some? && !Owns(tab, store))
    case AskSession => tab.token.Some? && (store.pending.Some? || !Owns(tab, store))
    case StorageEvent(pendingKey) =>
      if pendingKey then store.pending.Some? else tab.ownedBinding.Some? && !Owns(tab, store)
    case _ => false
  }

  /** The refresh was begun in the tab's present session. */
  predicate OfPresent(tab: Tab)
    requires tab.refresh.Some?
  {
    tab.refresh.value.generation == tab.generation
  }

  /** The answer is for the subject and the browser that were asked for. */
  predicate IsFor(r: Refresh, token: Token) {
    token.subject == Some(r.binding.subject) && token.selector.Some? && token.selector.value.browser == r.browser
  }

  /** The session record still names what was asked for. */
  predicate StillNamed(r: Refresh, store: Store) {
    store.intended.Some? && r.requested.Some? && store.intended.value.subject == r.binding.subject &&
    store.intended.value.browser == r.binding.browser && store.intended.value.generation == r.requested.value
  }

  /** The answer is passed on to those who wait. */
  predicate PassedOn(tab: Tab, store: Store, token: Token)
    requires tab.refresh.Some?
  {
    IsFor(tab.refresh.value, token) && (OfPresent(tab) ==> StillNamed(tab.refresh.value, store))
  }

  /** The token held once everyone was told of the answer. */
  function Told(tab: Tab, token: Token): Option<Token>
    requires tab.refresh.Some?
  {
    var n := Present(tab.refresh.value.subscribers, tab.generation);
    if n == 0 then tab.token
    else if n == 1 && tab.token.Some? && (tab.token.value.subject.None? || tab.token.value.subject != token.subject)
      then None
    else Some(token)
  }

  /** The refresh's reply arrives where it is waited for. */
  predicate Arrives(b: Browser, t: TabID, e: Event) {
    t in b.tabs && e.RefreshReply? && b.lock == Refreshing(t) && b.tabs[t].refresh.Some?
  }

  /** The job that gets the lock, if one does. */
  predicate Gets(b: Browser, t: TabID, e: Event) {
    e.GrantJob? && b.lock.Free? && e.index < |b.waiting| && b.waiting[e.index].tab == t
  }

  /** The server's answer to what the tab sent under the lock. */
  predicate Hears(b: Browser, t: TabID, e: Event) { e.JobReply? && b.lock.Running? && b.lock.tab == t }

  /** The token of a sign-in that is accepted: handed in, or the answer to the tab's request of its present session. */
  function SignedIn(b: Browser, t: TabID, e: Event): Option<Token>
    requires t in b.tabs
  {
    if e.CallAcceptToken? && MayAccept(b.store, e.accepted) then Some(e.accepted)
    else if Hears(b, t, e) && b.lock.stage == SigningIn(b.tabs[t].generation) && e.signedIn.Some? &&
            MayAccept(b.store, e.signedIn.value) then e.signedIn
    else None
  }

  /** A pending sign-out is abandoned. */
  predicate AbandonsNow(b: Browser, t: TabID, e: Event) {
    Gets(b, t, e) && b.waiting[e.index].job == AbandonLogout && b.store.pending.Some?
  }

  /** The tab's session ends. */
  predicate Ends(b: Browser, t: TabID, e: Event)
    requires t in b.tabs
  {
    FindsGone(b.tabs[t], b.store, e) || (e.CallLogout? && !Refused(b.tabs[t], b.store, e.revoke)) ||
    AbandonsNow(b, t, e)
  }

  /** The token the acting tab holds after a step. */
  function TokenAfter(b: Browser, t: TabID, e: Event): Option<Token>
    requires t in b.tabs
  {
    var tab := b.tabs[t];
    if Ends(b, t, e) then None
    else if SignedIn(b, t, e).Some? then SignedIn(b, t, e)
    else if Arrives(b, t, e) then
      match e.reply
      case Failure => tab.token
      case Unauthorized => if OfPresent(tab) then None else tab.token
      case Answer(token) =>
        if PassedOn(tab, b.store, token) then Told(tab, token)
        else if OfPresent(tab) && !IsFor(tab.refresh.value, token) then None
        else tab.token
    else tab.token
  }

  lemma CalledToken(b: Browser, t: TabID, e: Event)
    requires t in b.tabs && !e.Open? && !e.Close? && !ConcernsLock(e)
    ensures Called(b, t, b.tabs[t], e).tabs[t].token == TokenAfter(b, t, e)
  {
  }

  lemma {:induction false} NoneReceived(tab: Tab)
    requires tab.refresh.Some?
    ensures DeliveredAll(tab, tab.refresh.value.subscribers, None).0.token == tab.token
  {
    OnlyPresentReceive(tab, tab.refresh.value.subscribers, None);
  }

  lemma ReplyToken(b: Browser, t: TabID, reply: Reply)
    requires Arrives(b, t, RefreshReply(reply))
    ensures RefreshReplied(b, t, b.tabs[t], reply).tabs[t].token == TokenAfter(b, t, RefreshReply(reply))
  {
    var tab := b.tabs[t];
    var r := tab.refresh.value;
    var (u, store, restored) := Replied(tab, b.store, r, reply);
    if restored.Some? {
      TokenDelivered(u, r.subscribers, restored.value);
    } else {
      OnlyPresentReceive(u, r.subscribers, None);
    }
  }

  lemma LockToken(b: Browser, t: TabID, e: Event)
    requires t in b.tabs && ConcernsLock(e)
    ensures AtLock(b, t, b.tabs[t], e).tabs[t].token == TokenAfter(b, t, e)
  {
    match e
    case RefreshReply(reply) => if Arrives(b, t, e) { ReplyToken(b, t, reply); }
    case GrantRefresh => if b.tabs[t].refresh.Some? { NoneReceived(b.tabs[t]); }
    case _ =>
  }

  /** A tab's token after any step of its own; no other tab's step changes it. */
  lemma TokenExactly(b: Browser, a: Action, t: TabID)
    requires Invariant(b) && t in b.tabs && t in Step(b, a).tabs
    ensures Step(b, a).tabs[t].token == if t == a.tab then TokenAfter(b, t, a.event) else b.tabs[t].token
  {
    if t != a.tab {
      OthersKeep(b, a, t);
    } else if !a.event.Open? {
      if ConcernsLock(a.event) { LockToken(b, t, a.event); } else { CalledToken(b, t, a.event); }
    }
  }

  // ----- Its binding and generation -------------------------------------------------------------

  /** The session a restore would wait for: the recorded one, or for revocation the one signed out last. */
  function Candidate(tab: Tab, store: Store, revocation: Option<Token>): Option<Binding> {
    if store.intended.Some? then store.intended else if revocation.Some? then tab.revokeBinding else None
  }

  /** A restore waits for a refresh: no fresh token is known, and the session there is is that of the known subject. */
  predicate Waits(tab: Tab, store: Store, e: Event) {
    && e.CallRestore? && !FindsGone(tab, store, e)
    && var known := if tab.token.Some? then tab.token else e.revocation;
       var binding := Candidate(tab, store, e.revocation);
       (known.Some? ==> e.expired) && binding.Some? &&
       (known.Some? ==> known.value.subject == Some(binding.value.subject))
  }

  /** The answer to the refresh of the present session renews the session. */
  predicate Renews(b: Browser, t: TabID, e: Event) {
    && Arrives(b, t, e) && e.reply.Answer? && OfPresent(b.tabs[t]) && PassedOn(b.tabs[t], b.store, e.reply.token)
  }

  /** The session the acting tab believes it has after a step. */
  function BindingAfter(b: Browser, t: TabID, e: Event): Option<Binding>
    requires t in b.tabs
  {
    var tab := b.tabs[t];
    if Ends(b, t, e) then None
    else if SignedIn(b, t, e).Some? then
      (if HasIdentity(SignedIn(b, t, e).value) then Some(SessionOf(SignedIn(b, t, e).value)) else None)
    else if Renews(b, t, e) then
      (if HasIdentity(e.reply.token) then Some(SessionOf(e.reply.token)) else None)
    else if tab.ownedBinding.None? && Waits(tab, b.store, e) then Candidate(tab, b.store, e.revocation)
    else tab.ownedBinding
  }

  /** A step begins a new session of the tab: it ends one, signs in, or begins to sign in. */
  predicate NewSession(b: Browser, t: TabID, e: Event)
    requires t in b.tabs
  {
    Ends(b, t, e) || SignedIn(b, t, e).Some? || (e.CallLogin? && b.store.pending.None?)
  }

  /** The server revoked the sessions but could not clear the cookie. */
  predicate Uncleared(b: Browser, t: TabID, e: Event)
    requires t in b.tabs
  {
    && Hears(b, t, e) && !e.confirmed && e.uncleared
    && match b.lock.stage
       case Revoking(_, generation) => generation == b.tabs[t].generation
       case Retrying(_, ofLogout) => ofLogout == Some(b.tabs[t].generation)
       case SigningIn(_) => false
  }

  predicate FieldsAfter(b: Browser, t: TabID, e: Event, u: Tab)
    requires t in b.tabs
  {
    && u.ownedBinding == BindingAfter(b, t, e)
    && u.generation == b.tabs[t].generation + (if NewSession(b, t, e) then 1 else 0)
    && (u.logoutCookieUncleared <==>
          SignedIn(b, t, e).None? && (Uncleared(b, t, e) || b.tabs[t].logoutCookieUncleared))
  }

  lemma CalledFields(b: Browser, t: TabID, e: Event)
    requires t in b.tabs && !e.Open? && !e.Close? && !ConcernsLock(e)
    ensures FieldsAfter(b, t, e, Called(b, t, b.tabs[t], e).tabs[t])
  {
  }

  /** Telling those who wait changes the token and what a sign-out needs, and nothing else. */
  lemma {:induction false} TellingKeeps(tab: Tab, subscribers: seq<Subscriber>, restored: Option<Token>)
    ensures var u := DeliveredAll(tab, subscribers, restored).0;
            && u.generation == tab.generation && u.ownedBinding == tab.ownedBinding && u.refresh == tab.refresh
            && u.logoutCookieUncleared == tab.logoutCookieUncleared && u.revokeBinding == tab.revokeBinding
    decreases |subscribers|
  {
    if subscribers != [] {
      var u := if subscribers[0].Restorer? then Delivered(tab, subscribers[0], restored)
               else Continue(tab, subscribers[0].logout, restored).0;
      TellingKeeps(u, subscribers[1..], restored);
    }
  }

  lemma ReplyFields(b: Browser, t: TabID, reply: Reply)
    requires Arrives(b, t, RefreshReply(reply))
    ensures FieldsAfter(b, t, RefreshReply(reply), RefreshReplied(b, t, b.tabs[t], reply).tabs[t])
  {
    var r := b.tabs[t].refresh.value;
    var (u, store, restored) := Replied(b.tabs[t], b.store, r, reply);
    TellingKeeps(u, r.subscribers, restored);
  }

  lemma RefreshFields(b: Browser, t: TabID)
    requires t in b.tabs
    ensures FieldsAfter(b, t, GrantRefresh, AtLock(b, t, b.tabs[t], GrantRefresh).tabs[t])
  {
    if b.tabs[t].refresh.Some? { TellingKeeps(b.tabs[t], b.tabs[t].refresh.value.subscribers, None); }
  }

  lemma JobFields(b: Browser, t: TabID, e: Event)
    requires t in b.tabs && (e.GrantJob? || e.JobReply? || e.Cancel?)
    ensures FieldsAfter(b, t, e, AtLock(b, t, b.tabs[t], e).tabs[t])
  {
  }

  lemma LockFields(b: Browser, t: TabID, e: Event)
    requires t in b.tabs && ConcernsLock(e)
    ensures FieldsAfter(b, t, e, AtLock(b, t, b.tabs[t], e).tabs[t])
  {
    match e
    case RefreshReply(reply) => if Arrives(b, t, e) { ReplyFields(b, t, reply); }
    case GrantRefresh => RefreshFields(b, t);
    case _ => JobFields(b, t, e);
  }

  /** The tab's binding, its generation and whether its cookie is uncleared, after any step of its own. */
  lemma FieldsExactly(b: Browser, a: Action)
    requires a.tab in b.tabs && !a.event.Open? && !a.event.Close?
    ensures FieldsAfter(b, a.tab, a.event, Step(b, a).tabs[a.tab])
  {
    if ConcernsLock(a.event) { LockFields(b, a.tab, a.event); } else { CalledFields(b, a.tab, a.event); }
  }

  // ----- Signing out ends the session -----------------------------------------------------------

  /**
   * A sign-out that is not refused leaves the tab without token and session, in a new generation; one that is
   * refused leaves it as it was.
   */
  lemma SignOutEnds(b: Browser, t: TabID, revoke: bool, expired: bool, receipt: string)
    requires Invariant(b) && t in b.tabs
    ensures var tab, u := b.tabs[t], Step(b, Action(t, CallLogout(revoke, expired, receipt))).tabs[t];
            if revoke && (tab.logoutCookieUncleared || (tab.token.None? && b.store.pending.Some?)) then u == tab
            else u.token.None? && u.ownedBinding.None? && u.generation == tab.generation + 1
  {
    var a := Action(t, CallLogout(revoke, expired, receipt));
    TokenExactly(b, a, t);
    FieldsExactly(b, a);
  }

  function RunOn(b: Browser, actions: seq<Action>): Browser {
    if actions == [] then b else Step(RunOn(b, actions[..|actions| - 1]), actions[|actions| - 1])
  }

  /** No step of the run puts a token into the tab. */
  predicate NeverInstalls(b: Browser, actions: seq<Action>, t: TabID) {
    actions != [] ==>
      var front := actions[..|actions| - 1];
      NeverInstalls(b, front, t) && !Installs(RunOn(b, front), actions[|actions| - 1], t)
  }

  lemma InstallingNothing(b: Browser, a: Action, t: TabID)
    requires t in b.tabs ==> b.tabs[t].token.None?
    requires !Installs(b, a, t)
    ensures t in Step(b, a).tabs ==> Step(b, a).tabs[t].token.None?
  {
  }

  /** However the run goes on, a tab that was signed out holds no token until a step installs one. */
  lemma {:induction false} SignedOutStays(b: Browser, actions: seq<Action>, t: TabID)
    requires t in b.tabs ==> b.tabs[t].token.None?
    requires NeverInstalls(b, actions, t)
    ensures t in RunOn(b, actions).tabs ==> RunOn(b, actions).tabs[t].token.None?
  {
    if actions != [] {
      var front := actions[..|actions| - 1];
      SignedOutStays(b, front, t);
      InstallingNothing(RunOn(b, front), actions[|actions| - 1], t);
    }
  }

  // ----- The records ----------------------------------------------------------------------------

  /** The session a sign-out begins from. */
  function SignedOutSession(tab: Tab, store: Store): Option<Binding> {
    if tab.ownedBinding.Some? then tab.ownedBinding
    else if tab.revokeBinding.Some? then tab.revokeBinding
    else store.intended
  }

  /** A sign-out may leave its record at once: its own refresh holds the lock, and its session is the recorded one. */
  predicate Reserves(tab: Tab, store: Store, e: Event) {
    && e.CallLogout? && e.revoke && !Refused(tab, store, true)
    && tab.refresh.Some? && tab.refresh.value.requested.Some?
    && store.pending.None? && store.intended.Some? && SignedOutSession(tab, store) == store.intended
  }

  /** Nothing else happened to the records since the sign-out was called. */
  predicate Undisturbed(store: Store, l: Logout) {
    && l.owned.Some?
    && (store.intended == l.owned || (store.intended.None? && store.pending.Some?))
    && (store.pending.None? || store.pending == l.reserved)
  }

  /** The token to revoke with is usable: fresh, and of the same subject and browser. */
  predicate Usable(l: Logout, current: Option<Token>, selector: Selector, rotated: bool) {
    && l.owned.Some? && current.Some? && (l.needsRefresh ==> rotated) && HasIdentity(current.value)
    && current.value.subject.value == l.owned.value.subject
    && current.value.selector.value.browser == selector.browser
  }

  /** What the record names: the session signed out, with what the selector says of it. */
  function RecordOf(owned: Binding, s: Selector): Binding {
    Binding(if s.subject.Some? then s.subject.value else owned.subject, s.browser, s.generation)
  }

  /** The record a granted sign-out leaves. */
  function RevocationRecord(job: Job, receipt: string): PendingLogout
    requires job.Revoke? && job.logout.owned.Some?
  {
    var l := job.logout;
    var selector := if Usable(l, job.current, job.selector, job.rotated) then job.current.value.selector.value
                    else job.selector;
    PendingLogout(RecordOf(l.owned.value, selector), if l.reserved.Some? then l.reserved.value.receipt else receipt)
  }

  /** The tab's sign-out gets the lock and finds the records undisturbed. */
  predicate RevokesNow(b: Browser, t: TabID, e: Event) {
    Gets(b, t, e) && b.waiting[e.index].job.Revoke? && Undisturbed(b.store, b.waiting[e.index].job.logout)
  }

  /** The record whose sign-out the server confirms, if it is still the pending one. */
  predicate ConfirmsNow(b: Browser, t: TabID, e: Event) {
    Hears(b, t, e) && e.confirmed && !b.lock.stage.SigningIn? && b.store.pending == Some(b.lock.stage.sent)
  }

  /** The sign-out record after a step. */
  function PendingAfter(b: Browser, t: TabID, e: Event): Option<PendingLogout>
    requires t in b.tabs
  {
    if Reserves(b.tabs[t], b.store, e) then Some(PendingLogout(b.store.intended.value, e.receipt))
    else if RevokesNow(b, t, e) then Some(RevocationRecord(b.waiting[e.index].job, e.receipt))
    else if AbandonsNow(b, t, e) || ConfirmsNow(b, t, e) then None
    else b.store.pending
  }

  /** The granted job deletes the session record. */
  predicate JobEnds(b: Browser, t: TabID, e: Event) {
    && Gets(b, t, e) && b.store.intended.Some?
    && match b.waiting[e.index].job
       case RemoveOwn(owned) => owned == b.store.intended
       case Revoke(l, current, selector, rotated) =>
         Undisturbed(b.store, l) && Usable(l, current, selector, rotated)
       case AbandonLogout => b.store.pending.Some? && b.store.pending.value.binding == b.store.intended.value
       case _ => false
  }

  /** A retried sign-out is confirmed, and the session record is still that of the session it was for. */
  predicate RetryEnds(b: Browser, t: TabID, e: Event) {
    ConfirmsNow(b, t, e) && b.lock.stage.Retrying? && b.store.intended == Some(b.lock.stage.sent.binding)
  }

  /** The session record after a step. */
  function IntendedAfter(b: Browser, t: TabID, e: Event): Option<Binding>
    requires t in b.tabs
  {
    if SignedIn(b, t, e).Some? || Renews(b, t, e) then BindingAfter(b, t, e)
    else if JobEnds(b, t, e) || RetryEnds(b, t, e) then None
    else b.store.intended
  }

  lemma CalledStore(b: Browser, t: TabID, e: Event)
    requires t in b.tabs && !e.Open? && !e.Close? && !ConcernsLock(e)
    ensures Called(b, t, b.tabs[t], e).store == Store(IntendedAfter(b, t, e), PendingAfter(b, t, e))
  {
  }

  lemma JobStore(b: Browser, t: TabID, e: Event)
    requires t in b.tabs && e.GrantJob?
    ensures AtLock(b, t, b.tabs[t], e).store == Store(IntendedAfter(b, t, e), PendingAfter(b, t, e))
  {
  }

  lemma AnswerStore(b: Browser, t: TabID, e: Event)
    requires t in b.tabs && (e.GrantRefresh? || e.RefreshReply? || e.JobReply? || e.Cancel?)
    ensures AtLock(b, t, b.tabs[t], e).store == Store(IntendedAfter(b, t, e), PendingAfter(b, t, e))
  {
  }

  /** Both records after any step of any tab. */
  lemma StoreExactly(b: Browser, a: Action)
    requires a.tab in b.tabs
    ensures Step(b, a).store == if a.event.Open? || a.event.Close? then b.store
                                else Store(IntendedAfter(b, a.tab, a.event), PendingAfter(b, a.tab, a.event))
  {
    var e := a.event;
    if e.GrantJob? { JobStore(b, a.tab, e); }
    else if ConcernsLock(e) { AnswerStore(b, a.tab, e); }
    else if !e.Open? && !e.Close? { CalledStore(b, a.tab, e); }
  }
}
