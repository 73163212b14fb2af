/** Whole sign-ins, refreshes and sign-outs of one tab: what they ask for, and where they end. */
module AuthTabsFlows {
  import opened Options
  import opened AuthTabs
  import opened AuthTabsRuns
  import opened AuthTabsOutcomes

  // ----- Requests under the lock ----------------------------------------------------------------

  /** The refresh was asked for by the sign-out that just ended the session it is for. */
  predicate ForSignOut(tab: Tab)
    requires tab.refresh.Some?
  {
    tab.refresh.value.revocation.Some? && tab.revokeToken == tab.refresh.value.revocation && tab.token.None? &&
    tab.generation == tab.refresh.value.generation + 1
  }

  /** The session a refresh would ask for: the recorded one, or the one signed out. */
  function Asking(tab: Tab, store: Store): Option<Binding>
    requires tab.refresh.Some?
  {
    if store.intended.Some? then store.intended else if ForSignOut(tab) then tab.revokeBinding else None
  }

  /** A refresh asks for a session of its subject and browser, in its own session or for the sign-out that ended it. */
  predicate MayAsk(tab: Tab, store: Store)
    requires tab.refresh.Some?
  {
    var r, session := tab.refresh.value, Asking(tab, store);
    && session.Some? && session.value.subject == r.binding.subject && session.value.browser == r.binding.browser
    && (r.revocation.None? ==> store.pending.None?) && (OfPresent(tab) || ForSignOut(tab))
  }

  /** A refresh that gets the lock keeps it exactly if it may ask, and otherwise is over. */
  lemma RefreshAsks(b: Browser, t: TabID)
    requires t in b.tabs && b.lock.Free? && b.tabs[t].refresh.Some? && b.tabs[t].refresh.value.requested.None?
    ensures var tab, c := b.tabs[t], Step(b, Action(t, GrantRefresh));
            if MayAsk(tab, b.store) then
              && c.lock == Refreshing(t) && c.store == b.store && c.waiting == b.waiting
              && c.tabs[t] == tab.(refresh := Some(tab.refresh.value.(requested :=
                   Some(Asking(tab, b.store).value.generation))))
            else c.lock.Free? && c.store == b.store && c.tabs[t].refresh.None?
  {
  }

  /** Any reply ends the refresh and frees the lock. */
  lemma ReplyFrees(b: Browser, t: TabID, reply: Reply)
    requires Arrives(b, t, RefreshReply(reply))
    ensures var c := Step(b, Action(t, RefreshReply(reply))); c.lock.Free? && t in c.tabs && c.tabs[t].refresh.None?
  {
  }

  // ----- Signing in -----------------------------------------------------------------------------

  /** A sign-in waits for the lock, asks, and the token it is given is the tab's; the session is recorded. */
  lemma SignInWorks(b: Browser, t: TabID, token: Token, receipt: string)
    requires t in b.tabs && b.lock.Free? && b.waiting == [] && b.store.pending.None? && HasIdentity(token)
    ensures var called := Step(b, Action(t, CallLogin));
            var asked := Step(called, Action(t, GrantJob(0, receipt)));
            var c := Step(asked, Action(t, JobReply(Some(token), false, false)));
            && called.waiting == [Waiting(t, SignIn(b.tabs[t].generation + 1))]
            && asked.lock == Running(t, SigningIn(b.tabs[t].generation + 1)) && asked.store == b.store
            && t in c.tabs && c.tabs[t].token == Some(token) && c.tabs[t].ownedBinding == Some(SessionOf(token))
            && c.store == Store(Some(SessionOf(token)), None) && c.lock.Free?
  {
    assert [] + Jobs(t, [SignIn(b.tabs[t].generation + 1)]) == [Waiting(t, SignIn(b.tabs[t].generation + 1))];
  }

  /** Beside a sign-out record no sign-in is asked for, neither at the call nor once it gets the lock. */
  lemma SignInRefuses(b: Browser, t: TabID, index: nat, generation: nat, receipt: string)
    requires t in b.tabs && b.store.pending.Some?
    ensures Step(b, Action(t, CallLogin)) == b
    ensures b.lock.Free? && index < |b.waiting| && b.waiting[index] == Waiting(t, SignIn(generation)) ==>
              var c := Step(b, Action(t, GrantJob(index, receipt)));
              c.lock.Free? && c.store == b.store && c.tabs == b.tabs
  {
  }

  // ----- Restoring a session --------------------------------------------------------------------

  /** A tab without a token beside a recorded session, and nobody at the lock. */
  predicate Restorable(b: Browser, t: TabID, session: Binding) {
    && t in b.tabs && b.tabs[t].token.None? && b.tabs[t].refresh.None? && b.lock.Free?
    && b.store == Store(Some(session), None)
    && (b.tabs[t].browserSelector.Some? ==> b.tabs[t].browserSelector.value.browser == session.browser)
  }

  /** The refresh waiting, and then asked for. */
  function Pending(tab: Tab, session: Binding, requested: Option<string>): Refresh {
    Refresh(tab.generation, session, session.browser, None, requested, [Restorer(tab.generation, false)])
  }

  lemma RestoreBegins(b: Browser, t: TabID, session: Binding, expired: bool)
    requires Restorable(b, t, session)
    ensures var c := Step(b, Action(t, CallRestore(None, expired)));
            && c.store == b.store && c.lock.Free? && c.waiting == b.waiting && t in c.tabs
            && c.tabs[t] == b.tabs[t].(refresh := Some(Pending(b.tabs[t], session, None)),
                 ownedBinding := if b.tabs[t].ownedBinding.Some? then b.tabs[t].ownedBinding else Some(session))
  {
    assert [] + [Restorer(b.tabs[t].generation, false)] == [Restorer(b.tabs[t].generation, false)];
  }

  /** The answer for the session asked for is installed, and the record names the session it renewed. */
  lemma AnswerInstalls(b: Browser, t: TabID, session: Binding, token: Token)
    requires t in b.tabs && b.tabs[t].token.None? && b.lock == Refreshing(t) && b.store == Store(Some(session), None)
    requires b.tabs[t].refresh == Some(Pending(b.tabs[t], session, Some(session.generation)))
    requires HasIdentity(token) && token.subject.value == session.subject
    requires token.selector.value.browser == session.browser
    ensures var c := Step(b, Action(t, RefreshReply(Answer(token))));
            && t in c.tabs && c.tabs[t].token == Some(token) && c.tabs[t].ownedBinding == Some(SessionOf(token))
            && c.tabs[t].browserSelector == token.selector && c.tabs[t].refresh.None? && c.lock.Free?
            && c.store == Store(Some(SessionOf(token)), None)
  {
    var tab := b.tabs[t];
    var r := tab.refresh.value;
    var (u, store, restored) := Replied(tab, b.store, r, Answer(token));
    assert r.subscribers[1..] == [];
    assert DeliveredAll(u, r.subscribers, restored) == (u.(token := Some(token)), []);
  }

  /** A session that is recorded can be restored: the tab asks for it and holds the token it is given. */
  lemma RestoreWorks(b: Browser, t: TabID, session: Binding, expired: bool, token: Token)
    requires Restorable(b, t, session) && HasIdentity(token)
    requires token.subject.value == session.subject && token.selector.value.browser == session.browser
    ensures var asked := Step(Step(b, Action(t, CallRestore(None, expired))), Action(t, GrantRefresh));
            var c := Step(asked, Action(t, RefreshReply(Answer(token))));
            && asked.lock == Refreshing(t)
            && t in c.tabs && c.tabs[t].token == Some(token) && c.lock.Free?
            && c.store == Store(Some(SessionOf(token)), None)
            && Step(c, Action(t, AskSession)).tabs[t] == c.tabs[t]
  {
    RestoreBegins(b, t, session, expired);
    var waiting := Step(b, Action(t, CallRestore(None, expired)));
    RefreshAsks(waiting, t);
    var asked := Step(waiting, Action(t, GrantRefresh));
    AnswerInstalls(asked, t, session, token);
  }

  // ----- Signing out ----------------------------------------------------------------------------

  /** A signed-in tab beside the record of its session, and nobody at the lock or waiting for it. */
  predicate SignedInAlone(b: Browser, t: TabID, token: Token) {
    && t in b.tabs && HasIdentity(token) && b.lock.Free? && b.waiting == []
    && b.store == Store(Some(SessionOf(token)), None)
    && b.tabs[t].token == Some(token) && b.tabs[t].ownedBinding == b.store.intended
    && b.tabs[t].browserSelector == token.selector
    && b.tabs[t].refresh.None? && !b.tabs[t].logoutCookieUncleared
  }

  /** The sign-out that such a tab begins. */
  function BegunLogout(b: Browser, t: TabID, token: Token, expired: bool): Logout
    requires t in b.tabs
  {
    Logout(true, Some(token), token.selector, expired, b.store.intended, None, b.tabs[t].generation + 1, false)
  }

  lemma SignOutBegins(b: Browser, t: TabID, token: Token, expired: bool, receipt: string)
    requires SignedInAlone(b, t, token)
    ensures var c := Step(b, Action(t, CallLogout(true, expired, receipt)));
            && c.store == b.store && c.lock.Free? && t in c.tabs
            && c.waiting ==
                 [Waiting(t, Revoke(BegunLogout(b, t, token, expired), Some(token), token.selector.value, false))]
            && c.tabs[t].token.None? && c.tabs[t].ownedBinding.None? && c.tabs[t].refresh.None?
            && c.tabs[t].generation == b.tabs[t].generation + 1
            && c.tabs[t].revokeToken == Some(token) && c.tabs[t].browserSelector == token.selector
  {
    var job := Revoke(BegunLogout(b, t, token, expired), Some(token), token.selector.value, false);
    assert [] + Jobs(t, [job]) == [Waiting(t, job)];
  }

  /** The record that says what is being signed out, before the server hears of it. */
  function Recorded(token: Token, receipt: string): PendingLogout
    requires HasIdentity(token)
  {
    PendingLogout(RecordOf(SessionOf(token), token.selector.value), receipt)
  }

  lemma SignOutAsks(b: Browser, t: TabID, l: Logout, token: Token, receipt: string)
    requires HasIdentity(token) && t in b.tabs && b.lock.Free?
    requires b.waiting == [Waiting(t, Revoke(l, Some(token), token.selector.value, false))]
    requires b.store == Store(Some(SessionOf(token)), None) && l.owned == b.store.intended && l.reserved.None?
    requires l.generation == b.tabs[t].generation
    ensures var c := Step(b, Action(t, GrantJob(0, receipt)));
            && c.waiting == [] && t in c.tabs && c.tabs[t].token == b.tabs[t].token
            && c.tabs[t].generation == b.tabs[t].generation
            && c.store == Store(if l.needsRefresh then b.store.intended else None, Some(Recorded(token, receipt)))
            && c.lock == Running(t, if l.needsRefresh then Retrying(Recorded(token, receipt), Some(l.generation))
                                    else Revoking(Recorded(token, receipt), l.generation))
  {
    assert b.waiting[..0] + b.waiting[1..] == [];
  }

  lemma ConfirmClears(b: Browser, t: TabID)
    requires t in b.tabs && b.lock.Running? && b.lock.tab == t && !b.lock.stage.SigningIn?
    requires b.store.pending == Some(b.lock.stage.sent)
    requires b.store.intended.Some? ==> b.lock.stage.Retrying? && b.store.intended.value == b.lock.stage.sent.binding
    ensures var c := Step(b, Action(t, JobReply(None, true, false))); c.store == Store(None, None) && c.lock.Free?
  {
  }

  /**
   * A confirmed sign-out leaves neither record and no token.  The record is there before the server is asked, and
   * with a fresh token the session record is gone by then.
   */
  lemma SignOutWorks(b: Browser, t: TabID, token: Token, receipt: string)
    requires SignedInAlone(b, t, token)
    ensures var asked := Step(Step(b, Action(t, CallLogout(true, false, receipt))), Action(t, GrantJob(0, receipt)));
            var c := Step(asked, Action(t, JobReply(None, true, false)));
            && asked.store == Store(None, Some(Recorded(token, receipt))) && asked.lock.Running?
            && asked.lock.stage.Revoking?
            && c.store == Store(None, None) && c.lock.Free? && t in c.tabs && c.tabs[t].token.None?
  {
    SignOutBegins(b, t, token, false, receipt);
    var called := Step(b, Action(t, CallLogout(true, false, receipt)));
    SignOutAsks(called, t, BegunLogout(b, t, token, false), token, receipt);
    ConfirmClears(Step(called, Action(t, GrantJob(0, receipt))), t);
  }

  /** With an expired token the server is asked by the record alone, and the session record stays until it answers. */
  lemma ExpiredSignOutWorks(b: Browser, t: TabID, token: Token, receipt: string)
    requires SignedInAlone(b, t, token)
    requires token.selector.value.subject.Some? ==> token.selector.value.subject == token.subject
    ensures var asked := Step(Step(b, Action(t, CallLogout(true, true, receipt))), Action(t, GrantJob(0, receipt)));
            var c := Step(asked, Action(t, JobReply(None, true, false)));
            && asked.store == Store(b.store.intended, Some(Recorded(token, receipt))) && asked.lock.Running?
            && asked.lock.stage.Retrying?
            && c.store == Store(None, None) && c.lock.Free? && t in c.tabs && c.tabs[t].token.None?
  {
    SignOutBegins(b, t, token, true, receipt);
    var called := Step(b, Action(t, CallLogout(true, true, receipt)));
    SignOutAsks(called, t, BegunLogout(b, t, token, true), token, receipt);
    ConfirmClears(Step(called, Action(t, GrantJob(0, receipt))), t);
  }

  /** A sign-out whose answer was lost can be retried by any tab, and is then over. */
  lemma RetryWorks(b: Browser, t: TabID, receipt: string)
    requires t in b.tabs && b.lock.Free? && b.waiting == [] && b.store.pending.Some?
    requires b.store.intended.Some? ==> b.store.intended.value == b.store.pending.value.binding
    ensures var asked := Step(Step(b, Action(t, CallRetry)), Action(t, GrantJob(0, receipt)));
            var c := Step(asked, Action(t, JobReply(None, true, false)));
            && asked.lock == Running(t, Retrying(b.store.pending.value, None)) && asked.store == b.store
            && c.store == Store(None, None) && c.lock.Free?
  {
    var called := Step(b, Action(t, CallRetry));
    assert [] + Jobs(t, [RetryLogout]) == [Waiting(t, RetryLogout)];
    assert called.waiting == [Waiting(t, RetryLogout)];
    ConfirmClears(Step(called, Action(t, GrantJob(0, receipt))), t);
  }

  /** A retry beside the record of another session is never sent. */
  lemma RetryRefuses(b: Browser, t: TabID, index: nat, receipt: string)
    requires t in b.tabs && b.lock.Free? && index < |b.waiting| && b.waiting[index] == Waiting(t, RetryLogout)
    requires b.store.pending.None? ||
             (b.store.intended.Some? && b.store.intended.value != b.store.pending.value.binding)
    ensures var c := Step(b, Action(t, GrantJob(index, receipt))); c.lock.Free? && c.store == b.store
  {
  }

  // ----- Signing out during a refresh -----------------------------------------------------------

  /** A tab whose refresh is out under the lock, for the recorded session, with nobody waiting for it but restores. */
  predicate RefreshOut(b: Browser, t: TabID, session: Binding) {
    && t in b.tabs && b.lock == Refreshing(t) && b.waiting == [] && b.store == Store(Some(session), None)
    && b.tabs[t].token.None? && b.tabs[t].ownedBinding == Some(session) && !b.tabs[t].logoutCookieUncleared
    && b.tabs[t].revokeToken.None?
    && b.tabs[t].browserSelector.Some? && b.tabs[t].browserSelector.value.browser == session.browser
    && b.tabs[t].refresh == Some(Pending(b.tabs[t], session, Some(session.generation)))
  }

  /** What the sign-out leaves while it waits for the refresh. */
  function WaitingLogout(b: Browser, t: TabID, session: Binding, receipt: string): Logout
    requires t in b.tabs
  {
    Logout(true, None, b.tabs[t].browserSelector, false, Some(session), Some(PendingLogout(session, receipt)),
           b.tabs[t].generation + 1, true)
  }

  /** A sign-out during a refresh leaves its record at once, and waits for the refresh. */
  lemma SignOutReserves(b: Browser, t: TabID, session: Binding, receipt: string)
    requires RefreshOut(b, t, session)
    ensures var c := Step(b, Action(t, CallLogout(true, false, receipt)));
            && c.store == Store(Some(session), Some(PendingLogout(session, receipt))) && c.lock == Refreshing(t)
            && c.waiting == [] && t in c.tabs && c.tabs[t].token.None?
            && c.tabs[t].generation == b.tabs[t].generation + 1
            && c.tabs[t].browserSelector == b.tabs[t].browserSelector
            && c.tabs[t].refresh == Some(b.tabs[t].refresh.value.(subscribers :=
                 b.tabs[t].refresh.value.subscribers + [SigningOut(WaitingLogout(b, t, session, receipt))]))
  {
    assert Jobs(t, []) == [] && [] + Jobs(t, []) == [];
  }

  /** If the refresh is lost, the sign-out goes on by its record; nobody receives a token. */
  lemma LostRefreshRetries(c: Browser, t: TabID, r: Refresh, l: Logout)
    requires t in c.tabs && c.lock == Refreshing(t) && c.waiting == [] && c.tabs[t].token.None?
    requires c.tabs[t].refresh == Some(r) && r.subscribers == [Restorer(r.generation, false)] + [SigningOut(l)]
    requires l.revoke && l.awaited && l.reserved.Some?
    ensures var d := Step(c, Action(t, RefreshReply(Failure)));
            && d.waiting == [Waiting(t, RetryLogout)] && d.lock.Free? && d.store == c.store
            && t in d.tabs && d.tabs[t].token.None?
  {
    var tab := c.tabs[t];
    assert r.subscribers[1..] == [SigningOut(l)] && r.subscribers[1..][1..] == [];
    assert DeliveredAll(tab, r.subscribers[1..], None) == (tab, [RetryLogout] + []);
    assert [] + Jobs(t, [RetryLogout]) == [Waiting(t, RetryLogout)];
    assert [RetryLogout] + [] == [RetryLogout];
  }

  /** If it is answered, the sign-out goes on with the new token, which the tab itself does not install. */
  lemma AnsweredRefreshRevokes(c: Browser, t: TabID, r: Refresh, l: Logout, token: Token)
    requires t in c.tabs && c.lock == Refreshing(t) && c.waiting == [] && c.tabs[t].token.None?
    requires c.tabs[t].refresh == Some(r) && r.subscribers == [Restorer(r.generation, false)] + [SigningOut(l)]
    requires r.generation != c.tabs[t].generation && IsFor(r, token)
    requires l.revoke && l.awaited && l.token.None? && l.selector.Some? && l.selector.value.browser == r.browser
    ensures var d := Step(c, Action(t, RefreshReply(Answer(token))));
            && d.waiting == [Waiting(t, Revoke(l, Some(token), token.selector.value, true))]
            && d.lock.Free? && d.store == c.store && t in d.tabs && d.tabs[t].token.None?
  {
    var tab := c.tabs[t];
    assert r.subscribers[1..] == [SigningOut(l)] && r.subscribers[1..][1..] == [];
    var job := Revoke(l, Some(token), token.selector.value, true);
    assert DeliveredAll(tab, r.subscribers[1..], Some(token)).1 == [job] + [];
    assert [] + Jobs(t, [job]) == [Waiting(t, job)];
    assert [job] + [] == [job];
  }

  // ----- Local sign-outs, other tabs ------------------------------------------------------------

  /** A local sign-out deletes the record of the tab's own session, and asks the server nothing. */
  lemma LocalSignOutWorks(b: Browser, t: TabID, token: Token, receipt: string)
    requires SignedInAlone(b, t, token)
    ensures var called := Step(b, Action(t, CallLogout(false, false, receipt)));
            var c := Step(called, Action(t, GrantJob(0, receipt)));
            called.waiting == [Waiting(t, RemoveOwn(b.store.intended))] && c.store == Store(None, None) &&
            c.lock.Free? && t in c.tabs && c.tabs[t].token.None?
  {
    assert [] + Jobs(t, [RemoveOwn(b.store.intended)]) == [Waiting(t, RemoveOwn(b.store.intended))];
  }

  /** Another tab of the same session learns of a sign-out by the storage event, and holds no token after it. */
  lemma OtherTabLearns(b: Browser, t: TabID)
    requires Invariant(b) && t in b.tabs && b.tabs[t].ownedBinding.Some? && b.store.intended != b.tabs[t].ownedBinding
    ensures var c := Step(b, Action(t, StorageEvent(false)));
            t in c.tabs && c.tabs[t].token.None? && c.tabs[t].ownedBinding.None?
  {
    TokenExactly(b, Action(t, StorageEvent(false)), t);
    FieldsExactly(b, Action(t, StorageEvent(false)));
  }

  /** A tab whose cookie was not cleared refuses another sign-out until it signs in again. */
  lemma UnclearedRefuses(b: Browser, t: TabID, token: Token, expired: bool, receipt: string)
    requires t in b.tabs && b.tabs[t].logoutCookieUncleared
    ensures Step(b, Action(t, CallLogout(true, expired, receipt))).tabs[t] == b.tabs[t]
    ensures MayAccept(b.store, token) ==>
              var c := Step(b, Action(t, CallAcceptToken(token)));
              t in c.tabs && !c.tabs[t].logoutCookieUncleared && c.tabs[t].token == Some(token)
  {
  }

  /** Abandoning a sign-out deletes its record, the session it was for, and the tab's session. */
  lemma AbandonWorks(b: Browser, t: TabID, receipt: string)
    requires t in b.tabs && b.lock.Free? && b.waiting == [] && b.store.pending.Some?
    ensures var called := Step(b, Action(t, CallAbandon));
            var c := Step(called, Action(t, GrantJob(0, receipt)));
            && c.store.pending.None? && t in c.tabs && c.tabs[t].token.None? && c.lock.Free?
            && c.store.intended == (if b.store.intended == Some(b.store.pending.value.binding) then None
                                    else b.store.intended)
  {
    assert [] + Jobs(t, [AbandonLogout]) == [Waiting(t, AbandonLogout)];
  }

  lemma {:induction false} OthersWait(waiting: seq<Waiting>, t: TabID)
    ensures forall w :: w in Of(waiting, t, false) <==> w in waiting && w.tab != t
  {
    if waiting != [] {
      var n := |waiting| - 1;
      OthersWait(waiting[..n], t);
      assert waiting == waiting[..n] + [waiting[n]];
    }
  }

  /** A page that closes takes the lock, if it held it, and its own requests along, and nobody else's. */
  lemma {:induction false} ClosingLeaves(b: Browser, t: TabID)
    requires t in b.tabs
    ensures var c := Step(b, Action(t, Close));
            && c.tabs == b.tabs - {t} && c.store == b.store
            && (forall w :: w in c.waiting <==> w in b.waiting && w.tab != t)
            && c.lock == (if !b.lock.Free? && b.lock.tab == t then Free else b.lock)
  {
    OthersWait(b.waiting, t);
  }

  /** A request given up under the lock frees it; the record of a sign-out stays for a retry. */
  lemma CancelFrees(b: Browser, t: TabID)
    requires t in b.tabs
    ensures var c := Step(b, Action(t, Cancel));
            && c.lock == (if b.lock.Running? && b.lock.tab == t then Free else b.lock)
            && c.store == b.store && c.tabs == b.tabs && c.waiting == b.waiting
  {
  }
}
