/** The service of one tab, step by step as it runs, on storage it shares with the other tabs. */
module AuthService {
  import opened Options
  import opened AuthTabs

  function Awaiting(tab: Tab, l: Logout): Tab
    requires tab.refresh.Some?
  {
    tab.(refresh := Some(tab.refresh.value.(subscribers := tab.refresh.value.subscribers + [SigningOut(l)])))
  }

  class LocalStorage {
    var intended: Option<Binding>
    var pendingLogout: Option<PendingLogout>

    constructor ()
      ensures View() == Store(None, None)
    {
      intended, pendingLogout := None, None;
    }

    function View(): Store
      reads this
    {
      Store(intended, pendingLogout)
    }
  }

  class AuthService {
    const storage: LocalStorage
    var generation: nat
    var token: Option<Token>
    var ownedBinding: Option<Binding>
    var browserSelector: Option<Selector>
    var revokeToken: Option<Token>
    var revokeBinding: Option<Binding>
    var logoutCookieUncleared: bool
    var refreshInFlight: Option<Refresh>

    constructor (shared: LocalStorage)
      ensures storage == shared && View() == FRESH_TAB
    {
      storage := shared;
      generation, token, ownedBinding, browserSelector := 0, None, None, None;
      revokeToken, revokeBinding, logoutCookieUncleared, refreshInFlight := None, None, false, None;
    }

    function View(): Tab
      reads this
    {
      Tab(generation, token, ownedBinding, browserSelector, revokeToken, revokeBinding, logoutCookieUncleared,
          refreshInFlight)
    }

    method Invalidate()
      modifies this
      ensures View() == InvalidateLocalSession(old(View()))
    {
      generation := generation + 1;
      ownedBinding := None;
      browserSelector := None;
      revokeToken := None;
      revokeBinding := None;
      token := None;
    }

    method Accept(accepted: Token) returns (ok: bool)
      modifies this, storage
      ensures (View(), storage.View()) == AcceptToken(old(View()), old(storage.View()), accepted)
      ensures ok <==> old(storage.pendingLogout).None? && Identified(accepted)
    {
      if storage.pendingLogout.Some? { return false; }
      if accepted.selector.None? || accepted.subject.None? { return false; }
      var binding := Binding(accepted.subject.value, accepted.selector.value.browser,
          accepted.selector.value.generation);
      storage.intended := Some(binding);
      generation := generation + 1;
      browserSelector := accepted.selector;
      ownedBinding := Some(binding);
      revokeToken := None;
      revokeBinding := None;
      logoutCookieUncleared := false;
      token := Some(accepted);
      ok := true;
    }

    method CheckSession() returns (current: bool)
      modifies this
      ensures View() == SessionIsCurrent(old(View()), storage.View())
      ensures current <==>
              old(token).Some? && storage.pendingLogout.None? && SameBinding(storage.intended, old(ownedBinding))
    {
      if token.None? { return false; }
      if storage.pendingLogout.Some? || !SameBinding(storage.intended, ownedBinding) {
        Invalidate();
        return false;
      }
      current := true;
    }

    method OnStorage(pendingKey: bool)
      modifies this
      ensures View() == StorageChanged(old(View()), storage.View(), pendingKey)
    {
      if pendingKey {
        if storage.pendingLogout.Some? { Invalidate(); }
      } else if ownedBinding.Some? && !SameBinding(storage.intended, ownedBinding) {
        Invalidate();
      }
    }

    method RestoreSession(revocation: Option<Token>, expired: bool)
      modifies this
      ensures View() == Restore(old(View()), storage.View(), revocation, expired)
    {
      if revocation.None? && storage.pendingLogout.Some? { Invalidate(); return; }
      var known := if token.Some? then token else revocation;
      if token.Some? && !SameBinding(storage.intended, ownedBinding) { Invalidate(); return; }
      if known.Some? && !expired { return; }
      var binding := storage.intended;
      if binding.None? && revocation.Some? { binding := revokeBinding; }
      if binding.None? || (known.Some? && known.value.subject != Some(binding.value.subject)) { return; }
      if ownedBinding.None? { ownedBinding := binding; }
      var browser := if browserSelector.Some? then browserSelector.value.browser else binding.value.browser;
      if refreshInFlight.None? {
        refreshInFlight := Some(Refresh(generation, binding.value, browser, revocation, None, []));
      }
      var r := refreshInFlight.value;
      refreshInFlight := Some(r.(subscribers := r.subscribers + [Restorer(generation, revocation.Some?)]));
    }

    /**
     * The refresh has the lock: the session it asks for, or none.  It asks only for the subject and browser it was
     * begun for; beside a sign-out record or for a later session of the tab only for revocation; and for another
     * session than the recorded one only when there is none and the tab's last sign-out left its binding.
     */
    method BeginRefresh() returns (target: Option<Binding>)
      requires refreshInFlight.Some?
      ensures target == RefreshTarget(View(), storage.View(), refreshInFlight.value)
      ensures target.Some? ==>
                var r := refreshInFlight.value;
                && target.value.subject == r.binding.subject && target.value.browser == r.binding.browser
                && (r.revocation.None? ==>
                     storage.pendingLogout.None? && generation == r.generation && target == storage.intended)
                && (target != storage.intended ==> storage.intended.None? && target == revokeBinding && token.None?)
    {
      var r := refreshInFlight.value;
      if r.revocation.None? && storage.pendingLogout.Some? { return None; }
      var logoutRefresh := r.revocation.Some? && revokeToken == r.revocation && token.None? &&
          generation == r.generation + 1;
      var current := storage.intended;
      if current.None? && logoutRefresh { current := revokeBinding; }
      if current.None? || current.value.subject != r.binding.subject || current.value.browser != r.binding.browser {
        return None;
      }
      if r.generation != generation && !logoutRefresh { return None; }
      target := current;
    }

    method ApplyReply(reply: Reply) returns (restored: Option<Token>)
      requires refreshInFlight.Some?
      modifies this, storage
      ensures (View(), storage.View(), restored) ==
              Replied(old(View()), old(storage.View()), old(refreshInFlight).value, reply)
    {
      var r := refreshInFlight.value;
      restored := None;
      match reply
      case Failure =>
      case Unauthorized => if r.generation == generation { token := None; }
      case Answer(answer) =>
        if !Expected(r, answer) {
          if r.generation == generation { token := None; }
          return;
        }
        if r.generation == generation {
          if !Unchanged(r, storage.View()) { return; }
          var binding := Binding(r.binding.subject, answer.selector.value.browser, answer.selector.value.generation);
          storage.intended := Some(binding);
          browserSelector := answer.selector;
          ownedBinding := Some(binding);
        }
        restored := Some(answer);
    }

    method Deliver(sub: Subscriber, restored: Option<Token>)
      requires sub.Restorer?
      modifies this
      ensures View() == Delivered(old(View()), sub, restored)
    {
      if sub.generation != generation { return; }
      if SubjectsDiffer(token, restored) { token := None; return; }
      if restored.Some? && token != restored { token := restored; }
    }

    method ContinueLogout(l: Logout, rotated: Option<Token>) returns (jobs: seq<Job>)
      modifies this
      ensures (View(), jobs) == Continue(old(View()), l, rotated)
    {
      if l.revoke && l.awaited && rotated.None? && l.reserved.Some? { return [RetryLogout]; }
      if l.revoke && l.awaited && l.needsRefresh && rotated.None? { return []; }
      if SubjectsDiffer(l.token, rotated) { return []; }
      if !l.revoke { return [RemoveOwn(l.owned)]; }
      var current := if rotated.Some? then rotated else l.token;
      var selector := if rotated.Some? then rotated.value.selector else l.selector;
      if selector.None? || l.selector.None? || selector.value.browser != l.selector.value.browser { return []; }
      if generation == l.generation {
        revokeToken := current;
        browserSelector := selector;
      }
      jobs := [Revoke(l, current, selector.value, rotated.Some?)];
    }

    /** The reply reaches everyone who waits, in order, before the refresh is over. */
    method FinishRefresh(reply: Reply) returns (jobs: seq<Job>)
      requires refreshInFlight.Some?
      modifies this, storage
      ensures var (tab, store, restored) := Replied(old(View()), old(storage.View()), old(refreshInFlight).value,
              reply);
              var (after, queued) := DeliveredAll(tab, old(refreshInFlight).value.subscribers, restored);
              View() == after.(refresh := None) && storage.View() == store && jobs == queued
    {
      var subscribers := refreshInFlight.value.subscribers;
      var restored := ApplyReply(reply);
      ghost var all := DeliveredAll(View(), subscribers, restored);
      jobs := [];
      var i := 0;
      while i < |subscribers|
        invariant 0 <= i <= |subscribers|
        invariant storage.View() == Replied(old(View()), old(storage.View()), old(refreshInFlight).value, reply).1
        invariant var (after, rest) := DeliveredAll(View(), subscribers[i..], restored);
                  after == all.0 && jobs + rest == all.1
      {
        assert subscribers[i..][1..] == subscribers[i + 1..];
        if subscribers[i].Restorer? {
          Deliver(subscribers[i], restored);
        } else {
          var more := ContinueLogout(subscribers[i].logout, restored);
          ghost var rest := DeliveredAll(View(), subscribers[i + 1..], restored).1;
          assert jobs + (more + rest) == (jobs + more) + rest;
          jobs := jobs + more;
        }
        i := i + 1;
      }
      assert jobs + [] == jobs;
      refreshInFlight := None;
    }

    /** Writes the record while the tab's own refresh still holds the lock. */
    method Reserve(owned: Option<Binding>, receipt: string) returns (reserved: Option<PendingLogout>)
      modifies storage
      ensures var may := owned.Some? && SameBinding(old(storage.intended), owned) && old(storage.pendingLogout).None?;
              && reserved == (if may then Some(PendingLogout(owned.value, receipt)) else None)
              && storage.View() == if may then old(storage.View()).(pending := reserved) else old(storage.View())
    {
      if owned.None? || !SameBinding(storage.intended, owned) || storage.pendingLogout.Some? { return None; }
      reserved := Some(PendingLogout(owned.value, receipt));
      storage.pendingLogout := reserved;
    }

    method SignOut(revoke: bool, expired: bool, receipt: string) returns (jobs: seq<Job>)
      modifies this, storage
      ensures (View(), storage.View(), jobs) == LogoutCalled(old(View()), old(storage.View()), revoke, expired, receipt)
    {
      if revoke && logoutCookieUncleared { return []; }
      if revoke && token.None? && storage.pendingLogout.Some? { return [RetryLogout]; }
      var known := if token.Some? then token else revokeToken;
      var selector := Or(browserSelector, Or(SelectorOf(ownedBinding), SelectorOf(storage.intended)));
      revokeBinding := RevokedBinding(View(), storage.View(), revoke);
      var needsRefresh := revoke && known.Some? && expired;
      if revoke { revokeToken := known; }
      var owned := if ownedBinding.Some? then ownedBinding else revokeBinding;
      var reserved := None;
      var failed := false;
      if revoke && refreshInFlight.Some? && refreshInFlight.value.requested.Some? {
        reserved := Reserve(owned, receipt);
        failed := reserved.None?;
      }
      generation := generation + 1;
      ownedBinding := None;
      token := None;
      if failed { return []; }
      var l := Logout(revoke, known, selector, needsRefresh, owned, reserved, generation, refreshInFlight.Some?);
      jobs := AwaitRefresh(l);
    }

    /** Goes on at once, or when the refresh in flight is over. */
    method AwaitRefresh(l: Logout) returns (jobs: seq<Job>)
      modifies this
      ensures old(refreshInFlight).Some? ==> (View(), jobs) == (Awaiting(old(View()), l), [])
      ensures old(refreshInFlight).None? ==> (View(), jobs) == Continue(old(View()), l, None)
    {
      if refreshInFlight.Some? {
        var r := refreshInFlight.value;
        refreshInFlight := Some(r.(subscribers := r.subscribers + [SigningOut(l)]));
        return [];
      }
      jobs := ContinueLogout(l, None);
    }

    method RemoveOwned(owned: Option<Binding>)
      modifies storage
      ensures storage.View() == RemoveOwnedBinding(old(storage.View()), owned)
    {
      if SameBinding(storage.intended, owned) { storage.intended := None; }
    }

    method ClearPending(sent: PendingLogout) returns (ok: bool)
      modifies storage
      ensures storage.View() == ClearPendingLogout(old(storage.View()), sent)
      ensures ok <==> old(storage.pendingLogout) == Some(sent)
    {
      ok := storage.pendingLogout == Some(sent);
      if ok { storage.pendingLogout := None; }
    }

    /** The record is written first, with the rotated session, and only then is anything sent. */
    method BeginRevocation(l: Logout, current: Option<Token>, selector: Selector, rotated: bool, receipt: string)
      returns (stage: Option<Stage>)
      modifies this, storage
      ensures (View(), storage.View(), stage) ==
              RevokeGranted(old(View()), old(storage.View()), l, current, selector, rotated, receipt)
    {
      var existing, intended := storage.pendingLogout, storage.intended;
      if l.owned.None? || (existing.Some? && !SamePending(existing, l.reserved)) ||
          (intended.Some? && !SameBinding(intended, l.owned)) ||
         (intended.None? && existing.None?) {
        return None;
      }
      var used := if l.reserved.Some? then l.reserved.value.receipt else receipt;
      var first := PendingLogout(Spread(l.owned.value, selector), used);
      storage.pendingLogout := Some(first);
      revokeBinding := Some(first.binding);
      if current.None? || (l.needsRefresh && !rotated) { return Some(Retrying(first, Some(l.generation))); }
      var next := current.value.selector;
      if next.None? || next.value.browser != selector.browser || current.value.subject != Some(l.owned.value.subject) {
        return None;
      }
      var sent := PendingLogout(Spread(l.owned.value, next.value), used);
      storage.pendingLogout := Some(sent);
      revokeBinding := Some(sent.binding);
      if generation == l.generation {
        revokeToken := current;
        browserSelector := next;
      }
      RemoveOwned(l.owned);
      stage := Some(Revoking(sent, l.generation));
    }

    /** What is sent is the recorded sign-out, and never beside a session record of another session. */
    method BeginRetry() returns (stage: Option<Stage>)
      ensures stage == RetryGranted(storage.View())
      ensures stage.Some? ==> storage.pendingLogout == Some(stage.value.sent) && stage.value.ofLogout.None?
      ensures stage.Some? && storage.intended.Some? ==> storage.intended.value == stage.value.sent.binding
    {
      var binding := storage.pendingLogout;
      if binding.None? { return None; }
      if storage.intended.Some? && storage.intended != Some(binding.value.binding) { return None; }
      stage := Some(Retrying(binding.value, None));
    }

    method Abandon() returns (ok: bool)
      modifies this, storage
      ensures (View(), storage.View()) == AbandonGranted(old(View()), old(storage.View()))
      ensures ok <==> old(storage.pendingLogout).Some?
    {
      if storage.pendingLogout.None? { return false; }
      RemoveOwned(Some(storage.pendingLogout.value.binding));
      storage.pendingLogout := None;
      Invalidate();
      ok := true;
    }

    method ForgetRevocation(logoutGeneration: nat)
      modifies this
      ensures View() == SignedOut(old(View()), logoutGeneration)
    {
      if generation == logoutGeneration {
        revokeToken := None;
        revokeBinding := None;
        browserSelector := None;
      }
    }

    method ConfirmRevocation(sent: PendingLogout, logoutGeneration: nat)
      modifies this, storage
      ensures (View(), storage.View()) == RevokeConfirmed(old(View()), old(storage.View()), sent, logoutGeneration)
    {
      var ok := ClearPending(sent);
      if ok { ForgetRevocation(logoutGeneration); }
    }

    method ConfirmRetry(sent: PendingLogout, ofLogout: Option<nat>)
      modifies this, storage
      ensures (View(), storage.View()) == RetryConfirmed(old(View()), old(storage.View()), sent, ofLogout)
    {
      if storage.pendingLogout != Some(sent) { return; }
      RemoveOwned(Some(sent.binding));
      var ok := ClearPending(sent);
      if ok && ofLogout.Some? { ForgetRevocation(ofLogout.value); }
    }
  }
}
