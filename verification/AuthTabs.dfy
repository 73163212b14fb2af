/**
 * Sign-in, refresh and sign-out in tabs that share storage and one lock.
 *
 * Each function is what one synchronous piece of the service does to a tab's fields and the storage:
 * a call, the start of a request once the lock is granted, or the arrival of a reply.
 */
module AuthTabs {
  import opened Options

  datatype Binding = Binding(subject: string, browser: string, generation: string)

  /** The `browser_id` and `generation` of a session; some values in this role also carry a subject. */
  datatype Selector = Selector(subject: Option<string>, browser: string, generation: string)

  datatype PendingLogout = PendingLogout(binding: Binding, receipt: string)

  /** A token as an object: `serial` tells apart tokens that say the same. */
  datatype Token = Token(serial: nat, subject: Option<string>, selector: Option<Selector>)

  datatype Store = Store(intended: Option<Binding>, pending: Option<PendingLogout>)

  /** A sign-out between its call and the lock. */
  datatype Logout = Logout(
    revoke: bool,
    token: Option<Token>,
    selector: Option<Selector>,
    needsRefresh: bool,
    owned: Option<Binding>,
    reserved: Option<PendingLogout>,
    generation: nat,
    awaited: bool)

  /** Who waits for a refresh: a `restore` call or a sign-out. */
  datatype Subscriber = Restorer(generation: nat, revocation: bool) | SigningOut(logout: Logout)

  /** A refresh in flight; `requested` is the session generation it was sent for, once it holds the lock. */
  datatype Refresh = Refresh(
    generation: nat,
    binding: Binding,
    browser: string,
    revocation: Option<Token>,
    requested: Option<string>,
    subscribers: seq<Subscriber>)

  datatype Tab = Tab(
    generation: nat,
    token: Option<Token>,
    ownedBinding: Option<Binding>,
    browserSelector: Option<Selector>,
    revokeToken: Option<Token>,
    revokeBinding: Option<Binding>,
    logoutCookieUncleared: bool,
    refresh: Option<Refresh>)
  {
    predicate RefreshOwnsLock() { refresh.Some? && refresh.value.requested.Some? }
  }

  const FRESH_TAB := Tab(0, None, None, None, None, None, false, None)

  /** Work that waits for the lock. */
  datatype Job =
    | SignIn(generation: nat)
    | RemoveOwn(owned: Option<Binding>)
    | Revoke(logout: Logout, current: Option<Token>, selector: Selector, rotated: bool)
    | RetryLogout
    | AbandonLogout

  /** A request sent under the lock whose reply is still out. */
  datatype Stage =
    | SigningIn(generation: nat)
    | Revoking(sent: PendingLogout, generation: nat)
    | Retrying(sent: PendingLogout, ofLogout: Option<nat>)

  datatype Reply = Answer(token: Token) | Unauthorized | Failure

  predicate SameBinding(a: Option<Binding>, b: Option<Binding>) { a.Some? && a == b }

  predicate SamePending(a: Option<PendingLogout>, b: Option<PendingLogout>) { a.Some? && a == b }

  function PendingBinding(p: Option<PendingLogout>): Option<Binding> { if p.Some? then Some(p.value.binding) else None }

  function SelectorOf(b: Option<Binding>): Option<Selector> {
    if b.Some? then Some(Selector(Some(b.value.subject), b.value.browser, b.value.generation)) else None
  }

  /** A binding with a selector's fields over it. */
  function Spread(b: Binding, s: Selector): Binding {
    Binding(if s.subject.Some? then s.subject.value else b.subject, s.browser, s.generation)
  }

  function InvalidateLocalSession(tab: Tab): Tab {
    tab.(generation := tab.generation + 1, ownedBinding := None, browserSelector := None, revokeToken := None,
        revokeBinding := None, token := None)
  }

  predicate Identified(token: Token) { token.selector.Some? && token.subject.Some? }

  function AcceptToken(tab: Tab, store: Store, token: Token): (Tab, Store) {
    if store.pending.Some? || !Identified(token) then (tab, store)
    else
      var binding := Binding(token.subject.value, token.selector.value.browser, token.selector.value.generation);
      (tab.(generation := tab.generation + 1, browserSelector := token.selector, ownedBinding := Some(binding),
            revokeToken := None, revokeBinding := None, logoutCookieUncleared := false, token := Some(token)),
       store.(intended := Some(binding)))
  }

  function SessionIsCurrent(tab: Tab, store: Store): Tab {
    if tab.token.Some? && (store.pending.Some? || !SameBinding(store.intended, tab.ownedBinding))
      then InvalidateLocalSession(tab) else tab
  }

  function StorageChanged(tab: Tab, store: Store, pendingKey: bool): Tab {
    if pendingKey && store.pending.Some? then InvalidateLocalSession(tab)
    else if !pendingKey && tab.ownedBinding.Some? && !SameBinding(store.intended, tab.ownedBinding)
      then InvalidateLocalSession(tab)
    else tab
  }

  // ----- Refreshing -----------------------------------------------------------------------------

  function Subscribed(tab: Tab, binding: Binding, revocation: Option<Token>): Tab {
    var r := if tab.refresh.Some? then tab.refresh.value
             else Refresh(tab.generation, binding,
                 if tab.browserSelector.Some? then tab.browserSelector.value.browser
                   else binding.browser, revocation, None, []);
    tab.(ownedBinding := Or(tab.ownedBinding, Some(binding)),
         refresh := Some(r.(subscribers := r.subscribers + [Restorer(tab.generation, revocation.Some?)])))
  }

  /** `restore`: the tab waits for a refresh, its own or one already in flight, unless something speaks against it. */
  function Restore(tab: Tab, store: Store, revocation: Option<Token>, expired: bool): Tab {
    if revocation.None? && store.pending.Some? then InvalidateLocalSession(tab)
    else
      var token := Or(tab.token, revocation);
      if tab.token.Some? && !SameBinding(store.intended, tab.ownedBinding) then InvalidateLocalSession(tab)
      else if token.Some? && !expired then tab
      else
        var binding := Or(store.intended, if revocation.Some? then tab.revokeBinding else None);
        if binding.None? || (token.Some? && token.value.subject != Some(binding.value.subject)) then tab
        else Subscribed(tab, binding.value, revocation)
  }

  /** What a refresh asks for when it gets the lock; None if it ends without a request. */
  function RefreshTarget(tab: Tab, store: Store, r: Refresh): Option<Binding> {
    if r.revocation.None? && store.pending.Some? then None
    else
      var logoutRefresh := r.revocation.Some? && tab.revokeToken == r.revocation && tab.token.None? &&
          tab.generation == r.generation + 1;
      var current := Or(store.intended, if logoutRefresh then tab.revokeBinding else None);
      if current.None? || current.value.subject != r.binding.subject || current.value.browser != r.binding.browser
         || (r.generation != tab.generation && !logoutRefresh)
      then None else current
  }

  predicate Expected(r: Refresh, token: Token) {
    token.selector.Some? && token.selector.value.browser == r.browser && token.subject == Some(r.binding.subject)
  }

  /** The session record is still the one the refresh was sent for. */
  predicate Unchanged(r: Refresh, store: Store) {
    && store.intended.Some? && r.requested.Some?
    && store.intended.value == Binding(r.binding.subject, r.binding.browser, r.requested.value)
  }

  /** The reply, before anyone who waits for it: the tab, the storage and the token passed on. */
  function Replied(tab: Tab, store: Store, r: Refresh, reply: Reply): (Tab, Store, Option<Token>) {
    match reply
    case Failure => (tab, store, None)
    case Unauthorized => (if r.generation == tab.generation then tab.(token := None) else tab, store, None)
    case Answer(token) =>
      if !Expected(r, token) then (if r.generation == tab.generation then tab.(token := None) else tab, store, None)
      else if r.generation != tab.generation then (tab, store, Some(token))
      else if !Unchanged(r, store) then (tab, store, None)
      else
        var binding := Binding(r.binding.subject, token.selector.value.browser, token.selector.value.generation);
        (tab.(browserSelector := token.selector, ownedBinding := Some(binding)), store.(intended := Some(binding)),
            Some(token))
  }

  predicate SubjectsDiffer(a: Option<Token>, b: Option<Token>) {
    a.Some? && b.Some? && (a.value.subject.None? || a.value.subject != b.value.subject)
  }

  function Delivered(tab: Tab, sub: Subscriber, restored: Option<Token>): Tab
    requires sub.Restorer?
  {
    if sub.generation != tab.generation then tab
    else if SubjectsDiffer(tab.token, restored) then tab.(token := None)
    else if restored.Some? then tab.(token := restored)
    else tab
  }

  /** A sign-out goes on once the refresh it waited for, if any, is over. */
  function Continue(tab: Tab, l: Logout, rotated: Option<Token>): (Tab, seq<Job>) {
    if l.revoke && l.awaited && rotated.None? && l.reserved.Some? then (tab, [RetryLogout])
    else if l.revoke && l.awaited && l.needsRefresh && rotated.None? then (tab, [])
    else if SubjectsDiffer(l.token, rotated) then (tab, [])
    else if !l.revoke then (tab, [RemoveOwn(l.owned)])
    else
      var current := Or(rotated, l.token);
      var selector := if rotated.Some? then rotated.value.selector else l.selector;
      if selector.None? || l.selector.None? || selector.value.browser != l.selector.value.browser then (tab, [])
      else
        (if tab.generation == l.generation then tab.(revokeToken := current, browserSelector := selector) else tab,
         [Revoke(l, current, selector.value, rotated.Some?)])
  }

  /** Everyone who waited, in order. */
  function DeliveredAll(tab: Tab, subscribers: seq<Subscriber>, restored: Option<Token>): (Tab, seq<Job>)
    decreases |subscribers|
  {
    if subscribers == [] then (tab, [])
    else if subscribers[0].Restorer?
      then DeliveredAll(Delivered(tab, subscribers[0], restored), subscribers[1..], restored)
    else
      var (t, jobs) := Continue(tab, subscribers[0].logout, restored);
      var (u, more) := DeliveredAll(t, subscribers[1..], restored);
      (u, jobs + more)
  }

  // ----- Signing out ----------------------------------------------------------------------------

  /** The bindings a sign-out starts from. */
  function RevokedBinding(tab: Tab, store: Store, revoke: bool): Option<Binding> {
    Or(tab.ownedBinding, Or(tab.revokeBinding, if revoke then store.intended else None))
  }

  /** While its own refresh holds the lock, a sign-out may write its record at once; None if the session has changed. */
  function Reservation(tab: Tab, store: Store, receipt: string): Option<PendingLogout> {
    var owned := RevokedBinding(tab, store, true);
    if owned.None? || !SameBinding(store.intended, owned) || store.pending.Some? then None
    else Some(PendingLogout(owned.value, receipt))
  }

  /** The part of `logout` that runs at the call: the tab's session ends here. */
  function LogoutCalled(tab: Tab, store: Store, revoke: bool, expired: bool, receipt: string): (Tab, Store, seq<Job>) {
    if revoke && tab.logoutCookieUncleared then (tab, store, [])
    else if revoke && tab.token.None? && store.pending.Some? then (tab, store, [RetryLogout])
    else
      var token := Or(tab.token, tab.revokeToken);
      var selector := Or(tab.browserSelector, Or(SelectorOf(tab.ownedBinding), SelectorOf(store.intended)));
      var owned := RevokedBinding(tab, store, revoke);
      var reserving := revoke && tab.RefreshOwnsLock();
      var reserved := if reserving then Reservation(tab, store, receipt) else None;
      var out := tab.(revokeToken := if revoke then token else tab.revokeToken, revokeBinding := owned,
                      generation := tab.generation + 1, ownedBinding := None, token := None);
      var kept := if reserved.Some? then store.(pending := reserved) else store;
      var l := Logout(revoke, token, selector, revoke && token.Some? && expired, owned, reserved, tab.generation + 1,
          tab.refresh.Some?);
      if reserving && reserved.None? then (out, kept, [])
      else if out.refresh.Some? then
        (out.(refresh := Some(out.refresh.value.(subscribers := out.refresh.value.subscribers + [SigningOut(l)]))),
            kept, [])
      else
        var (t, jobs) := Continue(out, l, None);
        (t, kept, jobs)
  }

  function RemoveOwnedBinding(store: Store, owned: Option<Binding>): Store {
    if SameBinding(store.intended, owned) then store.(intended := None) else store
  }

  /** The session record or the reservation is still the one this sign-out began with. */
  predicate MayRevoke(store: Store, l: Logout) {
    && l.owned.Some?
    && (store.pending.Some? ==> SamePending(store.pending, l.reserved))
    && (store.intended.Some? ==> store.intended == l.owned)
    && (store.intended.Some? || store.pending.Some?)
  }

  /** A sign-out that got the lock: its record is written before anything is sent. */
  function RevokeGranted(tab: Tab, store: Store, l: Logout, current: Option<Token>, selector: Selector, rotated: bool,
                         receipt: string)
    : (Tab, Store, Option<Stage>)
  {
    if !MayRevoke(store, l) then (tab, store, None)
    else
      var first := PendingLogout(Spread(l.owned.value, selector),
          if l.reserved.Some? then l.reserved.value.receipt else receipt);
      var t, kept := tab.(revokeBinding := Some(first.binding)), store.(pending := Some(first));
      if current.None? || (l.needsRefresh && !rotated) then (t, kept, Some(Retrying(first, Some(l.generation))))
      else
        var next := current.value.selector;
        if next.None? || next.value.browser != selector.browser ||
            current.value.subject != Some(l.owned.value.subject) then (t, kept, None)
        else
          var sent := PendingLogout(Spread(l.owned.value, next.value), first.receipt);
          var u := t.(revokeBinding := Some(sent.binding));
          (if tab.generation == l.generation then u.(revokeToken := current, browserSelector := next) else u,
           RemoveOwnedBinding(kept.(pending := Some(sent)), l.owned),
           Some(Revoking(sent, l.generation)))
  }

  function RetryGranted(store: Store): Option<Stage> {
    if store.pending.None? || (store.intended.Some? && store.intended != PendingBinding(store.pending)) then None
    else Some(Retrying(store.pending.value, None))
  }

  function AbandonGranted(tab: Tab, store: Store): (Tab, Store) {
    if store.pending.None? then (tab, store)
    else (InvalidateLocalSession(tab), RemoveOwnedBinding(store, PendingBinding(store.pending)).(pending := None))
  }

  function ClearPendingLogout(store: Store, sent: PendingLogout): Store {
    if store.pending == Some(sent) then store.(pending := None) else store
  }

  function SignedOut(tab: Tab, generation: nat): Tab {
    if tab.generation == generation then tab.(revokeToken := None, revokeBinding := None, browserSelector := None)
      else tab
  }

  /** The server confirmed a sign-out. */
  function RevokeConfirmed(tab: Tab, store: Store, sent: PendingLogout, generation: nat): (Tab, Store) {
    if store.pending != Some(sent) then (tab, store)
    else (SignedOut(tab, generation), ClearPendingLogout(store, sent))
  }

  function RetryConfirmed(tab: Tab, store: Store, sent: PendingLogout, ofLogout: Option<nat>): (Tab, Store) {
    if store.pending != Some(sent) then (tab, store)
    else (if ofLogout.Some? then SignedOut(tab, ofLogout.value) else tab,
          ClearPendingLogout(RemoveOwnedBinding(store, Some(sent.binding)), sent))
  }

  /** Sessions were revoked but the cookie may still be there. */
  function RevokedUncleared(tab: Tab, generation: nat): Tab {
    if tab.generation == generation then tab.(revokeToken := None, logoutCookieUncleared := true) else tab
  }
}
