/** What a tab would sign out with: exactly which token, session and selector it keeps for that after every step. */
module AuthTabsRevocation {
  import opened Options
  import opened AuthTabs
  import opened AuthTabsRuns
  import opened AuthTabsOutcomes
  import opened AuthTabsFlows

  datatype Means = Means(token: Option<Token>, binding: Option<Binding>, selector: Option<Selector>)

  const NOTHING := Means(None, None, None)

  function MeansOf(tab: Tab): Means { Means(tab.revokeToken, tab.revokeBinding, tab.browserSelector) }

  // ----- Signing out ----------------------------------------------------------------------------

  /** The token a sign-out revokes with: that of the session, or the one left from an earlier sign-out. */
  function RevokingToken(tab: Tab): Option<Token> { if tab.token.Some? then tab.token else tab.revokeToken }

  /** The session it is for. */
  function RevokedSession(tab: Tab, store: Store, revoke: bool): Option<Binding> {
    if tab.ownedBinding.Some? then tab.ownedBinding
    else if tab.revokeBinding.Some? then tab.revokeBinding
    else if revoke then store.intended else None
  }

  /** What says which session of the browser it is: the selector, or a session known. */
  function Naming(tab: Tab, store: Store): Option<Selector> {
    if tab.browserSelector.Some? then tab.browserSelector
    else
      var b := if tab.ownedBinding.Some? then tab.ownedBinding else store.intended;
      if b.Some? then Some(Selector(Some(b.value.subject), b.value.browser, b.value.generation)) else None
  }

  /** A sign-out that is not refused; if no refresh is waited for, it goes on at once with what names the session. */
  function SigningOutMeans(tab: Tab, store: Store, revoke: bool): Means {
    Means(if revoke then RevokingToken(tab) else tab.revokeToken, RevokedSession(tab, store, revoke),
          if revoke && tab.refresh.None? && Naming(tab, store).Some? then Naming(tab, store) else tab.browserSelector)
  }

  // ----- The end of a refresh -------------------------------------------------------------------

  /** Two tokens known to be of one subject. */
  predicate OneSubject(a: Token, b: Token) { a.subject.Some? && a.subject == b.subject }

  /** What a waiting sign-out goes on with. */
  function GoingSelector(l: Logout, rotated: Option<Token>): Option<Selector> {
    if rotated.Some? then rotated.value.selector else l.selector
  }

  /**
   * A waiting sign-out goes on to revoke: with a new token of the same subject, or without one if it needs none and
   * left no record; and the browser is still the one it began in.
   */
  predicate GoesOn(l: Logout, rotated: Option<Token>) {
    && l.revoke
    && (rotated.None? && l.awaited ==> l.reserved.None? && !l.needsRefresh)
    && (rotated.Some? && l.token.Some? ==> OneSubject(l.token.value, rotated.value))
    && l.selector.Some? && GoingSelector(l, rotated).Some?
    && GoingSelector(l, rotated).value.browser == l.selector.value.browser
  }

  /** The last sign-out of the tab's present session that goes on. */
  function LastGoing(subscribers: seq<Subscriber>, generation: nat, rotated: Option<Token>): Option<Logout>
    decreases |subscribers|
  {
    if subscribers == [] then None
    else
      var first, later := subscribers[0], LastGoing(subscribers[1..], generation, rotated);
      if later.Some? then later
      else if first.SigningOut? && first.logout.generation == generation && GoesOn(first.logout, rotated)
        then Some(first.logout)
      else None
  }

  /** Once everyone who waited was told. */
  function ToldMeans(before: Means, subscribers: seq<Subscriber>, generation: nat, rotated: Option<Token>): Means {
    var l := LastGoing(subscribers, generation, rotated);
    if l.None? then before
    else Means(if rotated.Some? then rotated else l.value.token, before.binding, GoingSelector(l.value, rotated))
  }

  lemma ToldOne(tab: Tab, l: Logout, rotated: Option<Token>)
    ensures var u := Continue(tab, l, rotated).0;
            && u.generation == tab.generation
            && MeansOf(u) == if l.generation == tab.generation && GoesOn(l, rotated)
                             then Means(if rotated.Some? then rotated else l.token, tab.revokeBinding,
                                        GoingSelector(l, rotated))
                             else MeansOf(tab)
  {
  }

  lemma {:induction false} ToldAll(tab: Tab, subscribers: seq<Subscriber>, rotated: Option<Token>)
    ensures MeansOf(DeliveredAll(tab, subscribers, rotated).0) ==
            ToldMeans(MeansOf(tab), subscribers, tab.generation, rotated)
    decreases |subscribers|
  {
    if subscribers != [] {
      if subscribers[0].Restorer? {
        ToldAll(Delivered(tab, subscribers[0], rotated), subscribers[1..], rotated);
      } else {
        ToldOne(tab, subscribers[0].logout, rotated);
        ToldAll(Continue(tab, subscribers[0].logout, rotated).0, subscribers[1..], rotated);
      }
    }
  }

  // ----- Every step -----------------------------------------------------------------------------

  /** The refresh's answer, where it is passed on. */
  function Rotated(b: Browser, t: TabID, reply: Reply): Option<Token>
    requires t in b.tabs && b.tabs[t].refresh.Some?
  {
    if reply.Answer? && PassedOn(b.tabs[t], b.store, reply.token) then Some(reply.token) else None
  }

  /** A refresh gets the lock, but may not ask any more: those who wait are told of nothing. */
  predicate EndsUnasked(b: Browser, t: TabID, e: Event)
    requires t in b.tabs
  {
    && e.GrantRefresh? && b.lock.Free? && b.tabs[t].refresh.Some? && b.tabs[t].refresh.value.requested.None?
    && !MayAsk(b.tabs[t], b.store)
  }

  /** The server's answer is to a sign-out of the tab's present session. */
  predicate OfThis(stage: Stage, generation: nat) {
    match stage
    case Revoking(_, g) => g == generation
    case Retrying(_, g) => g == Some(generation)
    case SigningIn(_) => false
  }

  function JobMeans(tab: Tab, store: Store, job: Job, receipt: string): Means {
    var kept := MeansOf(tab);
    match job
    case Revoke(l, current, selector, rotated) =>
      if !Undisturbed(store, l) then kept
      else
        var recorded := kept.(binding := Some(RevocationRecord(job, receipt).binding));
        if Usable(l, current, selector, rotated) && l.generation == tab.generation
          then recorded.(token := current, selector := current.value.selector)
        else recorded
    case _ => kept
  }

  /** What the acting tab would sign out with after a step. */
  function MeansAfter(b: Browser, t: TabID, e: Event): Means
    requires t in b.tabs
  {
    var tab := b.tabs[t];
    if e.CallLogout? then
      (if Refused(tab, b.store, e.revoke) then MeansOf(tab) else SigningOutMeans(tab, b.store, e.revoke))
    else if Ends(b, t, e) then NOTHING
    else if SignedIn(b, t, e).Some? then Means(None, None, SignedIn(b, t, e).value.selector)
    else if Arrives(b, t, e) then
      var before := if Renews(b, t, e) then MeansOf(tab).(selector := e.reply.token.selector) else MeansOf(tab);
      ToldMeans(before, tab.refresh.value.subscribers, tab.generation, Rotated(b, t, e.reply))
    else if EndsUnasked(b, t, e) then ToldMeans(MeansOf(tab), tab.refresh.value.subscribers, tab.generation, None)
    else if Gets(b, t, e) then JobMeans(tab, b.store, b.waiting[e.index].job, e.receipt)
    else if ConfirmsNow(b, t, e) && OfThis(b.lock.stage, tab.generation) then NOTHING
    else if Uncleared(b, t, e) then MeansOf(tab).(token := None)
    else MeansOf(tab)
  }

  lemma CalledMeans(b: Browser, t: TabID, e: Event)
    requires t in b.tabs && !e.Open? && !e.Close? && !e.CallLogout? && !ConcernsLock(e)
    ensures MeansOf(Called(b, t, b.tabs[t], e).tabs[t]) == MeansAfter(b, t, e)
  {
  }

  lemma LogoutMeans(tab: Tab, store: Store, revoke: bool, expired: bool, receipt: string)
    ensures MeansOf(LogoutCalled(tab, store, revoke, expired, receipt).0) ==
            if Refused(tab, store, revoke) then MeansOf(tab) else SigningOutMeans(tab, store, revoke)
  {
  }

  lemma ReplyMeans(b: Browser, t: TabID, reply: Reply)
    requires Arrives(b, t, RefreshReply(reply))
    ensures MeansOf(RefreshReplied(b, t, b.tabs[t], reply).tabs[t]) == MeansAfter(b, t, RefreshReply(reply))
  {
    var r := b.tabs[t].refresh.value;
    var (u, store, restored) := Replied(b.tabs[t], b.store, r, reply);
    ToldAll(u, r.subscribers, restored);
  }

  lemma RefreshMeans(b: Browser, t: TabID)
    requires t in b.tabs
    ensures MeansOf(AtLock(b, t, b.tabs[t], GrantRefresh).tabs[t]) == MeansAfter(b, t, GrantRefresh)
  {
    if b.tabs[t].refresh.Some? { ToldAll(b.tabs[t], b.tabs[t].refresh.value.subscribers, None); }
  }

  lemma RevokingMeans(tab: Tab, store: Store, job: Job, receipt: string)
    requires job.Revoke?
    ensures MeansOf(RevokeGranted(tab, store, job.logout, job.current, job.selector, job.rotated, receipt).0) ==
            JobMeans(tab, store, job, receipt)
  {
  }

  lemma JobGrantedMeans(b: Browser, t: TabID, job: Job, receipt: string)
    requires t in b.tabs
    ensures MeansOf(JobGranted(b, t, b.tabs[t], job, receipt).tabs[t]) ==
            if job.AbandonLogout? && b.store.pending.Some? then NOTHING else JobMeans(b.tabs[t], b.store, job, receipt)
  {
    if job.Revoke? { RevokingMeans(b.tabs[t], b.store, job, receipt); }
  }

  lemma GrantedMeans(b: Browser, t: TabID, e: Event)
    requires t in b.tabs && e.GrantJob?
    ensures MeansOf(AtLock(b, t, b.tabs[t], e).tabs[t]) == MeansAfter(b, t, e)
  {
    if Gets(b, t, e) { JobGrantedMeans(Dequeued(b, e.index), t, b.waiting[e.index].job, e.receipt); }
  }

  lemma AnswerMeans(b: Browser, t: TabID, e: Event)
    requires t in b.tabs && (e.JobReply? || e.Cancel?)
    ensures MeansOf(AtLock(b, t, b.tabs[t], e).tabs[t]) == MeansAfter(b, t, e)
  {
  }

  /** The token, the session and the selector the tab would sign out with, after any step of its own. */
  lemma MeansExactly(b: Browser, a: Action)
    requires a.tab in b.tabs && !a.event.Open? && !a.event.Close?
    ensures MeansOf(Step(b, a).tabs[a.tab]) == MeansAfter(b, a.tab, a.event)
  {
    var e := a.event;
    match e
    case RefreshReply(reply) => if Arrives(b, a.tab, e) { ReplyMeans(b, a.tab, reply); }
    case GrantRefresh => RefreshMeans(b, a.tab);
    case GrantJob(_, _) => GrantedMeans(b, a.tab, e);
    case JobReply(_, _, _) => AnswerMeans(b, a.tab, e);
    case Cancel => AnswerMeans(b, a.tab, e);
    case CallLogout(revoke, expired, receipt) => LogoutMeans(b.tabs[a.tab], b.store, revoke, expired, receipt);
    case _ => CalledMeans(b, a.tab, e);
  }

  /** A confirmed sign-out of the tab's present session leaves it nothing to sign out with. */
  lemma ConfirmedForgets(b: Browser, t: TabID)
    requires t in b.tabs && b.lock.Running? && b.lock.tab == t && OfThis(b.lock.stage, b.tabs[t].generation)
    requires b.store.pending == Some(b.lock.stage.sent)
    ensures MeansOf(Step(b, Action(t, JobReply(None, true, false))).tabs[t]) == NOTHING
  {
    MeansExactly(b, Action(t, JobReply(None, true, false)));
  }
}
