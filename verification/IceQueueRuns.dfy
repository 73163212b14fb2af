/** What becomes of every candidate a group-call peer receives, over all runs. */
module IceQueueRuns {
  import opened Options
  import opened IceTypes
  import opened IceQueue

  // ----- One flush ------------------------------------------------------------------------------

  /** The candidates of one fate, in order. */
  function Select(queue: seq<Pending>, fates: Pending -> Fate, fate: Fate): seq<Pending> {
    if queue == [] then []
    else if fates(queue[0]) == fate then [queue[0]] + Select(queue[1..], fates, fate)
    else Select(queue[1..], fates, fate)
  }

  function Applications(s: Ice, queue: seq<Pending>): seq<Application> {
    if queue == [] then [] else [Application(queue[0], s.Installed(), s.retired)] + Applications(s, queue[1..])
  }

  /** The peer after everything in `todo` that could be settled was settled. */
  function Flushed(s: Ice, kept: seq<Pending>, todo: seq<Pending>, fates: Pending -> Fate): Ice {
    s.(queue := kept + Select(todo, fates, Waiting),
       applied := s.applied + Applications(s, Select(todo, fates, Wanted)),
       dropped := s.dropped + Select(todo, fates, Stale))
  }

  predicate AllWaiting(queue: seq<Pending>, fates: Pending -> Fate) {
    forall i :: 0 <= i < |queue| ==> fates(queue[i]) == Waiting
  }

  /** A queue of passed-over candidates and those still to be looked at. */
  predicate Split(s: Ice, kept: seq<Pending>, todo: seq<Pending>, fates: Pending -> Fate) {
    s.queue == kept + todo && AllWaiting(kept, fates)
  }

  lemma DequeueNext(s: Ice, kept: seq<Pending>, todo: seq<Pending>, fates: Pending -> Fate)
    requires Split(s, kept, todo, fates) && todo != [] && fates(todo[0]) != Waiting
    ensures Dequeue(s, todo[0]).queue == kept + todo[1..]
  {
    var p, queue := todo[0], kept + todo;
    assert queue[|kept|] == p;
    assert IndexOf(queue, p) == |kept|;
    assert queue[|kept| + 1..] == todo[1..];
  }

  function Still(kept: seq<Pending>, p: Pending, fate: Fate): seq<Pending> {
    if fate == Waiting then kept + [p] else kept
  }

  lemma SettleSplits(s: Ice, kept: seq<Pending>, todo: seq<Pending>, fates: Pending -> Fate)
    requires Split(s, kept, todo, fates) && todo != [] && fates(todo[0]) != Trouble
    ensures var fate := fates(todo[0]);
            Split(Settle(s, todo[0], fate), Still(kept, todo[0], fate), todo[1..], fates)
  {
    if fates(todo[0]) == Waiting {
      assert kept + todo == kept + [todo[0]] + todo[1..];
    } else {
      DequeueNext(s, kept, todo, fates);
    }
  }

  /**
   * A flush fails exactly when some queued candidate is in trouble, and otherwise applies what is
   * wanted, drops what is stale and leaves the rest, each in order.
   */
  lemma {:induction false} FlushIsFilter(s: Ice, kept: seq<Pending>, todo: seq<Pending>, fates: Pending -> Fate)
    requires !s.closed && Split(s, kept, todo, fates)
    ensures Flush(s, todo, fates).closed <==> exists i :: 0 <= i < |todo| && fates(todo[i]) == Trouble
    ensures !Flush(s, todo, fates).closed ==> Flush(s, todo, fates) == Flushed(s, kept, todo, fates)
    decreases |todo|
  {
    if todo == [] {
      assert kept + todo == kept && kept + [] == kept;
      assert s.applied + [] == s.applied && s.dropped + [] == s.dropped;
    } else {
      var p, rest := todo[0], todo[1..];
      var t := Settle(s, p, fates(p));
      assert forall i :: 0 <= i < |rest| ==> rest[i] == todo[i + 1];
      if fates(p) == Trouble {
        assert Flush(t, rest, fates) == t;
      } else {
        SettleSplits(s, kept, todo, fates);
        FlushIsFilter(t, Still(kept, p, fates(p)), rest, fates);
        FlushedNext(s, kept, todo, fates);
      }
    }
  }

  lemma FlushedNext(s: Ice, kept: seq<Pending>, todo: seq<Pending>, fates: Pending -> Fate)
    requires Split(s, kept, todo, fates) && todo != [] && fates(todo[0]) != Trouble
    ensures var p := todo[0];
            Flushed(Settle(s, p, fates(p)), Still(kept, p, fates(p)), todo[1..], fates) == Flushed(s, kept, todo, fates)
  {
    var p, rest := todo[0], todo[1..];
    var t := Settle(s, p, fates(p));
    var waiting, wanted, stale := Select(rest, fates, Waiting), Select(rest, fates, Wanted), Select(rest, fates, Stale);
    SameApplications(s, t, wanted);
    match fates(p)
    case Waiting =>
      assert kept + [p] + waiting == kept + ([p] + waiting);
    case Wanted =>
      assert ([p] + wanted)[1..] == wanted;
      var first := [Application(p, s.Installed(), s.retired)];
      assert s.applied + first + Applications(s, wanted) == s.applied + (first + Applications(s, wanted));
    case Stale =>
      assert s.dropped + [p] + stale == s.dropped + ([p] + stale);
  }

  lemma {:induction false} SameApplications(s: Ice, t: Ice, queue: seq<Pending>)
    requires s.Installed() == t.Installed() && s.retired == t.retired
    ensures Applications(s, queue) == Applications(t, queue)
  {
    if queue != [] {
      SameApplications(s, t, queue[1..]);
    }
  }

  // ----- Runs -----------------------------------------------------------------------------------

  /**
   * What can happen to a peer.  A signal is queued first and applied later, one operation at a time;
   * timers fire between operations.  `Idle` is an operation that leaves the candidates alone.
   */
  datatype Event =
    | Queued
    | CandidateSignal(identity: Identity)
    | OfferSignal(generations: seq<Generation>)
    | IgnoredOfferSignal(generations: seq<Generation>)
    | AnswerSignal(generations: seq<Generation>)
    | Idle
    | Timer(p: Pending, connected: bool, settled: bool)
    | Failure

  /** A peer and every candidate its operations have taken up, numbered in order. */
  datatype Peer = Peer(ice: Ice, received: seq<Pending>)

  function Done(s: Ice): Ice { s.(operations := if s.operations > 0 then s.operations - 1 else 0) }

  function Step(x: Peer, e: Event): Peer {
    var s := x.ice;
    if s.closed then x
    else
      match e
      case Queued => x.(ice := Enqueue(s))
      case Timer(p, connected, settled) => x.(ice := Expire(s, p, connected, settled))
      case Failure => x.(ice := Fail(s))
      case CandidateSignal(identity) =>
        var p := Pending(|x.received|, identity);
        if s.operations == 0 then x else Peer(Done(Accept(s, p)), x.received + [p])
      case OfferSignal(generations) => if s.operations == 0 then x else x.(ice := Done(AnswerOffer(s, generations)))
      case IgnoredOfferSignal(generations) =>
        if s.operations == 0 then x else x.(ice := Done(IgnoreOffer(s, generations)))
      case AnswerSignal(generations) => if s.operations == 0 then x else x.(ice := Done(AcceptAnswer(s, generations)))
      case Idle => if s.operations == 0 then x else x.(ice := Done(s))
  }

  function Run(events: seq<Event>): Peer {
    if events == [] then Peer(NEW_PEER, []) else Step(Run(events[..|events| - 1]), events[|events| - 1])
  }

  function Candidates(applied: seq<Application>): seq<Pending> {
    if applied == [] then [] else Candidates(applied[..|applied| - 1]) + [applied[|applied| - 1].pending]
  }

  /** Where the candidates are. */
  function Total(s: Ice): multiset<Pending> {
    multiset(Candidates(s.applied)) + multiset(s.dropped) + multiset(s.expired) + multiset(s.queue)
  }

  predicate Fresh(s: Ice) {
    forall i :: 0 <= i < |s.queue| ==> !UfragIn(s.queue[i].identity.ufrag, s.Known())
  }

  predicate Numbered(received: seq<Pending>) {
    forall i :: 0 <= i < |received| ==> received[i].id == i
  }

  /** Every application was for an installed generation, and every known match had its password. */
  predicate AppliedSafely(s: Ice) {
    forall i :: 0 <= i < |s.applied| ==>
      && MatchesAny(s.applied[i].pending.identity, s.applied[i].installed)
      && OnePassword(s.applied[i].pending.identity, s.applied[i].installed + s.applied[i].retired)
  }

  predicate NoDuplicates(generations: seq<Generation>) {
    forall i, j :: 0 <= i < j < |generations| ==> generations[i] != generations[j]
  }

  predicate Bounded(s: Ice) {
    && |s.retired| <= ICE_QUEUE_LIMIT && NoDuplicates(s.retired)
    && |s.queue| + s.operations <= ICE_QUEUE_LIMIT
  }

  predicate Invariant(x: Peer) {
    && Numbered(x.received) && AppliedSafely(x.ice) && Total(x.ice) <= multiset(x.received)
    && (!x.ice.closed ==> x.ice.pending == [] && Fresh(x.ice) && Bounded(x.ice) && Total(x.ice) == multiset(x.received))
  }

  // ----- Each step ------------------------------------------------------------------------------

  lemma ApplySafely(s: Ice, p: Pending)
    requires AppliedSafely(s) && Fates(s)(p) == Wanted
    ensures AppliedSafely(Apply(s, p))
  {
  }

  lemma TotalOfApply(s: Ice, p: Pending)
    ensures Total(Apply(s, p)) == Total(s) + multiset{p}
    ensures Total(Drop(s, p)) == Total(s) + multiset{p}
  {
    var a := Application(p, s.Installed(), s.retired);
    assert (s.applied + [a])[..|s.applied|] == s.applied;
  }

  lemma TotalOfDequeue(s: Ice, p: Pending)
    requires p in s.queue
    ensures Total(Dequeue(s, p)) + multiset{p} == Total(s)
    ensures |Dequeue(s, p).queue| == |s.queue| - 1
    ensures forall q <- Dequeue(s, p).queue :: q in s.queue
  {
    var at := IndexOf(s.queue, p);
    assert s.queue == s.queue[..at] + [p] + s.queue[at + 1..];
  }

  /** A flush moves candidates about but loses and makes none. */
  lemma {:induction false} FlushAccounts(s: Ice, kept: seq<Pending>, todo: seq<Pending>, fates: Pending -> Fate)
    requires Split(s, kept, todo, fates)
    ensures var t := Flush(s, todo, fates);
            && Total(t) == Total(s) && t.operations == s.operations && |t.queue| <= |s.queue|
            && t.current == s.current && t.pending == s.pending && t.retired == s.retired
    decreases |todo|
  {
    if !s.closed && todo != [] {
      var p, rest := todo[0], todo[1..];
      var t := Settle(s, p, fates(p));
      if fates(p) == Trouble {
        assert Flush(t, rest, fates) == t;
      } else {
        SettleSplits(s, kept, todo, fates);
        SettleAccounts(s, p, fates(p));
        FlushAccounts(t, Still(kept, p, fates(p)), rest, fates);
      }
    }
  }

  lemma SettleAccounts(s: Ice, p: Pending, fate: Fate)
    requires p in s.queue
    ensures Total(Settle(s, p, fate)) == Total(s) && |Settle(s, p, fate).queue| <= |s.queue|
  {
    TotalOfDequeue(s, p);
    TotalOfApply(Dequeue(s, p), p);
  }

  /** What a flush applies is safe, as long as the fates are those of the generations known. */
  lemma {:induction false} FlushIsSafe(s: Ice, todo: seq<Pending>)
    requires AppliedSafely(s)
    ensures AppliedSafely(Flush(s, todo, Fates(s)))
    decreases |todo|
  {
    if !s.closed && todo != [] {
      var p := todo[0];
      var t := Settle(s, p, Fates(s)(p));
      SettleIsSafe(s, p);
      assert Fates(t) == Fates(s);
      FlushIsSafe(t, todo[1..]);
    }
  }

  lemma SettleIsSafe(s: Ice, p: Pending)
    requires AppliedSafely(s)
    ensures AppliedSafely(Settle(s, p, Fates(s)(p)))
  {
    if Fates(s)(p) == Wanted { ApplySafely(s, p); }
  }

  /** After a flush that did not fail, what is still queued names no known generation. */
  lemma FlushLeavesFresh(s: Ice)
    requires !s.closed && !FlushAll(s).closed
    ensures Fresh(FlushAll(s))
  {
    assert [] + s.queue == s.queue;
    FlushIsFilter(s, [], s.queue, Fates(s));
    SelectedHaveFate(s.queue, Fates(s), Waiting);
    assert [] + Select(s.queue, Fates(s), Waiting) == Select(s.queue, Fates(s), Waiting);
  }

  lemma {:induction false} SelectedHaveFate(queue: seq<Pending>, fates: Pending -> Fate, fate: Fate)
    ensures forall i :: 0 <= i < |Select(queue, fates, fate)| ==> fates(Select(queue, fates, fate)[i]) == fate
  {
    if queue != [] {
      SelectedHaveFate(queue[1..], fates, fate);
    }
  }

  // ----- Retired generations --------------------------------------------------------------------

  /** Retiring keeps at most the newest 64, each once, and only what was retired before or is now. */
  lemma {:induction false} RetireIsBounded(retired: seq<Generation>, generations: seq<Generation>)
    requires NoDuplicates(retired)
    ensures var r := Newest(WithRetired(retired, generations));
            && |r| <= ICE_QUEUE_LIMIT && NoDuplicates(r)
            && forall g <- r :: g in retired || g in generations
  {
    WithRetiredAdds(retired, generations);
  }

  lemma {:induction false} WithRetiredAdds(retired: seq<Generation>, generations: seq<Generation>)
    requires NoDuplicates(retired)
    ensures var r := WithRetired(retired, generations);
            && NoDuplicates(r) && retired <= r
            && (forall g <- r :: g in retired || g in generations)
    decreases |generations|
  {
    if generations != [] {
      var more := if generations[0] in retired then retired else retired + [generations[0]];
      WithRetiredAdds(more, generations[1..]);
      assert generations == [generations[0]] + generations[1..];
    }
  }

  lemma FewerKnown(s: Ice, t: Ice)
    requires Fresh(s) && t.queue == s.queue && forall g <- t.Known() :: g in s.Known()
    ensures Fresh(t)
  {
    forall i | 0 <= i < |t.queue| ensures !UfragIn(t.queue[i].identity.ufrag, t.Known()) {
      assert !UfragIn(s.queue[i].identity.ufrag, s.Known());
    }
  }

  // ----- Steps keep the invariant ---------------------------------------------------------------

  /** An open peer in good order, whatever its pending generations are. */
  predicate Sound(s: Ice, received: seq<Pending>) {
    !s.closed && AppliedSafely(s) && Bounded(s) && Total(s) == multiset(received)
  }

  lemma FlushKeeps(s: Ice, received: seq<Pending>)
    requires Sound(s, received)
    ensures var t := FlushAll(s);
            && AppliedSafely(t) && Total(t) == multiset(received) && t.operations == s.operations
            && (!t.closed ==> Sound(t, received) && Fresh(t))
    ensures var t := FlushAll(s); t.current == s.current && t.pending == s.pending && t.retired == s.retired
  {
    assert [] + s.queue == s.queue;
    FlushAccounts(s, [], s.queue, Fates(s));
    FlushIsSafe(s, s.queue);
    if !FlushAll(s).closed { FlushLeavesFresh(s); }
  }

  lemma DoneKeeps(s: Ice, received: seq<Pending>)
    requires Sound(s, received) && Fresh(s) && s.pending == [] && Numbered(received)
    ensures Invariant(Peer(Done(s), received))
  {
    assert Total(Done(s)) == Total(s) && Done(s).Known() == s.Known();
  }

  lemma RetireKeeps(s: Ice, generations: seq<Generation>, received: seq<Pending>)
    requires Sound(s, received)
    ensures Sound(Retire(s, generations), received)
    ensures forall g <- Retire(s, generations).retired :: g in s.retired || g in generations
  {
    RetireIsBounded(s.retired, generations);
    assert Total(Retire(s, generations)) == Total(s);
  }

  lemma OfferKeeps(s: Ice, generations: seq<Generation>, received: seq<Pending>)
    requires Invariant(Peer(s, received)) && !s.closed
    ensures Invariant(Peer(Done(AnswerOffer(s, generations)), received))
  {
    var u := s.(pending := generations);
    assert Total(u) == Total(s);
    FlushKeeps(u, received);
    var t := FlushAll(u);
    assert Total(Done(t)) == Total(t);
    if !t.closed {
      RetireKeeps(t, t.current, received);
      var v := AnswerOffer(s, generations);
      assert v == Retire(t, t.current).(current := t.pending, pending := []);
      assert Total(v) == Total(t);
      FewerKnown(t, v);
      DoneKeeps(v, received);
    }
  }

  lemma IgnoredOfferKeeps(s: Ice, generations: seq<Generation>, received: seq<Pending>)
    requires Invariant(Peer(s, received)) && !s.closed
    ensures Invariant(Peer(Done(IgnoreOffer(s, generations)), received))
  {
    RetireKeeps(s, generations, received);
    FlushKeeps(Retire(s, generations), received);
    assert Total(Done(IgnoreOffer(s, generations))) == Total(IgnoreOffer(s, generations));
    if !IgnoreOffer(s, generations).closed { DoneKeeps(IgnoreOffer(s, generations), received); }
  }

  lemma AnswerKeeps(s: Ice, generations: seq<Generation>, received: seq<Pending>)
    requires Invariant(Peer(s, received)) && !s.closed
    ensures Invariant(Peer(Done(AcceptAnswer(s, generations)), received))
  {
    RetireKeeps(s, s.current, received);
    var u := Retire(s, s.current).(current := generations, pending := []);
    assert Total(u) == Total(s);
    FlushKeeps(u, received);
    assert Total(Done(FlushAll(u))) == Total(FlushAll(u));
    if !FlushAll(u).closed { DoneKeeps(FlushAll(u), received); }
  }

  /** A candidate that must wait still finds a place: its own operation held one. */
  lemma AlwaysRoom(s: Ice, p: Pending)
    requires Bounded(s) && s.operations > 0
    ensures |s.queue| < ICE_QUEUE_LIMIT
    ensures Accept(s, p).closed <==> s.closed || Fates(s)(p) == Trouble
  {
  }

  lemma NumberedNext(received: seq<Pending>, p: Pending)
    requires Numbered(received) && p.id == |received|
    ensures Numbered(received + [p])
  {
  }

  /** What the candidate leaves, before its operation is over. */
  lemma CandidateLeaves(s: Ice, p: Pending, received: seq<Pending>)
    requires AppliedSafely(s) && Bounded(s) && Fresh(s) && s.pending == [] && s.operations > 0
    requires Total(s) == multiset(received)
    ensures var t := Accept(s, p);
            && AppliedSafely(t) && Total(t) <= multiset(received + [p])
            && (!t.closed ==> t.pending == [] && Fresh(t) && Bounded(Done(t)) && Total(t) == multiset(received + [p]))
  {
    AcceptIsSafe(s, p);
    AcceptAccounts(s, p, Fates(s)(p), received);
    if !Accept(s, p).closed { WaitingIsFresh(s, p); }
  }

  lemma CandidateKeeps(s: Ice, identity: Identity, received: seq<Pending>)
    requires Invariant(Peer(s, received)) && !s.closed && s.operations > 0
    ensures Invariant(Peer(Done(Accept(s, Pending(|received|, identity))), received + [Pending(|received|, identity)]))
  {
    var p := Pending(|received|, identity);
    NumberedNext(received, p);
    CandidateLeaves(s, p, received);
    DoneAccepted(Accept(s, p), received + [p]);
  }

  /** The operation's own place makes room for the candidate it queues. */
  lemma AcceptAccounts(s: Ice, p: Pending, fate: Fate, received: seq<Pending>)
    requires Bounded(s) && s.operations > 0 && Total(s) == multiset(received)
    ensures var t := AcceptAs(s, p, fate);
            && t.operations == s.operations && t.pending == s.pending && Bounded(Done(t))
            && Total(t) <= multiset(received + [p]) && (!t.closed ==> Total(t) == multiset(received + [p]))
  {
    TotalOfApply(s, p);
    assert Total(s.(queue := s.queue + [p])) == Total(s) + multiset{p};
  }

  lemma DoneAccepted(s: Ice, received: seq<Pending>)
    requires AppliedSafely(s) && Numbered(received) && Total(s) <= multiset(received)
    requires !s.closed ==> s.pending == [] && Fresh(s) && Bounded(Done(s)) && Total(s) == multiset(received)
    ensures Invariant(Peer(Done(s), received))
  {
    assert Total(Done(s)) == Total(s) && Done(s).Known() == s.Known();
  }

  lemma AcceptIsSafe(s: Ice, p: Pending)
    requires AppliedSafely(s)
    ensures AppliedSafely(Accept(s, p))
  {
    if Fates(s)(p) == Wanted { ApplySafely(s, p); }
  }

  lemma WaitingIsFresh(s: Ice, p: Pending)
    requires Fresh(s) && !Accept(s, p).closed
    ensures Fresh(Accept(s, p))
  {
  }

  lemma TimerKeeps(s: Ice, p: Pending, connected: bool, settled: bool, received: seq<Pending>)
    requires Invariant(Peer(s, received)) && !s.closed
    ensures Invariant(Peer(Expire(s, p, connected, settled), received))
  {
    if p in s.queue {
      TotalOfDequeue(s, p);
      var t := Expire(s, p, connected, settled);
      assert Total(t) == Total(Dequeue(s, p)) + multiset{p};
      forall i | 0 <= i < |t.queue| ensures !UfragIn(t.queue[i].identity.ufrag, t.Known()) {
        assert t.queue[i] in Dequeue(s, p).queue;
      }
    }
  }

  lemma QueuedKeeps(s: Ice, received: seq<Pending>)
    requires Invariant(Peer(s, received)) && !s.closed
    ensures Invariant(Peer(Enqueue(s), received))
  {
    if |s.queue| + s.operations < ICE_QUEUE_LIMIT { assert Enqueue(s).Known() == s.Known(); }
    assert Total(Enqueue(s)) == Total(s);
  }

  lemma FailureKeeps(s: Ice, received: seq<Pending>)
    requires Invariant(Peer(s, received))
    ensures Invariant(Peer(Fail(s), received))
  {
    assert Total(Fail(s)) == Total(s);
  }

  predicate IsOperation(e: Event) {
    e.CandidateSignal? || e.OfferSignal? || e.IgnoredOfferSignal? || e.AnswerSignal? || e.Idle?
  }

  /** What an operation makes of an open peer that has one queued. */
  function Operated(s: Ice, e: Event): Ice
    requires IsOperation(e) && !e.CandidateSignal?
  {
    match e
    case OfferSignal(generations) => Done(AnswerOffer(s, generations))
    case IgnoredOfferSignal(generations) => Done(IgnoreOffer(s, generations))
    case AnswerSignal(generations) => Done(AcceptAnswer(s, generations))
    case Idle => Done(s)
  }

  lemma OperatedKeeps(s: Ice, e: Event, received: seq<Pending>)
    requires Invariant(Peer(s, received)) && !s.closed && IsOperation(e) && !e.CandidateSignal?
    ensures Invariant(Peer(Operated(s, e), received))
  {
    match e
    case OfferSignal(generations) => OfferKeeps(s, generations, received);
    case IgnoredOfferSignal(generations) => IgnoredOfferKeeps(s, generations, received);
    case AnswerSignal(generations) => AnswerKeeps(s, generations, received);
    case Idle => DoneKeeps(s, received);
  }

  lemma OperationKeeps(x: Peer, e: Event)
    requires Invariant(x) && !x.ice.closed && IsOperation(e)
    ensures Invariant(Step(x, e))
  {
    if x.ice.operations > 0 {
      if e.CandidateSignal? {
        CandidateKeeps(x.ice, e.identity, x.received);
      } else {
        OperatedKeeps(x.ice, e, x.received);
        assert Step(x, e) == Peer(Operated(x.ice, e), x.received);
      }
    }
  }

  lemma StepKeepsInvariant(x: Peer, e: Event)
    requires Invariant(x)
    ensures Invariant(Step(x, e))
  {
    if !x.ice.closed {
      if IsOperation(e) {
        OperationKeeps(x, e);
      } else {
        match e
        case Queued => QueuedKeeps(x.ice, x.received);
        case Timer(p, connected, settled) => TimerKeeps(x.ice, p, connected, settled, x.received);
        case Failure => FailureKeeps(x.ice, x.received);
        case _ =>
      }
    }
  }

  lemma {:induction false} RunKeepsInvariant(events: seq<Event>)
    ensures Invariant(Run(events))
  {
    if events != [] {
      RunKeepsInvariant(events[..|events| - 1]);
      StepKeepsInvariant(Run(events[..|events| - 1]), events[|events| - 1]);
    }
  }

  // ----- What every run keeps -------------------------------------------------------------------

  /** Between operations no queued candidate names a generation that is installed or retired. */
  lemma {:induction false} QueueIsFresh(events: seq<Event>)
    requires !Run(events).ice.closed
    ensures Fresh(Run(events).ice) && |Run(events).ice.queue| <= ICE_QUEUE_LIMIT
  {
    RunKeepsInvariant(events);
  }

  /** In how many of the four places a candidate is, with repetitions. */
  function Places(s: Ice, p: Pending): nat {
    multiset(Candidates(s.applied))[p] + multiset(s.dropped)[p] + multiset(s.expired)[p] + multiset(s.queue)[p]
  }

  /**
   * Every candidate received by an open peer is applied once, dropped as stale, expired or still queued: exactly
   * one of these.  On a peer that failed it is at most one of them; in particular it was applied at most once.
   */
  lemma {:induction false} EveryCandidateOnce(events: seq<Event>, p: Pending)
    ensures Places(Run(events).ice, p) <= if p in Run(events).received then 1 else 0
    ensures !Run(events).ice.closed ==> Places(Run(events).ice, p) == if p in Run(events).received then 1 else 0
  {
    RunKeepsInvariant(events);
    var x := Run(events);
    assert Places(x.ice, p) == Total(x.ice)[p];
    NumberedOnce(x.received, p);
  }

  lemma {:induction false} NumberedOnce(received: seq<Pending>, p: Pending)
    requires Numbered(received)
    ensures multiset(received)[p] == if p in received then 1 else 0
  {
    if received != [] {
      var front, last := received[..|received| - 1], received[|received| - 1];
      assert received == front + [last];
      NumberedOnce(front, p);
    }
  }

  /** Even on a peer that failed, nothing was applied but to an installed generation whose password is certain. */
  lemma {:induction false} NothingAppliedByGuess(events: seq<Event>, a: Application)
    requires a in Run(events).ice.applied
    ensures MatchesAny(a.pending.identity, a.installed) && OnePassword(a.pending.identity, a.installed + a.retired)
  {
    RunKeepsInvariant(events);
  }

  /** The queue limit in accepting a candidate is never what closes a peer. */
  lemma {:induction false} QueueNeverExhausted(events: seq<Event>, identity: Identity)
    requires var s := Run(events).ice; !s.closed && s.operations > 0
    ensures var x, y := Run(events), Run(events + [CandidateSignal(identity)]);
            y.ice.closed <==> FateOf(identity, x.ice.Installed(), x.ice.retired) == Trouble
  {
    RunKeepsInvariant(events);
    assert (events + [CandidateSignal(identity)])[..|events|] == events;
    AlwaysRoom(Run(events).ice, Pending(|Run(events).received|, identity));
  }
}
