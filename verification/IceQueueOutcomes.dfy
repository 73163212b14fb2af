/** Which candidates are applied, dropped, held back or end the peer, and exactly when. */
module IceQueueOutcomes {
  import opened Options
  import opened IceTypes
  import opened IceQueue
  import opened IceQueueRuns

  /** The candidate's fragment is the generation's, and so are its media tag and index where it has them. */
  predicate Names(c: Identity, g: Generation) {
    && c.ufrag == g.ufrag
    && (c.mid.Some? ==> c.mid.value == g.mid)
    && (c.index.Some? ==> c.index.value == g.index)
  }

  predicate NamesOne(c: Identity, generations: seq<Generation>) {
    exists i :: 0 <= i < |generations| && Names(c, generations[i])
  }

  /** All the generations it names share a password: each has that of all before it. */
  predicate Certain(c: Identity, generations: seq<Generation>)
    decreases |generations|
  {
    generations != [] ==>
      var front, last := generations[..|generations| - 1], generations[|generations| - 1];
      Certain(c, front) && (Names(c, last) ==> HavePassword(c, front, last.password))
  }

  predicate HavePassword(c: Identity, generations: seq<Generation>, password: string) {
    forall i :: 0 <= i < |generations| && Names(c, generations[i]) ==> generations[i].password == password
  }

  predicate KnownFragment(c: Identity, generations: seq<Generation>) {
    exists i :: 0 <= i < |generations| && generations[i].ufrag == c.ufrag
  }

  /** Applied: an installed generation is named, whatever else is retired, and the password is certain. */
  predicate ToApply(c: Identity, installed: seq<Generation>, retired: seq<Generation>) {
    NamesOne(c, installed) && Certain(c, installed + retired)
  }

  /** Dropped: only retired generations are named, and the password is certain. */
  predicate ToDrop(c: Identity, installed: seq<Generation>, retired: seq<Generation>) {
    !NamesOne(c, installed) && NamesOne(c, retired) && Certain(c, installed + retired)
  }

  /** Held back: nothing known has the fragment. */
  predicate ToHold(c: Identity, installed: seq<Generation>, retired: seq<Generation>) {
    !KnownFragment(c, installed + retired)
  }

  /** None of these. */
  predicate Troubles(c: Identity, installed: seq<Generation>, retired: seq<Generation>) {
    !ToApply(c, installed, retired) && !ToDrop(c, installed, retired) && !ToHold(c, installed, retired)
  }

  lemma NamesMeans(c: Identity, generations: seq<Generation>)
    ensures NamesOne(c, generations) <==> MatchesAny(c, generations)
    ensures KnownFragment(c, generations) <==> UfragIn(c.ufrag, generations)
  {
    if MatchesAny(c, generations) {
      var g :| g in generations && Matches(c, g);
      var i :| 0 <= i < |generations| && generations[i] == g;
    }
    if NamesOne(c, generations) {
      var i :| 0 <= i < |generations| && Names(c, generations[i]);
      assert Matches(c, generations[i]);
    }
    if UfragIn(c.ufrag, generations) {
      var g :| g in generations && g.ufrag == c.ufrag;
      var i :| 0 <= i < |generations| && generations[i] == g;
    }
  }

  lemma {:induction false} CertainMeans(c: Identity, generations: seq<Generation>)
    ensures Certain(c, generations) <==> OnePassword(c, generations)
  {
    if generations != [] {
      var front, last := generations[..|generations| - 1], generations[|generations| - 1];
      CertainMeans(c, front);
      HaveMeans(c, front, last.password);
      OneAtMost(Passwords(c, front), last.password);
    }
  }

  lemma OneAtMost(passwords: set<string>, p: string)
    ensures |passwords + {p}| <= 1 <==> passwords <= {p}
    ensures |passwords| <= |passwords + {p}|
  {
    if p in passwords {
      assert passwords + {p} == passwords;
      if passwords <= {p} { assert passwords == {p}; } else {
        var q :| q in passwords && q != p;
        assert |passwords| == |passwords - {p}| + 1 && q in passwords - {p};
      }
    } else {
      if passwords == {} { assert passwords + {p} == {p}; } else {
        var q :| q in passwords;
        assert |passwords + {p}| == |passwords| + 1;
      }
    }
  }

  lemma {:induction false} HaveMeans(c: Identity, generations: seq<Generation>, password: string)
    ensures HavePassword(c, generations, password) <==> Passwords(c, generations) <= {password}
  {
    if generations != [] {
      var n := |generations| - 1;
      var front := generations[..n];
      HaveMeans(c, front, password);
      if HavePassword(c, front, password) && (Names(c, generations[n]) ==> generations[n].password == password) {
        forall i | 0 <= i < |generations| && Names(c, generations[i]) ensures generations[i].password == password {
          if i < n { assert front[i] == generations[i]; }
        }
      }
      if HavePassword(c, generations, password) {
        forall i | 0 <= i < n && Names(c, front[i]) ensures front[i].password == password {
          assert generations[i] == front[i];
        }
      }
    }
  }

  /** A candidate's fate, read off the generations known. */
  lemma FateMeans(c: Identity, installed: seq<Generation>, retired: seq<Generation>)
    ensures FateOf(c, installed, retired) == Wanted <==> ToApply(c, installed, retired)
    ensures FateOf(c, installed, retired) == Stale <==> ToDrop(c, installed, retired)
    ensures FateOf(c, installed, retired) == Waiting <==> ToHold(c, installed, retired)
  {
    NamesMeans(c, installed);
    NamesMeans(c, retired);
    NamesMeans(c, installed + retired);
    CertainMeans(c, installed + retired);
    if ToHold(c, installed, retired) { UnknownIsUnnamed(c, installed, retired); }
  }

  lemma {:induction false} UnknownIsCertain(c: Identity, generations: seq<Generation>)
    requires !KnownFragment(c, generations)
    ensures Certain(c, generations)
  {
    if generations != [] {
      var front := generations[..|generations| - 1];
      forall i | 0 <= i < |front| ensures front[i].ufrag != c.ufrag { assert generations[i] == front[i]; }
      UnknownIsCertain(c, front);
    }
  }

  lemma {:induction false} UnknownIsUnnamed(c: Identity, installed: seq<Generation>, retired: seq<Generation>)
    requires ToHold(c, installed, retired)
    ensures !NamesOne(c, installed) && !NamesOne(c, retired) && Certain(c, installed + retired)
  {
    var known := installed + retired;
    forall i | 0 <= i < |installed| ensures installed[i].ufrag != c.ufrag { assert known[i] == installed[i]; }
    forall i | 0 <= i < |retired| ensures retired[i].ufrag != c.ufrag { assert known[|installed| + i] == retired[i]; }
    UnknownIsCertain(c, known);
  }

  // ----- A candidate that is taken up -----------------------------------------------------------

  /**
   * What becomes of a candidate taken up on an open peer.  Applied if and only if an installed generation is named
   * and the password is certain; dropped if and only if only a retired one is; held back if and only if its fragment
   * is unknown; and otherwise the peer ends.
   */
  lemma {:induction false} CandidateExactly(events: seq<Event>, identity: Identity)
    requires !Run(events).ice.closed && Run(events).ice.operations > 0
    ensures var x := Run(events);
            var s, t, p := x.ice, Step(x, CandidateSignal(identity)).ice, Pending(|x.received|, identity);
            && (t.applied == s.applied + [Application(p, s.Installed(), s.retired)] <==>
                  ToApply(identity, s.Installed(), s.retired))
            && (t.dropped == s.dropped + [p] <==> ToDrop(identity, s.Installed(), s.retired))
            && (t.queue == s.queue + [p] <==> ToHold(identity, s.Installed(), s.retired))
            && (t.closed <==> Troubles(identity, s.Installed(), s.retired))
            && t.current == s.current && t.retired == s.retired && t.operations == s.operations - 1
  {
    var x := Run(events);
    RunKeepsInvariant(events);
    AcceptExactly(x.ice, Pending(|x.received|, identity));
  }

  /** On any open peer: a candidate to be held finds a place while fewer than 64 wait, and otherwise ends the peer. */
  lemma AcceptExactly(s: Ice, p: Pending)
    requires !s.closed
    ensures var t, installed, room := Accept(s, p), s.Installed(), |s.queue| < 64;
            && (t.applied == s.applied + [Application(p, installed, s.retired)] <==>
                  ToApply(p.identity, installed, s.retired))
            && (t.dropped == s.dropped + [p] <==> ToDrop(p.identity, installed, s.retired))
            && (t.queue == s.queue + [p] <==> ToHold(p.identity, installed, s.retired) && room)
            && (t.closed <==>
                  Troubles(p.identity, installed, s.retired) || (ToHold(p.identity, installed, s.retired) && !room))
            && t.current == s.current && t.retired == s.retired && t.operations == s.operations
  {
    FateMeans(p.identity, s.Installed(), s.retired);
    assert |s.applied + [Application(p, s.Installed(), s.retired)]| == |s.applied| + 1;
    assert |s.dropped + [p]| == |s.dropped| + 1 && |s.queue + [p]| == |s.queue| + 1;
  }

  // ----- A flush --------------------------------------------------------------------------------

  predicate Befalls(fate: Fate, c: Identity, installed: seq<Generation>, retired: seq<Generation>) {
    match fate
    case Wanted => ToApply(c, installed, retired)
    case Stale => ToDrop(c, installed, retired)
    case Waiting => ToHold(c, installed, retired)
    case Trouble => Troubles(c, installed, retired)
  }

  /** The candidates of a queue that a fate befalls, in order. */
  function Those(fate: Fate, queue: seq<Pending>, installed: seq<Generation>, retired: seq<Generation>): seq<Pending> {
    if queue == [] then []
    else if Befalls(fate, queue[0].identity, installed, retired)
      then [queue[0]] + Those(fate, queue[1..], installed, retired)
    else Those(fate, queue[1..], installed, retired)
  }

  lemma {:induction false} SelectIsThose(queue: seq<Pending>, fates: Pending -> Fate, fate: Fate,
                                         installed: seq<Generation>, retired: seq<Generation>)
    requires forall i :: 0 <= i < |queue| ==> fates(queue[i]) == FateOf(queue[i].identity, installed, retired)
    ensures Select(queue, fates, fate) == Those(fate, queue, installed, retired)
  {
    if queue != [] {
      FateMeans(queue[0].identity, installed, retired);
      SelectIsThose(queue[1..], fates, fate, installed, retired);
    }
  }

  lemma {:induction false} ApplicationsOf(s: Ice, before: seq<Application>, queue: seq<Pending>)
    ensures Candidates(before + Applications(s, queue)) == Candidates(before) + queue
    decreases |queue|
  {
    if queue == [] {
      assert before + [] == before;
    } else {
      var a := Application(queue[0], s.Installed(), s.retired);
      assert (before + [a])[..|before|] == before;
      ApplicationsOf(s, before + [a], queue[1..]);
      assert before + Applications(s, queue) == before + [a] + Applications(s, queue[1..]);
      assert queue == [queue[0]] + queue[1..];
    }
  }

  /** The queue was looked through with these generations known: what could be decided is, the rest waits on. */
  ghost predicate Sorted(s: Ice, t: Ice, installed: seq<Generation>, retired: seq<Generation>) {
    && (t.closed <==> exists i :: 0 <= i < |s.queue| && Troubles(s.queue[i].identity, installed, retired))
    && (!t.closed ==>
          && t.queue == Those(Waiting, s.queue, installed, retired)
          && t.dropped == s.dropped + Those(Stale, s.queue, installed, retired)
          && Candidates(t.applied) == Candidates(s.applied) + Those(Wanted, s.queue, installed, retired))
    && t.expired == s.expired && t.operations == s.operations
  }

  lemma FlushExactly(s: Ice)
    requires !s.closed
    ensures Sorted(s, FlushAll(s), s.Installed(), s.retired)
  {
    var fates, installed, retired := Fates(s), s.Installed(), s.retired;
    forall i | 0 <= i < |s.queue|
      ensures fates(s.queue[i]) == Trouble <==> Troubles(s.queue[i].identity, installed, retired)
    {
      FateMeans(s.queue[i].identity, installed, retired);
    }
    assert [] + s.queue == s.queue;
    FlushIsFilter(s, [], s.queue, fates);
    SelectIsThose(s.queue, fates, Waiting, installed, retired);
    SelectIsThose(s.queue, fates, Stale, installed, retired);
    SelectIsThose(s.queue, fates, Wanted, installed, retired);
    ApplicationsOf(s, s.applied, Those(Wanted, s.queue, installed, retired));
    FlushKeepsExpired(s, s.queue, fates);
    FlushKeepsGenerations(s);
  }

  lemma {:induction false} FlushKeepsExpired(s: Ice, todo: seq<Pending>, fates: Pending -> Fate)
    ensures Flush(s, todo, fates).expired == s.expired
    decreases |todo|
  {
    if !s.closed && todo != [] { FlushKeepsExpired(Settle(s, todo[0], fates(todo[0])), todo[1..], fates); }
  }

  // ----- Retiring -------------------------------------------------------------------------------

  /** All generations ever retired, each once and in the order retired; the newest 64 of them are kept. */
  lemma RetireExactly(retired: seq<Generation>, generations: seq<Generation>) returns (forgotten: seq<Generation>)
    requires NoDuplicates(retired)
    ensures var kept := Newest(WithRetired(retired, generations));
            && retired <= forgotten + kept && NoDuplicates(forgotten + kept)
            && (forall g :: g in forgotten + kept <==> g in retired || g in generations)
            && |kept| <= ICE_QUEUE_LIMIT && (forgotten != [] ==> |kept| == ICE_QUEUE_LIMIT)
  {
    var all := WithRetired(retired, generations);
    WithRetiredAdds(retired, generations);
    AllRetired(retired, generations);
    forgotten := if |all| > ICE_QUEUE_LIMIT then all[..|all| - ICE_QUEUE_LIMIT] else [];
    assert forgotten + Newest(all) == all;
  }

  lemma {:induction false} AllRetired(retired: seq<Generation>, generations: seq<Generation>)
    ensures forall g :: g in retired || g in generations ==> g in WithRetired(retired, generations)
    decreases |generations|
  {
    if generations != [] {
      var more := if generations[0] in retired then retired else retired + [generations[0]];
      AllRetired(more, generations[1..]);
      assert generations == [generations[0]] + generations[1..];
    }
  }

  // ----- Descriptions ---------------------------------------------------------------------------

  function Retiring(s: Ice, generations: seq<Generation>): seq<Generation> {
    Newest(WithRetired(s.retired, generations))
  }

  /** Only the queue and where its candidates go matter for looking it through. */
  lemma SortedAfter(u: Ice, t: Ice, s: Ice, installed: seq<Generation>, retired: seq<Generation>)
    requires Sorted(u, t, installed, retired)
    requires s.queue == u.queue && s.applied == u.applied && s.dropped == u.dropped && s.expired == u.expired
    requires s.operations == u.operations
    ensures Sorted(Done(s), Done(t), installed, retired)
  {
  }

  /** An offer that is answered: looked through with both generations installed; then only the new one is. */
  lemma OfferExactly(x: Peer, generations: seq<Generation>)
    requires !x.ice.closed && x.ice.operations > 0
    ensures var s, t := Done(x.ice), Step(x, OfferSignal(generations)).ice;
            && Sorted(s, t, s.current + generations, s.retired)
            && (!t.closed ==> t.current == generations && t.pending == [] && t.retired == Retiring(s, s.current))
  {
    var u := x.ice.(pending := generations);
    FlushExactly(u);
    FlushKeepsGenerations(u);
    OfferSorted(x.ice, FlushAll(u), generations);
  }

  lemma OfferSorted(s: Ice, flushed: Ice, generations: seq<Generation>)
    requires Sorted(s.(pending := generations), flushed, s.current + generations, s.retired)
    requires flushed.current == s.current && flushed.pending == generations && flushed.retired == s.retired
    ensures var t := if flushed.closed then flushed
                     else Retire(flushed, flushed.current).(current := flushed.pending, pending := []);
            Sorted(Done(s), Done(t), s.current + generations, s.retired)
  {
    SortedAfter(s.(pending := generations), flushed, s, s.current + generations, s.retired);
  }

  /** An offer that is ignored: what it names counts as retired, and what is installed stays. */
  lemma IgnoredOfferExactly(x: Peer, generations: seq<Generation>)
    requires !x.ice.closed && x.ice.operations > 0 && x.ice.pending == []
    ensures var s, t := Done(x.ice), Step(x, IgnoredOfferSignal(generations)).ice;
            && Sorted(s, t, s.current, Retiring(s, generations))
            && t.current == s.current && t.retired == Retiring(s, generations)
  {
    var u := Retire(x.ice, generations);
    assert x.ice.current + [] == x.ice.current;
    FlushExactly(u);
    FlushKeepsGenerations(u);
    SortedAfter(u, FlushAll(u), x.ice, x.ice.current, Retiring(x.ice, generations));
  }

  /** An answer: looked through with its generations installed and the earlier ones retired. */
  lemma AnswerExactly(x: Peer, generations: seq<Generation>)
    requires !x.ice.closed && x.ice.operations > 0
    ensures var s, t := Done(x.ice), Step(x, AnswerSignal(generations)).ice;
            && Sorted(s, t, generations, Retiring(s, s.current))
            && t.current == generations && t.pending == [] && t.retired == Retiring(s, s.current)
            && t.operations == s.operations
  {
    var u := Retire(x.ice, x.ice.current).(current := generations, pending := []);
    assert generations + [] == generations;
    FlushExactly(u);
    FlushKeepsGenerations(u);
    SortedAfter(u, FlushAll(u), x.ice, generations, Retiring(x.ice, x.ice.current));
  }

  lemma FlushKeepsGenerations(s: Ice)
    ensures var t := FlushAll(s);
            t.current == s.current && t.pending == s.pending && t.retired == s.retired && t.operations == s.operations
  {
    assert [] + s.queue == s.queue;
    FlushAccounts(s, [], s.queue, Fates(s));
  }

  lemma RetiredIsKnown(s: Ice, generations: seq<Generation>)
    requires NoDuplicates(s.retired)
    ensures forall g <- Retiring(s, generations) :: g in s.retired || g in generations
  {
    RetireIsBounded(s.retired, generations);
  }

  lemma {:induction false} FewerCertain(c: Identity, generations: seq<Generation>, fewer: seq<Generation>)
    requires Certain(c, generations) && forall g <- fewer :: g in generations
    ensures Certain(c, fewer)
  {
    CertainMeans(c, generations);
    CertainMeans(c, fewer);
    FewerPasswords(c, generations, fewer);
    var passwords := Passwords(c, fewer);
    if passwords != {} {
      var p :| p in passwords;
      assert Passwords(c, generations) <= {p} by { OneAtMost(Passwords(c, generations), p); }
      assert passwords == {p};
    }
  }

  lemma {:induction false} PasswordOf(c: Identity, generations: seq<Generation>, g: Generation)
    requires g in generations && Names(c, g)
    ensures g.password in Passwords(c, generations)
  {
    var front, last := generations[..|generations| - 1], generations[|generations| - 1];
    assert generations == front + [last];
    if g != last { PasswordOf(c, front, g); }
  }

  lemma {:induction false} FewerPasswords(c: Identity, generations: seq<Generation>, fewer: seq<Generation>)
    requires forall g <- fewer :: g in generations
    ensures Passwords(c, fewer) <= Passwords(c, generations)
  {
    if fewer != [] {
      var front, last := fewer[..|fewer| - 1], fewer[|fewer| - 1];
      assert fewer == front + [last];
      FewerPasswords(c, generations, front);
      if Names(c, last) { PasswordOf(c, generations, last); }
    }
  }

  /**
   * A negotiation that keeps the credentials loses no candidate: one that names an installed generation whose
   * password is certain is applied after it just as before, although the generation is then among the retired too.
   */
  lemma {:induction false} RenegotiationKeepsCandidates(events: seq<Event>, more: seq<Event>, identity: Identity)
    requires !Run(events).ice.closed && Run(events).ice.operations > 1
    requires ToApply(identity, Run(events).ice.current, Run(events).ice.retired)
    requires more == events + [AnswerSignal(Run(events).ice.current)] && !Run(more).ice.closed
    ensures var y := Run(more);
            Pending(|y.received|, identity) in Candidates(Step(y, CandidateSignal(identity)).ice.applied)
  {
    AnsweredAgain(events, more);
    StillApplies(identity, Run(events).ice, Run(more).ice);
    AppliedNext(more, identity);
  }

  lemma {:induction false} AnsweredAgain(events: seq<Event>, more: seq<Event>)
    requires !Run(events).ice.closed && Run(events).ice.operations > 1
    requires more == events + [AnswerSignal(Run(events).ice.current)]
    ensures var s, t := Run(events).ice, Run(more).ice;
            && t.current == s.current && t.pending == [] && t.retired == Retiring(s, s.current) && t.operations > 0
            && NoDuplicates(s.retired)
  {
    RunKeepsInvariant(events);
    AnswerExactly(Run(events), Run(events).ice.current);
    assert more[..|events|] == events;
  }

  lemma StillApplies(identity: Identity, s: Ice, t: Ice)
    requires ToApply(identity, s.current, s.retired) && NoDuplicates(s.retired)
    requires t.current == s.current && t.retired == Retiring(s, s.current)
    ensures ToApply(identity, t.current, t.retired)
  {
    RetiredIsKnown(s, s.current);
    FewerCertain(identity, s.current + s.retired, s.current + t.retired);
  }

  lemma {:induction false} AppliedNext(events: seq<Event>, identity: Identity)
    requires !Run(events).ice.closed && Run(events).ice.operations > 0 && Run(events).ice.pending == []
    requires ToApply(identity, Run(events).ice.current, Run(events).ice.retired)
    ensures var x := Run(events);
            Pending(|x.received|, identity) in Candidates(Step(x, CandidateSignal(identity)).ice.applied)
  {
    var s := Run(events).ice;
    var a := Application(Pending(|Run(events).received|, identity), s.Installed(), s.retired);
    assert s.current + [] == s.current;
    CandidateExactly(events, identity);
    assert (s.applied + [a])[..|s.applied|] == s.applied;
  }

  // ----- Timers and places ----------------------------------------------------------------------

  /**
   * A timer takes its candidate off the queue, and only that; the peer ends with it exactly when it is not connected
   * and either nothing was ever installed or a negotiation is under way.
   */
  lemma TimerExactly(x: Peer, p: Pending, connected: bool, settled: bool)
    requires !x.ice.closed && p in x.ice.queue
    ensures var s, t := x.ice, Step(x, Timer(p, connected, settled)).ice;
            && multiset(t.queue) == multiset(s.queue) - multiset{p} && t.expired == s.expired + [p]
            && t.applied == s.applied && t.dropped == s.dropped && t.operations == s.operations
            && (t.closed <==> !connected && (s.current == [] || !settled))
  {
    TakenOff(x.ice.queue, p);
  }

  lemma TakenOff(queue: seq<Pending>, p: Pending)
    requires p in queue
    ensures multiset(Without(queue, p)) == multiset(queue) - multiset{p}
  {
    var at := IndexOf(queue, p);
    var before, after := queue[..at], queue[at + 1..];
    assert queue == before + [p] + after;
    assert Without(queue, p) == before + after;
  }

  /** A timer whose candidate was settled before changes nothing. */
  lemma LateTimer(x: Peer, p: Pending, connected: bool, settled: bool)
    requires p !in x.ice.queue
    ensures Step(x, Timer(p, connected, settled)) == x
  {
  }

  /** A signal finds a place exactly while fewer than 64 signals and candidates wait; otherwise the peer ends. */
  lemma QueuedExactly(x: Peer)
    requires !x.ice.closed
    ensures var s, t := x.ice, Step(x, Queued).ice;
            if |s.queue| + s.operations < 64 then t == s.(operations := s.operations + 1) else t == s.(closed := true)
  {
  }
}
