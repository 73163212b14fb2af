/** Runs of two members of a group call over FIFO channels. */
module GroupCallRuns {
  import opened Options
  import opened OfferAnswer
  import opened GroupCall

  datatype Link = Link(offerer: Peer, other: Peer, down: seq<Signal>, up: seq<Signal>)

  datatype Step =
    | OffererChangesMedia(negotiationID: nat)
    | OtherChangesMedia(negotiationID: nat)
    | OffererOffers(negotiationID: nat)
    | OtherOffers(negotiationID: nat)
    | DeliverToOther
    | DeliverToOfferer

  /** Two members as their own rosters make them; `a` is the one that keeps its offers. */
  function Joined(a: Participant, b: Participant, roster: seq<Participant>): Link {
    Link(NewPeer(IsOfferer(a.userID, b, roster)), NewPeer(IsOfferer(b.userID, a, roster)), [], [])
  }

  function Execute(l: Link, s: Step): Link {
    match s
    case OffererChangesMedia(id) => var (p, sent) := ChangeMedia(l.offerer, id); l.(offerer := p, down := l.down + sent)
    case OtherChangesMedia(id) => var (p, sent) := ChangeMedia(l.other, id); l.(other := p, up := l.up + sent)
    case OffererOffers(id) => var (p, sent) := MakeOffer(l.offerer, id); l.(offerer := p, down := l.down + sent)
    case OtherOffers(id) => var (p, sent) := MakeOffer(l.other, id); l.(other := p, up := l.up + sent)
    case DeliverToOther =>
      if l.down == [] then l
      else var (p, sent) := ApplySignal(l.other, l.down[0]); l.(other := p, down := l.down[1..], up := l.up + sent)
    case DeliverToOfferer =>
      if l.up == [] then l
      else var (p, sent) := ApplySignal(l.offerer, l.up[0]); l.(offerer := p, up := l.up[1..], down := l.down + sent)
  }

  function Run(l: Link, steps: seq<Step>): Link
    decreases |steps|
  {
    if steps == [] then l else Run(Execute(l, steps[0]), steps[1..])
  }

  function SideOf(p: Peer): Side {
    Side(if p.connection.HaveLocalOffer? then Some(p.connection.offer) else None, p.completed)
  }

  function PairOf(l: Link): Pair {
    Pair(SideOf(l.offerer), SideOf(l.other), l.down, l.up)
  }

  predicate Consistent(p: Peer) {
    && p.outstandingNegotiation == (if p.connection.HaveLocalOffer? then Some(p.connection.offer.id) else None)
    && p.covered <= p.media
    && (p.connection.HaveLocalOffer? ==> p.covered <= p.connection.offer.media <= p.media)
  }

  predicate Invariant(l: Link) {
    && l.offerer.offerer && !l.other.offerer
    && InFlight(PairOf(l))
    && Consistent(l.offerer) && Consistent(l.other)
  }

  lemma JoinedInvariant(a: Participant, b: Participant, roster: seq<Participant>)
    requires a in roster && b in roster && a.userID != b.userID && Less(a.userID, b.userID)
    ensures Invariant(Joined(a, b, roster))
  {
    ExactlyOneOfferer(a, b, roster);
    FindIsMember(roster, b.userID);
    LessIsTotal(a.userID, b.userID);
  }

  lemma OffererOffersStep(l: Link, p: Peer, id: nat)
    requires Invariant(l.(offerer := p)) || (Invariant(l) && p == l.offerer.(media := l.offerer.media + 1))
    ensures var (q, sent) := MakeOffer(p, id); Invariant(l.(offerer := q, down := l.down + sent))
  {
    var (q, sent) := MakeOffer(p, id);
    assert SideOf(p) == SideOf(l.offerer) || Invariant(l.(offerer := p));
    if p.connection == Stable {
      ImpoliteOffers(PairOf(l.(offerer := p)), Description(id, p.media));
    } else {
      assert l.down + [] == l.down;
    }
  }

  lemma OtherOffersStep(l: Link, p: Peer, id: nat)
    requires Invariant(l.(other := p)) || (Invariant(l) && p == l.other.(media := l.other.media + 1))
    ensures var (q, sent) := MakeOffer(p, id); Invariant(l.(other := q, up := l.up + sent))
  {
    var (q, sent) := MakeOffer(p, id);
    if p.connection == Stable {
      PoliteOffers(PairOf(l.(other := p)), Description(id, p.media));
    } else {
      assert l.up + [] == l.up;
    }
  }

  lemma OtherTakes(l: Link)
    requires Invariant(l) && l.down != []
    ensures Invariant(Execute(l, DeliverToOther))
  {
    match l.down[0] {
      case Offer(d) =>
        PoliteAnswers(PairOf(l), d);
      case Answer(id) =>
        PoliteSettles(PairOf(l), id);
        assert l.up + [] == l.up;
    }
  }

  lemma OffererTakes(l: Link)
    requires Invariant(l) && l.up != []
    ensures Invariant(Execute(l, DeliverToOfferer))
  {
    assert l.down + [] == l.down;
    match l.up[0] {
      case Offer(d) =>
        if l.offerer.connection != Stable {
          ImpoliteIgnores(PairOf(l));
        } else {
          ImpoliteAnswers(PairOf(l), d);
        }
      case Answer(id) =>
        ImpoliteSettles(PairOf(l), id);
    }
  }

  lemma StepKeepsInvariant(l: Link, s: Step)
    requires Invariant(l)
    ensures Invariant(Execute(l, s))
  {
    match s {
      case OffererChangesMedia(id) => OffererOffersStep(l, l.offerer.(media := l.offerer.media + 1), id);
      case OtherChangesMedia(id) => OtherOffersStep(l, l.other.(media := l.other.media + 1), id);
      case OffererOffers(id) => OffererOffersStep(l, l.offerer, id);
      case OtherOffers(id) => OtherOffersStep(l, l.other, id);
      case DeliverToOther => if l.down != [] { OtherTakes(l); }
      case DeliverToOfferer => if l.up != [] { OffererTakes(l); }
    }
  }

  lemma {:induction false} RunKeepsInvariant(l: Link, steps: seq<Step>)
    requires Invariant(l)
    ensures Invariant(Run(l, steps))
    decreases |steps|
  {
    if steps != [] {
      StepKeepsInvariant(l, steps[0]);
      RunKeepsInvariant(Execute(l, steps[0]), steps[1..]);
    }
  }

  // ----- What every run guarantees ------------------------------------------------------------

  /** An answer about to be delivered carries the negotiation outstanding at its receiver. */
  predicate NextAnswerMatches(p: Peer, channel: seq<Signal>) {
    channel != [] && channel[0].Answer? ==>
      p.connection.HaveLocalOffer? && p.outstandingNegotiation == Some(channel[0].id)
  }

  lemma WaitingAnswersMatch(l: Link)
    requires Invariant(l)
    ensures NextAnswerMatches(l.other, l.down) && NextAnswerMatches(l.offerer, l.up)
  {
    if l.down != [] && l.down[0].Answer? {
      PoliteSettles(PairOf(l), l.down[0].id);
    }
    if l.up != [] && l.up[0].Answer? {
      ImpoliteSettles(PairOf(l), l.up[0].id);
    }
  }

  /**
   * For two members of one roster, after any run: exactly one is impolite, every answer about to
   * arrive belongs to the offer outstanding there, and once the channels are empty both are stable
   * and have completed the same negotiations in the same order.
   */
  lemma {:induction false} MembersAgree(a: Participant, b: Participant, roster: seq<Participant>, steps: seq<Step>)
    requires a in roster && b in roster && a.userID != b.userID && Less(a.userID, b.userID)
    ensures var l := Run(Joined(a, b, roster), steps);
            && l.offerer.offerer && !l.other.offerer
            && NextAnswerMatches(l.other, l.down) && NextAnswerMatches(l.offerer, l.up)
            && (l.down == [] && l.up == [] ==>
                  && l.offerer.connection == Stable && l.other.connection == Stable
                  && l.offerer.outstandingNegotiation.None? && l.other.outstandingNegotiation.None?
                  && l.offerer.completed == l.other.completed)
  {
    JoinedInvariant(a, b, roster);
    RunKeepsInvariant(Joined(a, b, roster), steps);
    var l := Run(Joined(a, b, roster), steps);
    WaitingAnswersMatch(l);
    if l.down == [] && l.up == [] {
      EmptyChannelsAgree(PairOf(l));
    }
  }

  function Offers(s: seq<Signal>): nat {
    if s == [] then 0 else (if s[0].Offer? then 1 else 0) + Offers(s[1..])
  }

  lemma {:induction false} OffersConcatenated(a: seq<Signal>, b: seq<Signal>)
    ensures Offers(a + b) == Offers(a) + Offers(b)
  {
    if a == [] {
      assert a + b == b;
    } else {
      assert (a + b)[1..] == a[1..] + b;
      OffersConcatenated(a[1..], b);
    }
  }

  /** An offer in transit is worth two deliveries, itself and its answer; an answer one. */
  function Remaining(l: Link): nat {
    Offers(l.down) + Offers(l.up) + |l.down| + |l.up|
  }

  predicate IsWaiting(l: Link, s: Step) {
    (s == DeliverToOther && l.down != []) || (s == DeliverToOfferer && l.up != [])
  }

  /**
   * No deadlock: whatever is in transit can be delivered, every delivery uses up some of a bounded
   * amount, and when it is used up the channels are empty.
   */
  lemma DeliveryProgresses(l: Link, s: Step)
    requires Invariant(l)
    requires IsWaiting(l, s)
    ensures Remaining(Execute(l, s)) < Remaining(l)
  {
    var channel, back := if s.DeliverToOther? then l.down else l.up, if s.DeliverToOther? then l.up else l.down;
    var sent := ApplySignal(if s.DeliverToOther? then l.other else l.offerer, channel[0]).1;
    OffersConcatenated(back, sent);
    assert sent == [] || (channel[0].Offer? && |sent| == 1 && sent[0].Answer? && sent[1..] == []);
    assert Offers(sent) == 0;
  }

  predicate Settled(l: Link) {
    && l.down == [] && l.up == []
    && l.offerer.connection == Stable && l.other.connection == Stable
    && l.offerer.completed == l.other.completed
  }

  /** Each of the deliveries is of a signal that waits when its turn comes. */
  predicate AllWaiting(l: Link, deliveries: seq<Step>)
    decreases |deliveries|
  {
    deliveries == [] || (IsWaiting(l, deliveries[0]) && AllWaiting(Execute(l, deliveries[0]), deliveries[1..]))
  }

  /**
   * No deadlock and no livelock: in whatever order waiting signals are delivered, there are at most
   * `Remaining` deliveries, and when none is left to make the members agree.
   */
  lemma {:induction false} DeliveriesSettle(l: Link, deliveries: seq<Step>)
    requires Invariant(l) && AllWaiting(l, deliveries)
    ensures |deliveries| <= Remaining(l)
    ensures Settled(Run(l, deliveries)) <==> forall s :: !IsWaiting(Run(l, deliveries), s)
    decreases |deliveries|
  {
    if deliveries == [] {
      if forall s :: !IsWaiting(l, s) {
        assert !IsWaiting(l, DeliverToOther) && !IsWaiting(l, DeliverToOfferer);
        EmptyChannelsAgree(PairOf(l));
      }
    } else {
      DeliveryProgresses(l, deliveries[0]);
      StepKeepsInvariant(l, deliveries[0]);
      DeliveriesSettle(Execute(l, deliveries[0]), deliveries[1..]);
    }
  }
}
