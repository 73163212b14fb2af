/**
 * Runs of a direct call: a caller and a recipient, a FIFO channel each way, and steps that either
 * run one queued media operation, hand over one candidate, or deliver the oldest signal of a channel.
 * The recipient is the polite side.
 */
module DirectCallRuns {
  import opened Options
  import opened OfferAnswer
  import opened DirectCall

  /** `tally` only counts what happened; no step depends on it. */
  datatype Call = Call(caller: Peer, recipient: Peer, down: seq<CallSignal>, up: seq<CallSignal>, tally: Tally)

  datatype Tally = Tally(
    callerRequests: nat, recipientRequests: nat,
    callerOffers: nat, recipientOffers: nat, answers: nat,
    callerOffersTaken: nat, recipientOffersTaken: nat, answersTaken: nat)

  /** `sdp` is the identity of the offer the step may create. */
  datatype Step =
    | ChangeCallerMedia(sdp: nat)
    | ChangeRecipientMedia(sdp: nat)
    | CallerCandidate(candidate: nat)
    | RecipientCandidate(candidate: nat)
    | DeliverToRecipient(sdp: nat)
    | DeliverToCaller(sdp: nat)

  /** A call that has just been accepted: two new peers and nothing in transit. */
  predicate IsNew(c: Call) {
    && c.caller == NewPeer(false) && c.recipient == NewPeer(true) && c.down == [] && c.up == []
    && c.tally.callerRequests == c.tally.recipientRequests == c.tally.callerOffers == c.tally.recipientOffers == 0
    && c.tally.answers == c.tally.callerOffersTaken == c.tally.recipientOffersTaken == c.tally.answersTaken == 0
  }

  function Negotiations(s: seq<CallSignal>): seq<Signal> {
    if s == [] then []
    else (if s[0].Negotiate? then [s[0].signal] else []) + Negotiations(s[1..])
  }

  function Offers(s: seq<CallSignal>): nat {
    if s == [] then 0 else (if s[0].Negotiate? && s[0].signal.Offer? then 1 else 0) + Offers(s[1..])
  }

  function Answers(s: seq<CallSignal>): nat {
    if s == [] then 0 else (if s[0].Negotiate? && s[0].signal.Answer? then 1 else 0) + Answers(s[1..])
  }

  function Candidates(s: seq<CallSignal>): nat {
    if s == [] then 0 else (if s[0].Candidate? then 1 else 0) + Candidates(s[1..])
  }

  function CallerSends(c: Call, caller: Peer, sent: seq<CallSignal>): Call {
    c.(caller := caller, down := c.down + sent,
       tally := c.tally.(callerOffers := c.tally.callerOffers + Offers(sent),
           answers := c.tally.answers + Answers(sent)))
  }

  function RecipientSends(c: Call, recipient: Peer, sent: seq<CallSignal>): Call {
    c.(recipient := recipient, up := c.up + sent,
       tally := c.tally.(recipientOffers := c.tally.recipientOffers + Offers(sent),
           answers := c.tally.answers + Answers(sent)))
  }

  function Execute(c: Call, s: Step): Call {
    match s
    case ChangeCallerMedia(sdp) =>
      var (p, sent) := ChangeMedia(c.caller, sdp);
      CallerSends(c.(tally := c.tally.(callerRequests := c.tally.callerRequests + 1)), p, sent)
    case ChangeRecipientMedia(sdp) =>
      var (p, sent) := ChangeMedia(c.recipient, sdp);
      RecipientSends(c.(tally := c.tally.(recipientRequests := c.tally.recipientRequests + 1)), p, sent)
    case CallerCandidate(x) => c.(down := c.down + [Candidate(x)])
    case RecipientCandidate(x) => c.(up := c.up + [Candidate(x)])
    case DeliverToRecipient(sdp) =>
      if c.down == [] then c
      else
        var (p, sent) := ApplySignal(c.recipient, c.down[0], sdp);
        var t := c.tally.(callerOffersTaken := c.tally.callerOffersTaken + Offers(c.down[..1]),
                          answersTaken := c.tally.answersTaken + Answers(c.down[..1]));
        RecipientSends(c.(down := c.down[1..], tally := t), p, sent)
    case DeliverToCaller(sdp) =>
      if c.up == [] then c
      else
        var (p, sent) := ApplySignal(c.caller, c.up[0], sdp);
        var t := c.tally.(recipientOffersTaken := c.tally.recipientOffersTaken + Offers(c.up[..1]),
                          answersTaken := c.tally.answersTaken + Answers(c.up[..1]));
        CallerSends(c.(up := c.up[1..], tally := t), p, sent)
  }

  function Run(c: Call, steps: seq<Step>): Call
    decreases |steps|
  {
    if steps == [] then c else Run(Execute(c, steps[0]), steps[1..])
  }

  // ----- The invariant ----------------------------------------------------------------------

  function SideOf(p: Peer): Side {
    Side(if p.connection.HaveLocalOffer? then Some(p.connection.offer) else None, p.completed)
  }

  function PairOf(c: Call): Pair {
    Pair(SideOf(c.caller), SideOf(c.recipient), Negotiations(c.down), Negotiations(c.up))
  }

  /** A media change is answered, on offer, or waiting for the outstanding offer to be answered. */
  predicate MediaAccounted(p: Peer) {
    && p.covered <= p.media
    && (p.connection.HaveLocalOffer? ==> p.covered <= p.connection.offer.media <= p.media)
    && (p.localRenegotiationPending ==> p.connection.HaveLocalOffer?)
    && (p.covered < p.media ==>
          p.localRenegotiationPending || (p.connection.HaveLocalOffer? && p.connection.offer.media == p.media))
  }

  function Waiting(p: Peer): nat { if p.localRenegotiationPending then 1 else 0 }

  predicate TallyBalanced(c: Call) {
    var t := c.tally;
    && t.callerOffers + Waiting(c.caller) <= t.callerRequests
    && t.recipientOffers + Waiting(c.recipient) <= t.recipientRequests + t.callerOffersTaken
    && t.callerOffersTaken + Offers(c.down) == t.callerOffers
    && t.recipientOffersTaken + Offers(c.up) == t.recipientOffers
    && t.answersTaken + Answers(c.down) + Answers(c.up) == t.answers
    && t.answers <= t.callerOffersTaken + t.recipientOffersTaken
  }

  predicate Invariant(c: Call) {
    && !c.caller.failed && !c.recipient.failed
    && !c.caller.polite && c.recipient.polite
    && InFlight(PairOf(c))
    && MediaAccounted(c.caller) && MediaAccounted(c.recipient)
    && TallyBalanced(c)
  }

  lemma {:induction false} Concatenated(a: seq<CallSignal>, b: seq<CallSignal>)
    ensures Negotiations(a + b) == Negotiations(a) + Negotiations(b)
    ensures Offers(a + b) == Offers(a) + Offers(b)
    ensures Answers(a + b) == Answers(a) + Answers(b)
    ensures Candidates(a + b) == Candidates(a) + Candidates(b)
  {
    if a == [] {
      assert a + b == b;
    } else {
      assert (a + b)[1..] == a[1..] + b;
      Concatenated(a[1..], b);
    }
  }

  lemma Singly(s: CallSignal)
    ensures Negotiations([s]) == if s.Negotiate? then [s.signal] else []
    ensures Offers([s]) == if s.Negotiate? && s.signal.Offer? then 1 else 0
    ensures Answers([s]) == if s.Negotiate? && s.signal.Answer? then 1 else 0
    ensures Candidates([s]) == if s.Candidate? then 1 else 0
  {
    assert [s][1..] == [];
  }

  lemma {:induction false} Headed(s: seq<CallSignal>)
    requires s != []
    ensures Negotiations(s) == Negotiations(s[..1]) + Negotiations(s[1..])
    ensures Offers(s) == Offers(s[..1]) + Offers(s[1..])
    ensures Answers(s) == Answers(s[..1]) + Answers(s[1..])
    ensures Candidates(s) == Candidates(s[..1]) + Candidates(s[1..])
  {
    assert s == s[..1] + s[1..];
    Concatenated(s[..1], s[1..]);
  }

  /** An offer sent by the caller, whether for a request of its own or for one that was waiting. */
  lemma CallerOffersStep(c: Call, p: Peer, sdp: nat)
    requires InFlight(PairOf(c.(caller := p))) && !p.failed
    ensures var (q, sent) := CreateAndSendOffer(p, sdp);
            InFlight(PairOf(c.(caller := q, down := c.down + sent)))
  {
    var (q, sent) := CreateAndSendOffer(p, sdp);
    var before := PairOf(c.(caller := p));
    Concatenated(c.down, sent);
    if p.connection == Stable {
      var d := Description(sdp, p.media);
      Singly(Negotiate(Offer(d)));
      ImpoliteOffers(before, d);
    }
  }

  lemma RecipientOffersStep(c: Call, p: Peer, sdp: nat)
    requires InFlight(PairOf(c.(recipient := p))) && !p.failed
    ensures var (q, sent) := CreateAndSendOffer(p, sdp);
            InFlight(PairOf(c.(recipient := q, up := c.up + sent)))
  {
    var (q, sent) := CreateAndSendOffer(p, sdp);
    var before := PairOf(c.(recipient := p));
    Concatenated(c.up, sent);
    if p.connection == Stable {
      var d := Description(sdp, p.media);
      Singly(Negotiate(Offer(d)));
      PoliteOffers(before, d);
    }
  }

  /** The same after an operation that first settled or answered something. */
  lemma CallerRenegotiates(c: Call, p: Peer, sdp: nat)
    requires InFlight(PairOf(c.(caller := p))) && !p.failed
    ensures var (q, sent) := RenegotiateIfPending(p, sdp);
            InFlight(PairOf(c.(caller := q, down := c.down + sent)))
  {
    if p.localRenegotiationPending {
      assert SideOf(p.(localRenegotiationPending := false)) == SideOf(p);
      CallerOffersStep(c, p.(localRenegotiationPending := false), sdp);
    } else {
      assert c.down + [] == c.down;
    }
  }

  lemma RecipientRenegotiates(c: Call, p: Peer, sdp: nat)
    requires InFlight(PairOf(c.(recipient := p))) && !p.failed
    ensures var (q, sent) := RenegotiateIfPending(p, sdp);
            InFlight(PairOf(c.(recipient := q, up := c.up + sent)))
  {
    if p.localRenegotiationPending {
      assert SideOf(p.(localRenegotiationPending := false)) == SideOf(p);
      RecipientOffersStep(c, p.(localRenegotiationPending := false), sdp);
    } else {
      assert c.up + [] == c.up;
    }
  }

  /** The recipient with the offer answered, before it makes up for one of its own. */
  function WithOffer(p: Peer, d: Description): Peer {
    FlushPendingCandidates(p.(
      localRenegotiationPending := p.localRenegotiationPending || p.connection != Stable,
      remoteDescriptionReady := true, connection := Stable, completed := p.completed + [d.id]))
  }

  lemma RecipientAnswers(c: Call, d: Description)
    requires Invariant(c) && c.down != [] && c.down[0] == Negotiate(Offer(d))
    ensures var up := c.up + [Negotiate(Answer(d.id))];
            InFlight(PairOf(c.(recipient := WithOffer(c.recipient, d), down := c.down[1..], up := up)))
  {
    Headed(c.down);
    Singly(c.down[0]);
    assert c.down[..1] == [c.down[0]];
    PoliteAnswers(PairOf(c), d);
    var answer := [Negotiate(Answer(d.id))];
    Concatenated(c.up, answer);
    Singly(answer[0]);
  }

  lemma RecipientTakesOffer(c: Call, d: Description, sdp: nat)
    requires Invariant(c) && c.down != [] && c.down[0] == Negotiate(Offer(d))
    ensures var (q, sent) := ApplyOffer(c.recipient, d, sdp);
            !q.failed && InFlight(PairOf(c.(recipient := q, down := c.down[1..], up := c.up + sent)))
  {
    RecipientAnswers(c, d);
    var p, answer := WithOffer(c.recipient, d), [Negotiate(Answer(d.id))];
    RecipientRenegotiates(c.(down := c.down[1..], up := c.up + answer), p, sdp);
    var (q, sent) := RenegotiateIfPending(p, sdp);
    assert ApplyOffer(c.recipient, d, sdp) == (q, answer + sent);
    assert c.up + (answer + sent) == (c.up + answer) + sent;
  }

  lemma RecipientTakesAnswer(c: Call, id: nat, sdp: nat)
    requires Invariant(c) && c.down != [] && c.down[0] == Negotiate(Answer(id))
    ensures var (q, sent) := ApplyAnswer(c.recipient, id, sdp);
            !q.failed && InFlight(PairOf(c.(recipient := q, down := c.down[1..], up := c.up + sent)))
  {
    Headed(c.down);
    Singly(c.down[0]);
    assert c.down[..1] == [c.down[0]];
    PoliteSettles(PairOf(c), id);
    var p := FlushPendingCandidates(c.recipient.(
      remoteDescriptionReady := true, connection := Stable, completed := c.recipient.completed + [id],
      covered := c.recipient.connection.offer.media));
    RecipientRenegotiates(c.(down := c.down[1..]), p, sdp);
  }

  lemma CallerTakesOffer(c: Call, d: Description, sdp: nat)
    requires Invariant(c) && c.up != [] && c.up[0] == Negotiate(Offer(d))
    ensures var (q, sent) := ApplyOffer(c.caller, d, sdp);
            !q.failed && InFlight(PairOf(c.(caller := q, up := c.up[1..], down := c.down + sent)))
  {
    Headed(c.up);
    Singly(c.up[0]);
    assert c.up[..1] == [c.up[0]];
    if c.caller.connection != Stable {
      ImpoliteIgnores(PairOf(c));
      assert c.down + [] == c.down;
    } else {
      ImpoliteAnswers(PairOf(c), d);
      var answer := [Negotiate(Answer(d.id))];
      Concatenated(c.down, answer);
      Singly(answer[0]);
      assert answer + [] == answer;
    }
  }

  lemma CallerTakesAnswer(c: Call, id: nat, sdp: nat)
    requires Invariant(c) && c.up != [] && c.up[0] == Negotiate(Answer(id))
    ensures var (q, sent) := ApplyAnswer(c.caller, id, sdp);
            !q.failed && InFlight(PairOf(c.(caller := q, up := c.up[1..], down := c.down + sent)))
  {
    Headed(c.up);
    Singly(c.up[0]);
    assert c.up[..1] == [c.up[0]];
    ImpoliteSettles(PairOf(c), id);
    var p := FlushPendingCandidates(c.caller.(
      remoteDescriptionReady := true, connection := Stable, completed := c.caller.completed + [id],
      covered := c.caller.connection.offer.media));
    CallerRenegotiates(c.(up := c.up[1..]), p, sdp);
  }

  /** What one operation may add to the offers sent or waiting, and to the answers. */
  lemma OperationCost(p: Peer, s: CallSignal, sdp: nat)
    ensures var (q, sent) := ChangeMedia(p, sdp);
            Offers(sent) + Waiting(q) <= Waiting(p) + 1 && Answers(sent) == 0
    ensures var (q, sent) := ApplySignal(p, s, sdp);
            Offers(sent) + Waiting(q) <= Waiting(p) + (if p.polite then Offers([s]) else 0) &&
                Answers(sent) <= Offers([s])
  {
    Singly(s);
    var d := Description(sdp, p.media);
    Singly(Negotiate(Offer(d)));
    Singly(Negotiate(Offer(d.(media := p.media + 1))));
    if s.Negotiate? && s.signal.Offer? {
      var answer := Negotiate(Answer(s.signal.description.id));
      Singly(answer);
      assert [answer] + [] == [answer];
      Concatenated([answer], [Negotiate(Offer(d))]);
    }
  }

  lemma MediaKept(p: Peer, s: CallSignal, sdp: nat)
    requires MediaAccounted(p) && !p.failed
    ensures MediaAccounted(ChangeMedia(p, sdp).0)
    ensures !ApplySignal(p, s, sdp).0.failed ==> MediaAccounted(ApplySignal(p, s, sdp).0)
  {
  }

  lemma StepKeepsTally(c: Call, s: Step)
    requires Invariant(c)
    ensures TallyBalanced(Execute(c, s))
  {
    match s {
      case ChangeCallerMedia(sdp) =>
        OperationCost(c.caller, Candidate(0), sdp);
        Concatenated(c.down, ChangeMedia(c.caller, sdp).1);
      case ChangeRecipientMedia(sdp) =>
        OperationCost(c.recipient, Candidate(0), sdp);
        Concatenated(c.up, ChangeMedia(c.recipient, sdp).1);
      case CallerCandidate(x) =>
        Concatenated(c.down, [Candidate(x)]);
        Singly(Candidate(x));
      case RecipientCandidate(x) =>
        Concatenated(c.up, [Candidate(x)]);
        Singly(Candidate(x));
      case DeliverToRecipient(sdp) =>
        if c.down != [] {
          Headed(c.down);
          assert c.down[..1] == [c.down[0]];
          OperationCost(c.recipient, c.down[0], sdp);
          Concatenated(c.up, ApplySignal(c.recipient, c.down[0], sdp).1);
        }
      case DeliverToCaller(sdp) =>
        if c.up != [] {
          Headed(c.up);
          assert c.up[..1] == [c.up[0]];
          OperationCost(c.caller, c.up[0], sdp);
          Concatenated(c.down, ApplySignal(c.caller, c.up[0], sdp).1);
        }
    }
  }

  lemma DeliveryToRecipientKeepsFlight(c: Call, sdp: nat)
    requires Invariant(c) && c.down != []
    ensures var (q, sent) := ApplySignal(c.recipient, c.down[0], sdp);
            !q.failed && InFlight(PairOf(c.(recipient := q, down := c.down[1..], up := c.up + sent)))
  {
    match c.down[0] {
      case Candidate(x) => assert c.up + [] == c.up;
      case Negotiate(Offer(d)) => RecipientTakesOffer(c, d, sdp);
      case Negotiate(Answer(id)) => RecipientTakesAnswer(c, id, sdp);
    }
  }

  lemma DeliveryToCallerKeepsFlight(c: Call, sdp: nat)
    requires Invariant(c) && c.up != []
    ensures var (q, sent) := ApplySignal(c.caller, c.up[0], sdp);
            !q.failed && InFlight(PairOf(c.(caller := q, up := c.up[1..], down := c.down + sent)))
  {
    match c.up[0] {
      case Candidate(x) => assert c.down + [] == c.down;
      case Negotiate(Offer(d)) => CallerTakesOffer(c, d, sdp);
      case Negotiate(Answer(id)) => CallerTakesAnswer(c, id, sdp);
    }
  }

  /** The offers and the connections are where they should be after a step, and neither side has failed. */
  predicate StillInFlight(c: Call, n: Call) {
    InFlight(PairOf(n)) && !n.caller.failed && !n.recipient.failed && n.caller.polite == c.caller.polite &&
        n.recipient.polite == c.recipient.polite
  }

  lemma ChangeKeepsFlight(c: Call, s: Step)
    requires Invariant(c) && (s.ChangeCallerMedia? || s.ChangeRecipientMedia?)
    ensures StillInFlight(c, Execute(c, s))
  {
    if s.ChangeCallerMedia? {
      var p := c.caller.(media := c.caller.media + 1);
      assert PairOf(c.(caller := p)) == PairOf(c);
      CallerOffersStep(c, p, s.sdp);
    } else {
      var p := c.recipient.(media := c.recipient.media + 1);
      assert PairOf(c.(recipient := p)) == PairOf(c);
      RecipientOffersStep(c, p, s.sdp);
    }
  }

  lemma CandidateKeepsPair(c: Call, x: nat)
    ensures PairOf(c.(down := c.down + [Candidate(x)])) == PairOf(c) == PairOf(c.(up := c.up + [Candidate(x)]))
  {
    Singly(Candidate(x));
    Concatenated(c.down, [Candidate(x)]);
    Concatenated(c.up, [Candidate(x)]);
    assert Negotiations(c.down) + [] == Negotiations(c.down);
    assert Negotiations(c.up) + [] == Negotiations(c.up);
  }

  lemma DownKeepsFlight(c: Call, sdp: nat)
    requires Invariant(c) && c.down != []
    ensures StillInFlight(c, Execute(c, DeliverToRecipient(sdp)))
  {
    DeliveryToRecipientKeepsFlight(c, sdp);
    var (q, sent) := ApplySignal(c.recipient, c.down[0], sdp);
    assert PairOf(Execute(c, DeliverToRecipient(sdp))) ==
           PairOf(c.(recipient := q, down := c.down[1..], up := c.up + sent));
  }

  lemma UpKeepsFlight(c: Call, sdp: nat)
    requires Invariant(c) && c.up != []
    ensures StillInFlight(c, Execute(c, DeliverToCaller(sdp)))
  {
    DeliveryToCallerKeepsFlight(c, sdp);
    var (q, sent) := ApplySignal(c.caller, c.up[0], sdp);
    assert PairOf(Execute(c, DeliverToCaller(sdp))) == PairOf(c.(caller := q, up := c.up[1..], down := c.down + sent));
  }

  lemma StepKeepsFlight(c: Call, s: Step)
    requires Invariant(c)
    ensures StillInFlight(c, Execute(c, s))
  {
    match s {
      case CallerCandidate(x) => CandidateKeepsPair(c, x);
      case RecipientCandidate(x) => CandidateKeepsPair(c, x);
      case ChangeCallerMedia(_) => ChangeKeepsFlight(c, s);
      case ChangeRecipientMedia(_) => ChangeKeepsFlight(c, s);
      case DeliverToRecipient(sdp) => if c.down != [] { DownKeepsFlight(c, sdp); }
      case DeliverToCaller(sdp) => if c.up != [] { UpKeepsFlight(c, sdp); }
    }
  }

  lemma StepKeepsMedia(c: Call, s: Step)
    requires Invariant(c)
    requires !Execute(c, s).caller.failed && !Execute(c, s).recipient.failed
    ensures MediaAccounted(Execute(c, s).caller) && MediaAccounted(Execute(c, s).recipient)
  {
    match s {
      case DeliverToRecipient(sdp) => if c.down != [] { MediaKept(c.recipient, c.down[0], sdp); }
      case DeliverToCaller(sdp) => if c.up != [] { MediaKept(c.caller, c.up[0], sdp); }
      case ChangeCallerMedia(sdp) => MediaKept(c.caller, Candidate(0), sdp);
      case ChangeRecipientMedia(sdp) => MediaKept(c.recipient, Candidate(0), sdp);
      case CallerCandidate(_) =>
      case RecipientCandidate(_) =>
    }
  }

  /** Every step keeps the invariant, in particular that no answer is ever refused. */
  lemma StepKeepsInvariant(c: Call, s: Step)
    requires Invariant(c)
    ensures Invariant(Execute(c, s))
  {
    StepKeepsFlight(c, s);
    StepKeepsMedia(c, s);
    StepKeepsTally(c, s);
  }

  lemma {:induction false} RunKeepsInvariant(c: Call, steps: seq<Step>)
    requires Invariant(c)
    ensures Invariant(Run(c, steps))
    decreases |steps|
  {
    if steps != [] {
      StepKeepsInvariant(c, steps[0]);
      RunKeepsInvariant(Execute(c, steps[0]), steps[1..]);
    }
  }

  // ----- What every run guarantees ------------------------------------------------------------

  predicate Settled(c: Call) {
    && c.caller.connection == Stable && c.recipient.connection == Stable
    && !c.caller.localRenegotiationPending && !c.recipient.localRenegotiationPending
    && c.caller.covered == c.caller.media && c.recipient.covered == c.recipient.media
    && c.caller.completed == c.recipient.completed
  }

  ghost predicate Reachable(c: Call) { exists start, steps :: IsNew(start) && c == Run(start, steps) }

  lemma NewIsInvariant(c: Call)
    requires IsNew(c)
    ensures Invariant(c)
  {
  }

  lemma ReachableIsInvariant(c: Call)
    requires Reachable(c)
    ensures Invariant(c)
  {
    var start, steps :| IsNew(start) && c == Run(start, steps);
    NewIsInvariant(start);
    RunKeepsInvariant(start, steps);
  }

  /** Nothing in transit means nothing is owed: agreement, and no media change was lost. */
  lemma QuietCallIsSettled(c: Call)
    requires Reachable(c) && c.down == [] && c.up == []
    ensures Settled(c)
  {
    ReachableIsInvariant(c);
    EmptyChannelsAgree(PairOf(c));
  }

  /** An answer about to be delivered to `p` belongs to the offer outstanding there. */
  predicate NextAnswerMatches(p: Peer, channel: seq<CallSignal>) {
    channel != [] && channel[0].Negotiate? && channel[0].signal.Answer? ==>
      p.connection.HaveLocalOffer? && p.connection.offer.id == channel[0].signal.id
  }

  lemma WaitingAnswersMatch(c: Call)
    requires Invariant(c)
    ensures NextAnswerMatches(c.recipient, c.down) && NextAnswerMatches(c.caller, c.up)
  {
    var p := PairOf(c);
    if c.down != [] && c.down[0].Negotiate? && c.down[0].signal.Answer? {
      assert p.down[0] == c.down[0].signal;
      PoliteSettles(p, c.down[0].signal.id);
    }
    if c.up != [] && c.up[0].Negotiate? && c.up[0].signal.Answer? {
      assert p.up[0] == c.up[0].signal;
      ImpoliteSettles(p, c.up[0].signal.id);
    }
  }

  /** No answer ever reaches a peer that did not make the offer it answers, so no call fails for one. */
  lemma AnswersMatchOffers(c: Call)
    requires Reachable(c)
    ensures !c.caller.failed && !c.recipient.failed
    ensures NextAnswerMatches(c.recipient, c.down) && NextAnswerMatches(c.caller, c.up)
  {
    ReachableIsInvariant(c);
    WaitingAnswersMatch(c);
  }

  /** Offers are bounded by the requests, and signals taken by twice the offers. */
  lemma OffersBounded(c: Call)
    requires Reachable(c)
    ensures var t := c.tally;
            && t.callerOffers <= t.callerRequests
            && t.callerOffers + t.recipientOffers <= t.recipientRequests + 2 * t.callerRequests
            && t.callerOffersTaken + t.recipientOffersTaken + t.answersTaken
               <= 2 * (t.recipientRequests + 2 * t.callerRequests)
  {
    ReachableIsInvariant(c);
  }

  /** One request on each side at the same moment makes three offers: the bound is reached. */
  lemma {:induction false} OfferBoundIsReached(start: Call)
    requires IsNew(start)
    ensures var t := Run(start, [ChangeCallerMedia(1), ChangeRecipientMedia(2), DeliverToRecipient(3)]).tally;
            t.callerOffers + t.recipientOffers == 3 == t.recipientRequests + 2 * t.callerRequests
  {
    var c1 := Execute(start, ChangeCallerMedia(1));
    var c2 := Execute(c1, ChangeRecipientMedia(2));
    assert c2.down == [Negotiate(Offer(Description(1, 1)))];
    var reply := [Negotiate(Answer(1)), Negotiate(Offer(Description(3, 1)))];
    assert reply[1..] == [Negotiate(Offer(Description(3, 1)))];
    assert ApplySignal(c2.recipient, c2.down[0], 3).1 == reply;
    var c3 := Execute(c2, DeliverToRecipient(3));
    var steps := [ChangeCallerMedia(1), ChangeRecipientMedia(2), DeliverToRecipient(3)];
    assert Run(start, steps) == Run(c1, steps[1..]) == Run(c2, steps[2..]) == c3;
  }

  /** How many deliveries can still happen if no one asks for anything more. */
  function Remaining(c: Call): int {
    var t := c.tally;
    2 * (t.recipientRequests + 2 * t.callerRequests) - (t.callerOffersTaken + t.recipientOffersTaken + t.answersTaken)
    + Candidates(c.down) + Candidates(c.up)
  }

  lemma DeliveryToRecipientProgresses(c: Call, sdp: nat)
    requires Invariant(c) && c.down != []
    ensures Remaining(Execute(c, DeliverToRecipient(sdp))) < Remaining(c)
  {
    Headed(c.down);
    Singly(c.down[0]);
    assert c.down[..1] == [c.down[0]];
    Concatenated(c.up, ApplySignal(c.recipient, c.down[0], sdp).1);
    NoCandidateIsSent(c.recipient, c.down[0], sdp);
  }

  lemma DeliveryToCallerProgresses(c: Call, sdp: nat)
    requires Invariant(c) && c.up != []
    ensures Remaining(Execute(c, DeliverToCaller(sdp))) < Remaining(c)
  {
    Headed(c.up);
    Singly(c.up[0]);
    assert c.up[..1] == [c.up[0]];
    Concatenated(c.down, ApplySignal(c.caller, c.up[0], sdp).1);
    NoCandidateIsSent(c.caller, c.up[0], sdp);
  }

  lemma RemainingIsNatural(c: Call)
    requires Invariant(c)
    ensures 0 <= Remaining(c)
  {
  }

  predicate IsWaiting(c: Call, s: Step) {
    (s.DeliverToRecipient? && c.down != []) || (s.DeliverToCaller? && c.up != [])
  }

  /** Every delivery of a waiting signal is progress, and the progress still possible is bounded. */
  lemma DeliveryProgresses(c: Call, s: Step)
    requires Invariant(c) && IsWaiting(c, s)
    ensures 0 <= Remaining(Execute(c, s)) < Remaining(c)
  {
    StepKeepsInvariant(c, s);
    RemainingIsNatural(Execute(c, s));
    if s.DeliverToRecipient? { DeliveryToRecipientProgresses(c, s.sdp); } else { DeliveryToCallerProgresses(c, s.sdp); }
  }

  lemma NoCandidateIsSent(p: Peer, s: CallSignal, sdp: nat)
    ensures Candidates(ApplySignal(p, s, sdp).1) == 0
  {
    var offer := Negotiate(Offer(Description(sdp, p.media)));
    Singly(offer);
    if s.Negotiate? && s.signal.Offer? {
      var answer := Negotiate(Answer(s.signal.description.id));
      Singly(answer);
      assert [answer] + [] == [answer];
      Concatenated([answer], [offer]);
    }
  }

  /** Each of the deliveries is of a signal that waits when its turn comes. */
  predicate AllWaiting(c: Call, deliveries: seq<Step>)
    decreases |deliveries|
  {
    deliveries == [] || (IsWaiting(c, deliveries[0]) && AllWaiting(Execute(c, deliveries[0]), deliveries[1..]))
  }

  /**
   * No deadlock and no livelock: in whatever order waiting signals are delivered, there are at most
   * `Remaining` deliveries, and when none is left to make both channels are empty and the call is settled.
   */
  lemma {:induction false} DeliveriesSettle(c: Call, deliveries: seq<Step>)
    requires Invariant(c) && AllWaiting(c, deliveries)
    ensures |deliveries| <= Remaining(c)
    ensures var e := Run(c, deliveries);
            (e.down == [] && e.up == [] && Settled(e)) <==> forall s :: !IsWaiting(e, s)
    decreases |deliveries|
  {
    if deliveries == [] {
      RemainingIsNatural(c);
      if forall s :: !IsWaiting(c, s) {
        assert !IsWaiting(c, DeliverToRecipient(0)) && !IsWaiting(c, DeliverToCaller(0));
        EmptyChannelsAgree(PairOf(c));
      }
    } else {
      DeliveryProgresses(c, deliveries[0]);
      StepKeepsInvariant(c, deliveries[0]);
      DeliveriesSettle(Execute(c, deliveries[0]), deliveries[1..]);
    }
  }
}
