/** Candidates of a direct call, end to end: what one side hands over, the other applies, all of it and in order. */
module DirectCallCandidates {
  import opened Options
  import opened OfferAnswer
  import opened DirectCall
  import opened DirectCallRuns

  /** The candidates a side handed over in a run, in order. */
  function Handed(steps: seq<Step>, byCaller: bool): seq<nat> {
    if steps == [] then []
    else
      var first := if byCaller && steps[0].CallerCandidate? then [steps[0].candidate]
                   else if !byCaller && steps[0].RecipientCandidate? then [steps[0].candidate]
                   else [];
      first + Handed(steps[1..], byCaller)
  }

  /** What reached a side: applied once it completed a negotiation, and buffered before. */
  function Arrived(p: Peer): seq<nat> { if p.completed != [] then p.applied else p.pendingCandidates }

  /** Nothing handed over is lost, made up or overtaken: it reached the side or is still on its way. */
  predicate Carries(p: Peer, channel: seq<CallSignal>, handed: seq<nat>) {
    CandidatesKept(p, Arrived(p)) && Arrived(p) + CandidatesOf(channel) == handed
  }

  lemma {:induction false} CandidatesConcat(a: seq<CallSignal>, b: seq<CallSignal>)
    ensures CandidatesOf(a + b) == CandidatesOf(a) + CandidatesOf(b)
  {
    if a == [] {
      assert a + b == b;
    } else {
      assert (a + b)[1..] == a[1..] + b;
      CandidatesConcat(a[1..], b);
    }
  }

  lemma {:induction false} CandidatesHead(s: seq<CallSignal>)
    requires s != []
    ensures CandidatesOf(s) == CandidatesOf([s[0]]) + CandidatesOf(s[1..])
  {
    assert [s[0]] + s[1..] == s;
    CandidatesConcat([s[0]], s[1..]);
  }

  lemma {:induction false} OnlyNegotiations(sent: seq<CallSignal>)
    requires Candidates(sent) == 0
    ensures CandidatesOf(sent) == []
  {
    if sent != [] { OnlyNegotiations(sent[1..]); }
  }

  lemma NoCandidateIsOffered(p: Peer, sdp: nat)
    ensures CandidatesOf(ChangeMedia(p, sdp).1) == []
  {
  }

  lemma ArrivedIs(p: Peer, received: seq<nat>)
    requires CandidatesKept(p, received)
    ensures Arrived(p) == received
  {
  }

  lemma Grouped(a: seq<nat>, b: seq<nat>, c: seq<nat>)
    ensures a + (b + c) == (a + b) + c
  {
  }

  /** A side takes the next signal of its channel. */
  lemma TakingCarries(p: Peer, channel: seq<CallSignal>, handed: seq<nat>, sdp: nat)
    requires Carries(p, channel, handed) && channel != [] && !p.failed && !ApplySignal(p, channel[0], sdp).0.failed
    ensures Carries(ApplySignal(p, channel[0], sdp).0, channel[1..], handed)
  {
    var q := ApplySignal(p, channel[0], sdp).0;
    CandidateStep(p, Arrived(p), channel[0], sdp);
    TakenFrom(p, q, channel, handed);
  }

  lemma TakenFrom(p: Peer, q: Peer, channel: seq<CallSignal>, handed: seq<nat>)
    requires Carries(p, channel, handed) && channel != []
    requires CandidatesKept(q, Arrived(p) + CandidatesOf([channel[0]]))
    ensures Carries(q, channel[1..], handed)
  {
    ArrivedIs(q, Arrived(p) + CandidatesOf([channel[0]]));
    CandidatesHead(channel);
    Grouped(Arrived(p), CandidatesOf([channel[0]]), CandidatesOf(channel[1..]));
  }

  /** Its channel gets signals that are no candidates. */
  lemma {:induction false} SendingCarries(p: Peer, channel: seq<CallSignal>, handed: seq<nat>, sent: seq<CallSignal>)
    requires Carries(p, channel, handed) && CandidatesOf(sent) == []
    ensures Carries(p, channel + sent, handed)
  {
    CandidatesConcat(channel, sent);
  }

  lemma HandingCarries(p: Peer, channel: seq<CallSignal>, handed: seq<nat>, x: nat)
    requires Carries(p, channel, handed)
    ensures Carries(p, channel + [Candidate(x)], handed + [x])
  {
    CandidatesConcat(channel, [Candidate(x)]);
    assert CandidatesOf([Candidate(x)]) == [x];
  }

  /** Its own media changes do not touch what it received. */
  lemma ChangingCarries(p: Peer, channel: seq<CallSignal>, handed: seq<nat>, sdp: nat)
    requires Carries(p, channel, handed)
    ensures Carries(ChangeMedia(p, sdp).0, channel, handed)
  {
  }

  /** Both directions. */
  predicate BothCarry(c: Call, byCaller: seq<nat>, byRecipient: seq<nat>) {
    Carries(c.recipient, c.down, byCaller) && Carries(c.caller, c.up, byRecipient)
  }

  lemma StepCarries(c: Call, s: Step, byCaller: seq<nat>, byRecipient: seq<nat>)
    requires Invariant(c) && BothCarry(c, byCaller, byRecipient)
    ensures BothCarry(Execute(c, s), byCaller + Handed([s], true), byRecipient + Handed([s], false))
  {
    StepKeepsInvariant(c, s);
    assert byCaller + [] == byCaller && byRecipient + [] == byRecipient;
    match s
    case ChangeCallerMedia(sdp) =>
      NoCandidateIsOffered(c.caller, sdp);
      ChangingCarries(c.caller, c.up, byRecipient, sdp);
      SendingCarries(c.recipient, c.down, byCaller, ChangeMedia(c.caller, sdp).1);
    case ChangeRecipientMedia(sdp) =>
      NoCandidateIsOffered(c.recipient, sdp);
      ChangingCarries(c.recipient, c.down, byCaller, sdp);
      SendingCarries(c.caller, c.up, byRecipient, ChangeMedia(c.recipient, sdp).1);
    case CallerCandidate(x) => HandingCarries(c.recipient, c.down, byCaller, x);
    case RecipientCandidate(x) => HandingCarries(c.caller, c.up, byRecipient, x);
    case DeliverToRecipient(sdp) =>
      if c.down != [] {
        var (p, sent) := ApplySignal(c.recipient, c.down[0], sdp);
        TakingCarries(c.recipient, c.down, byCaller, sdp);
        NoCandidateIsSent(c.recipient, c.down[0], sdp);
        OnlyNegotiations(sent);
        SendingCarries(c.caller, c.up, byRecipient, sent);
      }
    case DeliverToCaller(sdp) =>
      if c.up != [] {
        var (p, sent) := ApplySignal(c.caller, c.up[0], sdp);
        TakingCarries(c.caller, c.up, byRecipient, sdp);
        NoCandidateIsSent(c.caller, c.up[0], sdp);
        OnlyNegotiations(sent);
        SendingCarries(c.recipient, c.down, byCaller, sent);
      }
  }

  lemma {:induction false} RunCarries(c: Call, steps: seq<Step>, byCaller: seq<nat>, byRecipient: seq<nat>)
    requires Invariant(c) && BothCarry(c, byCaller, byRecipient)
    ensures BothCarry(Run(c, steps), byCaller + Handed(steps, true), byRecipient + Handed(steps, false))
    decreases |steps|
  {
    if steps == [] {
      assert byCaller + [] == byCaller && byRecipient + [] == byRecipient;
    } else {
      StepKeepsInvariant(c, steps[0]);
      StepCarries(c, steps[0], byCaller, byRecipient);
      RunCarries(Execute(c, steps[0]), steps[1..], byCaller + Handed([steps[0]], true),
                 byRecipient + Handed([steps[0]], false));
      HandedNext(steps, true, byCaller);
      HandedNext(steps, false, byRecipient);
    }
  }

  lemma {:induction false} HandedNext(steps: seq<Step>, byCaller: bool, before: seq<nat>)
    requires steps != []
    ensures before + Handed([steps[0]], byCaller) + Handed(steps[1..], byCaller) == before + Handed(steps, byCaller)
  {
    assert [steps[0]][1..] == [];
    assert Handed([steps[0]], byCaller) + Handed(steps[1..], byCaller) == Handed(steps, byCaller);
  }

  lemma NewPeerCarries(polite: bool)
    ensures Carries(NewPeer(polite), [], [])
  {
  }

  lemma NewCarries(start: Call)
    requires IsNew(start)
    ensures BothCarry(start, [], [])
  {
    NewPeerCarries(false);
    NewPeerCarries(true);
  }

  lemma NothingBefore(handed: seq<nat>)
    ensures [] + handed == handed == handed + []
  {
  }

  /** After every run of a call: what a side handed over has reached the other one, in order, or is on its way. */
  lemma {:induction false} CandidatesReachTheOther(start: Call, steps: seq<Step>)
    requires IsNew(start)
    ensures BothCarry(Run(start, steps), Handed(steps, true), Handed(steps, false))
  {
    NewCarries(start);
    NewIsInvariant(start);
    RunCarries(start, steps, [], []);
    NothingBefore(Handed(steps, true));
    NothingBefore(Handed(steps, false));
  }

  lemma {:induction false} QuietSidesAgree(start: Call, steps: seq<Step>)
    requires IsNew(start) && Run(start, steps).down == [] && Run(start, steps).up == []
    ensures Run(start, steps).caller.completed == Run(start, steps).recipient.completed
  {
    NewIsInvariant(start);
    RunKeepsInvariant(start, steps);
    EmptyChannelsAgree(PairOf(Run(start, steps)));
  }

  lemma CarriedAll(p: Peer, handed: seq<nat>)
    requires Carries(p, [], handed)
    ensures p.applied == if p.completed != [] then handed else []
  {
    NothingBefore(Arrived(p));
  }

  /**
   * When nothing is on its way and any negotiation was completed, each side has applied every candidate the other one
   * handed over, in order; without a negotiation, none.
   */
  lemma {:induction false} QuietCallAppliedAll(start: Call, steps: seq<Step>)
    requires IsNew(start) && Run(start, steps).down == [] && Run(start, steps).up == []
    ensures var c := Run(start, steps);
            if c.caller.completed != []
            then c.recipient.applied == Handed(steps, true) && c.caller.applied == Handed(steps, false)
            else c.recipient.applied == [] && c.caller.applied == []
  {
    CandidatesReachTheOther(start, steps);
    QuietSidesAgree(start, steps);
    CarriedAll(Run(start, steps).recipient, Handed(steps, true));
    CarriedAll(Run(start, steps).caller, Handed(steps, false));
  }
}
