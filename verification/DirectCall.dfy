/**
 * Offer/answer negotiation of a direct call: one peer's signaling operations.
 *
 * `CreateAndSendOffer`, `ApplyOffer` and `ApplyAnswer` give the effect of each operation on a peer
 * value together with the signals it sends; the class performs them in place, step by step.  The
 * peer connection is represented by its signaling state.  `sdp` is the identity the browser gives
 * to an offer created during the operation.
 */
module DirectCall {
  import opened Options
  import opened OfferAnswer

  datatype CallSignal = Negotiate(signal: Signal) | Candidate(candidate: nat)

  datatype Connection = Stable | HaveLocalOffer(offer: Description)

  /**
   * `media` counts the local media changes, `covered` is the version the latest answered offer was
   * made from, `completed` the negotiations this peer finished, `applied` the candidates handed to
   * the connection.  A failed peer has torn the call down and ignores everything.
   */
  datatype Peer = Peer(
    polite: bool,
    connection: Connection,
    localRenegotiationPending: bool,
    remoteDescriptionReady: bool,
    pendingCandidates: seq<nat>,
    applied: seq<nat>,
    media: nat,
    covered: nat,
    completed: seq<nat>,
    failed: bool)

  function NewPeer(polite: bool): Peer {
    Peer(polite, Stable, false, false, [], [], 0, 0, [], false)
  }

  function CreateAndSendOffer(p: Peer, sdp: nat): (Peer, seq<CallSignal>) {
    if p.failed then (p, [])
    else if p.connection != Stable then (p.(localRenegotiationPending := true), [])
    else
      var d := Description(sdp, p.media);
      (p.(connection := HaveLocalOffer(d)), [Negotiate(Offer(d))])
  }

  /** A serialized media operation: change the tracks, then ask for an offer. */
  function ChangeMedia(p: Peer, sdp: nat): (Peer, seq<CallSignal>) {
    CreateAndSendOffer(p.(media := p.media + 1), sdp)
  }

  function FlushPendingCandidates(p: Peer): Peer {
    p.(applied := p.applied + p.pendingCandidates, pendingCandidates := [])
  }

  /** What ends both an applied offer and an applied answer. */
  function RenegotiateIfPending(p: Peer, sdp: nat): (Peer, seq<CallSignal>) {
    if p.localRenegotiationPending then CreateAndSendOffer(p.(localRenegotiationPending := false), sdp) else (p, [])
  }

  function ApplyOffer(p: Peer, d: Description, sdp: nat): (Peer, seq<CallSignal>) {
    var offerCollision := p.connection != Stable;
    if p.failed || (offerCollision && !p.polite) then (p, [])
    else
      var answered := FlushPendingCandidates(p.(
        localRenegotiationPending := p.localRenegotiationPending || offerCollision,
        remoteDescriptionReady := true,
        connection := Stable,
        completed := p.completed + [d.id]));
      var (q, sent) := RenegotiateIfPending(answered, sdp);
      (q, [Negotiate(Answer(d.id))] + sent)
  }

  /** The connection refuses an answer that does not belong to its local offer; that ends the call. */
  function ApplyAnswer(p: Peer, id: nat, sdp: nat): (Peer, seq<CallSignal>) {
    if p.failed || p.connection == Stable then (p, [])
    else if id != p.connection.offer.id then (p.(failed := true), [])
    else
      RenegotiateIfPending(FlushPendingCandidates(p.(
        remoteDescriptionReady := true,
        connection := Stable,
        completed := p.completed + [id],
        covered := p.connection.offer.media)), sdp)
  }

  function ApplyCandidate(p: Peer, candidate: nat): Peer {
    if p.failed then p
    else if !p.remoteDescriptionReady then p.(pendingCandidates := p.pendingCandidates + [candidate])
    else p.(applied := p.applied + [candidate])
  }

  function ApplySignal(p: Peer, s: CallSignal, sdp: nat): (Peer, seq<CallSignal>) {
    match s
    case Candidate(c) => (ApplyCandidate(p, c), [])
    case Negotiate(Offer(d)) => ApplyOffer(p, d, sdp)
    case Negotiate(Answer(id)) => ApplyAnswer(p, id, sdp)
  }

  // ----- Candidates ---------------------------------------------------------------------------

  function ApplyAll(p: Peer, signals: seq<CallSignal>, sdp: nat): Peer
    decreases |signals|
  {
    if signals == [] then p else ApplyAll(ApplySignal(p, signals[0], sdp).0, signals[1..], sdp)
  }

  function CandidatesOf(signals: seq<CallSignal>): seq<nat> {
    if signals == [] then []
    else if signals[0].Candidate? then [signals[0].candidate] + CandidatesOf(signals[1..])
    else CandidatesOf(signals[1..])
  }

  /** All received so far are applied once a negotiation was completed, and all are buffered before. */
  predicate CandidatesKept(p: Peer, received: seq<nat>) {
    && (p.remoteDescriptionReady <==> p.completed != [])
    && p.applied == (if p.completed != [] then received else [])
    && p.pendingCandidates == (if p.completed != [] then [] else received)
  }

  lemma CandidateStep(p: Peer, received: seq<nat>, s: CallSignal, sdp: nat)
    requires CandidatesKept(p, received) && !p.failed
    requires !ApplySignal(p, s, sdp).0.failed
    ensures CandidatesKept(ApplySignal(p, s, sdp).0, received + CandidatesOf([s]))
  {
    assert CandidatesOf([s]) == if s.Candidate? then [s.candidate] else [];
    assert received + [] == received && [] + received == received;
    assert p.applied + p.pendingCandidates == received;
  }

  /**
   * Until the call fails, the candidates received are applied, all of them and in arrival order, exactly
   * if an offer was answered or an answer accepted; before, all of them are buffered.
   */
  lemma {:induction false} CandidatesKeepTheirOrder(p: Peer, received: seq<nat>, signals: seq<CallSignal>, sdp: nat)
    requires CandidatesKept(p, received)
    requires !ApplyAll(p, signals, sdp).failed
    ensures CandidatesKept(ApplyAll(p, signals, sdp), received + CandidatesOf(signals))
    decreases |signals|
  {
    if signals == [] {
      assert received + [] == received;
    } else {
      NeverFailed(p, signals, sdp);
      NeverFailed(ApplySignal(p, signals[0], sdp).0, signals[1..], sdp);
      CandidateStep(p, received, signals[0], sdp);
      CandidatesKeepTheirOrder(ApplySignal(p, signals[0], sdp).0, received + CandidatesOf([signals[0]]), signals[1..],
          sdp);
      CandidatesNext(received, signals);
    }
  }

  lemma {:induction false} CandidatesNext(received: seq<nat>, signals: seq<CallSignal>)
    requires signals != []
    ensures received + CandidatesOf([signals[0]]) + CandidatesOf(signals[1..]) == received + CandidatesOf(signals)
  {
    var s, later := signals[0], CandidatesOf(signals[1..]);
    assert [s][1..] == [];
    if s.Candidate? {
      assert CandidatesOf([s]) == [s.candidate];
      assert received + [s.candidate] + later == received + ([s.candidate] + later);
    } else {
      assert CandidatesOf([s]) == [];
      assert received + [] == received;
    }
  }

  lemma {:induction false} NeverFailed(p: Peer, signals: seq<CallSignal>, sdp: nat)
    requires !ApplyAll(p, signals, sdp).failed
    ensures !p.failed
  {
    if p.failed { FailureIsFinal(p, signals, sdp); }
  }

  /** The first negotiation completed is what applies candidates, in a call that begins. */
  lemma {:induction false} CandidatesWait(polite: bool, signals: seq<CallSignal>, sdp: nat)
    requires !ApplyAll(NewPeer(polite), signals, sdp).failed
    ensures var p, received := ApplyAll(NewPeer(polite), signals, sdp), CandidatesOf(signals);
            if p.completed != [] then p.applied == received && p.pendingCandidates == []
            else p.applied == [] && p.pendingCandidates == received
  {
    assert [] + CandidatesOf(signals) == CandidatesOf(signals);
    CandidatesKeepTheirOrder(NewPeer(polite), [], signals, sdp);
  }

  /** A call fails by nothing but an answer to another offer than the one outstanding. */
  lemma FailsExactly(p: Peer, s: CallSignal, sdp: nat)
    ensures ApplySignal(p, s, sdp).0.failed <==>
            p.failed || (s.Negotiate? && s.signal.Answer? && p.connection.HaveLocalOffer? &&
                         s.signal.id != p.connection.offer.id)
    ensures ApplySignal(p, s, sdp).0.failed ==> ApplySignal(p, s, sdp).1 == []
  {
  }

  lemma {:induction false} FailureIsFinal(p: Peer, signals: seq<CallSignal>, sdp: nat)
    requires p.failed
    ensures ApplyAll(p, signals, sdp) == p
    decreases |signals|
  {
    if signals != [] {
      FailureIsFinal(p, signals[1..], sdp);
    }
  }

  // ----- The service ------------------------------------------------------------------------

  class CallFacade {
    const polite: bool
    var connection: Connection
    var localRenegotiationPending: bool
    var remoteDescriptionReady: bool
    var pendingCandidates: seq<nat>
    var applied: seq<nat>
    var media: nat
    var covered: nat
    var completed: seq<nat>
    var failed: bool

    constructor (polite: bool)
      ensures View() == NewPeer(polite)
    {
      this.polite := polite;
      connection := Stable;
      localRenegotiationPending, remoteDescriptionReady := false, false;
      pendingCandidates, applied, completed := [], [], [];
      media, covered := 0, 0;
      failed := false;
    }

    ghost function View(): Peer
      reads this
    {
      Peer(polite, connection, localRenegotiationPending, remoteDescriptionReady, pendingCandidates, applied,
           media, covered, completed, failed)
    }

    method SendOffer(sdp: nat) returns (sent: seq<CallSignal>)
      modifies this
      ensures (View(), sent) == CreateAndSendOffer(old(View()), sdp)
    {
      sent := [];
      if failed { return; }
      if connection != Stable {
        localRenegotiationPending := true;
        return;
      }
      var offer := Description(sdp, media);
      connection := HaveLocalOffer(offer);
      sent := [Negotiate(Offer(offer))];
    }

    method ToggleScreenShare(sdp: nat) returns (sent: seq<CallSignal>)
      modifies this
      ensures (View(), sent) == ChangeMedia(old(View()), sdp)
    {
      media := media + 1;
      sent := SendOffer(sdp);
    }

    /** Hands the buffered candidates to the connection one at a time, in arrival order. */
    method FlushCandidates()
      modifies this`applied, this`pendingCandidates
      ensures View() == FlushPendingCandidates(old(View()))
    {
      var candidates := pendingCandidates;
      pendingCandidates := [];
      var i := 0;
      while i < |candidates|
        invariant 0 <= i <= |candidates|
        invariant pendingCandidates == []
        invariant applied == old(applied) + candidates[..i]
      {
        applied := applied + [candidates[i]];
        i := i + 1;
      }
      assert candidates[..i] == candidates;
    }

    method ReceiveSignal(signal: CallSignal, sdp: nat) returns (sent: seq<CallSignal>)
      modifies this
      ensures (View(), sent) == ApplySignal(old(View()), signal, sdp)
    {
      sent := [];
      if failed { return; }
      match signal {
        case Candidate(candidate) =>
          if !remoteDescriptionReady {
            pendingCandidates := pendingCandidates + [candidate];
          } else {
            applied := applied + [candidate];
          }
        case Negotiate(Offer(d)) =>
          var offerCollision := connection != Stable;
          if offerCollision && !polite { return; }
          if offerCollision {
            localRenegotiationPending := true;
            connection := Stable;
          }
          remoteDescriptionReady := true;
          FlushCandidates();
          completed := completed + [d.id];
          var more := [];
          if localRenegotiationPending {
            localRenegotiationPending := false;
            more := SendOffer(sdp);
          }
          sent := [Negotiate(Answer(d.id))] + more;
        case Negotiate(Answer(id)) =>
          if connection == Stable { return; }
          if id != connection.offer.id {
            failed := true;
            return;
          }
          covered := connection.offer.media;
          connection := Stable;
          remoteDescriptionReady := true;
          FlushCandidates();
          completed := completed + [id];
          if localRenegotiationPending {
            localRenegotiationPending := false;
            sent := SendOffer(sdp);
          }
      }
    }
  }
}
