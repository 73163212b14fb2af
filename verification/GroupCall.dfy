/**
 * Offer/answer negotiation between two members of a group call.
 *
 * Here offers carry a negotiation ID that the answer repeats, the member with the smaller identity
 * is the impolite side, and an offer asked for while another is outstanding is simply not made.
 */
module GroupCall {
  import opened Options
  import opened OfferAnswer

  // ----- Who yields ---------------------------------------------------------------------------

  /** Identities are strings of UTF-16 code units, compared as the language compares strings. */
  type Text = seq<nat>

  datatype Participant = Participant(userID: Text, deviceID: Text)

  predicate Less(a: Text, b: Text) {
    if b == [] then false
    else if a == [] then true
    else a[0] < b[0] || (a[0] == b[0] && Less(a[1..], b[1..]))
  }

  lemma {:induction false} LessIsTotal(a: Text, b: Text)
    ensures Less(a, b) || Less(b, a) || a == b
    ensures !(Less(a, b) && Less(b, a))
    ensures !Less(a, a)
    decreases |a| + |b|
  {
    if a != [] && b != [] {
      LessIsTotal(a[1..], b[1..]);
      if a[0] == b[0] && a[1..] == b[1..] {
        assert a == [a[0]] + a[1..] && b == [b[0]] + b[1..];
      }
    }
    if a != [] {
      LessIsIrreflexive(a);
    }
  }

  lemma {:induction false} LessIsIrreflexive(a: Text)
    ensures !Less(a, a)
  {
    if a != [] {
      LessIsIrreflexive(a[1..]);
    }
  }

  lemma {:induction false} LessIsTransitive(a: Text, b: Text, c: Text)
    requires Less(a, b) && Less(b, c)
    ensures Less(a, c)
  {
    if a != [] && a[0] == b[0] == c[0] {
      LessIsTransitive(a[1..], b[1..], c[1..]);
    }
  }

  function ComparePeerIdentity(left: Participant, right: Participant): int {
    if left.userID != right.userID then (if Less(left.userID, right.userID) then -1 else 1)
    else if left.deviceID == right.deviceID then 0
    else if Less(left.deviceID, right.deviceID) then -1 else 1
  }

  /** The comparison is a total order on identities: antisymmetric, zero only on equals, transitive. */
  lemma IdentityOrder(a: Participant, b: Participant, c: Participant)
    ensures ComparePeerIdentity(a, b) == -ComparePeerIdentity(b, a)
    ensures ComparePeerIdentity(a, b) == 0 <==> a == b
    ensures ComparePeerIdentity(a, b) < 0 && ComparePeerIdentity(b, c) < 0 ==> ComparePeerIdentity(a, c) < 0
  {
    LessIsTotal(a.userID, b.userID);
    LessIsTotal(a.deviceID, b.deviceID);
    LessIsTotal(b.userID, c.userID);
    LessIsTotal(b.deviceID, c.deviceID);
    LessIsTotal(a.userID, c.userID);
    if ComparePeerIdentity(a, b) < 0 && ComparePeerIdentity(b, c) < 0 {
      if a.userID != b.userID && b.userID != c.userID {
        LessIsTransitive(a.userID, b.userID, c.userID);
      } else if a.userID == b.userID == c.userID {
        LessIsTransitive(a.deviceID, b.deviceID, c.deviceID);
        LessIsTotal(a.deviceID, c.deviceID);
      }
    }
  }

  /** The first roster entry of user `id`, when there is one. */
  function Find(roster: seq<Participant>, id: Text): Option<Participant> {
    if roster == [] then None
    else if roster[0].userID == id then Some(roster[0])
    else Find(roster[1..], id)
  }

  lemma {:induction false} FindIsMember(roster: seq<Participant>, id: Text)
    ensures Find(roster, id).Some? <==> exists p <- roster :: p.userID == id
    ensures Find(roster, id).Some? ==> Find(roster, id).value in roster && Find(roster, id).value.userID == id
  {
    if roster != [] && roster[0].userID != id {
      FindIsMember(roster[1..], id);
      if p :| p in roster && p.userID == id {
        assert p in roster[1..];
      }
    }
  }

  /** Whether user `selfID` keeps its own offer when `other` offers at the same time. */
  predicate IsOfferer(selfID: Text, other: Participant, roster: seq<Participant>) {
    selfID != other.userID && Find(roster, selfID).Some? && ComparePeerIdentity(Find(roster, selfID).value, other) < 0
  }

  /**
   * Two users with the same roster disagree about who keeps its offer exactly when the smaller of
   * the two is on it; otherwise neither does.  They never both keep it.
   */
  lemma ExactlyOneOfferer(a: Participant, b: Participant, roster: seq<Participant>)
    requires a.userID != b.userID
    ensures !(IsOfferer(a.userID, b, roster) && IsOfferer(b.userID, a, roster))
    ensures (IsOfferer(a.userID, b, roster) || IsOfferer(b.userID, a, roster)) <==>
            exists p <- roster :: p.userID == if Less(a.userID, b.userID) then a.userID else b.userID
  {
    LessIsTotal(a.userID, b.userID);
    FindIsMember(roster, a.userID);
    FindIsMember(roster, b.userID);
  }

  // ----- One member's peer operations ---------------------------------------------------------

  datatype Connection = Stable | HaveLocalOffer(offer: Description)

  /** `media` counts the changes of what is sent; `covered` is the count the last answered offer was made from. */
  datatype Peer = Peer(
    offerer: bool,
    connection: Connection,
    outstandingNegotiation: Option<nat>,
    completed: seq<nat>,
    media: nat,
    covered: nat)

  function NewPeer(offerer: bool): Peer {
    Peer(offerer, Stable, None, [], 0, 0)
  }

  function MakeOffer(p: Peer, negotiationID: nat): (Peer, seq<Signal>) {
    if p.connection != Stable then (p, [])
    else
      var d := Description(negotiationID, p.media);
      (p.(connection := HaveLocalOffer(d), outstandingNegotiation := Some(negotiationID)), [Offer(d)])
  }

  /** A queued media operation: change the senders, then offer; off the stable state no offer is made. */
  function ChangeMedia(p: Peer, negotiationID: nat): (Peer, seq<Signal>) {
    MakeOffer(p.(media := p.media + 1), negotiationID)
  }

  function ApplyOffer(p: Peer, d: Description): (Peer, seq<Signal>) {
    if p.connection != Stable && p.offerer then (p, [])
    else
      (p.(connection := Stable, outstandingNegotiation := None, completed := p.completed + [d.id]), [Answer(d.id)])
  }

  function ApplyAnswer(p: Peer, id: nat): Peer {
    if p.connection == Stable || p.outstandingNegotiation != Some(id) then p
    else
      p.(connection := Stable, outstandingNegotiation := None, completed := p.completed + [id],
         covered := p.connection.offer.media)
  }

  function ApplySignal(p: Peer, s: Signal): (Peer, seq<Signal>) {
    match s
    case Offer(d) => ApplyOffer(p, d)
    case Answer(id) => (ApplyAnswer(p, id), [])
  }

  class PeerConnectionState {
    const offerer: bool
    var connection: Connection
    var outstandingNegotiation: Option<nat>
    var completed: seq<nat>
    var media: nat
    var covered: nat

    constructor (offerer: bool)
      ensures View() == NewPeer(offerer)
    {
      this.offerer := offerer;
      connection, outstandingNegotiation := Stable, None;
      completed, media, covered := [], 0, 0;
    }

    ghost function View(): Peer
      reads this
    {
      Peer(offerer, connection, outstandingNegotiation, completed, media, covered)
    }

    method SendOffer(negotiationID: nat) returns (sent: seq<Signal>)
      modifies this
      ensures (View(), sent) == MakeOffer(old(View()), negotiationID)
    {
      sent := [];
      if connection != Stable { return; }
      var offer := Description(negotiationID, media);
      connection := HaveLocalOffer(offer);
      outstandingNegotiation := Some(negotiationID);
      sent := [Offer(offer)];
    }

    method Present(negotiationID: nat) returns (sent: seq<Signal>)
      modifies this
      ensures (View(), sent) == ChangeMedia(old(View()), negotiationID)
    {
      media := media + 1;
      sent := SendOffer(negotiationID);
    }

    method ReceiveSignal(signal: Signal) returns (sent: seq<Signal>)
      modifies this
      ensures (View(), sent) == ApplySignal(old(View()), signal)
    {
      sent := [];
      match signal {
        case Offer(d) =>
          if connection != Stable && offerer { return; }
          outstandingNegotiation := None;
          connection := Stable;
          completed := completed + [d.id];
          sent := [Answer(d.id)];
        case Answer(id) =>
          if connection == Stable || outstandingNegotiation != Some(id) { return; }
          covered := connection.offer.media;
          connection := Stable;
          outstandingNegotiation := None;
          completed := completed + [id];
      }
    }
  }
}
