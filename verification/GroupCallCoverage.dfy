/**
 * Which media changes of a group call end covered by an answered offer.  Unlike the direct call, a group
 * call does not repeat an offer by itself: one asked for off the stable state is not made, and one rolled
 * back on glare is not made again.
 */
module GroupCallCoverage {
  import opened Options
  import opened OfferAnswer
  import opened GroupCall
  import opened GroupCallRuns

  // ----- One member's history -----------------------------------------------------------------

  /** What one member does in a step: ask for an offer, after changing its media or not, or take a signal. */
  datatype Act = Nothing | Ask(changes: bool, negotiationID: nat) | Take(signal: Signal)

  function Perform(p: Peer, a: Act): Peer {
    match a
    case Nothing => p
    case Ask(changes, id) => if changes then ChangeMedia(p, id).0 else MakeOffer(p, id).0
    case Take(signal) => ApplySignal(p, signal).0
  }

  /** A member's states, and between each two what it did. */
  datatype History = History(states: seq<Peer>, acts: seq<Act>)

  predicate Fits(p: Peer, a: Act) {
    a.Take? && a.signal.Answer? ==> p.connection.HaveLocalOffer? && p.outstandingNegotiation == Some(a.signal.id)
  }

  predicate IsHistory(h: History) {
    && |h.states| == |h.acts| + 1
    && h.states[0] == NewPeer(h.states[0].offerer)
    && (forall k :: 0 <= k < |h.acts| ==>
         h.states[k + 1] == Perform(h.states[k], h.acts[k]) && Fits(h.states[k], h.acts[k]))
  }

  predicate Changes(h: History, k: nat)
    requires k < |h.acts|
  {
    h.acts[k].Ask? && h.acts[k].changes
  }

  predicate NeverChanged(h: History, n: nat)
    requires n <= |h.acts|
  {
    forall k :: 0 <= k < n ==> !Changes(h, k)
  }

  /** At `k` the member asked for an offer while its connection was stable: the guard of `offer` let it pass. */
  predicate Offered(h: History, k: nat)
    requires IsHistory(h) && k < |h.acts|
  {
    h.acts[k].Ask? && h.states[k].connection == Stable
  }

  /** No media change came after `k`. */
  predicate LastChange(h: History, k: nat, n: nat)
    requires n <= |h.acts|
  {
    forall j :: k < j < n ==> !Changes(h, j)
  }

  /** The offer made at `k` is outstanding in state `j`. */
  predicate Outstanding(h: History, k: nat, j: nat)
    requires IsHistory(h) && j <= |h.acts|
  {
    forall i :: k < i <= j ==> h.states[i].connection != Stable
  }

  predicate Answered(h: History, k: nat, n: nat)
    requires IsHistory(h) && n <= |h.acts|
  {
    exists j :: k < j < n && Outstanding(h, k, j) && h.acts[j].Take? && h.acts[j].signal.Answer?
  }

  /** The other member's offer was taken while the one made at `k` was outstanding. */
  predicate Crossed(h: History, k: nat, n: nat)
    requires IsHistory(h) && n <= |h.acts|
  {
    exists j :: k < j < n && Outstanding(h, k, j) && h.acts[j].Take? && h.acts[j].signal.Offer?
  }

  /** An offer made at or after the last change was answered. */
  predicate CoveredBy(h: History, k: nat, n: nat)
    requires IsHistory(h) && n <= |h.acts|
  {
    k < n && Offered(h, k) && LastChange(h, k, n) && Answered(h, k, n)
  }

  ghost predicate EverCovered(h: History, n: nat)
    requires IsHistory(h) && n <= |h.acts|
  {
    exists k: nat :: CoveredBy(h, k, n)
  }

  /** A pending offer was made at `k` and shows the present media unless they changed since. */
  predicate Pending(h: History, k: nat, n: nat)
    requires IsHistory(h) && n <= |h.acts|
  {
    && k < n && Offered(h, k) && Outstanding(h, k, n)
    && h.states[n].connection.HaveLocalOffer?
    && (h.states[n].connection.offer.media == h.states[n].media <==> LastChange(h, k, n))
  }

  ghost predicate Told(h: History, n: nat)
    requires IsHistory(h) && n <= |h.acts|
  {
    && Consistent(h.states[n])
    && (h.states[n].covered == h.states[n].media <==> NeverChanged(h, n) || EverCovered(h, n))
    && (h.states[n].connection != Stable ==> exists k: nat :: Pending(h, k, n))
  }

  // ----- An answered offer covers -------------------------------------------------------------

  /** Nothing but an answer covers: any other act leaves the covering offers of the past as they were. */
  lemma {:induction false} CoverageKept(h: History, n: nat)
    requires IsHistory(h) && n < |h.acts| && !Changes(h, n) && !(h.acts[n].Take? && h.acts[n].signal.Answer?)
    ensures NeverChanged(h, n + 1) <==> NeverChanged(h, n)
    ensures EverCovered(h, n + 1) <==> EverCovered(h, n)
  {
    if EverCovered(h, n) {
      var k: nat :| CoveredBy(h, k, n);
      CoveredByKept(h, k, n);
      assert CoveredBy(h, k, n + 1);
    }
    if EverCovered(h, n + 1) {
      var k: nat :| CoveredBy(h, k, n + 1);
      CoveredByKept(h, k, n);
      assert CoveredBy(h, k, n);
    }
  }

  lemma CoveredByKept(h: History, k: nat, n: nat)
    requires IsHistory(h) && n < |h.acts| && !Changes(h, n) && !(h.acts[n].Take? && h.acts[n].signal.Answer?)
    ensures CoveredBy(h, k, n + 1) <==> CoveredBy(h, k, n)
  {
    if CoveredBy(h, k, n) {
      var j :| k < j < n && Outstanding(h, k, j) && h.acts[j].Take? && h.acts[j].signal.Answer?;
      assert Answered(h, k, n + 1);
    }
    if CoveredBy(h, k, n + 1) {
      var j :| k < j < n + 1 && Outstanding(h, k, j) && h.acts[j].Take? && h.acts[j].signal.Answer?;
      assert j < n;
    }
  }

  /** A change is not covered at once, whatever was answered before. */
  lemma {:induction false} ChangeUncovers(h: History, n: nat)
    requires IsHistory(h) && n < |h.acts| && Changes(h, n)
    ensures !NeverChanged(h, n + 1) && !EverCovered(h, n + 1)
  {
  }

  /** An answer covers exactly what its offer was made from. */
  lemma {:induction false} AnswerCovers(h: History, k0: nat, n: nat)
    requires IsHistory(h) && n < |h.acts| && Pending(h, k0, n) && h.acts[n].Take? && h.acts[n].signal.Answer?
    ensures LastChange(h, k0, n) <==> NeverChanged(h, n + 1) || EverCovered(h, n + 1)
  {
    if LastChange(h, k0, n) {
      assert Answered(h, k0, n + 1);
      assert CoveredBy(h, k0, n + 1);
    } else {
      var c :| k0 < c < n && Changes(h, c);
    }
  }

  lemma {:induction false} PendingKept(h: History, k: nat, n: nat)
    requires IsHistory(h) && n < |h.acts| && Consistent(h.states[n]) && Pending(h, k, n)
    requires h.states[n + 1].connection == h.states[n].connection
    ensures Pending(h, k, n + 1)
  {
    assert LastChange(h, k, n + 1) <==> LastChange(h, k, n) && !Changes(h, n);
  }

  lemma {:induction false} ToldNext(h: History, n: nat)
    requires IsHistory(h) && n < |h.acts| && Told(h, n)
    ensures Told(h, n + 1)
  {
    var p, a := h.states[n], h.acts[n];
    if p.connection != Stable {
      var k: nat :| Pending(h, k, n);
      if h.states[n + 1].connection != Stable { PendingKept(h, k, n); }
      if a.Take? && a.signal.Answer? { AnswerCovers(h, k, n); }
    } else if a.Ask? {
      assert Pending(h, n, n + 1);
    }
    if Changes(h, n) {
      ChangeUncovers(h, n);
    } else if !(a.Take? && a.signal.Answer?) {
      CoverageKept(h, n);
    }
  }

  lemma {:induction false} ToldAlways(h: History, n: nat)
    requires IsHistory(h) && n <= |h.acts|
    ensures Told(h, n)
  {
    if n > 0 {
      ToldAlways(h, n - 1);
      ToldNext(h, n - 1);
    }
  }

  // ----- An outstanding offer ends in an answer or in glare -----------------------------------

  /** How the offer of `k` ended, for a member that is stable again. */
  lemma {:induction false} OfferEnds(h: History, k: nat, m: nat, n: nat) returns (j: nat)
    requires IsHistory(h) && k < m <= n <= |h.acts| && Outstanding(h, k, m) && h.states[n].connection == Stable
    ensures k < j < n && Outstanding(h, k, j) && h.states[j + 1].connection == Stable
    decreases n - m
  {
    if h.states[m + 1].connection == Stable { j := m; } else { j := OfferEnds(h, k, m + 1, n); }
  }

  /** Only one step ends an offer, so it was answered exactly when no foreign offer rolled it back. */
  lemma {:induction false} AnsweredUnlessCrossed(h: History, k: nat, n: nat)
    requires IsHistory(h) && k < n <= |h.acts| && Offered(h, k) && h.states[n].connection == Stable
    requires forall i :: 0 <= i <= n ==> h.states[i].offerer == h.states[0].offerer
    ensures h.states[0].offerer ==> Answered(h, k, n)
    ensures !h.states[0].offerer ==> (Answered(h, k, n) <==> !Crossed(h, k, n))
  {
    assert h.states[k + 1].connection != Stable;
    var e := OfferEnds(h, k, k + 1, n);
    assert h.states[e].connection != Stable;
    assert h.acts[e].Take?;
    if h.acts[e].signal.Answer? {
      assert Answered(h, k, n);
      if !h.states[0].offerer && Crossed(h, k, n) {
        var j :| k < j < n && Outstanding(h, k, j) && h.acts[j].Take? && h.acts[j].signal.Offer?;
        EndIsUnique(h, k, e, j, n);
      }
    } else {
      assert !h.states[e].offerer;
      assert Crossed(h, k, n);
      if Answered(h, k, n) {
        var j :| k < j < n && Outstanding(h, k, j) && h.acts[j].Take? && h.acts[j].signal.Answer?;
        EndIsUnique(h, k, e, j, n);
      }
    }
  }

  lemma {:induction false} EndIsUnique(h: History, k: nat, e: nat, j: nat, n: nat)
    requires IsHistory(h) && k < e < n <= |h.acts| && k < j < n && Outstanding(h, k, e) && Outstanding(h, k, j)
    requires h.states[e + 1].connection == Stable && h.states[j + 1].connection == Stable
    ensures e == j
  {
  }

  // ----- The histories of two members -----------------------------------------------------------

  function Member(l: Link, yielding: bool): Peer { if yielding then l.other else l.offerer }

  function ActOf(l: Link, s: Step, yielding: bool): Act {
    match s
    case OffererChangesMedia(id) => if yielding then Nothing else Ask(true, id)
    case OtherChangesMedia(id) => if yielding then Ask(true, id) else Nothing
    case OffererOffers(id) => if yielding then Nothing else Ask(false, id)
    case OtherOffers(id) => if yielding then Ask(false, id) else Nothing
    case DeliverToOther => if yielding && l.down != [] then Take(l.down[0]) else Nothing
    case DeliverToOfferer => if !yielding && l.up != [] then Take(l.up[0]) else Nothing
  }

  /** The call after the first `k` steps. */
  function At(start: Link, steps: seq<Step>, k: nat): Link
    requires k <= |steps|
  {
    Run(start, steps[..k])
  }

  function HistoryOf(start: Link, steps: seq<Step>, yielding: bool): History {
    History(seq(|steps| + 1, k requires 0 <= k <= |steps| => Member(At(start, steps, k), yielding)),
            seq(|steps|, k requires 0 <= k < |steps| => ActOf(At(start, steps, k), steps[k], yielding)))
  }

  lemma {:induction false} AtNext(start: Link, steps: seq<Step>, k: nat)
    requires k < |steps|
    ensures At(start, steps, k + 1) == Execute(At(start, steps, k), steps[k])
    decreases k
  {
    if k == 0 {
      assert steps[..1][1..] == [] && steps[..0] == [];
      assert Run(start, steps[..1]) == Run(Execute(start, steps[0]), []);
    } else {
      AtNext(Execute(start, steps[0]), steps[1..], k - 1);
      assert steps[..k + 1][1..] == steps[1..][..k] && steps[..k][1..] == steps[1..][..k - 1];
    }
  }

  predicate Pairing(a: Participant, b: Participant, roster: seq<Participant>) {
    a in roster && b in roster && a.userID != b.userID && Less(a.userID, b.userID)
  }

  lemma AtKeepsInvariant(start: Link, steps: seq<Step>, k: nat)
    requires Invariant(start) && k <= |steps|
    ensures Invariant(At(start, steps, k))
  {
    RunKeepsInvariant(start, steps[..k]);
  }

  lemma {:induction false} ActsAreSteps(l: Link, s: Step, yielding: bool)
    requires Invariant(l)
    ensures Member(Execute(l, s), yielding) == Perform(Member(l, yielding), ActOf(l, s, yielding))
    ensures Fits(Member(l, yielding), ActOf(l, s, yielding))
  {
    WaitingAnswersMatch(l);
  }

  lemma {:induction false} RunsAreHistories(start: Link, steps: seq<Step>, yielding: bool)
    requires Invariant(start) && Member(start, yielding) == NewPeer(!yielding)
    ensures var h := HistoryOf(start, steps, yielding);
            IsHistory(h) && |h.acts| == |steps| && forall k :: 0 <= k <= |steps| ==> h.states[k].offerer == !yielding
  {
    var h := HistoryOf(start, steps, yielding);
    assert steps[..0] == [];
    forall k | 0 <= k <= |steps| ensures h.states[k].offerer == !yielding {
      AtKeepsInvariant(start, steps, k);
    }
    forall k | 0 <= k < |steps|
      ensures h.states[k + 1] == Perform(h.states[k], h.acts[k]) && Fits(h.states[k], h.acts[k])
    {
      AtKeepsInvariant(start, steps, k);
      AtNext(start, steps, k);
      ActsAreSteps(At(start, steps, k), steps[k], yielding);
    }
  }

  // ----- What is covered ------------------------------------------------------------------------

  /** Some offer was made while stable, at or after the last change. */
  ghost predicate OfferedLast(h: History, n: nat)
    requires IsHistory(h) && n <= |h.acts|
  {
    exists k: nat :: k < n && Offered(h, k) && LastChange(h, k, n)
  }

  /** Such an offer was made, and no offer of the other member was taken while it was outstanding. */
  ghost predicate OfferedUncrossed(h: History, n: nat)
    requires IsHistory(h) && n <= |h.acts|
  {
    exists k: nat :: k < n && Offered(h, k) && LastChange(h, k, n) && !Crossed(h, k, n)
  }

  lemma {:induction false} StableIsCovered(h: History, n: nat)
    requires IsHistory(h) && n <= |h.acts| && h.states[n].connection == Stable
    requires forall i :: 0 <= i <= n ==> h.states[i].offerer == h.states[0].offerer
    ensures h.states[n].covered == h.states[n].media <==>
            NeverChanged(h, n) || (if h.states[0].offerer then OfferedLast(h, n) else OfferedUncrossed(h, n))
  {
    ToldAlways(h, n);
    if EverCovered(h, n) {
      var k: nat :| CoveredBy(h, k, n);
      AnsweredUnlessCrossed(h, k, n);
    }
    if OfferedLast(h, n) {
      var k: nat :| k < n && Offered(h, k) && LastChange(h, k, n);
      AnsweredUnlessCrossed(h, k, n);
      if h.states[0].offerer { assert CoveredBy(h, k, n); }
    }
    if OfferedUncrossed(h, n) {
      var k: nat :| k < n && Offered(h, k) && LastChange(h, k, n) && !Crossed(h, k, n);
      AnsweredUnlessCrossed(h, k, n);
      if !h.states[0].offerer { assert CoveredBy(h, k, n); }
    }
  }

  /**
   * Once nothing is in transit, the impolite member's media are covered by an answered offer exactly
   * when an offer was asked for on a stable connection at or after its last change.  The yielding
   * member's are exactly when that holds and no offer of the other member was taken while it waited.
   */
  lemma {:induction false} CoveredUnlessLost(a: Participant, b: Participant, roster: seq<Participant>, steps: seq<Step>)
    requires Pairing(a, b, roster)
    ensures var start := Joined(a, b, roster);
            var l, kept, yielding := Run(start, steps), HistoryOf(start, steps, false), HistoryOf(start, steps, true);
            && IsHistory(kept) && IsHistory(yielding)
            && (l.down == [] && l.up == [] ==>
                  && (l.offerer.covered == l.offerer.media <==>
                       NeverChanged(kept, |steps|) || OfferedLast(kept, |steps|))
                  && (l.other.covered == l.other.media <==>
                       NeverChanged(yielding, |steps|) || OfferedUncrossed(yielding, |steps|)))
  {
    var start := Joined(a, b, roster);
    JoinedInvariant(a, b, roster);
    RunsAreHistories(start, steps, false);
    RunsAreHistories(start, steps, true);
    RunKeepsInvariant(start, steps);
    assert steps[..|steps|] == steps;
    var l := Run(start, steps);
    if l.down == [] && l.up == [] {
      EmptyChannelsAgree(PairOf(l));
      StableIsCovered(HistoryOf(start, steps, false), |steps|);
      StableIsCovered(HistoryOf(start, steps, true), |steps|);
    }
  }

  /** A change the impolite member makes on a stable connection, its last, always ends covered. */
  lemma {:induction false} ImpoliteChangeIsCovered(a: Participant, b: Participant, roster: seq<Participant>,
                                                   steps: seq<Step>, k: nat)
    requires Pairing(a, b, roster) && k < |steps| && steps[k].OffererChangesMedia?
    requires At(Joined(a, b, roster), steps, k).offerer.connection == Stable
    requires forall j :: k < j < |steps| ==> !steps[j].OffererChangesMedia?
    ensures var l := Run(Joined(a, b, roster), steps);
            l.down == [] && l.up == [] ==> l.offerer.covered == l.offerer.media
  {
    CoveredUnlessLost(a, b, roster, steps);
    var h := HistoryOf(Joined(a, b, roster), steps, false);
    assert Offered(h, k) && LastChange(h, k, |steps|);
  }

  /** The yielding member's connection is not stable from the step after `k` up to `j`. */
  predicate Waits(start: Link, steps: seq<Step>, k: nat, j: nat)
    requires j <= |steps|
  {
    forall i :: k < i <= j ==> At(start, steps, i).other.connection != Stable
  }

  /** No offer is on its way to the yielding member, and none is made while its own is outstanding. */
  predicate Undisturbed(start: Link, steps: seq<Step>, k: nat)
    requires k < |steps|
  {
    && Offers(At(start, steps, k).down) == 0
    && (forall j :: k < j < |steps| && Waits(start, steps, k, j) ==> !MakesOffer(At(start, steps, j), steps[j]))
  }

  /** The impolite member makes an offer in this step. */
  predicate MakesOffer(l: Link, s: Step) {
    (s.OffererChangesMedia? || s.OffererOffers?) && l.offerer.connection == Stable
  }

  /** Only an offer made by the impolite member puts one on its way. */
  lemma DownStaysClear(l: Link, s: Step)
    requires Offers(l.down) == 0 && !MakesOffer(l, s)
    ensures Offers(Execute(l, s).down) == 0
  {
    if s.DeliverToOfferer? && l.up != [] {
      OffersConcatenated(l.down, ApplySignal(l.offerer, l.up[0]).1);
    } else {
      assert l.down + [] == l.down;
    }
  }

  lemma {:induction false} NoOfferArrives(start: Link, steps: seq<Step>, k: nat, j: nat)
    requires k < j <= |steps| && Undisturbed(start, steps, k) && !MakesOffer(At(start, steps, k), steps[k])
    requires Waits(start, steps, k, j)
    ensures Offers(At(start, steps, j).down) == 0
  {
    AtNext(start, steps, j - 1);
    if j - 1 > k {
      assert Waits(start, steps, k, j - 1);
      NoOfferArrives(start, steps, k, j - 1);
    }
    DownStaysClear(At(start, steps, j - 1), steps[j - 1]);
  }

  lemma OutstandingWaits(start: Link, steps: seq<Step>, k: nat, j: nat)
    requires k < j <= |steps| && IsHistory(HistoryOf(start, steps, true))
    requires Outstanding(HistoryOf(start, steps, true), k, j)
    ensures Waits(start, steps, k, j)
  {
    var h := HistoryOf(start, steps, true);
    forall i | k < i <= j ensures At(start, steps, i).other.connection != Stable {
      assert h.states[i].connection != Stable;
    }
  }

  lemma NotCrossed(start: Link, steps: seq<Step>, k: nat, h: History)
    requires h == HistoryOf(start, steps, true) && IsHistory(h) && k < |steps|
    requires Undisturbed(start, steps, k) && steps[k].OtherChangesMedia?
    ensures !Crossed(h, k, |steps|)
  {
    if Crossed(h, k, |steps|) {
      var j :| k < j < |steps| && Outstanding(h, k, j) && h.acts[j].Take? && h.acts[j].signal.Offer?;
      OutstandingWaits(start, steps, k, j);
      NoOfferArrives(start, steps, k, j);
    }
  }

  /** The yielding member's last change was made on a stable connection. */
  lemma LastChangeOffered(start: Link, steps: seq<Step>, k: nat, h: History)
    requires h == HistoryOf(start, steps, true) && IsHistory(h) && k < |steps|
    requires steps[k].OtherChangesMedia? && At(start, steps, k).other.connection == Stable
    requires forall j :: k < j < |steps| ==> !steps[j].OtherChangesMedia?
    ensures Offered(h, k) && LastChange(h, k, |steps|)
  {
  }

  /**
   * A change the yielding member makes on a stable connection, its last, ends covered when no offer is on
   * its way to it and the other member makes none until it is answered.
   */
  lemma {:induction false} YieldingChangeIsCovered(a: Participant, b: Participant, roster: seq<Participant>,
                                                   steps: seq<Step>, k: nat)
    requires Pairing(a, b, roster) && k < |steps| && steps[k].OtherChangesMedia?
    requires At(Joined(a, b, roster), steps, k).other.connection == Stable
    requires forall j :: k < j < |steps| ==> !steps[j].OtherChangesMedia?
    requires Undisturbed(Joined(a, b, roster), steps, k)
    ensures var l := Run(Joined(a, b, roster), steps);
            l.down == [] && l.up == [] ==> l.other.covered == l.other.media
  {
    var start := Joined(a, b, roster);
    CoveredUnlessLost(a, b, roster, steps);
    var h := HistoryOf(start, steps, true);
    LastChangeOffered(start, steps, k, h);
    NotCrossed(start, steps, k, h);
    assert OfferedUncrossed(h, |steps|);
  }

  /**
   * That nothing is on its way when a change is offered is not enough: the other member's offer can cross it.
   * The yielding member's change then stays uncovered for good.
   */
  lemma {:induction false} GlareLosesAChange(offerer: Peer, other: Peer)
    requires offerer == NewPeer(true) && other == NewPeer(false)
    ensures var l := Run(Link(offerer, other, [], []),
                         [OtherChangesMedia(2), OffererChangesMedia(1), DeliverToOther, DeliverToOfferer,
                             DeliverToOfferer]);
            l.down == [] && l.up == [] && l.other.covered < l.other.media && l.offerer.covered == l.offerer.media
  {
    var l0 := Link(offerer, other, [], []);
    var l1 := Execute(l0, OtherChangesMedia(2));
    var l2 := Execute(l1, OffererChangesMedia(1));
    var l3 := Execute(l2, DeliverToOther);
    assert l3.up == [Offer(Description(2, 1)), Answer(1)];
    var l4 := Execute(l3, DeliverToOfferer);
    var l5 := Execute(l4, DeliverToOfferer);
    assert l5.down == [] && l5.up == [];
    var steps := [OtherChangesMedia(2), OffererChangesMedia(1), DeliverToOther, DeliverToOfferer, DeliverToOfferer];
    assert Run(l0, steps) == Run(l1, steps[1..]) == Run(l2, steps[2..]) == Run(l3, steps[3..]) ==
           Run(l4, steps[4..]) == l5;
  }
}
