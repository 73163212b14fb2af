/**
 * The traffic of one offer/answer pair over two FIFO channels, whatever client runs it.
 *
 * One side is impolite: while its own offer is outstanding it ignores the other side's offers.
 * The other side is polite: it rolls its own offer back and answers.  `down` carries signals from
 * the impolite to the polite side, `up` the other way.
 *
 * `InFlight` lists every way two such sides and their channels can look between operations.  The
 * lemmas below it say that each thing a side may do leads from one of these pictures to another
 * and that an arriving answer is always the answer to the offer outstanding there.
 */
module OfferAnswer {
  import opened Options

  /** An offer's session description: its identity and the media version it was made from. */
  datatype Description = Description(id: nat, media: nat)

  datatype Signal = Offer(description: Description) | Answer(id: nat)

  /** What one side knows: its unanswered offer and the negotiations it has completed, in order. */
  datatype Side = Side(outstanding: Option<Description>, completed: seq<nat>)

  datatype Pair = Pair(impolite: Side, polite: Side, down: seq<Signal>, up: seq<Signal>)

  /** Nothing, or the polite side's current offer, sent after its last answer. */
  function Follower(polite: Side): seq<Signal> {
    if polite.outstanding.Some? then [Offer(polite.outstanding.value)] else []
  }

  /** No offer of the impolite side is outstanding. */
  predicate Calm(p: Pair)
    requires p.impolite.outstanding.None?
  {
    match p.polite.outstanding
    case None => p.down == [] && p.up == [] && p.impolite.completed == p.polite.completed
    case Some(q) =>
      || (p.down == [] && p.up == [Offer(q)] && p.impolite.completed == p.polite.completed)
      || (p.down == [Answer(q.id)] && p.up == [] && p.impolite.completed == p.polite.completed + [q.id])
  }

  /** The impolite side's offer has not reached the polite side yet. */
  predicate Travelling(p: Pair)
    requires p.impolite.outstanding.Some?
  {
    var o := p.impolite.outstanding.value;
    match p.polite.outstanding
    case None => p.down == [Offer(o)] && p.up == [] && p.impolite.completed == p.polite.completed
    case Some(q) =>
      // `q` is ignored when it arrives, was ignored already, or was answered just before `o` was sent.
      || (p.down == [Offer(o)] && p.up == [Offer(q)] && p.impolite.completed == p.polite.completed)
      || (p.down == [Offer(o)] && p.up == [] && p.impolite.completed == p.polite.completed)
      || (p.down == [Answer(q.id), Offer(o)] && p.up == [] && p.impolite.completed == p.polite.completed + [q.id])
  }

  /** The polite side answered; an offer it rolled back may still be ahead of the answer. */
  predicate Answered(p: Pair)
    requires p.impolite.outstanding.Some?
  {
    var o := p.impolite.outstanding.value;
    && p.down == []
    && p.polite.completed == p.impolite.completed + [o.id]
    && (|| p.up == [Answer(o.id)] + Follower(p.polite)
        || (|p.up| > 0 && p.up[0].Offer? && p.up[1..] == [Answer(o.id)] + Follower(p.polite)))
  }

  predicate InFlight(p: Pair) {
    if p.impolite.outstanding.None? then Calm(p) else Travelling(p) || Answered(p)
  }

  /** With nothing in transit nothing is outstanding, and the two histories are the same. */
  lemma EmptyChannelsAgree(p: Pair)
    requires InFlight(p) && p.down == [] && p.up == []
    ensures p.impolite.outstanding.None? && p.polite.outstanding.None?
    ensures p.impolite.completed == p.polite.completed
  {
  }

  lemma ImpoliteOffers(p: Pair, d: Description)
    requires InFlight(p) && p.impolite.outstanding.None?
    ensures InFlight(p.(impolite := p.impolite.(outstanding := Some(d)), down := p.down + [Offer(d)]))
  {
  }

  lemma PoliteOffers(p: Pair, d: Description)
    requires InFlight(p) && p.polite.outstanding.None?
    ensures InFlight(p.(polite := p.polite.(outstanding := Some(d)), up := p.up + [Offer(d)]))
  {
    var n := p.(polite := p.polite.(outstanding := Some(d)), up := p.up + [Offer(d)]);
    if p.impolite.outstanding.Some? && !Travelling(p) {
      var o := p.impolite.outstanding.value;
      assert Follower(p.polite) == [] && Follower(n.polite) == [Offer(d)];
      if p.up == [Answer(o.id)] {
        assert n.up == [Answer(o.id)] + Follower(n.polite);
      } else {
        assert p.up[1..] == [Answer(o.id)];
        assert n.up[1..] == p.up[1..] + [Offer(d)];
      }
    }
  }

  /** The polite side answers every offer, rolling its own back when it has one. */
  lemma PoliteAnswers(p: Pair, d: Description)
    requires InFlight(p) && |p.down| > 0 && p.down[0] == Offer(d)
    ensures p.impolite.outstanding == Some(d)
    ensures InFlight(p.(polite := Side(None, p.polite.completed + [d.id]), down := p.down[1..],
            up := p.up + [Answer(d.id)]))
  {
    var n := p.(polite := Side(None, p.polite.completed + [d.id]), down := p.down[1..], up := p.up + [Answer(d.id)]);
    assert Travelling(p) && p.down == [Offer(d)];
    assert Follower(n.polite) == [];
    if p.up == [] {
      assert n.up == [Answer(d.id)] + [];
    } else {
      assert n.up[1..] == [Answer(d.id)];
    }
  }

  lemma PoliteSettles(p: Pair, id: nat)
    requires InFlight(p) && |p.down| > 0 && p.down[0] == Answer(id)
    ensures p.polite.outstanding.Some? && p.polite.outstanding.value.id == id
    ensures InFlight(p.(polite := Side(None, p.polite.completed + [id]), down := p.down[1..]))
  {
  }

  lemma ImpoliteIgnores(p: Pair)
    requires InFlight(p) && p.impolite.outstanding.Some? && |p.up| > 0 && p.up[0].Offer?
    ensures InFlight(p.(up := p.up[1..]))
  {
  }

  lemma ImpoliteAnswers(p: Pair, d: Description)
    requires InFlight(p) && p.impolite.outstanding.None? && |p.up| > 0 && p.up[0] == Offer(d)
    ensures p.polite.outstanding == Some(d)
    ensures InFlight(p.(impolite := Side(None, p.impolite.completed + [d.id]), up := p.up[1..],
            down := p.down + [Answer(d.id)]))
  {
  }

  lemma ImpoliteSettles(p: Pair, id: nat)
    requires InFlight(p) && |p.up| > 0 && p.up[0] == Answer(id)
    ensures p.impolite.outstanding.Some? && p.impolite.outstanding.value.id == id
    ensures InFlight(p.(impolite := Side(None, p.impolite.completed + [id]), up := p.up[1..]))
  {
    var n := p.(impolite := Side(None, p.impolite.completed + [id]), up := p.up[1..]);
    assert p.impolite.outstanding.Some? && Answered(p);
    assert n.up == Follower(p.polite);
  }
}
