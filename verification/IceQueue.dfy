/** The candidates one group-call peer holds back until a description installs their generation. */
module IceQueue {
  import opened Options
  import opened IceTypes

  /** A queued candidate; `id` stands for the object and its timer, one per received signal. */
  datatype Pending = Pending(id: nat, identity: Identity)

  /** One `addIceCandidate`, with the generations known at the time. */
  datatype Application = Application(pending: Pending, installed: seq<Generation>, retired: seq<Generation>)

  datatype Ice = Ice(
    current: seq<Generation>,
    pending: seq<Generation>,
    retired: seq<Generation>,
    queue: seq<Pending>,
    operations: nat,
    closed: bool,
    applied: seq<Application>,
    dropped: seq<Pending>,
    expired: seq<Pending>)
  {
    function Installed(): seq<Generation> { current + pending }
    function Known(): seq<Generation> { Installed() + retired }
  }

  /** Every candidate's fate, by what is known now. */
  function Fates(s: Ice): Pending -> Fate { (p: Pending) => FateOf(p.identity, s.Installed(), s.retired) }

  const NEW_PEER := Ice([], [], [], [], 0, false, [], [], [])

  function Fail(s: Ice): Ice { s.(closed := true) }

  function Apply(s: Ice, p: Pending): Ice { s.(applied := s.applied + [Application(p, s.Installed(), s.retired)]) }

  function Drop(s: Ice, p: Pending): Ice { s.(dropped := s.dropped + [p]) }

  // ----- Retiring -------------------------------------------------------------------------------

  function WithRetired(retired: seq<Generation>, generations: seq<Generation>): seq<Generation>
    decreases |generations|
  {
    if generations == [] then retired
    else WithRetired(if generations[0] in retired then retired else retired + [generations[0]], generations[1..])
  }

  function Newest(retired: seq<Generation>): seq<Generation> {
    if |retired| > ICE_QUEUE_LIMIT then retired[|retired| - ICE_QUEUE_LIMIT..] else retired
  }

  function Retire(s: Ice, generations: seq<Generation>): Ice {
    s.(retired := Newest(WithRetired(s.retired, generations)))
  }

  // ----- One candidate --------------------------------------------------------------------------

  function Accept(s: Ice, p: Pending): Ice { AcceptAs(s, p, Fates(s)(p)) }

  function AcceptAs(s: Ice, p: Pending, fate: Fate): Ice {
    match fate
    case Trouble => Fail(s)
    case Wanted => Apply(s, p)
    case Stale => Drop(s, p)
    case Waiting => if |s.queue| >= ICE_QUEUE_LIMIT then Fail(s) else s.(queue := s.queue + [p])
  }

  function IndexOf(queue: seq<Pending>, p: Pending): (i: nat)
    ensures i <= |queue| && (i < |queue| ==> queue[i] == p) && (forall j :: 0 <= j < i ==> queue[j] != p)
  {
    if queue == [] || queue[0] == p then 0 else 1 + IndexOf(queue[1..], p)
  }

  function Without(queue: seq<Pending>, p: Pending): seq<Pending> {
    var at := IndexOf(queue, p);
    if at < |queue| then queue[..at] + queue[at + 1..] else queue
  }

  function Dequeue(s: Ice, p: Pending): Ice { s.(queue := Without(s.queue, p)) }

  /** Looks again at a queued candidate. */
  function Settle(s: Ice, p: Pending, fate: Fate): Ice {
    match fate
    case Trouble => Fail(s)
    case Wanted => Apply(Dequeue(s, p), p)
    case Stale => Drop(Dequeue(s, p), p)
    case Waiting => s
  }

  function Flush(s: Ice, todo: seq<Pending>, fates: Pending -> Fate): Ice
    decreases |todo|
  {
    if s.closed || todo == [] then s else Flush(Settle(s, todo[0], fates(todo[0])), todo[1..], fates)
  }

  function FlushAll(s: Ice): Ice { Flush(s, s.queue, Fates(s)) }

  // ----- Descriptions ---------------------------------------------------------------------------

  /** An offer that is answered: its generations are pending while the queue is flushed, then current. */
  function AnswerOffer(s: Ice, generations: seq<Generation>): Ice {
    var t := FlushAll(s.(pending := generations));
    if t.closed then t else Retire(t, t.current).(current := t.pending, pending := [])
  }

  /** An offer the impolite side ignores: what it names will never be installed. */
  function IgnoreOffer(s: Ice, generations: seq<Generation>): Ice { FlushAll(Retire(s, generations)) }

  function AcceptAnswer(s: Ice, generations: seq<Generation>): Ice {
    FlushAll(Retire(s, s.current).(current := generations, pending := []))
  }

  /** A candidate's timer: a peer that is neither connected nor settled on a description is given up. */
  function Expire(s: Ice, p: Pending, connected: bool, settled: bool): Ice {
    if p !in s.queue then s
    else
      var t := Dequeue(s, p).(expired := s.expired + [p]);
      if !connected && (s.current == [] || !settled) then Fail(t) else t
  }

  function Enqueue(s: Ice): Ice {
    if |s.queue| + s.operations >= ICE_QUEUE_LIMIT then Fail(s) else s.(operations := s.operations + 1)
  }

  // ----- The peer -------------------------------------------------------------------------------

  class PeerIce {
    var currentIce: seq<Generation>
    var pendingIce: seq<Generation>
    var retiredIce: seq<Generation>
    var candidates: seq<Pending>
    var signalOperations: nat
    var closed: bool
    var applied: seq<Application>
    var dropped: seq<Pending>
    var expired: seq<Pending>

    constructor ()
      ensures View() == NEW_PEER
    {
      currentIce, pendingIce, retiredIce, candidates, signalOperations, closed := [], [], [], [], 0, false;
      applied, dropped, expired := [], [], [];
    }

    function View(): Ice
      reads this
    {
      Ice(currentIce, pendingIce, retiredIce, candidates, signalOperations, closed, applied, dropped, expired)
    }

    method FailIce()
      modifies this`closed
      ensures View() == Fail(old(View()))
    {
      closed := true;
    }

    method AddIceCandidate(p: Pending)
      modifies this`applied
      ensures View() == Apply(old(View()), p)
    {
      applied := applied + [Application(p, currentIce + pendingIce, retiredIce)];
    }

    method RetireIce(generations: seq<Generation>)
      modifies this`retiredIce
      ensures View() == Retire(old(View()), generations)
    {
      var i := 0;
      while i < |generations|
        invariant 0 <= i <= |generations|
        invariant WithRetired(retiredIce, generations[i..]) == WithRetired(old(retiredIce), generations)
      {
        var generation := generations[i];
        assert generations[i..][1..] == generations[i + 1..];
        if generation !in retiredIce { retiredIce := retiredIce + [generation]; }
        i := i + 1;
      }
      if |retiredIce| > ICE_QUEUE_LIMIT { retiredIce := retiredIce[|retiredIce| - ICE_QUEUE_LIMIT..]; }
    }

    method AcceptCandidate(p: Pending)
      modifies this
      ensures View() == Accept(old(View()), p)
    {
      var installed := currentIce + pendingIce;
      if !OnePassword(p.identity, installed + retiredIce) { FailIce(); return; }
      if MatchesAny(p.identity, installed) { AddIceCandidate(p); return; }
      if MatchesAny(p.identity, retiredIce) {
        dropped := dropped + [p];
        return;
      }
      if UfragIn(p.identity.ufrag, installed + retiredIce) { FailIce(); return; }
      if |candidates| >= ICE_QUEUE_LIMIT { FailIce(); return; }
      candidates := candidates + [p];
    }

    method RemoveCandidate(p: Pending)
      modifies this`candidates
      ensures View() == Dequeue(old(View()), p)
    {
      var at := IndexOf(candidates, p);
      if at < |candidates| { candidates := candidates[..at] + candidates[at + 1..]; }
    }

    method SettleCandidate(p: Pending)
      modifies this
      ensures View() == Settle(old(View()), p, Fates(old(View()))(p))
    {
      var installed := currentIce + pendingIce;
      if !OnePassword(p.identity, installed + retiredIce) { FailIce(); return; }
      if !MatchesAny(p.identity, installed) && !MatchesAny(p.identity, retiredIce) {
        if UfragIn(p.identity.ufrag, installed + retiredIce) { FailIce(); }
        return;
      }
      RemoveCandidate(p);
      if MatchesAny(p.identity, installed) {
        AddIceCandidate(p);
      } else {
        dropped := dropped + [p];
      }
    }

    /** Walks a copy of the queue and takes from the queue what can be settled. */
    method FlushCandidates()
      modifies this
      ensures View() == FlushAll(old(View()))
    {
      var copy := candidates;
      ghost var fates := Fates(View());
      var i := 0;
      while i < |copy| && !closed
        invariant 0 <= i <= |copy|
        invariant currentIce == old(currentIce) && pendingIce == old(pendingIce) && retiredIce == old(retiredIce)
        invariant Flush(View(), copy[i..], fates) == FlushAll(old(View()))
      {
        assert copy[i..][1..] == copy[i + 1..];
        SettleCandidate(copy[i]);
        i := i + 1;
      }
    }

    method ReceiveOffer(generations: seq<Generation>)
      modifies this
      ensures View() == AnswerOffer(old(View()), generations)
    {
      pendingIce := generations;
      FlushCandidates();
      if closed { return; }
      RetireIce(currentIce);
      currentIce := pendingIce;
      pendingIce := [];
    }

    method ReceiveIgnoredOffer(generations: seq<Generation>)
      modifies this
      ensures View() == IgnoreOffer(old(View()), generations)
    {
      RetireIce(generations);
      FlushCandidates();
    }

    method ReceiveAnswer(generations: seq<Generation>)
      modifies this
      ensures View() == AcceptAnswer(old(View()), generations)
    {
      RetireIce(currentIce);
      currentIce := generations;
      pendingIce := [];
      FlushCandidates();
    }

    method CandidateTimer(p: Pending, connected: bool, settled: bool)
      modifies this
      ensures View() == Expire(old(View()), p, connected, settled)
    {
      if p !in candidates { return; }
      RemoveCandidate(p);
      expired := expired + [p];
      if !connected && (currentIce == [] || !settled) { FailIce(); }
    }

    /** A new signal takes a place beside the queued candidates until its operation is done. */
    method QueueSignal()
      modifies this
      ensures View() == Enqueue(old(View()))
    {
      if |candidates| + signalOperations >= ICE_QUEUE_LIMIT { FailIce(); return; }
      signalOperations := signalOperations + 1;
    }
  }
}
