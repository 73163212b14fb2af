/** Generations of ICE credentials and the candidates that name them. */
module IceTypes {
  import opened Options

  datatype Generation = Generation(mid: string, index: int, ufrag: string, password: string)

  datatype Identity = Identity(mid: Option<string>, index: Option<int>, ufrag: string)

  const ICE_QUEUE_LIMIT := 64

  predicate Matches(identity: Identity, g: Generation) {
    && g.ufrag == identity.ufrag
    && (identity.mid.None? || g.mid == identity.mid.value)
    && (identity.index.None? || g.index == identity.index.value)
  }

  predicate MatchesAny(identity: Identity, generations: seq<Generation>) {
    exists g <- generations :: Matches(identity, g)
  }

  function Passwords(identity: Identity, generations: seq<Generation>): set<string> {
    if generations == [] then {}
    else
      var g := generations[|generations| - 1];
      Passwords(identity, generations[..|generations| - 1]) + (if Matches(identity, g) then {g.password} else {})
  }

  /** Every generation that matches has the same password. */
  predicate OnePassword(identity: Identity, generations: seq<Generation>) {
    |Passwords(identity, generations)| <= 1
  }

  predicate UfragIn(ufrag: string, generations: seq<Generation>) {
    exists g <- generations :: g.ufrag == ufrag
  }

  datatype Fate = Wanted | Stale | Waiting | Trouble

  /** What the generations known so far say about a candidate. */
  function FateOf(identity: Identity, installed: seq<Generation>, retired: seq<Generation>): Fate {
    if !OnePassword(identity, installed + retired) then Trouble
    else if MatchesAny(identity, installed) then Wanted
    else if MatchesAny(identity, retired) then Stale
    else if UfragIn(identity.ufrag, installed + retired) then Trouble
    else Waiting
  }
}
