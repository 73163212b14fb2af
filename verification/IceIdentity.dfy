/**
 * Which generation of ICE credentials a candidate names.  The regular expressions and the counting of
 * code points are given; everything decided from them is here.
 */
module IceIdentity {
  import opened Options
  import opened IceTypes

  /** `Other` is a value of another type than the field's, or a number that is not an integer. */
  datatype Field<T> = Missing | Null | Other | Value(value: T)

  datatype Candidate = Candidate(
    line: Field<string>,
    sdpMid: Field<string>,
    sdpMLineIndex: Field<int>,
    usernameFragment: Field<string>,
    otherKeys: bool)

  datatype Grammar = Grammar(
    isLine: string -> bool,
    embeddedUfrags: string -> seq<string>,
    points: string -> nat,
    hasSpace: string -> bool)

  function Defined<T>(f: Field<T>): Option<T> { if f.Value? then Some(f.value) else None }

  predicate Nullish<T>(f: Field<T>) { f.Missing? || f.Null? }

  predicate AcceptableLine(g: Grammar, line: string) {
    g.points(line) <= 4096 && (line == "" || g.isLine(line)) && |g.embeddedUfrags(line)| <= 1
  }

  predicate AcceptableUsername(g: Grammar, username: Field<string>) {
    Nullish(username) || (username.Value? && username.value != "" && g.points(username.value) <= 256 &&
        !g.hasSpace(username.value))
  }

  predicate AcceptableMedia(g: Grammar, mid: Field<string>, index: Field<int>) {
    && !(Nullish(mid) && Nullish(index))
    && (Nullish(mid) || (mid.Value? && mid.value != "" && g.points(mid.value) <= 256))
    && (Nullish(index) || (index.Value? && 0 <= index.value <= 65535))
  }

  /** The one fragment in the line, if it is there and not empty. */
  function Embedded(g: Grammar, line: string): Option<string> {
    var found := g.embeddedUfrags(line);
    if found != [] && found[0] != "" then Some(found[0]) else None
  }

  function IceCandidateIdentity(g: Grammar, c: Candidate): Option<(Candidate, Identity)> {
    if c.otherKeys || !c.line.Value? || !AcceptableLine(g, c.line.value) then None
    else
      var embedded := Embedded(g, c.line.value);
      if embedded.Some? && g.points(embedded.value) > 256 then None
      else if !AcceptableUsername(g, c.usernameFragment) then None
      else if embedded.Some? && c.usernameFragment.Value? && embedded.value != c.usernameFragment.value then None
      else
        var ufrag := if c.usernameFragment.Value? then Some(c.usernameFragment.value) else embedded;
        if ufrag.None? || !AcceptableMedia(g, c.sdpMid, c.sdpMLineIndex) then None
        else
          var mapped := Candidate(Value(c.line.value), c.sdpMid, c.sdpMLineIndex, c.usernameFragment, false);
          Some((mapped, Identity(Defined(c.sdpMid), Defined(c.sdpMLineIndex), ufrag.value)))
  }

  // ----- Outgoing candidates --------------------------------------------------------------------

  /** What the browser reports, directly and through `toJSON`; None is null or absent. */
  datatype Report = Report(
    line: string,
    sdpMid: Option<string>,
    sdpMLineIndex: Option<int>,
    usernameFragment: Option<string>,
    jsonLine: Option<string>,
    jsonMid: Option<string>,
    jsonIndex: Option<int>,
    jsonUsername: Option<string>)

  datatype Outgoing = Send(candidate: Candidate) | StaleGeneration | Ambiguous

  predicate Disagree<T(==)>(a: Option<T>, b: Option<T>) { a.Some? && b.Some? && a.value != b.value }

  function AsList<T>(o: Option<T>): seq<T> { if o.Some? then [o.value] else [] }

  function MediaMid(r: Report): Option<string> { Or(r.jsonMid, r.sdpMid) }

  function MediaIndex(r: Report): Option<int> { Or(r.jsonIndex, r.sdpMLineIndex) }

  /** Every fragment the report names. */
  function NamedUfrags(g: Grammar, r: Report): seq<string> {
    var found := g.embeddedUfrags(r.line);
    AsList(r.jsonUsername) + AsList(r.usernameFragment) + (if found == [] then [] else [found[0]])
  }

  predicate OfMedia(r: Report, x: Generation) {
    (MediaMid(r).None? || x.mid == MediaMid(r).value) && (MediaIndex(r).None? || x.index == MediaIndex(r).value)
  }

  function Media(r: Report, items: seq<Generation>): (kept: seq<Generation>)
    ensures forall x :: x in kept <==> x in items && OfMedia(r, x)
  {
    if items == [] then []
    else
      var rest := Media(r, items[1..]);
      assert items == [items[0]] + items[1..];
      if OfMedia(r, items[0]) then [items[0]] + rest else rest
  }

  function WithUfrag(ufrag: string, items: seq<Generation>): (kept: seq<Generation>)
    ensures forall x :: x in kept <==> x in items && x.ufrag == ufrag
  {
    if items == [] then []
    else
      var rest := WithUfrag(ufrag, items[1..]);
      assert items == [items[0]] + items[1..];
      if items[0].ufrag == ufrag then [items[0]] + rest else rest
  }

  function Key(x: Generation): string { x.ufrag + ['\0'] + x.password }

  function ToField<T>(o: Option<T>): Field<T> { if o.Some? then Value(o.value) else Null }

  function Parsed(g: Grammar, r: Report, ufrag: string): Option<(Candidate, Identity)> {
    IceCandidateIdentity(g, Candidate(Value(r.line), ToField(MediaMid(r)), ToField(MediaIndex(r)), Value(ufrag), false))
  }

  function OutgoingIceCandidate(g: Grammar, r: Report, installed: seq<Generation>, retired: seq<Generation>): Outgoing {
    if Disagree(r.jsonLine, Some(r.line)) || Disagree(r.jsonMid, r.sdpMid) || Disagree(r.jsonIndex, r.sdpMLineIndex)
      then Ambiguous
    else
      var ufrags := NamedUfrags(g, r);
      if (exists u <- ufrags, v <- ufrags :: u != v) || "" in ufrags then Ambiguous
      else if MediaMid(r).None? && MediaIndex(r).None? then Ambiguous
      else
        var local, previous := Media(r, installed), Media(r, retired);
        var ufrag := Chosen(ufrags, local);
        if ufrag == "" then Ambiguous
        else
          var parsed := Parsed(g, r, ufrag);
          if parsed.None? then Ambiguous
          else if !MatchesAny(parsed.value.1, local) then
            if MatchesAny(parsed.value.1, previous) then StaleGeneration else Ambiguous
          else if !OneKey(Possible(ufrags, ufrag, local + previous)) then Ambiguous
          else Send(parsed.value.0)
  }

  /** The fragment the report names, or else that of the first installed generation of its media. */
  function Chosen(ufrags: seq<string>, local: seq<Generation>): string {
    if ufrags != [] then ufrags[0] else if local != [] then local[0].ufrag else ""
  }

  function Possible(ufrags: seq<string>, ufrag: string, items: seq<Generation>): seq<Generation> {
    if ufrags != [] then WithUfrag(ufrag, items) else items
  }

  predicate OneKey(items: seq<Generation>) {
    items != [] && forall x <- items, y <- items :: Key(x) == Key(y)
  }

  /** A generation the reported candidate could belong to: of its media, and of its fragment if it names one. */
  predicate CouldBelong(g: Grammar, r: Report, x: Generation) {
    OfMedia(r, x) && forall u <- NamedUfrags(g, r) :: x.ufrag == u
  }

  /** The report names a fragment, or no fragment of its media holds the character that separates a key's parts. */
  predicate Certain(g: Grammar, r: Report, generations: seq<Generation>) {
    NamedUfrags(g, r) != [] || forall x <- generations :: OfMedia(r, x) ==> '\0' !in x.ufrag
  }

  /** Reading a sent candidate again gives the same candidate and the same identity. */
  lemma ReadingIsStable(g: Grammar, c: Candidate)
    requires IceCandidateIdentity(g, c).Some?
    ensures var read := IceCandidateIdentity(g, c).value;
            IceCandidateIdentity(g, read.0) == Some(read) && read.0 == c
  {
  }

  lemma KeysAreInjective(x: Generation, y: Generation)
    requires '\0' !in x.ufrag && '\0' !in y.ufrag && Key(x) == Key(y)
    ensures x.ufrag == y.ufrag && x.password == y.password
  {
    FirstNul(x.ufrag, x.password);
    FirstNul(y.ufrag, y.password);
    assert x.ufrag == Key(x)[..|x.ufrag|] && y.ufrag == Key(y)[..|y.ufrag|];
    SamePassword(x, y);
  }

  /** Within one fragment a key determines the password, whatever characters there are. */
  lemma SamePassword(x: Generation, y: Generation)
    requires x.ufrag == y.ufrag && Key(x) == Key(y)
    ensures x.password == y.password
  {
    var n := |x.ufrag| + 1;
    assert x.password == Key(x)[n..] && y.password == Key(y)[n..];
  }

  function NulAt(s: string): nat { if s == [] || s[0] == '\0' then 0 else 1 + NulAt(s[1..]) }

  lemma {:induction false} FirstNul(a: string, b: string)
    requires '\0' !in a
    ensures NulAt(a + ['\0'] + b) == |a|
  {
    if a != [] {
      FirstNul(a[1..], b);
      assert (a + ['\0'] + b)[1..] == a[1..] + ['\0'] + b;
    }
  }

  /** Among the possible generations there is only one pair of fragment and password. */
  lemma OnePair(g: Grammar, r: Report, installed: seq<Generation>, retired: seq<Generation>, x: Generation,
                y: Generation)
    requires OutgoingIceCandidate(g, r, installed, retired).Send?
    requires Certain(g, r, installed + retired)
    requires x in installed + retired && CouldBelong(g, r, x)
    requires y in installed + retired && CouldBelong(g, r, y)
    ensures x.ufrag == y.ufrag && x.password == y.password
  {
    var ufrags, local, previous := NamedUfrags(g, r), Media(r, installed), Media(r, retired);
    var possible := Possible(ufrags, Chosen(ufrags, local), local + previous);
    if ufrags != [] { assert ufrags[0] in ufrags; }
    assert x in possible && y in possible;
    if x.ufrag == y.ufrag { SamePassword(x, y); } else { KeysAreInjective(x, y); }
  }

  /**
   * A candidate that is sent is read again as the same candidate with one identity; an installed
   * generation matches it, and all generations it could belong to have its fragment and one password.
   */
  lemma SentCandidateIsIdentified(g: Grammar, r: Report, installed: seq<Generation>, retired: seq<Generation>)
    returns (identity: Identity)
    requires OutgoingIceCandidate(g, r, installed, retired).Send?
    requires Certain(g, r, installed + retired)
    ensures var c := OutgoingIceCandidate(g, r, installed, retired).candidate;
            IceCandidateIdentity(g, c) == Some((c, identity))
    ensures MatchesAny(identity, installed)
    ensures forall x <- installed + retired :: CouldBelong(g, r, x) ==> Matches(identity, x)
    ensures forall x <- installed + retired, y <- installed + retired ::
              CouldBelong(g, r, x) && CouldBelong(g, r, y) ==> x.password == y.password
  {
    var sent := Sent(g, r, installed, retired);
    identity := sent.0;
    forall x | x in installed + retired && CouldBelong(g, r, x) ensures Matches(identity, x) {
      OnePair(g, r, installed, retired, x, sent.1);
    }
    forall x, y | x in installed + retired && y in installed + retired && CouldBelong(g, r, x) && CouldBelong(g, r, y)
      ensures x.password == y.password
    {
      OnePair(g, r, installed, retired, x, y);
    }
  }

  /** The identity sent, and an installed generation it matches and could belong to. */
  lemma Sent(g: Grammar, r: Report, installed: seq<Generation>, retired: seq<Generation>)
    returns (sent: (Identity, Generation))
    requires OutgoingIceCandidate(g, r, installed, retired).Send?
    ensures var c := OutgoingIceCandidate(g, r, installed, retired).candidate;
            IceCandidateIdentity(g, c) == Some((c, sent.0))
    ensures sent.0.mid == MediaMid(r) && sent.0.index == MediaIndex(r)
    ensures sent.1 in installed && Matches(sent.0, sent.1) && CouldBelong(g, r, sent.1)
  {
    var ufrags, local := NamedUfrags(g, r), Media(r, installed);
    var parsed := Parsed(g, r, Chosen(ufrags, local)).value;
    ReadingIsStable(g, Candidate(Value(r.line), ToField(MediaMid(r)), ToField(MediaIndex(r)),
        Value(Chosen(ufrags, local)), false));
    var x :| x in local && Matches(parsed.1, x);
    if ufrags != [] { assert ufrags[0] in ufrags; }
    assert forall u <- ufrags :: u == ufrags[0];
    sent := (parsed.1, x);
  }

  // ----- When a key is ambiguous ----------------------------------------------------------------

  predicate SamePair(x: Generation, y: Generation) { x.ufrag == y.ufrag && x.password == y.password }

  predicate NulFree(x: Generation) { '\0' !in x.ufrag && '\0' !in x.password }

  /** Another generation of the same media with the same key, when `x` holds the separator. */
  lemma Lookalike(x: Generation) returns (y: Generation)
    requires !NulFree(x)
    ensures y.mid == x.mid && y.index == x.index && Key(y) == Key(x) && !SamePair(x, y)
  {
    if '\0' in x.ufrag {
      var i :| 0 <= i < |x.ufrag| && x.ufrag[i] == '\0';
      y := x.(ufrag := x.ufrag[..i], password := x.ufrag[i + 1..] + ['\0'] + x.password);
      assert x.ufrag == x.ufrag[..i] + ['\0'] + x.ufrag[i + 1..];
    } else {
      var i :| 0 <= i < |x.password| && x.password[i] == '\0';
      y := x.(ufrag := x.ufrag + ['\0'] + x.password[..i], password := x.password[i + 1..]);
      assert x.password == x.password[..i] + ['\0'] + x.password[i + 1..];
    }
  }

  /** A key stands for one pair of fragment and password exactly when neither holds the separator. */
  lemma KeyIsCertain(x: Generation)
    ensures (forall y :: Key(y) == Key(x) ==> SamePair(x, y)) <==> NulFree(x)
  {
    if NulFree(x) {
      forall y | Key(y) == Key(x) ensures SamePair(x, y) { OneSeparator(x, y); }
    } else {
      var y := Lookalike(x);
    }
  }

  lemma OneSeparator(x: Generation, y: Generation)
    requires NulFree(x) && Key(y) == Key(x)
    ensures SamePair(x, y)
  {
    var n := |y.ufrag|;
    assert Key(y)[n] == '\0' && Key(x)[n] == '\0';
    assert n == |x.ufrag|;
    assert y.ufrag == Key(y)[..n] == Key(x)[..n] == x.ufrag;
    SamePassword(x, y);
  }

  /** Whatever other generations are known, a candidate that is sent could only belong to the pair of `x`. */
  ghost predicate AlwaysCertain(g: Grammar, r: Report, x: Generation) {
    forall installed, retired :: x in installed + retired && OutgoingIceCandidate(g, r, installed, retired).Send? ==>
      forall y <- installed + retired :: CouldBelong(g, r, y) ==> SamePair(x, y)
  }

  lemma CertainWithoutSeparator(g: Grammar, r: Report, x: Generation, installed: seq<Generation>,
                                retired: seq<Generation>, y: Generation)
    requires NamedUfrags(g, r) == [] && OfMedia(r, x) && NulFree(x)
    requires x in installed + retired && OutgoingIceCandidate(g, r, installed, retired).Send?
    requires y in installed + retired && CouldBelong(g, r, y)
    ensures SamePair(x, y)
  {
    var known := Media(r, installed) + Media(r, retired);
    assert x in known && y in known;
    OneSeparator(x, y);
  }

  /** A report that names no fragment and is sent for `x` is also sent while a lookalike is known. */
  lemma SentBesideLookalike(g: Grammar, r: Report, x: Generation, y: Generation)
    requires NamedUfrags(g, r) == [] && OutgoingIceCandidate(g, r, [x], []).Send?
    requires y.mid == x.mid && y.index == x.index && Key(y) == Key(x)
    ensures OfMedia(r, x) && OutgoingIceCandidate(g, r, [x, y], []).Send? && CouldBelong(g, r, y)
  {
    assert [x][1..] == [] && [x, y][1..] == [y] && [y][1..] == [];
    assert Media(r, [x]) == [x] && Media(r, [y]) == [y] && Media(r, []) == [];
    assert Media(r, [x, y]) == [x, y];
    assert [x, y] + [] == [x, y] && [x] + [] == [x];
  }

  /**
   * For a report that names no fragment and could be sent for the installed generation `x`: every candidate
   * sent while `x` is known is certain to belong to it exactly when `x` does not hold the separator.
   */
  lemma UnnamedIsCertain(g: Grammar, r: Report, x: Generation)
    requires NamedUfrags(g, r) == [] && OutgoingIceCandidate(g, r, [x], []).Send?
    ensures AlwaysCertain(g, r, x) <==> NulFree(x)
  {
    SentBesideLookalike(g, r, x, x);
    if NulFree(x) {
      forall installed, retired | x in installed + retired && OutgoingIceCandidate(g, r, installed, retired).Send?
        ensures forall y <- installed + retired :: CouldBelong(g, r, y) ==> SamePair(x, y)
      {
        forall y | y in installed + retired && CouldBelong(g, r, y) ensures SamePair(x, y) {
          CertainWithoutSeparator(g, r, x, installed, retired, y);
        }
      }
    } else {
      var y := Lookalike(x);
      SentBesideLookalike(g, r, x, y);
      assert x in [x, y] + [] && y in [x, y] + [];
    }
  }

  /** It happens: a report that names no fragment is sent although two different generations fit it. */
  lemma NulMergesGenerations() returns (g: Grammar, r: Report, installed: seq<Generation>)
    ensures OutgoingIceCandidate(g, r, installed, []).Send?
    ensures |installed| == 2 && CouldBelong(g, r, installed[0]) && CouldBelong(g, r, installed[1])
    ensures installed[0].ufrag != installed[1].ufrag && installed[0].password != installed[1].password
  {
    g := Grammar(line => true, line => [], line => 0, line => false);
    r := Report("", Some("0"), None, None, None, None, None, None);
    var x, y := Generation("0", 0, ['a', '\0', 'b'], ['c']), Generation("0", 0, ['a'], ['b', '\0', 'c']);
    installed := [x, y];
    assert Key(x) == Key(y) == ['a', '\0', 'b', '\0', 'c'];
    assert installed[1..] == [y] && installed[1..][1..] == [];
    assert Media(r, installed) == [x, y] && Media(r, []) == [];
    assert Media(r, installed) + Media(r, []) == [x, y];
  }
}
