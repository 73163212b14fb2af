/** Which candidates are read and which are sent: exactly those that are complete, consistent and certain. */
module IceOutgoing {
  import opened Options
  import opened IceTypes
  import opened IceIdentity

  // ----- Reading --------------------------------------------------------------------------------

  /** Not given, or a text of 1 to 256 code points. */
  predicate ShortText(g: Grammar, f: Field<string>) {
    f.Missing? || f.Null? || (f.Value? && f.value != "" && g.points(f.value) <= 256)
  }

  /** A candidate line, or the empty one that ends the candidates, with at most one fragment in it. */
  predicate ReadableLine(g: Grammar, line: string) {
    g.points(line) <= 4096 && (line == "" || g.isLine(line)) && |g.embeddedUfrags(line)| <= 1
  }

  /** The line's fragment and the field's are the same where both are given, and one of them is. */
  predicate OneFragment(g: Grammar, line: string, username: Field<string>) {
    var found := g.embeddedUfrags(line);
    && (username.Value? || (found != [] && found[0] != ""))
    && (found != [] && found[0] != "" ==>
          g.points(found[0]) <= 256 && (username.Value? ==> username.value == found[0]))
  }

  predicate Readable(g: Grammar, c: Candidate) {
    && !c.otherKeys && c.line.Value? && ReadableLine(g, c.line.value)
    && ShortText(g, c.usernameFragment) && (c.usernameFragment.Value? ==> !g.hasSpace(c.usernameFragment.value))
    && OneFragment(g, c.line.value, c.usernameFragment)
    && ShortText(g, c.sdpMid)
    && (c.sdpMLineIndex.Missing? || c.sdpMLineIndex.Null? ||
          (c.sdpMLineIndex.Value? && 0 <= c.sdpMLineIndex.value < 65536))
    && (c.sdpMid.Value? || c.sdpMLineIndex.Value?)
  }

  /** A candidate is read exactly when it is complete and consistent, and then as it is. */
  lemma ReadExactly(g: Grammar, c: Candidate)
    ensures IceCandidateIdentity(g, c).Some? <==> Readable(g, c)
    ensures Readable(g, c) ==>
              var (candidate, identity) := IceCandidateIdentity(g, c).value;
              && candidate == c
              && identity.mid == (if c.sdpMid.Value? then Some(c.sdpMid.value) else None)
              && identity.index == (if c.sdpMLineIndex.Value? then Some(c.sdpMLineIndex.value) else None)
              && identity.ufrag == (if c.usernameFragment.Value? then c.usernameFragment.value
                                    else g.embeddedUfrags(c.line.value)[0])
  {
  }

  // ----- Sending --------------------------------------------------------------------------------

  /** The first of two values that is given. */
  function First<T>(a: Option<T>, b: Option<T>): Option<T> { if a.Some? then a else b }

  predicate NoConflict<T(==)>(a: Option<T>, b: Option<T>) { a.Some? && b.Some? ==> a == b }

  /** The report names the fragment: in its line, as the object's field or as the exported one. */
  predicate NamesFragment(g: Grammar, r: Report, ufrag: string) {
    || r.jsonUsername == Some(ufrag) || r.usernameFragment == Some(ufrag)
    || (g.embeddedUfrags(r.line) != [] && g.embeddedUfrags(r.line)[0] == ufrag)
  }

  lemma NamedMeans(g: Grammar, r: Report, ufrag: string)
    ensures ufrag in NamedUfrags(g, r) <==> NamesFragment(g, r, ufrag)
  {
  }

  /** What the report says twice it says alike; it names at most one fragment, and a medium. */
  ghost predicate Consistent(g: Grammar, r: Report) {
    && NoConflict(r.jsonLine, Some(r.line)) && NoConflict(r.jsonMid, r.sdpMid)
    && NoConflict(r.jsonIndex, r.sdpMLineIndex)
    && (forall u, v :: NamesFragment(g, r, u) && NamesFragment(g, r, v) ==> u == v)
    && !NamesFragment(g, r, "")
    && (First(r.jsonMid, r.sdpMid).Some? || First(r.jsonIndex, r.sdpMLineIndex).Some?)
  }

  /** The generation is of the reported medium. */
  predicate OfReported(r: Report, x: Generation) {
    && (First(r.jsonMid, r.sdpMid).Some? ==> First(r.jsonMid, r.sdpMid).value == x.mid)
    && (First(r.jsonIndex, r.sdpMLineIndex).Some? ==> First(r.jsonIndex, r.sdpMLineIndex).value == x.index)
  }

  /** The first generation of the medium. */
  predicate IsFirst(r: Report, generations: seq<Generation>, i: int) {
    && 0 <= i < |generations| && OfReported(r, generations[i])
    && forall k :: 0 <= k < i ==> !OfReported(r, generations[k])
  }

  /** The fragment to send: the one named, or that of the first installed generation of the medium. */
  ghost predicate IsFragment(g: Grammar, r: Report, installed: seq<Generation>, ufrag: string) {
    if exists u :: NamesFragment(g, r, u) then NamesFragment(g, r, ufrag)
    else exists i :: IsFirst(r, installed, i) && installed[i].ufrag == ufrag
  }

  function ToSend(r: Report, ufrag: string): Candidate {
    var mid, index := First(r.jsonMid, r.sdpMid), First(r.jsonIndex, r.sdpMLineIndex);
    Candidate(Value(r.line), if mid.Some? then Value(mid.value) else Null,
              if index.Some? then Value(index.value) else Null, Value(ufrag), false)
  }

  /** A generation of the medium has the fragment. */
  predicate HasFragment(r: Report, generations: seq<Generation>, ufrag: string) {
    exists i :: 0 <= i < |generations| && OfReported(r, generations[i]) && generations[i].ufrag == ufrag
  }

  /** A generation the candidate could be of: of the medium, and with the fragment if one is named. */
  ghost predicate Possibly(g: Grammar, r: Report, x: Generation) {
    OfReported(r, x) && forall u :: NamesFragment(g, r, u) ==> x.ufrag == u
  }

  /** All of them have one key. */
  ghost predicate OneKeyOnly(g: Grammar, r: Report, known: seq<Generation>) {
    forall x <- known, y <- known :: Possibly(g, r, x) && Possibly(g, r, y) ==>
        Key(x) == Key(y)
  }

  /** The report is consistent and what would be sent for it can be read. */
  ghost predicate Sendable(g: Grammar, r: Report, installed: seq<Generation>, ufrag: string) {
    Consistent(g, r) && ufrag != "" && IsFragment(g, r, installed, ufrag) && Readable(g, ToSend(r, ufrag))
  }

  lemma {:induction false} MediaFirst(r: Report, generations: seq<Generation>)
    ensures var kept := Media(r, generations);
            kept != [] ==> exists i :: IsFirst(r, generations, i) && generations[i] == kept[0]
    ensures Media(r, generations) == [] ==> forall i :: !IsFirst(r, generations, i)
  {
    if generations != [] {
      var rest := generations[1..];
      MediaFirst(r, rest);
      if OfReported(r, generations[0]) {
        assert IsFirst(r, generations, 0);
      } else if Media(r, rest) != [] {
        var i :| IsFirst(r, rest, i) && rest[i] == Media(r, rest)[0];
        assert forall k :: 0 < k < i + 1 ==> generations[k] == rest[k - 1];
        assert IsFirst(r, generations, i + 1);
      } else {
        forall i | 0 <= i < |generations| ensures !OfReported(r, generations[i]) {
          assert generations[i] in Media(r, generations) <==> OfReported(r, generations[i]);
        }
      }
    }
  }

  lemma FirstIsOnly(r: Report, generations: seq<Generation>, i: int, j: int)
    requires IsFirst(r, generations, i) && IsFirst(r, generations, j)
    ensures i == j
  {
  }

  /** What the report names, as the list the code makes of it. */
  lemma NamedOnce(g: Grammar, r: Report)
    ensures var ufrags := NamedUfrags(g, r);
            && (ufrags != [] <==> exists u :: NamesFragment(g, r, u))
            && ((exists u <- ufrags, v <- ufrags :: u != v) <==>
                  !forall u, v :: NamesFragment(g, r, u) && NamesFragment(g, r, v) ==> u == v)
            && ("" in ufrags <==> NamesFragment(g, r, ""))
  {
    var ufrags := NamedUfrags(g, r);
    forall u ensures u in ufrags <==> NamesFragment(g, r, u) { NamedMeans(g, r, u); }
    if ufrags != [] { assert ufrags[0] in ufrags; }
  }

  /** The fragment the code chooses is the one to send, if there is one. */
  lemma {:induction false} ChosenMeans(g: Grammar, r: Report, installed: seq<Generation>, ufrag: string)
    requires Consistent(g, r) && ufrag != ""
    ensures IsFragment(g, r, installed, ufrag) <==> ufrag == Chosen(NamedUfrags(g, r), Media(r, installed))
  {
    var ufrags := NamedUfrags(g, r);
    NamedOnce(g, r);
    MediaFirst(r, installed);
    if ufrags != [] {
      NamedMeans(g, r, ufrags[0]);
    } else if Media(r, installed) != [] {
      var i :| IsFirst(r, installed, i) && installed[i] == Media(r, installed)[0];
      forall j | IsFirst(r, installed, j) ensures i == j { FirstIsOnly(r, installed, i, j); }
    }
  }

  lemma {:induction false} FragmentMeans(r: Report, generations: seq<Generation>, identity: Identity)
    requires identity.mid == First(r.jsonMid, r.sdpMid) && identity.index == First(r.jsonIndex, r.sdpMLineIndex)
    ensures MatchesAny(identity, Media(r, generations)) <==> HasFragment(r, generations, identity.ufrag)
  {
    if HasFragment(r, generations, identity.ufrag) {
      var i :| 0 <= i < |generations| && OfReported(r, generations[i]) && generations[i].ufrag == identity.ufrag;
      assert generations[i] in Media(r, generations) && Matches(identity, generations[i]);
    }
    if MatchesAny(identity, Media(r, generations)) {
      var x :| x in Media(r, generations) && Matches(identity, x);
      var i :| 0 <= i < |generations| && generations[i] == x;
    }
  }

  lemma {:induction false} PossiblyMeans(g: Grammar, r: Report, installed: seq<Generation>, retired: seq<Generation>,
                                         ufrag: string,
                      x: Generation)
    requires Consistent(g, r) && IsFragment(g, r, installed, ufrag)
    ensures x in Possible(NamedUfrags(g, r), ufrag, Media(r, installed) + Media(r, retired)) <==>
            x in installed + retired && Possibly(g, r, x)
  {
    NamedOnce(g, r);
    assert x in Media(r, installed) + Media(r, retired) <==> x in installed + retired && OfReported(r, x);
    if NamedUfrags(g, r) != [] { assert Possibly(g, r, x) <==> OfReported(r, x) && x.ufrag == ufrag; }
  }

  lemma {:induction false} KeyOfPossible(g: Grammar, r: Report, installed: seq<Generation>, retired: seq<Generation>,
                                         ufrag: string,
                      x: Generation, y: Generation)
    requires Consistent(g, r) && IsFragment(g, r, installed, ufrag)
    requires OneKey(Possible(NamedUfrags(g, r), ufrag, Media(r, installed) + Media(r, retired)))
    requires x in installed + retired && y in installed + retired && Possibly(g, r, x) && Possibly(g, r, y)
    ensures Key(x) == Key(y)
  {
    PossiblyMeans(g, r, installed, retired, ufrag, x);
    PossiblyMeans(g, r, installed, retired, ufrag, y);
  }

  lemma {:induction false} PossibleHasKey(g: Grammar, r: Report, installed: seq<Generation>, retired: seq<Generation>,
                                          ufrag: string,
                       x: Generation, y: Generation)
    requires Consistent(g, r) && IsFragment(g, r, installed, ufrag) && OneKeyOnly(g, r, installed + retired)
    requires var possible := Possible(NamedUfrags(g, r), ufrag, Media(r, installed) + Media(r, retired));
             x in possible && y in possible
    ensures Key(x) == Key(y)
  {
    PossiblyMeans(g, r, installed, retired, ufrag, x);
    PossiblyMeans(g, r, installed, retired, ufrag, y);
  }

  lemma {:induction false} KeysMean(g: Grammar, r: Report, installed: seq<Generation>, retired: seq<Generation>,
                                    ufrag: string)
    requires Consistent(g, r) && IsFragment(g, r, installed, ufrag) && HasFragment(r, installed, ufrag)
    ensures OneKey(Possible(NamedUfrags(g, r), ufrag, Media(r, installed) + Media(r, retired))) <==>
            OneKeyOnly(g, r, installed + retired)
  {
    var known, possible := installed + retired, Possible(NamedUfrags(g, r), ufrag,
        Media(r, installed) + Media(r, retired));
    SomethingPossible(g, r, installed, retired, ufrag);
    if OneKey(possible) {
      forall x, y | x in known && y in known && Possibly(g, r, x) && Possibly(g, r, y) ensures Key(x) == Key(y) {
        KeyOfPossible(g, r, installed, retired, ufrag, x, y);
      }
    }
    if OneKeyOnly(g, r, known) {
      forall x, y | x in possible && y in possible ensures Key(x) == Key(y) {
        PossibleHasKey(g, r, installed, retired, ufrag, x, y);
      }
    }
  }

  lemma {:induction false} SomethingPossible(g: Grammar, r: Report, installed: seq<Generation>,
                                             retired: seq<Generation>, ufrag: string)
    requires Consistent(g, r) && IsFragment(g, r, installed, ufrag) && HasFragment(r, installed, ufrag)
    ensures Possible(NamedUfrags(g, r), ufrag, Media(r, installed) + Media(r, retired)) != []
  {
    var i :| 0 <= i < |installed| && OfReported(r, installed[i]) && installed[i].ufrag == ufrag;
    NamedOnce(g, r);
    assert installed[i] in installed + retired && Possibly(g, r, installed[i]);
    PossiblyMeans(g, r, installed, retired, ufrag, installed[i]);
  }

  /** What the code does with a report it can send something for. */
  lemma SendableMeans(g: Grammar, r: Report, installed: seq<Generation>, retired: seq<Generation>, ufrag: string)
    requires Sendable(g, r, installed, ufrag)
    ensures OutgoingIceCandidate(g, r, installed, retired) ==
            if HasFragment(r, installed, ufrag)
            then (if OneKeyOnly(g, r, installed + retired) then Send(ToSend(r, ufrag)) else Ambiguous)
            else (if HasFragment(r, retired, ufrag) then StaleGeneration else Ambiguous)
  {
    Undisputed(g, r);
    ChosenMeans(g, r, installed, ufrag);
    var identity := ReadBack(g, r, ufrag);
    FragmentMeans(r, installed, identity);
    FragmentMeans(r, retired, identity);
    if HasFragment(r, installed, ufrag) { KeysMean(g, r, installed, retired, ufrag); }
  }

  /** A consistent report passes the code's first tests. */
  lemma Undisputed(g: Grammar, r: Report)
    ensures Consistent(g, r) <==>
            && !Disagree(r.jsonLine, Some(r.line)) && !Disagree(r.jsonMid, r.sdpMid)
            && !Disagree(r.jsonIndex, r.sdpMLineIndex)
            && !(exists u <- NamedUfrags(g, r), v <- NamedUfrags(g, r) :: u != v) && "" !in NamedUfrags(g, r)
            && !(MediaMid(r).None? && MediaIndex(r).None?)
  {
    NamedOnce(g, r);
  }

  lemma ReadBack(g: Grammar, r: Report, ufrag: string) returns (identity: Identity)
    requires Readable(g, ToSend(r, ufrag))
    ensures Parsed(g, r, ufrag) == Some((ToSend(r, ufrag), identity))
    ensures identity.mid == First(r.jsonMid, r.sdpMid) && identity.index == First(r.jsonIndex, r.sdpMLineIndex)
    ensures identity.ufrag == ufrag
  {
    ReadExactly(g, ToSend(r, ufrag));
    identity := IceCandidateIdentity(g, ToSend(r, ufrag)).value.1;
  }

  /** And with any other. */
  lemma NotSendable(g: Grammar, r: Report, installed: seq<Generation>, retired: seq<Generation>)
    requires forall ufrag :: !Sendable(g, r, installed, ufrag)
    ensures OutgoingIceCandidate(g, r, installed, retired) == Ambiguous
  {
    Undisputed(g, r);
    var ufrag := Chosen(NamedUfrags(g, r), Media(r, installed));
    if Consistent(g, r) && ufrag != "" {
      ChosenMeans(g, r, installed, ufrag);
      ReadExactly(g, ToSend(r, ufrag));
      assert !Sendable(g, r, installed, ufrag);
    }
  }

  /**
   * A candidate is sent exactly when the report is consistent, what is sent can be read, an installed generation of
   * its medium has the fragment, and all generations it could be of have one key.  It is stale exactly when no
   * installed generation has the fragment but a retired one does.
   */
  lemma OutgoingExactly(g: Grammar, r: Report, installed: seq<Generation>, retired: seq<Generation>, c: Candidate)
    ensures OutgoingIceCandidate(g, r, installed, retired) == Send(c) <==>
            exists ufrag :: Sendable(g, r, installed, ufrag) && c == ToSend(r, ufrag) &&
              HasFragment(r, installed, ufrag) && OneKeyOnly(g, r, installed + retired)
    ensures OutgoingIceCandidate(g, r, installed, retired) == StaleGeneration <==>
            exists ufrag :: Sendable(g, r, installed, ufrag) && !HasFragment(r, installed, ufrag) &&
              HasFragment(r, retired, ufrag)
  {
    forall ufrag | Sendable(g, r, installed, ufrag)
      ensures OutgoingIceCandidate(g, r, installed, retired) ==
              if HasFragment(r, installed, ufrag)
              then (if OneKeyOnly(g, r, installed + retired) then Send(ToSend(r, ufrag)) else Ambiguous)
              else (if HasFragment(r, retired, ufrag) then StaleGeneration else Ambiguous)
    {
      SendableMeans(g, r, installed, retired, ufrag);
    }
    if forall ufrag :: !Sendable(g, r, installed, ufrag) { NotSendable(g, r, installed, retired); }
  }
}
