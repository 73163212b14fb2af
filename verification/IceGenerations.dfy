/** The generations a session description offers, read from its lines. */
module IceGenerations {
  import opened Options
  import opened IceTypes

  /** A line by its prefix, with the trimmed rest; a bundle line's rest is split at white space. */
  datatype Line =
    | MediaLine
    | BundleLine(tags: seq<string>)
    | UfragLine(value: string)
    | PasswordLine(value: string)
    | MidLine(value: string)
    | OtherLine

  datatype Section = Section(mid: Option<string>, ufrag: Option<string>, password: Option<string>)

  datatype Session = Session(ufrag: Option<string>, password: Option<string>, bundles: seq<seq<string>>,
                             media: seq<Section>)

  const EMPTY := Session(None, None, [], [])

  /** Puts a line's value into the last media section, or into the session before any. */
  function WithLine(s: Session, line: Line): Session {
    if line.MediaLine? then s.(media := s.media + [Section(None, None, None)])
    else if s.media == [] then
      match line
      case BundleLine(tags) => s.(bundles := s.bundles + [tags])
      case UfragLine(value) => s.(ufrag := Some(value))
      case PasswordLine(value) => s.(password := Some(value))
      case _ => s
    else
      var n := |s.media| - 1;
      match line
      case UfragLine(value) => s.(media := s.media[n := s.media[n].(ufrag := Some(value))])
      case PasswordLine(value) => s.(media := s.media[n := s.media[n].(password := Some(value))])
      case MidLine(value) => s.(media := s.media[n := s.media[n].(mid := Some(value))])
      case _ => s
  }

  function Read(lines: seq<Line>): Session {
    if lines == [] then EMPTY else WithLine(Read(lines[..|lines| - 1]), lines[|lines| - 1])
  }

  // ----- What reading means, line by line -------------------------------------------------------

  function MediaLines(lines: seq<Line>): nat {
    if lines == [] then 0 else MediaLines(lines[..|lines| - 1]) + (if lines[|lines| - 1].MediaLine? then 1 else 0)
  }

  function UfragOf(line: Line): Option<string> { if line.UfragLine? then Some(line.value) else None }

  function PasswordOf(line: Line): Option<string> { if line.PasswordLine? then Some(line.value) else None }

  function MidOf(line: Line): Option<string> { if line.MidLine? then Some(line.value) else None }

  /** The last value given after exactly `media` media lines. */
  function LastValue(lines: seq<Line>, media: nat, valueOf: Line -> Option<string>): Option<string> {
    if lines == [] then None
    else
      var front, last := lines[..|lines| - 1], lines[|lines| - 1];
      if MediaLines(front) == media && valueOf(last).Some? then valueOf(last) else LastValue(front, media, valueOf)
  }

  /** Groups count only before the first media line. */
  function Groups(lines: seq<Line>): seq<seq<string>> {
    if lines == [] then []
    else
      var front, last := lines[..|lines| - 1], lines[|lines| - 1];
      if MediaLines(front) == 0 && last.BundleLine? then Groups(front) + [last.tags] else Groups(front)
  }

  /** One section per media line; what comes before the first belongs to the session. */
  lemma {:induction false} ReadSession(lines: seq<Line>)
    ensures var s := Read(lines);
            && |s.media| == MediaLines(lines) && s.bundles == Groups(lines)
            && s.ufrag == LastValue(lines, 0, UfragOf) && s.password == LastValue(lines, 0, PasswordOf)
  {
    if lines != [] {
      ReadSession(lines[..|lines| - 1]);
    }
  }

  /** Each value of a section is the last one given in it. */
  lemma {:induction false} ReadSection(lines: seq<Line>, i: nat)
    requires i < |Read(lines).media|
    ensures Read(lines).media[i] ==
            Section(LastValue(lines, i + 1, MidOf), LastValue(lines, i + 1, UfragOf),
                LastValue(lines, i + 1, PasswordOf))
  {
    if lines != [] {
      var front := lines[..|lines| - 1];
      ReadSession(front);
      if i < |Read(front).media| {
        ReadSection(front, i);
      } else {
        NothingLater(front, i + 1);
      }
    }
  }

  lemma {:induction false} NothingLater(lines: seq<Line>, media: nat)
    requires media > MediaLines(lines)
    ensures forall valueOf :: LastValue(lines, media, valueOf) == None
  {
    if lines != [] {
      NothingLater(lines[..|lines| - 1], media);
    }
  }

  // ----- Which credentials a section has --------------------------------------------------------

  /** The group lists the section by its tag. */
  predicate Lists(group: seq<string>, section: Section) {
    section.mid != Some("") && exists k :: 0 <= k < |group| && section.mid == Some(group[k])
  }

  /** Group `b` is the first that lists the section. */
  predicate FirstBundle(s: Session, section: Section, b: nat) {
    && b < |s.bundles| && Lists(s.bundles[b], section)
    && forall c :: 0 <= c < b ==> !Lists(s.bundles[c], section)
  }

  predicate Bundled(s: Session, section: Section) { exists b :: 0 <= b < |s.bundles| && Lists(s.bundles[b], section) }

  /** Section `t` is the first with the tag. */
  predicate FirstTagged(s: Session, tag: string, t: nat) {
    && t < |s.media| && s.media[t].mid == Some(tag)
    && forall u :: 0 <= u < t ==> s.media[u].mid != Some(tag)
  }

  /** Section `t` carries the transport of `section`: the first of its bundle, or itself. */
  predicate Carries(s: Session, section: Section, t: Section) {
    if Bundled(s, section) then
      exists b, k :: 0 <= b < |s.bundles| && 0 <= k < |s.media| && FirstBundle(s, section, b) &&
          FirstTagged(s, s.bundles[b][0], k) && t == s.media[k]
    else t == section
  }

  /** What a section says, or the session where the section says nothing. */
  predicate Says(own: Option<string>, ofSession: Option<string>, value: string) {
    value != "" && (own == Some(value) || (own in {None, Some("")} && ofSession == Some(value)))
  }

  predicate HasCredentials(s: Session, t: Section, ufrag: string, password: string) {
    Says(t.ufrag, s.ufrag, ufrag) && Says(t.password, s.password, password)
  }

  /**
   * A generation of the session: a tagged section with its transport's credentials, or with its own
   * while it is bundled.
   */
  ghost predicate Offered(s: Session, g: Generation) {
    exists i :: 0 <= i < |s.media| && OfferedBy(s, i, g)
  }

  ghost predicate OfferedBy(s: Session, i: nat, g: Generation)
    requires i < |s.media|
  {
    && g.index == i && g.mid != "" && s.media[i].mid == Some(g.mid)
    && ((exists t :: Carries(s, s.media[i], t) && HasCredentials(s, t, g.ufrag, g.password)) ||
        (Bundled(s, s.media[i]) && HasCredentials(s, s.media[i], g.ufrag, g.password)))
  }

  /** The generation has the credentials of its section's transport. */
  ghost predicate ByTransport(s: Session, g: Generation) {
    0 <= g.index < |s.media| && exists t :: Carries(s, s.media[g.index], t) && HasCredentials(s, t, g.ufrag, g.password)
  }

  /** `g` is listed before `h`: sections in their order, and of one section the transport's generation first. */
  ghost predicate Before(s: Session, g: Generation, h: Generation) {
    g.index < h.index || (g.index == h.index && ByTransport(s, g) && !ByTransport(s, h))
  }

  ghost predicate InOrder(s: Session, generations: seq<Generation>) {
    forall i, j :: 0 <= i < j < |generations| ==> Before(s, generations[i], generations[j])
  }

  // ----- The reader -----------------------------------------------------------------------------

  /** Present and not empty. */
  predicate Given(o: Option<string>) { o.Some? && o.value != "" }

  function OrGiven(a: Option<string>, b: Option<string>): Option<string> { if Given(a) then a else b }

  predicate Bundles(group: seq<string>, section: Section) { Given(section.mid) && section.mid.value in group }

  method ReadLines(lines: seq<Line>) returns (s: Session)
    ensures s == Read(lines)
  {
    s := EMPTY;
    var i := 0;
    while i < |lines|
      invariant 0 <= i <= |lines|
      invariant s == Read(lines[..i])
    {
      assert lines[..i + 1][..i] == lines[..i];
      s := WithLine(s, lines[i]);
      i := i + 1;
    }
    assert lines[..i] == lines;
  }

  method FindBundle(s: Session, section: Section) returns (b: nat)
    ensures b <= |s.bundles| && (b < |s.bundles| ==> FirstBundle(s, section, b))
    ensures b == |s.bundles| ==> !Bundled(s, section)
  {
    b := 0;
    while b < |s.bundles| && !Bundles(s.bundles[b], section)
      invariant 0 <= b <= |s.bundles|
      invariant forall c :: 0 <= c < b ==> !Lists(s.bundles[c], section)
    {
      b := b + 1;
    }
  }

  method FindTagged(s: Session, tag: string) returns (t: nat)
    ensures t <= |s.media| && (t < |s.media| ==> FirstTagged(s, tag, t))
    ensures t == |s.media| ==> forall u :: 0 <= u < |s.media| ==> s.media[u].mid != Some(tag)
  {
    t := 0;
    while t < |s.media| && s.media[t].mid != Some(tag)
      invariant 0 <= t <= |s.media|
      invariant forall u :: 0 <= u < t ==> s.media[u].mid != Some(tag)
    {
      t := t + 1;
    }
  }

  method FindTransport(s: Session, section: Section) returns (transport: Option<Section>, bundled: bool)
    ensures bundled <==> Bundled(s, section)
    ensures forall t :: Carries(s, section, t) <==> transport == Some(t)
  {
    var b := FindBundle(s, section);
    bundled := b < |s.bundles|;
    if !bundled { return Some(section), false; }
    var t := FindTagged(s, s.bundles[b][0]);
    transport := if t < |s.media| then Some(s.media[t]) else None;
  }

  method SectionGenerations(s: Session, i: nat) returns (generations: seq<Generation>)
    requires i < |s.media|
    ensures forall g :: g in generations <==> OfferedBy(s, i, g)
    ensures InOrder(s, generations)
  {
    var section := s.media[i];
    var transport, bundled := FindTransport(s, section);
    var ufrag := if transport.Some? then OrGiven(transport.value.ufrag, s.ufrag) else None;
    var password := if transport.Some? then OrGiven(transport.value.password, s.password) else None;
    var ownUfrag, ownPassword := OrGiven(section.ufrag, s.ufrag), OrGiven(section.password, s.password);
    generations := [];
    if Given(section.mid) && Given(ufrag) && Given(password) {
      generations := [Generation(section.mid.value, i, ufrag.value, password.value)];
    }
    if bundled && Given(section.mid) && Given(ownUfrag) && Given(ownPassword) &&
        (ownUfrag != ufrag || ownPassword != password) {
      generations := generations + [Generation(section.mid.value, i, ownUfrag.value, ownPassword.value)];
    }
    forall g ensures g in generations <==> OfferedBy(s, i, g) {
      if transport.Some? { assert Carries(s, section, transport.value); }
    }
  }

  lemma SectionsInOrder(s: Session, earlier: seq<Generation>, more: seq<Generation>, i: nat)
    requires i < |s.media| && InOrder(s, earlier) && InOrder(s, more)
    requires forall k :: 0 <= k < |earlier| ==> earlier[k].index < i
    requires forall g <- more :: OfferedBy(s, i, g)
    ensures InOrder(s, earlier + more)
    ensures forall k :: 0 <= k < |earlier + more| ==> (earlier + more)[k].index < i + 1
  {
    var all := earlier + more;
    forall k | 0 <= k < |all| ensures all[k].index <= i && (k >= |earlier| ==> all[k].index == i) {
      if k >= |earlier| { assert all[k] in more; }
    }
    forall j, k | 0 <= j < k < |all| ensures Before(s, all[j], all[k]) {
      if k < |earlier| {
        assert Before(s, earlier[j], earlier[k]);
      } else if j >= |earlier| {
        assert Before(s, more[j - |earlier|], more[k - |earlier|]);
      }
    }
  }

  /** Exactly the generations the session offers, each once, section by section with the transport's first. */
  method IceGenerations(lines: seq<Line>) returns (generations: seq<Generation>)
    ensures forall g :: g in generations <==> Offered(Read(lines), g)
    ensures InOrder(Read(lines), generations)
  {
    var s := ReadLines(lines);
    generations := [];
    var i := 0;
    while i < |s.media|
      invariant 0 <= i <= |s.media|
      invariant forall g :: g in generations <==> exists k :: 0 <= k < i && OfferedBy(s, k, g)
      invariant InOrder(s, generations) && forall k :: 0 <= k < |generations| ==> generations[k].index < i
    {
      var more := SectionGenerations(s, i);
      SectionsInOrder(s, generations, more, i);
      generations := generations + more;
      i := i + 1;
    }
  }
}
