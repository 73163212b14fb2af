/** Everything that can happen to a draft while a message is written, in any order. */
module ComposerRuns {
  import opened Utf16
  import opened Mentions
  import opened MentionEdits
  import opened Composer
  import StableSort

  /** The user types, a suggestion is selected for a region, or the composer is emptied. */
  datatype Event<U> =
    | Type(next: Text)
    | Select(user: U, name: Text, start: int, queryEnd: int)
    | Empty

  function Step<U>(w: Writing<U>, e: Event<U>): Writing<U> {
    match e
    case Type(next) => Typed(w, next)
    case Select(user, name, start, queryEnd) => Chosen(w, user, name, start, queryEnd)
    case Empty => Writing([], [])
  }

  function Run<U>(w: Writing<U>, events: seq<Event<U>>): Writing<U> {
    if events == [] then w else Step(Run(w, events[..|events| - 1]), events[|events| - 1])
  }

  /** A name that is not empty, holds no '@' and does not end in half a pair. */
  predicate IsName(name: Text) { name != [] && AT !in name && !IsHigh(name[|name| - 1]) }

  /** What is selected has an acceptable user and a name, and replaces a region of the draft. */
  predicate Offered<U>(w: Writing<U>, e: Event<U>, acceptable: U -> bool) {
    e.Select? && e.start >= 0 ==> IsRegion(w.draft, e.start, e.queryEnd) && acceptable(e.user) && IsName(e.name)
  }

  /** The selection spells again what a mention over its query covers. */
  predicate Spoils<U>(w: Writing<U>, e: Event<U>) {
    && e.Select? && e.start >= 0 && |w.mentions| < MAX_MENTIONS
    && Reselects(w.draft, w.mentions, e.start, Replaced(w.draft, e.start, e.queryEnd, e.name))
  }

  ghost predicate Invariant<U>(w: Writing<U>, acceptable: U -> bool) {
    ValidMentions(w.draft, w.mentions, acceptable) && EndsOnCharacters(w.draft, w.mentions)
  }

  /** The ends of a list in which the new span was put. */
  lemma InsertedEnds<U>(body: Text, all: seq<Mention<U>>, mentions: seq<Mention<U>>, range: Mention<U>, k: nat)
    requires StableSort.IsInsertion(all, mentions, range, k) && EndsOnCharacters(body, mentions)
    requires 1 <= range.end <= |body| && !IsHigh(body[range.end - 1])
    ensures EndsOnCharacters(body, all)
  {
    forall i | 0 <= i < |all| && 1 <= all[i].end <= |body| ensures !IsHigh(body[all[i].end - 1]) {
      if i != k { assert all[i] == mentions[if i < k then i else i - 1]; }
    }
  }

  lemma SelectedEnds<U>(draft: Text, mentions: seq<Mention<U>>, acceptable: U -> bool, start: int, queryEnd: int,
                        user: U, name: Text, next: Text, e: Edit)
    requires Composing(draft, mentions, acceptable, start, queryEnd) && IsName(name)
    requires IsReplacement(draft, start, queryEnd, name, next) && IsEdit(draft, next, e)
    ensures EndsOnCharacters(next, Selected(draft, next, mentions, Range(user, start, name), e))
  {
    var updated, range := Updated(draft, next, mentions, e), Range(user, start, name);
    UpdateKeepsValidity(draft, next, mentions, acceptable, e);
    UpdateKeepsEnds(draft, next, mentions, acceptable, e);
    var k := RangePlaced(next, updated, acceptable, range);
    assert FromStart(next, start + |name|) == name[|name| - 1];
    InsertedEnds(next, Selected(draft, next, mentions, range, e), updated, range, k);
  }

  lemma SelectDecides<U>(w: Writing<U>, e: Event<U>, acceptable: U -> bool)
    requires Invariant(w, acceptable) && e.Select? && Offered(w, e, acceptable)
    ensures ValidMentions(Step(w, e).draft, Step(w, e).mentions, acceptable) <==> !Spoils(w, e)
    ensures Invariant(Step(w, e), acceptable) <==> !Spoils(w, e)
  {
    if e.start >= 0 && |w.mentions| < MAX_MENTIONS {
      var next := Replaced(w.draft, e.start, e.queryEnd, e.name);
      var edit := EditBetween(w.draft, next);
      SelectionIsValid(w.draft, w.mentions, acceptable, e.start, e.queryEnd, e.user, e.name, edit);
      ReplacedIsReplacement(w.draft, e.start, e.queryEnd, e.name);
      SelectedEnds(w.draft, w.mentions, acceptable, e.start, e.queryEnd, e.user, e.name, next, edit);
    }
  }

  /** Whatever is done next, the mentions stay valid if and only if it does not spoil them. */
  lemma StepDecides<U>(w: Writing<U>, e: Event<U>, acceptable: U -> bool)
    requires Invariant(w, acceptable) && Offered(w, e, acceptable)
    ensures ValidMentions(Step(w, e).draft, Step(w, e).mentions, acceptable) <==> !Spoils(w, e)
    ensures Invariant(Step(w, e), acceptable) <==> !Spoils(w, e)
  {
    match e
    case Type(next) =>
      UpdateKeepsValidity(w.draft, next, w.mentions, acceptable, EditBetween(w.draft, next));
      UpdateKeepsEnds(w.draft, next, w.mentions, acceptable, EditBetween(w.draft, next));
    case Select(_, _, _, _) => SelectDecides(w, e, acceptable);
    case Empty =>
  }

  /** Each event of a run is offered and spoils nothing. */
  predicate Careful<U>(w: Writing<U>, events: seq<Event<U>>, acceptable: U -> bool) {
    events != [] ==>
      var before, last := Run(w, events[..|events| - 1]), events[|events| - 1];
      Careful(w, events[..|events| - 1], acceptable) && Offered(before, last, acceptable) && !Spoils(before, last)
  }

  /** After every such run the mentions are valid. */
  lemma {:induction false} DraftStaysValid<U>(events: seq<Event<U>>, acceptable: U -> bool)
    requires Careful(Writing([], []), events, acceptable)
    ensures Invariant(Run(Writing([], []), events), acceptable)
  {
    if events != [] {
      var n := |events| - 1;
      DraftStaysValid(events[..n], acceptable);
      StepDecides(Run(Writing([], []), events[..n]), events[n], acceptable);
    }
  }

  // ----- What typing and selecting keep ---------------------------------------------------------

  lemma LongerPrefix(a: Text, b: Text, n: nat)
    requires n <= |a| && n <= |b| && Agree(a, b, n)
    ensures CommonPrefix(a, b) >= n
  {
    if CommonPrefix(a, b) < n { HeadAt(a, b, n, CommonPrefix(a, b)); }
  }

  /** A mention that ends within the units both drafts begin with stays where it is. */
  lemma TypingKeepsEarlier<U>(w: Writing<U>, next: Text, n: nat, i: nat)
    requires n <= |w.draft| && n <= |next| && Agree(w.draft, next, n)
    requires i < |w.mentions| && w.mentions[i].end <= n
    ensures w.mentions[i] in Typed(w, next).mentions
  {
    LongerPrefix(w.draft, next, n);
    if w.draft != next {
      var e := EditBetween(w.draft, next);
      var k := Survives(w.mentions, e.prefix, OldEnd(w.draft, e), Delta(w.draft, next), i);
    }
  }

  lemma LongerSuffix(a: Text, b: Text, prefix: nat, n: nat, k: nat)
    requires k <= |a| - prefix && k <= |b| - prefix && forall j :: 0 <= j < k ==> FromEnd(a, j) == FromEnd(b, j)
    requires IsCommonSuffix(a, b, prefix, n)
    ensures n >= k
  {
  }

  /** One within the units both end with, after the first unit that differs, moves with the end of the draft. */
  lemma TypingMovesLater<U>(w: Writing<U>, next: Text, n: nat, k: nat, i: nat)
    requires n <= |w.draft| && n <= |next| && Agree(w.draft, next, n)
    requires n < |w.draft| && n < |next| ==> w.draft[n] != next[n]
    requires k <= |w.draft| - n && k <= |next| - n
    requires forall j :: 0 <= j < k ==> FromEnd(w.draft, j) == FromEnd(next, j)
    requires i < |w.mentions| && w.mentions[i].start >= |w.draft| - k && w.mentions[i].end > w.mentions[i].start
    ensures var m, d := w.mentions[i], |next| - |w.draft|;
            m.(start := m.start + d, end := m.end + d) in Typed(w, next).mentions
  {
    if w.draft != next {
      var e := EditBetween(w.draft, next);
      PrefixIsUnique(w.draft, next, n);
      LongerSuffix(w.draft, next, n, e.suffix, k);
      var at := Survives(w.mentions, e.prefix, OldEnd(w.draft, e), Delta(w.draft, next), i);
    }
  }

  /** The draft with a name in the place of its query. */
  function Filled(draft: Text, start: nat, queryEnd: nat, name: Text): Text
    requires start <= queryEnd <= |draft|
  {
    draft[..start] + ([AT] + name) + [SPACE] + draft[queryEnd..]
  }

  /**
   * A selection puts '@', the name and a space in the place of the query, and the mention that covers '@' and name
   * among the earlier ones and the later ones moved along, unless a mention over the query spells the same again.
   */
  lemma {:induction false} SelectionInserts<U>(w: Writing<U>, acceptable: U -> bool, user: U, name: Text, start: nat,
                                               queryEnd: nat)
    requires Invariant(w, acceptable) && |w.mentions| < 16 && IsQuery(w.draft, start, queryEnd)
    requires acceptable(user) && name != [] && AT !in name
    requires !Reselects(w.draft, w.mentions, start, Filled(w.draft, start, queryEnd, name))
    ensures var next, u := Filled(w.draft, start, queryEnd, name), Chosen(w, user, name, start, queryEnd);
            && u == Writing(next, WithRange(w.mentions, Range(user, start, name), Delta(w.draft, next)))
            && SpanText(next, start, start + |name| + 1) == [AT] + name
  {
    FilledIsReplaced(w.draft, start, queryEnd, name);
    var next := Filled(w.draft, start, queryEnd, name);
    var list := WithRange(w.mentions, Range(user, start, name), Delta(w.draft, next));
    QueryIsRegion(w.draft, start, queryEnd);
    InsertedInto(w.draft, w.mentions, acceptable, user, name, start, queryEnd, next);
    ChosenIs(w, user, name, start, queryEnd, next, list);
  }

  lemma FilledIsReplaced(draft: Text, start: nat, queryEnd: nat, name: Text)
    requires start <= queryEnd <= |draft|
    ensures Filled(draft, start, queryEnd, name) == Replaced(draft, start, queryEnd, name)
  {
  }

  lemma ChosenIs<U>(w: Writing<U>, user: U, name: Text, start: nat, queryEnd: nat, next: Text, list: seq<Mention<U>>)
    requires |w.mentions| < 16 && next == Replaced(w.draft, start, queryEnd, name)
    requires list == Selected(w.draft, next, w.mentions, Range(user, start, name), EditBetween(w.draft, next))
    ensures Chosen(w, user, name, start, queryEnd) == Writing(next, list)
  {
  }

  lemma QueryIsRegion(draft: Text, start: nat, queryEnd: nat)
    requires IsQuery(draft, start, queryEnd)
    ensures IsRegion(draft, start, queryEnd)
  {
    if queryEnd - 1 > start { assert draft[queryEnd - 1] != SPACE; }
  }

  lemma {:induction false} InsertedInto<U>(draft: Text, mentions: seq<Mention<U>>, acceptable: U -> bool, user: U,
                                           name: Text, start: nat,
                        queryEnd: nat, next: Text)
    requires Composing(draft, mentions, acceptable, start, queryEnd) && IsQuery(draft, start, queryEnd)
    requires acceptable(user) && name != [] && AT !in name && next == Replaced(draft, start, queryEnd, name)
    requires !Reselects(draft, mentions, start, next)
    ensures WithRange(mentions, Range(user, start, name), Delta(draft, next)) ==
            Selected(draft, next, mentions, Range(user, start, name), EditBetween(draft, next))
    ensures SpanText(next, start, start + |name| + 1) == [AT] + name
  {
    SelectionKeepsSpans(draft, mentions, acceptable, start, queryEnd, user, name, EditBetween(draft, next));
  }

  // ----- Selecting a name twice -----------------------------------------------------------------

  /** The user typed '@' and selected a name. */
  function FirstMention<U>(user: U, name: Text): Writing<U> {
    Writing([AT] + name + [SPACE], [Range(user, 0, name)])
  }

  lemma MentionSelected<U>(user: U, name: Text)
    ensures Step(Writing([AT], []), Select(user, name, 0, 1)) == FirstMention(user, name)
  {
    var next, range := Replaced([AT], 0, 1, name), Range(user, 0, name);
    assert next == [AT] + name + [SPACE];
    assert Updated([AT], next, [], EditBetween([AT], next)) + [range] == [range];
    StableSort.SortOfSorted([range], ByStart());
  }

  lemma {:induction false} ThreeSteps<U>(w: Writing<U>, a: Event<U>, b: Event<U>, c: Event<U>)
    ensures Run(w, [a, b, c]) == Step(Step(Step(w, a), b), c)
  {
    assert [a, b, c][..2] == [a, b] && [a, b][..1] == [a] && [a][..0] == [];
    assert Run(w, [a]) == Step(Run(w, []), a);
    assert Run(w, [a, b]) == Step(Run(w, [a]), b);
  }

  /** Deleting the space after the name leaves the mention alone. */
  lemma SpaceDeleted<U>(user: U, name: Text)
    ensures Step(FirstMention(user, name), Type([AT] + name)) == Writing([AT] + name, [Range(user, 0, name)])
  {
    var w, next := FirstMention(user, name), [AT] + name;
    assert Agree(w.draft, next, |next|);
    PrefixIsUnique(w.draft, next, |next|);
    var e := EditBetween(w.draft, next);
    Unmoved(w.mentions, e.prefix, OldEnd(w.draft, e), Delta(w.draft, next));
  }

  lemma FirstMentionIsValid<U>(user: U, name: Text, acceptable: U -> bool)
    requires acceptable(user) && IsName(name)
    ensures Invariant(FirstMention(user, name), acceptable)
  {
    assert (FirstMention(user, name).draft)[|name|] == name[|name| - 1];
  }

  /**
   * A name is selected, the space after it deleted, and the same name selected again, or one that begins
   * with it: the first mention is kept beside the second, and they overlap.
   */
  lemma SelectingAgainBreaks<U>(user: U, name: Text, again: U, longer: Text, acceptable: U -> bool)
    requires acceptable(user) && acceptable(again) && IsName(name) && SPACE !in name
    requires name <= longer && IsName(longer)
    ensures var events := [Type([AT]), Select(user, name, 0, 1), Type([AT] + name)];
            var before := Run(Writing([], []), events);
            var after := Step(before, Select(again, longer, 0, |before.draft|));
            && before == Writing([AT] + name, [Range(user, 0, name)]) && IsQuery(before.draft, 0, |before.draft|)
            && ValidMentions(before.draft, before.mentions, acceptable)
            && !ValidMentions(after.draft, after.mentions, acceptable)
  {
    var w: Writing<U> := Writing([], []);
    ThreeSteps(w, Type([AT]), Select(user, name, 0, 1), Type([AT] + name));
    assert Step(w, Type([AT])) == Writing([AT], []);
    MentionSelected(user, name);
    SpaceDeleted(user, name);
    FirstMentionIsValid(user, name, acceptable);
    StepDecides(FirstMention(user, name), Type([AT] + name), acceptable);
    AgainBreaks(user, name, again, longer, acceptable);
  }

  lemma AgainBreaks<U>(user: U, name: Text, again: U, longer: Text, acceptable: U -> bool)
    requires var w := Writing([AT] + name, [Range(user, 0, name)]); Invariant(w, acceptable)
    requires acceptable(again) && SPACE !in name && name != [] && name <= longer && IsName(longer)
    ensures var w := Writing([AT] + name, [Range(user, 0, name)]);
            var after := Step(w, Select(again, longer, 0, |w.draft|));
            !ValidMentions(after.draft, after.mentions, acceptable)
  {
    var w := Writing([AT] + name, [Range(user, 0, name)]);
    var next := Replaced(w.draft, 0, |w.draft|, longer);
    assert w.draft[|name|] == name[|name| - 1];
    assert next == [AT] + longer + [SPACE];
    assert w.draft[..|name| + 1] == w.draft;
    assert Stands(w.draft, next, w.mentions[0].end);
    StepDecides(w, Select(again, longer, 0, |w.draft|), acceptable);
  }
}
