/** The draft being written: mentions that are selected from suggestions and sent with the message. */
module Composer {
  import opened Utf16
  import opened Mentions
  import opened MentionEdits
  import opened TextCuts
  import StableSort

  /** `slice(0, n)` and `slice(n)` of a string or a list. */
  function Before<T>(text: seq<T>, n: int): seq<T> { if n <= 0 then [] else if n >= |text| then text else text[..n] }

  function From<T>(text: seq<T>, n: int): seq<T> { if n <= 0 then text else if n >= |text| then [] else text[n..] }

  /** The draft after `name` replaced the query in [start, queryEnd). */
  function Replaced(draft: Text, start: int, queryEnd: int, name: Text): Text {
    Before(draft, start) + ([AT] + name) + [SPACE] + From(draft, queryEnd)
  }

  function ByStart<U>(): (Mention<U>, Mention<U>) -> int {
    (first: Mention<U>, second: Mention<U>) => first.start - second.start
  }

  /** The mentions after a selection, given the edit it amounts to. */
  function Selected<U>(draft: Text, next: Text, mentions: seq<Mention<U>>, range: Mention<U>,
                       e: Edit): seq<Mention<U>> {
    StableSort.Sort(Updated(draft, next, mentions, e) + [range], ByStart())
  }

  function Range<U>(user: U, start: int, name: Text): Mention<U> { Mention(user, start, start + |name| + 1) }

  /** A draft and its mentions. */
  datatype Writing<U> = Writing(draft: Text, mentions: seq<Mention<U>>)

  /** The user changes the draft to `next`. */
  function Typed<U>(w: Writing<U>, next: Text): Writing<U> {
    if w.draft == next then w else Writing(next, Updated(w.draft, next, w.mentions, EditBetween(w.draft, next)))
  }

  /** A suggestion replaces [start, queryEnd); a negative start is no query. */
  function Chosen<U>(w: Writing<U>, user: U, name: Text, start: int, queryEnd: int): Writing<U> {
    if start < 0 || |w.mentions| >= MAX_MENTIONS then w
    else
      var next := Replaced(w.draft, start, queryEnd, name);
      Writing(next, Selected(w.draft, next, w.mentions, Range(user, start, name), EditBetween(w.draft, next)))
  }

  class Draft<U> {
    var draft: Text
    var draftSnapshot: Text
    var draftMentions: seq<Mention<U>>
    var mentionQueryStart: int
    var mentionQueryEnd: int

    constructor ()
      ensures draft == [] && draftSnapshot == [] && draftMentions == [] && mentionQueryStart == -1
    {
      draft, draftSnapshot, draftMentions, mentionQueryStart, mentionQueryEnd := [], [], [], -1, -1;
    }

    method OnDraftChange()
      modifies this`draftSnapshot, this`draftMentions
      ensures draftSnapshot == draft
      ensures Writing(draft, draftMentions) == Typed(Writing(old(draftSnapshot), old(draftMentions)), draft)
    {
      if draftSnapshot != draft {
        draftMentions := UpdateMentionRanges(draftSnapshot, draft, draftMentions);
        draftSnapshot := draft;
      }
    }

    method SelectMention(user: U, displayName: Text)
      modifies this
      ensures mentionQueryEnd == old(mentionQueryEnd)
      ensures Writing(draft, draftMentions) ==
              Chosen(Writing(old(draft), old(draftMentions)), user, displayName, old(mentionQueryStart),
                     old(mentionQueryEnd))
      ensures if old(mentionQueryStart) < 0 || |old(draftMentions)| >= MAX_MENTIONS
              then draftSnapshot == old(draftSnapshot) && mentionQueryStart == old(mentionQueryStart)
              else draftSnapshot == draft && mentionQueryStart == -1
    {
      if mentionQueryStart < 0 || |draftMentions| >= 16 { return; }
      var next := Replaced(draft, mentionQueryStart, mentionQueryEnd, displayName);
      var range := Mention(user, mentionQueryStart, mentionQueryStart + |displayName| + 1);
      var preserved := UpdateMentionRanges(draft, next, draftMentions);
      assert preserved == Updated(draft, next, draftMentions, EditBetween(draft, next));
      draftMentions := StableSort.Sort(preserved + [range], ByStart());
      draft := next;
      draftSnapshot := next;
      mentionQueryStart := -1;
    }

    /** `delivered` is whether the message could be sent; only then is the composer emptied. */
    method SendMessage(isSpace: CodeUnit -> bool, delivered: bool) returns (body: Text, mentions: seq<Mention<U>>)
      modifies this`draft, this`draftSnapshot, this`draftMentions
      ensures body == Trimmed(old(draft), isSpace)
      ensures body != [] ==> mentions == Inside(old(draftMentions), Leading(old(draft), isSpace), |body|)
      ensures if body != [] && delivered then draft == [] && draftSnapshot == [] && draftMentions == []
              else draft == old(draft) && draftSnapshot == old(draftSnapshot) && draftMentions == old(draftMentions)
    {
      body := Trimmed(draft, isSpace);
      mentions := [];
      if body == [] { return; }
      var trimOffset := Leading(draft, isSpace);
      var i := 0;
      while i < |draftMentions|
        invariant 0 <= i <= |draftMentions|
        invariant mentions == Inside(draftMentions[..i], trimOffset, |body|)
        invariant draft == old(draft) && draftSnapshot == old(draftSnapshot) && draftMentions == old(draftMentions)
      {
        var mention := draftMentions[i];
        assert draftMentions[..i + 1][..i] == draftMentions[..i];
        if mention.start >= trimOffset && mention.end <= trimOffset + |body| {
          mentions := mentions + [mention.(start := mention.start - trimOffset, end := mention.end - trimOffset)];
        } else {
          assert mentions + [] == mentions;
        }
        i := i + 1;
      }
      assert draftMentions[..i] == draftMentions;
      if delivered { draft, draftSnapshot, draftMentions := [], [], []; }
    }
  }

  // ----- Selecting ------------------------------------------------------------------------------

  /** A region to replace: it ends with an '@' or with a query's last unit, which is not a space. */
  predicate IsRegion(draft: Text, start: int, queryEnd: int) {
    0 <= start < queryEnd <= |draft| && draft[queryEnd - 1] != SPACE
  }

  /** A region that begins with its '@': after it come query units, none of which is an '@' or a space. */
  predicate IsQuery(draft: Text, start: int, queryEnd: int) {
    && 0 <= start < queryEnd <= |draft|
    && draft[start] == AT
    && forall k :: start < k < queryEnd ==> draft[k] != AT && draft[k] != SPACE
  }

  /** The unit of the draft, the name or the punctuation between them that lands at `k`. */
  function Source(draft: Text, start: int, queryEnd: int, name: Text, k: int): CodeUnit
    requires 0 <= start < queryEnd <= |draft| && 0 <= k < |draft| + |name| + 2 - (queryEnd - start)
  {
    if k < start then draft[k]
    else if k == start then AT
    else if k <= start + |name| then name[k - start - 1]
    else if k == start + |name| + 1 then SPACE
    else draft[k - (|name| + 2 - (queryEnd - start))]
  }

  /** `next` is the draft after the replacement, unit by unit. */
  ghost predicate IsReplacement(draft: Text, start: int, queryEnd: int, name: Text, next: Text) {
    && IsRegion(draft, start, queryEnd)
    && |next| == |draft| + |name| + 2 - (queryEnd - start)
    && forall k :: 0 <= k < |next| ==> FromStart(next, k) == Source(draft, start, queryEnd, name, k)
  }

  lemma ReplacedIsReplacement(draft: Text, start: int, queryEnd: int, name: Text)
    requires IsRegion(draft, start, queryEnd)
    ensures IsReplacement(draft, start, queryEnd, name, Replaced(draft, start, queryEnd, name))
  {
  }

  /** A replacement that does not lengthen the draft differs from it at the space it puts after the name. */
  lemma ShorterStopsAtSpace(draft: Text, start: int, queryEnd: int, name: Text, next: Text)
    requires IsQuery(draft, start, queryEnd) && IsReplacement(draft, start, queryEnd, name, next)
    ensures |next| <= |draft| ==> CommonPrefix(draft, next) <= start + |name| + 1 < queryEnd
  {
    var x := start + |name| + 1;
    assert FromStart(next, x) == SPACE;
    if |next| <= |draft| {
      PrefixStopsAt(draft, next, x);
    }
  }

  /** The common prefix does not reach past any '@' after the query's own. */
  lemma {:induction false} PrefixStopsAtSigns(draft: Text, start: int, queryEnd: int, name: Text, next: Text, p: int)
    requires IsQuery(draft, start, queryEnd) && IsReplacement(draft, start, queryEnd, name, next) && AT !in name
    requires start < p < |draft| && draft[p] == AT
    ensures CommonPrefix(draft, next) <= p
    decreases p
  {
    ShorterStopsAtSpace(draft, start, queryEnd, name, next);
    if CommonPrefix(draft, next) > p {
      HeadAt(draft, next, CommonPrefix(draft, next), p);
      assert FromStart(next, p) == AT;
      PrefixStopsAtSigns(draft, start, queryEnd, name, next, p - (|next| - |draft|));
    }
  }

  lemma PrefixIsLong(draft: Text, start: int, queryEnd: int, name: Text, next: Text)
    requires IsReplacement(draft, start, queryEnd, name, next)
    ensures CommonPrefix(draft, next) >= start
  {
    forall k | 0 <= k < start ensures next[k] == draft[k] {
      assert FromStart(next, k) == draft[k];
    }
  }

  /** The replaced region ends no later than the query does, unless the prefix already reaches past it. */
  lemma SuffixReachesQuery(draft: Text, start: int, queryEnd: int, name: Text, next: Text, e: Edit)
    requires IsQuery(draft, start, queryEnd) && IsReplacement(draft, start, queryEnd, name, next)
    requires IsEdit(draft, next, e)
    ensures OldEnd(draft, e) <= queryEnd || OldEnd(draft, e) <= e.prefix
  {
    ShorterStopsAtSpace(draft, start, queryEnd, name, next);
    forall k | 0 <= k < |draft| - queryEnd ensures FromEnd(next, k) == FromEnd(draft, k) {
      assert FromStart(next, |next| - k - 1) == draft[|draft| - k - 1];
    }
  }

  /** How many spans end before the query. */
  function Earlier<U>(mentions: seq<Mention<U>>, start: int): (s: nat)
    ensures s <= |mentions|
    ensures s > 0 ==> mentions[s - 1].end <= start
    ensures forall i :: s <= i < |mentions| ==> mentions[i].end > start
  {
    if mentions == [] then 0
    else if mentions[|mentions| - 1].end <= start then |mentions|
    else Earlier(mentions[..|mentions| - 1], start)
  }

  /** How many spans begin at the query or before it. */
  function Begun<U>(mentions: seq<Mention<U>>, start: int): (b: nat)
    ensures b <= |mentions|
    ensures b > 0 ==> mentions[b - 1].start <= start
    ensures forall i :: b <= i < |mentions| ==> mentions[i].start > start
  {
    if mentions == [] then 0
    else if mentions[|mentions| - 1].start <= start then |mentions|
    else Begun(mentions[..|mentions| - 1], start)
  }

  /** The spans from the `s`th on, shifted. */
  function Later<U>(mentions: seq<Mention<U>>, s: nat, delta: int): (later: seq<Mention<U>>)
    ensures |later| == if s <= |mentions| then |mentions| - s else 0
  {
    if |mentions| <= s then []
    else
      var m := mentions[|mentions| - 1];
      Later(mentions[..|mentions| - 1], s, delta) + [m.(start := m.start + delta, end := m.end + delta)]
  }

  /** The list a selection should leave: earlier spans, the new one in place of any it meets, later spans shifted. */
  function WithRange<U>(mentions: seq<Mention<U>>, range: Mention<U>, delta: int): seq<Mention<U>> {
    mentions[..Earlier(mentions, range.start)] + [range] + Later(mentions, Begun(mentions, range.start), delta)
  }

  /** The draft up to `end` is still there. */
  predicate Stands(draft: Text, next: Text, end: int) { 0 <= end <= |draft| && draft[..end] <= next }

  lemma StandsInPrefix(draft: Text, next: Text, end: int)
    requires 0 <= end <= |draft|
    ensures Stands(draft, next, end) <==> end <= CommonPrefix(draft, next)
  {
    var n := CommonPrefix(draft, next);
    if n < end {
      assert n < |next| ==> draft[..end][n] != next[n];
    } else {
      forall k | 0 <= k < end ensures draft[k] == next[k] {
        HeadAt(draft, next, n, k);
      }
    }
  }

  /**
   * A span reaches over the query's first unit, and the whole of it still stands where it stood: the
   * replacement spells again what was there.
   */
  predicate Reselects<U>(draft: Text, mentions: seq<Mention<U>>, start: int, next: Text) {
    exists i :: 0 <= i < |mentions| && mentions[i].start <= start < mentions[i].end &&
      Stands(draft, next, mentions[i].end)
  }

  lemma ReselectsIffKept<U>(draft: Text, mentions: seq<Mention<U>>, start: int, next: Text)
    requires forall i :: 0 <= i < |mentions| ==> ValidSpan(draft, mentions[i].start, mentions[i].end)
    ensures Reselects(draft, mentions, start, next) <==>
            exists i :: 0 <= i < |mentions| && mentions[i].start <= start < mentions[i].end &&
              mentions[i].end <= CommonPrefix(draft, next)
  {
    forall i | 0 <= i < |mentions|
      ensures Stands(draft, next, mentions[i].end) <==> mentions[i].end <= CommonPrefix(draft, next)
    {
      assert ValidSpan(draft, mentions[i].start, mentions[i].end);
      StandsInPrefix(draft, next, mentions[i].end);
    }
  }

  // ----- Which spans move -----------------------------------------------------------------------

  /** The spans before `s` stay, those from `b` on are shifted, and those between meet the edit. */
  lemma {:induction false} MovedAround<U>(mentions: seq<Mention<U>>, prefix: int, oldEnd: int, delta: int, s: nat,
                                          b: nat)
    requires s <= b <= |mentions|
    requires forall i :: 0 <= i < s ==> mentions[i].end <= prefix
    requires forall i :: s <= i < b ==> Meets(mentions[i], prefix, oldEnd)
    requires forall i :: b <= i < |mentions| ==> prefix < mentions[i].end && oldEnd <= mentions[i].start
    ensures MovedSpans(mentions, prefix, oldEnd, delta) == mentions[..s] + Later(mentions, b, delta)
  {
    if s == |mentions| {
      Unmoved(mentions, prefix, oldEnd, delta);
      assert mentions[..s] == mentions;
      assert mentions + [] == mentions;
    } else {
      var n := |mentions| - 1;
      MovedAround(mentions[..n], prefix, oldEnd, delta, s, if b <= n then b else n);
      assert mentions[..n][..s] == mentions[..s];
    }
  }

  lemma {:induction false} Unmoved<U>(mentions: seq<Mention<U>>, prefix: int, oldEnd: int, delta: int)
    requires forall i :: 0 <= i < |mentions| ==> mentions[i].end <= prefix
    ensures MovedSpans(mentions, prefix, oldEnd, delta) == mentions
  {
    if mentions != [] {
      var n := |mentions| - 1;
      Unmoved(mentions[..n], prefix, oldEnd, delta);
      assert mentions == mentions[..n] + [mentions[n]];
    }
  }

  /** The common prefix stops before every later span. */
  lemma PrefixStopsAtSpans<U>(draft: Text, mentions: seq<Mention<U>>, start: int, queryEnd: int, name: Text, next: Text)
    requires IsQuery(draft, start, queryEnd) && IsReplacement(draft, start, queryEnd, name, next) && AT !in name
    requires forall i :: 0 <= i < |mentions| ==> ValidSpan(draft, mentions[i].start, mentions[i].end)
    ensures forall i :: 0 <= i < |mentions| && mentions[i].start > start ==>
            CommonPrefix(draft, next) <= mentions[i].start
  {
    forall i | 0 <= i < |mentions| && mentions[i].start > start ensures CommonPrefix(draft, next) <= mentions[i].start {
      PrefixStopsAtSigns(draft, start, queryEnd, name, next, mentions[i].start);
    }
  }

  /** Where the first of the spans goes that are not left alone. */
  function Staying<U>(draft: Text, mentions: seq<Mention<U>>, start: int, next: Text): nat {
    if Reselects(draft, mentions, start, next) then Begun(mentions, start) else Earlier(mentions, start)
  }

  /**
   * The edit leaves the spans before the query alone and shifts all those after it; one that reaches over
   * the query's '@' is dropped, unless it stands again.
   */
  lemma {:induction false} SelectionMoves<U>(draft: Text, mentions: seq<Mention<U>>, acceptable: U -> bool, start: int,
                                             queryEnd: int, name: Text, next: Text, e: Edit)
    requires IsQuery(draft, start, queryEnd) && ValidMentions(draft, mentions, acceptable)
    requires IsReplacement(draft, start, queryEnd, name, next) && AT !in name
    requires IsEdit(draft, next, e)
    ensures Staying(draft, mentions, start, next) <= |mentions|
    ensures Updated(draft, next, mentions, e) == mentions[..Staying(draft, mentions, start, next)] +
            Later(mentions, Begun(mentions, start), Delta(draft, next))
  {
    PrefixPassesSign(draft, start, queryEnd, name, next);
    PrefixStopsAtSpans(draft, mentions, start, queryEnd, name, next);
    SuffixReachesQuery(draft, start, queryEnd, name, next, e);
    StayingEnd(draft, mentions, acceptable, start, next);
    SpansMove(draft, mentions, acceptable, start, queryEnd, e.prefix, OldEnd(draft, e), Delta(draft, next),
              Staying(draft, mentions, start, next));
  }

  lemma PrefixPassesSign(draft: Text, start: int, queryEnd: int, name: Text, next: Text)
    requires IsReplacement(draft, start, queryEnd, name, next) && draft[start] == AT
    ensures CommonPrefix(draft, next) > start
  {
    PrefixIsLong(draft, start, queryEnd, name, next);
    assert FromStart(next, start) == AT;
  }

  /** The spans that stay end in the common prefix; another that begins no later than the query reaches past it. */
  lemma {:induction false} StayingEnd<U>(draft: Text, mentions: seq<Mention<U>>, acceptable: U -> bool, start: int,
                                         next: Text)
    requires ValidMentions(draft, mentions, acceptable) && start <= CommonPrefix(draft, next)
    ensures var s, b, prefix := Staying(draft, mentions, start, next), Begun(mentions, start),
                CommonPrefix(draft, next);
            && s <= b
            && (forall i :: 0 <= i < s ==> mentions[i].end <= prefix)
            && (forall i :: s <= i < b ==> mentions[i].start <= start && prefix < mentions[i].end)
  {
    SpansNotEmpty(draft, mentions, acceptable);
    EarlierEnd(mentions, start);
    BegunBegin(mentions, start);
    BegunAround(mentions, start);
    ReselectsIffKept(draft, mentions, start, next);
  }

  lemma {:induction false} SpansMove<U>(draft: Text, mentions: seq<Mention<U>>, acceptable: U -> bool, start: int,
                                        queryEnd: int, prefix: int, oldEnd: int, delta: int, s: nat)
    requires IsQuery(draft, start, queryEnd) && ValidMentions(draft, mentions, acceptable)
    requires start < prefix <= oldEnd && (oldEnd <= queryEnd || oldEnd <= prefix)
    requires forall i :: 0 <= i < |mentions| && mentions[i].start > start ==> prefix <= mentions[i].start
    requires s <= Begun(mentions, start) && forall i :: 0 <= i < s ==> mentions[i].end <= prefix
    requires forall i :: s <= i < Begun(mentions, start) ==> mentions[i].start <= start && prefix < mentions[i].end
    ensures MovedSpans(mentions, prefix, oldEnd, delta) ==
            mentions[..s] + Later(mentions, Begun(mentions, start), delta)
  {
    SpansNotEmpty(draft, mentions, acceptable);
    BegunAfterQuery(draft, mentions, acceptable, start, queryEnd);
    MovedAround(mentions, prefix, oldEnd, delta, s, Begun(mentions, start));
  }

  lemma SpansNotEmpty<U>(draft: Text, mentions: seq<Mention<U>>, acceptable: U -> bool)
    requires ValidMentions(draft, mentions, acceptable)
    ensures forall i :: 0 <= i < |mentions| ==> mentions[i].start < mentions[i].end
  {
    forall i | 0 <= i < |mentions| ensures mentions[i].start < mentions[i].end {
      assert ValidSpan(draft, mentions[i].start, mentions[i].end);
    }
  }

  /** A span that begins after the query's '@' begins after the query. */
  lemma BegunAfterQuery<U>(draft: Text, mentions: seq<Mention<U>>, acceptable: U -> bool, start: int, queryEnd: int)
    requires IsQuery(draft, start, queryEnd) && ValidMentions(draft, mentions, acceptable)
    ensures forall i :: 0 <= i < |mentions| && mentions[i].start > start ==> queryEnd <= mentions[i].start
  {
    forall i | 0 <= i < |mentions| && mentions[i].start > start ensures queryEnd <= mentions[i].start {
      assert ValidSpan(draft, mentions[i].start, mentions[i].end);
    }
  }

  lemma {:induction false} EarlierEnd<U>(mentions: seq<Mention<U>>, start: int)
    requires forall i :: 0 <= i < |mentions| ==> mentions[i].start < mentions[i].end
    requires Ordered(mentions)
    ensures forall i :: 0 <= i < Earlier(mentions, start) ==> mentions[i].end <= start
  {
    var s := Earlier(mentions, start);
    forall i | 0 <= i < s ensures mentions[i].end <= start {
      if i < s - 1 { assert mentions[i].end <= mentions[s - 1].start; }
    }
  }

  lemma {:induction false} BegunBegin<U>(mentions: seq<Mention<U>>, start: int)
    requires forall i :: 0 <= i < |mentions| ==> mentions[i].start < mentions[i].end
    requires Ordered(mentions)
    ensures forall i :: 0 <= i < Begun(mentions, start) ==> mentions[i].start <= start
  {
    var b := Begun(mentions, start);
    forall i | 0 <= i < b ensures mentions[i].start <= start {
      if i < b - 1 { assert mentions[i].end <= mentions[b - 1].start; }
    }
  }

  /** At most one span reaches over a unit: the one between those that end before it and those that begin after. */
  lemma {:induction false} BegunAround<U>(mentions: seq<Mention<U>>, start: int)
    requires forall i :: 0 <= i < |mentions| ==> mentions[i].start < mentions[i].end
    requires Ordered(mentions)
    ensures Earlier(mentions, start) <= Begun(mentions, start) <= Earlier(mentions, start) + 1
  {
    var b, s := Begun(mentions, start), Earlier(mentions, start);
    EarlierEnd(mentions, start);
    BegunBegin(mentions, start);
    if s + 1 < |mentions| { assert mentions[s].end <= mentions[s + 1].start; }
  }

  /** A draft and its mentions, a region to replace, and room for one more mention. */
  predicate Composing<U>(draft: Text, mentions: seq<Mention<U>>, acceptable: U -> bool, start: int, queryEnd: int) {
    && IsRegion(draft, start, queryEnd)
    && ValidMentions(draft, mentions, acceptable) && EndsOnCharacters(draft, mentions)
    && |mentions| < MAX_MENTIONS
  }

  /** The common suffix does not reach into the region, whose last unit is not the space that ends the new text. */
  lemma SuffixStopsAtRegion(draft: Text, start: int, queryEnd: int, name: Text, next: Text, e: Edit)
    requires IsReplacement(draft, start, queryEnd, name, next) && IsEdit(draft, next, e)
    ensures OldEnd(draft, e) >= queryEnd
  {
    var k := |draft| - queryEnd;
    assert FromStart(next, start + |name| + 1) == SPACE;
    assert FromEnd(next, k) == SPACE;
    assert FromEnd(draft, k) != SPACE;
  }

  /** No surviving span begins inside the new one, which holds a single '@'. */
  lemma SurvivorMisses<U>(draft: Text, mentions: seq<Mention<U>>, acceptable: U -> bool, start: int, queryEnd: int,
                          name: Text, next: Text, e: Edit, k: nat)
    requires Composing(draft, mentions, acceptable, start, queryEnd) && AT !in name
    requires IsReplacement(draft, start, queryEnd, name, next) && IsEdit(draft, next, e)
    requires !Reselects(draft, mentions, start, next) && k < |Updated(draft, next, mentions, e)|
    ensures var t := Updated(draft, next, mentions, e)[k]; t.end <= start || start + |name| + 1 <= t.start
  {
    var t := Updated(draft, next, mentions, e)[k];
    UpdateKeepsValidity(draft, next, mentions, acceptable, e);
    var i, j := Origins(mentions, e.prefix, OldEnd(draft, e), Delta(draft, next), k, k);
    SuffixStopsAtRegion(draft, start, queryEnd, name, next, e);
    ReselectsIffKept(draft, mentions, start, next);
    assert ValidSpan(next, t.start, t.end);
    SignMisses(draft, start, queryEnd, name, next, t.start);
  }

  lemma SignMisses(draft: Text, start: int, queryEnd: int, name: Text, next: Text, p: int)
    requires IsReplacement(draft, start, queryEnd, name, next) && AT !in name
    requires 0 <= p < |next| && next[p] == AT
    ensures p <= start || start + |name| + 1 < p
  {
    assert FromStart(next, p) == Source(draft, start, queryEnd, name, p);
  }

  /** Sorting after appending puts the new span after those that begin no later than it does. */
  lemma {:induction false} RangePlaced<U>(body: Text, mentions: seq<Mention<U>>, acceptable: U -> bool,
                                          range: Mention<U>) returns (k: nat)
    requires ValidMentions(body, mentions, acceptable)
    ensures StableSort.IsInsertion(StableSort.Sort(mentions + [range], ByStart()), mentions, range, k)
    ensures forall i :: 0 <= i < k ==> mentions[i].start <= range.start
    ensures forall i :: k <= i < |mentions| ==> range.start < mentions[i].start
  {
    SortedByStart(body, mentions, acceptable);
    k := StableSort.AppendedAt(mentions, range, ByStart());
    forall i | k <= i < |mentions| ensures range.start < mentions[i].start {
      assert ByStart<U>()(mentions[i], range) > 0;
    }
    forall i | 0 <= i < k ensures mentions[i].start <= range.start {
      assert ByStart<U>()(mentions[k - 1], range) <= 0;
      if i < k - 1 { assert ByStart<U>()(mentions[i], mentions[k - 1]) <= 0; }
    }
  }

  /** The new span and one of the list are apart. */
  predicate Apart<U>(m: Mention<U>, range: Mention<U>) { m.end <= range.start || range.end <= m.start }

  /** A valid span can be put where it belongs in a valid list if and only if it is apart from all in it. */
  lemma InsertedIsOrdered<U>(all: seq<Mention<U>>, mentions: seq<Mention<U>>, range: Mention<U>, k: nat)
    requires StableSort.IsInsertion(all, mentions, range, k) && range.start < range.end
    requires forall i :: 0 <= i < |mentions| ==> mentions[i].start < mentions[i].end
    requires forall i :: 0 <= i < k ==> mentions[i].start <= range.start
    requires forall i :: k <= i < |mentions| ==> range.start < mentions[i].start
    requires Ordered(mentions)
    ensures Ordered(all) <==> forall i :: 0 <= i < |mentions| ==> Apart(mentions[i], range)
  {
    if Ordered(all) {
      forall i | 0 <= i < |mentions| ensures Apart(mentions[i], range) {
        if i < k { assert all[i].end <= all[k].start; } else { assert all[k].end <= all[i + 1].start; }
      }
    }
    if forall i :: 0 <= i < |mentions| ==> Apart(mentions[i], range) {
      forall i, j | 0 <= i < j < |all| ensures all[i].end <= all[j].start {
        if j == k {
          assert Apart(mentions[i], range);
        } else if i == k {
          assert Apart(mentions[j - 1], range);
        } else {
          assert mentions[if i < k then i else i - 1].end <= mentions[if j < k then j else j - 1].start;
        }
      }
    }
  }

  lemma {:induction false} InsertedIsValid<U>(body: Text, mentions: seq<Mention<U>>, acceptable: U -> bool,
                                              range: Mention<U>)
    requires ValidMentions(body, mentions, acceptable) && |mentions| < MAX_MENTIONS
    requires acceptable(range.user) && ValidSpan(body, range.start, range.end)
    ensures ValidMentions(body, StableSort.Sort(mentions + [range], ByStart()), acceptable)
            <==> forall i :: 0 <= i < |mentions| ==> Apart(mentions[i], range)
  {
    var all := StableSort.Sort(mentions + [range], ByStart());
    var k := RangePlaced(body, mentions, acceptable, range);
    SpansNotEmpty(body, mentions, acceptable);
    InsertedIsOrdered(all, mentions, range, k);
    forall i | 0 <= i < |all| ensures acceptable(all[i].user) && ValidSpan(body, all[i].start, all[i].end) {
      if i != k { assert all[i] == mentions[if i < k then i else i - 1]; }
    }
  }

  /** A span that stands again is kept, and not apart from the new one. */
  lemma {:induction false} SurvivorMeets<U>(draft: Text, mentions: seq<Mention<U>>, acceptable: U -> bool, next: Text,
                                            range: Mention<U>, e: Edit) returns (k: nat)
    requires ValidMentions(draft, mentions, acceptable) && IsEdit(draft, next, e)
    requires Reselects(draft, mentions, range.start, next) && range.start < range.end
    ensures k < |Updated(draft, next, mentions, e)| && !Apart(Updated(draft, next, mentions, e)[k], range)
  {
    ReselectsIffKept(draft, mentions, range.start, next);
    var i :| 0 <= i < |mentions| && mentions[i].start <= range.start < mentions[i].end && mentions[i].end <= e.prefix;
    k := Survives(mentions, e.prefix, OldEnd(draft, e), Delta(draft, next), i);
  }

  /**
   * Selecting a name that is not empty and holds no '@' leaves valid mentions exactly when no span that
   * reaches over the query's first unit stands again in the new draft.
   */
  lemma SelectionIsValid<U>(draft: Text, mentions: seq<Mention<U>>, acceptable: U -> bool, start: int, queryEnd: int,
                            user: U, name: Text, e: Edit)
    requires Composing(draft, mentions, acceptable, start, queryEnd)
    requires acceptable(user) && name != [] && AT !in name
    requires IsEdit(draft, Replaced(draft, start, queryEnd, name), e)
    ensures var next := Replaced(draft, start, queryEnd, name);
            ValidMentions(next, Selected(draft, next, mentions, Range(user, start, name), e), acceptable)
            <==> !Reselects(draft, mentions, start, next)
  {
    var next, range := Replaced(draft, start, queryEnd, name), Range(user, start, name);
    var updated := Updated(draft, next, mentions, e);
    ReplacedIsReplacement(draft, start, queryEnd, name);
    UpdateKeepsValidity(draft, next, mentions, acceptable, e);
    NoLonger(mentions, e.prefix, OldEnd(draft, e), Delta(draft, next));
    RangeIsValid(draft, start, queryEnd, name, next);
    InsertedIsValid(next, updated, acceptable, range);
    if Reselects(draft, mentions, start, next) {
      var k := SurvivorMeets(draft, mentions, acceptable, next, range, e);
    } else {
      forall k | 0 <= k < |updated| ensures Apart(updated[k], range) {
        SurvivorMisses(draft, mentions, acceptable, start, queryEnd, name, next, e, k);
      }
    }
  }

  /**
   * Then, for a query that begins with its '@', the list is the earlier spans, the new one covering '@'
   * and name, and the later ones shifted: a span that reached over the query is gone.
   */
  lemma SelectionKeepsSpans<U>(draft: Text, mentions: seq<Mention<U>>, acceptable: U -> bool, start: int, queryEnd: int,
                               user: U, name: Text, e: Edit)
    requires Composing(draft, mentions, acceptable, start, queryEnd) && IsQuery(draft, start, queryEnd)
    requires acceptable(user) && name != [] && AT !in name
    requires IsEdit(draft, Replaced(draft, start, queryEnd, name), e)
    requires !Reselects(draft, mentions, start, Replaced(draft, start, queryEnd, name))
    ensures var next, range := Replaced(draft, start, queryEnd, name), Range(user, start, name);
            && Selected(draft, next, mentions, range, e) == WithRange(mentions, range, Delta(draft, next))
            && SpanText(next, range.start, range.end) == [AT] + name
  {
    var next, range := Replaced(draft, start, queryEnd, name), Range(user, start, name);
    ReplacedIsReplacement(draft, start, queryEnd, name);
    RangeSpells(draft, start, queryEnd, range, name, next);
    SelectionPlaces(draft, mentions, acceptable, start, queryEnd, range, name, next, e);
  }

  lemma {:induction false} RangeSpells<U>(draft: Text, start: int, queryEnd: int, range: Mention<U>, name: Text,
                                          next: Text)
    requires IsReplacement(draft, start, queryEnd, name, next) && name != [] && range == Range(range.user, start, name)
    ensures SpanText(next, range.start, range.end) == [AT] + name
  {
    RangeIsValid(draft, start, queryEnd, name, next);
  }

  lemma {:induction false} SelectionPlaces<U>(draft: Text, mentions: seq<Mention<U>>, acceptable: U -> bool, start: int,
                                              queryEnd: int, range: Mention<U>, name: Text, next: Text, e: Edit)
    requires Composing(draft, mentions, acceptable, start, queryEnd) && IsQuery(draft, start, queryEnd)
    requires AT !in name && range == Range(range.user, start, name)
    requires IsReplacement(draft, start, queryEnd, name, next) && IsEdit(draft, next, e)
    requires !Reselects(draft, mentions, start, next)
    ensures Selected(draft, next, mentions, range, e) == WithRange(mentions, range, Delta(draft, next))
  {
    SelectionMoves(draft, mentions, acceptable, start, queryEnd, name, next, e);
    UpdateKeepsValidity(draft, next, mentions, acceptable, e);
    GapEdges(draft, mentions, acceptable, start, queryEnd, Delta(draft, next));
    SortInserts(next, mentions[..Earlier(mentions, start)], range,
                Later(mentions, Begun(mentions, start), Delta(draft, next)), acceptable);
  }

  lemma {:induction false} GapEdges<U>(draft: Text, mentions: seq<Mention<U>>, acceptable: U -> bool, start: int,
                                       queryEnd: int, delta: int)
    requires IsQuery(draft, start, queryEnd) && ValidMentions(draft, mentions, acceptable)
    ensures forall i :: 0 <= i < Earlier(mentions, start) ==> mentions[i].end <= start
    ensures var later := Later(mentions, Begun(mentions, start), delta);
            forall i :: 0 <= i < |later| ==> queryEnd + delta <= later[i].start
  {
    SpansNotEmpty(draft, mentions, acceptable);
    EarlierEnd(mentions, start);
    BegunAfterQuery(draft, mentions, acceptable, start, queryEnd);
    LaterStarts(mentions, Begun(mentions, start), queryEnd, delta);
  }

  lemma SortedByStart<U>(body: Text, mentions: seq<Mention<U>>, acceptable: U -> bool)
    requires ValidMentions(body, mentions, acceptable)
    ensures StableSort.Sorted(mentions, ByStart())
  {
    forall i, j | 0 <= i < j < |mentions| ensures ByStart<U>()(mentions[i], mentions[j]) <= 0 {
      assert mentions[i].end <= mentions[j].start && ValidSpan(body, mentions[i].start, mentions[i].end);
    }
  }

  /** Sorting after appending puts the new span into its gap. */
  lemma {:induction false} SortInserts<U>(body: Text, before: seq<Mention<U>>, range: Mention<U>,
                                          later: seq<Mention<U>>, acceptable: U -> bool)
    requires ValidMentions(body, before + later, acceptable)
    requires range.start < range.end
    requires forall i :: 0 <= i < |before| ==> before[i].end <= range.start
    requires forall i :: 0 <= i < |later| ==> range.end <= later[i].start
    ensures StableSort.Sort(before + later + [range], ByStart()) == before + [range] + later
  {
    var updated, s := before + later, |before|;
    SortedByStart(body, updated, acceptable);
    StableSort.SortOfSorted(updated, ByStart());
    assert (updated + [range])[..|updated|] == updated;
    forall i | s <= i < |updated| ensures ByStart<U>()(updated[i], range) > 0 {
      assert updated[i] == later[i - s];
    }
    if s > 0 {
      assert updated[s - 1] == before[s - 1] && ValidSpan(body, updated[s - 1].start, updated[s - 1].end);
    }
    StableSort.InsertAt(updated, range, ByStart(), s);
    assert updated[..s] == before && updated[s..] == later;
  }

  lemma {:induction false} RangeIsValid(draft: Text, start: int, queryEnd: int, name: Text, next: Text)
    requires IsReplacement(draft, start, queryEnd, name, next) && name != []
    ensures ValidSpan(next, start, start + |name| + 1) && SpanText(next, start, start + |name| + 1) == [AT] + name
  {
    var end := start + |name| + 1;
    assert FromStart(next, start) == AT && FromStart(next, end) == SPACE;
    forall k | start < k < end ensures next[k] == name[k - start - 1] {
      assert FromStart(next, k) == name[k - start - 1];
    }
    SpanTextIsSlice(next, start, end);
  }

  lemma {:induction false} LaterStarts<U>(mentions: seq<Mention<U>>, s: nat, queryEnd: int, delta: int)
    requires forall i :: s <= i < |mentions| ==> queryEnd <= mentions[i].start
    ensures forall i :: 0 <= i < |Later(mentions, s, delta)| ==> queryEnd + delta <= Later(mentions, s, delta)[i].start
  {
    if s < |mentions| {
      LaterStarts(mentions[..|mentions| - 1], s, queryEnd, delta);
    }
  }

  /** In every draft, only a span that stands again makes selecting the name leave an invalid list. */
  ghost predicate Safe<U(!new)>(user: U, name: Text, acceptable: U -> bool) {
    forall draft, mentions: seq<Mention<U>>, start, queryEnd, e ::
      Composing(draft, mentions, acceptable, start, queryEnd) &&
          IsEdit(draft, Replaced(draft, start, queryEnd, name), e) ==>
        (ValidMentions(Replaced(draft, start, queryEnd, name),
                       Selected(draft, Replaced(draft, start, queryEnd, name), mentions, Range(user, start, name), e),
                          acceptable)
         <==> !Reselects(draft, mentions, start, Replaced(draft, start, queryEnd, name)))
  }

  /** That is so exactly for the names that are not empty and hold no '@'. */
  lemma SafeNames<U(!new)>(user: U, name: Text, acceptable: U -> bool)
    requires acceptable(user)
    ensures Safe(user, name, acceptable) <==> name != [] && AT !in name
  {
    if name != [] && AT !in name {
      forall draft, mentions: seq<Mention<U>>, start, queryEnd, e |
        Composing(draft, mentions, acceptable, start, queryEnd) &&
            IsEdit(draft, Replaced(draft, start, queryEnd, name), e)
        ensures ValidMentions(Replaced(draft, start, queryEnd, name),
                              Selected(draft, Replaced(draft, start, queryEnd, name), mentions,
                                  Range(user, start, name), e), acceptable)
                <==> !Reselects(draft, mentions, start, Replaced(draft, start, queryEnd, name))
      {
        SelectionIsValid(draft, mentions, acceptable, start, queryEnd, user, name, e);
      }
    } else if name == [] {
      EmptyNameBreaks(user, acceptable);
    } else {
      var j :| 0 <= j < |name| && name[j] == AT;
      SignInNameBreaks(user, name, acceptable, j);
    }
  }

  lemma EmptyNameBreaks<U(!new)>(user: U, acceptable: U -> bool)
    requires acceptable(user)
    ensures !Safe(user, [], acceptable)
  {
    var draft: Text := [AT];
    var none: seq<Mention<U>> := [];
    var next := Replaced(draft, 0, 1, []);
    assert next == [AT, SPACE];
    var e := Edit(1, 0);
    PrefixIsUnique(draft, next, 1);
    assert Composing(draft, none, acceptable, 0, 1) && IsEdit(draft, next, e);
    var range := Range(user, 0, []);
    assert Updated(draft, next, none, e) + [range] == [range];
    StableSort.SortOfSorted([range], ByStart());
    assert Selected(draft, next, none, range, e) == [range];
    assert !ValidSpan(next, range.start, range.end);
  }

  /** The draft "@name " already ends in a mention starting at the name's own '@'; the new span swallows it. */
  lemma SignInNameBreaks<U(!new)>(user: U, name: Text, acceptable: U -> bool, j: nat)
    requires acceptable(user) && j < |name| && name[j] == AT
    ensures !Safe(user, name, acceptable)
  {
    var draft := [AT] + name + [SPACE];
    var last, range := Mention(user, j + 1, |draft|), Range(user, 0, name);
    var next := Replaced(draft, 0, 1, name);
    var e := RepeatedName(name, draft, next);
    UnmovedPair(draft, next, last, range, e);
    assert [range, last][0].end > [range, last][1].start;
  }

  lemma UnmovedPair<U>(draft: Text, next: Text, last: Mention<U>, range: Mention<U>, e: Edit)
    requires e == Edit(|draft|, 0) && last.end <= |draft| && range.start < last.start
    ensures Selected(draft, next, [last], range, e) == [range, last]
  {
    Unmoved([last], e.prefix, OldEnd(draft, e), Delta(draft, next));
    StableSort.SortTwo(last, range, ByStart());
  }

  lemma RepeatedName(name: Text, draft: Text, next: Text) returns (e: Edit)
    requires draft == [AT] + name + [SPACE] && next == Replaced(draft, 0, 1, name)
    ensures e == Edit(|draft|, 0) && IsEdit(draft, next, e)
  {
    ReplacedIsReplacement(draft, 0, 1, name);
    e := Edit(|draft|, 0);
    PrefixIsUnique(draft, next, |draft|);
  }

  // ----- Sending --------------------------------------------------------------------------------

  function Leading(draft: Text, isSpace: CodeUnit -> bool): (n: nat)
    ensures n <= |draft| && (n > 0 ==> isSpace(draft[n - 1])) && (n < |draft| ==> !isSpace(draft[n]))
    ensures AllSpace(Before(draft, n), isSpace)
  {
    if draft != [] && isSpace(draft[0]) then 1 + Leading(draft[1..], isSpace) else 0
  }

  function WithoutTrailing(text: Text, isSpace: CodeUnit -> bool): (t: Text)
    ensures t <= text && (|t| < |text| ==> isSpace(text[|t|])) && (t != [] ==> !isSpace(t[|t| - 1]))
  {
    if text != [] && isSpace(text[|text| - 1]) then WithoutTrailing(text[..|text| - 1], isSpace) else text
  }

  function Trimmed(draft: Text, isSpace: CodeUnit -> bool): Text {
    WithoutTrailing(From(draft, Leading(draft, isSpace)), isSpace)
  }

  /** The spans inside [offset, offset + length), moved to begin at zero. */
  function Inside<U>(mentions: seq<Mention<U>>, offset: int, length: int): seq<Mention<U>> {
    if mentions == [] then []
    else
      var m := mentions[|mentions| - 1];
      Inside(mentions[..|mentions| - 1], offset, length) +
      (if offset <= m.start && m.end <= offset + length
       then [m.(start := m.start - offset, end := m.end - offset)]
       else [])
  }

  /** Each sent span is a draft span inside the body, shifted; order is kept. */
  lemma {:induction false} InsideOrigins<U>(mentions: seq<Mention<U>>, offset: int, length: int, k: nat, l: nat)
    returns (i: nat, j: nat)
    requires k <= l < |Inside(mentions, offset, length)|
    ensures i <= j < |mentions| && (k < l ==> i < j)
    ensures forall x :: x == i || x == j ==> offset <= mentions[x].start && mentions[x].end <= offset + length
    ensures var a, b := Inside(mentions, offset, length)[k], Inside(mentions, offset, length)[l];
            && mentions[i] == a.(start := a.start + offset, end := a.end + offset)
            && mentions[j] == b.(start := b.start + offset, end := b.end + offset)
  {
    var n := |mentions| - 1;
    var front := Inside(mentions[..n], offset, length);
    if l < |front| {
      i, j := InsideOrigins(mentions[..n], offset, length, k, l);
    } else if k < |front| {
      var same;
      i, same := InsideOrigins(mentions[..n], offset, length, k, k);
      j := n;
    } else {
      i, j := n, n;
    }
  }

  lemma {:induction false} InsideNoLonger<U>(mentions: seq<Mention<U>>, offset: int, length: int)
    ensures |Inside(mentions, offset, length)| <= |mentions|
  {
    if mentions != [] { InsideNoLonger(mentions[..|mentions| - 1], offset, length); }
  }

  /** Every draft span inside the body is sent, and of two such spans the earlier one first. */
  lemma {:induction false} AllInsideSent<U>(mentions: seq<Mention<U>>, offset: int, length: int, i: nat, j: nat)
    returns (k: nat, l: nat)
    requires i <= j < |mentions|
    requires forall x :: x == i || x == j ==> offset <= mentions[x].start && mentions[x].end <= offset + length
    ensures k <= l < |Inside(mentions, offset, length)| && (i < j ==> k < l)
    ensures var a, b := Inside(mentions, offset, length)[k], Inside(mentions, offset, length)[l];
            && mentions[i] == a.(start := a.start + offset, end := a.end + offset)
            && mentions[j] == b.(start := b.start + offset, end := b.end + offset)
  {
    var n := |mentions| - 1;
    var front := Inside(mentions[..n], offset, length);
    if j < n {
      k, l := AllInsideSent(mentions[..n], offset, length, i, j);
    } else if i < n {
      var same;
      k, same := AllInsideSent(mentions[..n], offset, length, i, i);
      l := |front|;
    } else {
      k, l := |front|, |front|;
    }
  }

  /** What is sent is the draft without the white space around it, and nothing else is taken away. */
  lemma {:induction false} SentBodyIsTrimmed(draft: Text, isSpace: CodeUnit -> bool)
    ensures IsTrimmed(draft, Leading(draft, isSpace), Trimmed(draft, isSpace), isSpace)
  {
    var before, rest := AfterLeading(draft, isSpace);
    TrailingIsSpace(rest, isSpace);
    TrimmedParts(draft, before, rest, WithoutTrailing(rest, isSpace), Trailing(rest, isSpace), isSpace);
  }

  lemma AfterLeading(draft: Text, isSpace: CodeUnit -> bool) returns (before: Text, rest: Text)
    ensures draft == before + rest && |before| == Leading(draft, isSpace) && AllSpace(before, isSpace)
    ensures rest != [] ==> !isSpace(rest[0])
    ensures WithoutTrailing(rest, isSpace) == Trimmed(draft, isSpace)
  {
    before, rest := Before(draft, Leading(draft, isSpace)), From(draft, Leading(draft, isSpace));
  }

  /** What `WithoutTrailing` takes away. */
  function Trailing(text: Text, isSpace: CodeUnit -> bool): Text {
    if text != [] && isSpace(text[|text| - 1]) then Trailing(text[..|text| - 1], isSpace) + [text[|text| - 1]] else []
  }

  lemma {:induction false} TrailingIsSpace(text: Text, isSpace: CodeUnit -> bool)
    ensures text == WithoutTrailing(text, isSpace) + Trailing(text, isSpace)
    ensures AllSpace(Trailing(text, isSpace), isSpace)
  {
    if text != [] && isSpace(text[|text| - 1]) {
      var front := text[..|text| - 1];
      TrailingIsSpace(front, isSpace);
      assert text == front + [text[|text| - 1]];
    }
  }

  /** No space is a surrogate, so trimming cuts the draft cleanly. */
  lemma TrimCuts(draft: Text, isSpace: CodeUnit -> bool) returns (before: Text, after: Text)
    requires forall u: CodeUnit :: isSpace(u) ==> !IsHigh(u) && !IsLow(u)
    ensures draft == before + Trimmed(draft, isSpace) + after
    ensures |before| == Leading(draft, isSpace)
    ensures CleanCut(before, Trimmed(draft, isSpace), after)
  {
    var n, body := Leading(draft, isSpace), Trimmed(draft, isSpace);
    before, after := Before(draft, n), From(From(draft, n), |body|);
  }

  lemma {:induction false} SentInOrder<U>(mentions: seq<Mention<U>>, offset: int, length: int)
    requires Ordered(mentions)
    ensures Ordered(Inside(mentions, offset, length))
  {
    var sent := Inside(mentions, offset, length);
    forall k, l | 0 <= k < l < |sent| ensures sent[k].end <= sent[l].start {
      var i, j := InsideOrigins(mentions, offset, length, k, l);
      assert mentions[i].end <= mentions[j].start;
    }
  }

  lemma {:induction false} CutMentions<U>(before: Text, body: Text, after: Text, mentions: seq<Mention<U>>,
                                          acceptable: U -> bool)
    requires CleanCut(before, body, after)
    requires ValidMentions(before + body + after, mentions, acceptable)
    ensures ValidMentions(body, Inside(mentions, |before|, |body|), acceptable)
  {
    var sent := Inside(mentions, |before|, |body|);
    InsideNoLonger(mentions, |before|, |body|);
    SentInOrder(mentions, |before|, |body|);
    InsideAgrees(before, body, after, mentions);
    forall k | 0 <= k < |sent| ensures acceptable(sent[k].user) && ValidSpan(body, sent[k].start, sent[k].end) {
      var i, j := InsideOrigins(mentions, |before|, |body|, k, k);
      assert ValidSpan(before + body + after, mentions[i].start, mentions[i].end);
    }
  }

  /** The sent list is valid for the sent body, and a span that is sent covers what it covered in the draft. */
  lemma {:induction false} SentMentionsAreValid<U>(draft: Text, mentions: seq<Mention<U>>, isSpace: CodeUnit -> bool,
                                                   acceptable: U -> bool)
    requires ValidMentions(draft, mentions, acceptable)
    requires forall u: CodeUnit :: isSpace(u) ==> !IsHigh(u) && !IsLow(u)
    ensures var body, offset := Trimmed(draft, isSpace), Leading(draft, isSpace);
            ValidMentions(body, Inside(mentions, offset, |body|), acceptable) &&
                CoversInside(body, draft, mentions, offset)
  {
    var before, after := TrimCuts(draft, isSpace);
    CutMentions(before, Trimmed(draft, isSpace), after, mentions, acceptable);
    InsideCovers(before, Trimmed(draft, isSpace), after, mentions);
  }
}
