/**
 * Mentions of a message: half-open UTF-16 spans that begin at an '@'.  `U` is the type of user IDs and
 * `acceptable` the test for them, which the two clients answer differently.
 */
module Mentions {
  import opened Utf16

  datatype Mention<U> = Mention(user: U, start: int, end: int)

  const MAX_MENTIONS := 16

  predicate ValidSpan(body: Text, start: int, end: int) {
    && 0 <= start && start + 1 < end <= |body|
    && body[start] == AT
    && !SplitsSurrogatePair(body, start) && !SplitsSurrogatePair(body, end)
  }

  predicate Ordered<U>(mentions: seq<Mention<U>>) {
    forall i, j :: 0 <= i < j < |mentions| ==> mentions[i].end <= mentions[j].start
  }

  /** What both validators decide. */
  predicate ValidMentions<U>(body: Text, mentions: seq<Mention<U>>, acceptable: U -> bool) {
    && |mentions| <= MAX_MENTIONS
    && (forall i :: 0 <= i < |mentions| ==>
         acceptable(mentions[i].user) && ValidSpan(body, mentions[i].start, mentions[i].end))
    && Ordered(mentions)
  }

  method IsValidMessageMentions<U>(mentions: seq<Mention<U>>, body: Text, acceptable: U -> bool) returns (valid: bool)
    ensures valid <==> ValidMentions(body, mentions, acceptable)
  {
    if |mentions| > 16 { return false; }
    var previousEnd := 0;
    var i := 0;
    while i < |mentions|
      invariant 0 <= i <= |mentions|
      invariant forall k :: 0 <= k < i ==>
                acceptable(mentions[k].user) && ValidSpan(body, mentions[k].start, mentions[k].end)
      invariant forall a, b :: 0 <= a < b < i ==> mentions[a].end <= mentions[b].start
      invariant i > 0 ==> previousEnd == mentions[i - 1].end
      invariant i == 0 ==> previousEnd == 0
      invariant forall k :: 0 <= k < i ==> mentions[k].end <= previousEnd
    {
      var item := mentions[i];
      if !acceptable(item.user) || item.start < previousEnd || item.end <= item.start + 1 || item.end > |body| ||
         body[item.start] != AT || SplitsSurrogatePair(body, item.start) || SplitsSurrogatePair(body, item.end) {
        if i > 0 && item.start < previousEnd { assert mentions[i - 1].end > mentions[i].start; }
        return false;
      }
      previousEnd := item.end;
      i := i + 1;
    }
    return true;
  }

  // ----- Text segments --------------------------------------------------------------------------

  datatype Segment = Segment(text: Text, mentioned: bool)

  function Joined(segments: seq<Segment>): Text {
    if segments == [] then [] else Joined(segments[..|segments| - 1]) + segments[|segments| - 1].text
  }

  function Highlighted(segments: seq<Segment>): seq<Text> {
    if segments == [] then []
    else
      var last := segments[|segments| - 1];
      Highlighted(segments[..|segments| - 1]) + (if last.mentioned then [last.text] else [])
  }

  /** The text a span covers, empty when it does not lie in the body. */
  function SpanText(body: Text, start: int, end: int): (span: Text)
    ensures |span| == if 0 <= start <= end <= |body| then end - start else 0
    decreases end
  {
    if 0 <= start < end <= |body| then SpanText(body, start, end - 1) + [body[end - 1]] else []
  }

  lemma {:induction false} SpanTextIsSlice(body: Text, start: int, end: int)
    requires 0 <= start <= end <= |body|
    ensures SpanText(body, start, end) == body[start..end]
    decreases end
  {
    if start < end {
      SpanTextIsSlice(body, start, end - 1);
      assert body[start..end] == body[start..end - 1] + [body[end - 1]];
    }
  }

  /** Spans of two bodies cover the same text when the units agree one by one. */
  lemma {:induction false} SameSpanText(a: Text, b: Text, start: int, end: int, shift: int)
    requires 0 <= start <= end <= |b| && 0 <= start + shift && end + shift <= |a|
    requires forall k :: start <= k < end ==> a[k + shift] == b[k]
    ensures SpanText(a, start + shift, end + shift) == SpanText(b, start, end)
    decreases end
  {
    if start < end {
      SameSpanText(a, b, start, end - 1, shift);
      assert a[end - 1 + shift] == b[end - 1];
    }
  }

  function Covered<U>(body: Text, mentions: seq<Mention<U>>): seq<Text> {
    if mentions == [] then []
    else
      var m := mentions[|mentions| - 1];
      Covered(body, mentions[..|mentions| - 1]) + [SpanText(body, m.start, m.end)]
  }

  lemma {:induction false} CoveredAppend<U>(body: Text, mentions: seq<Mention<U>>, i: nat)
    requires i < |mentions|
    ensures Covered(body, mentions[..i + 1]) ==
            Covered(body, mentions[..i]) + [SpanText(body, mentions[i].start, mentions[i].end)]
  {
    assert mentions[..i + 1][..i] == mentions[..i];
  }

  lemma {:induction false} JoinedAppend(segments: seq<Segment>, s: Segment)
    ensures Joined(segments + [s]) == Joined(segments) + s.text
    ensures Highlighted(segments + [s]) == Highlighted(segments) + (if s.mentioned then [s.text] else [])
  {
    assert (segments + [s])[..|segments|] == segments;
  }

  /**
   * The segments spell out the body; for a valid list the highlighted ones are exactly the covered
   * texts in order, for any other list nothing is highlighted.  No segment but an only one is empty.
   */
  method MessageTextSegments<U>(body: Text, mentions: seq<Mention<U>>, acceptable: U -> bool)
    returns (segments: seq<Segment>)
    ensures Joined(segments) == body
    ensures ValidMentions(body, mentions, acceptable) ==> Highlighted(segments) == Covered(body, mentions)
    ensures !ValidMentions(body, mentions, acceptable) ==> segments == [Segment(body, false)]
    ensures |segments| == 1 || NoneEmpty(segments)
  {
    var valid := IsValidMessageMentions(mentions, body, acceptable);
    if valid {
      segments := Split(body, mentions);
    } else {
      segments := [Segment(body, false)];
      JoinedAppend([], Segment(body, false));
      assert segments == [] + segments;
    }
  }

  method Split<U>(body: Text, mentions: seq<Mention<U>>) returns (segments: seq<Segment>)
    requires Ordered(mentions)
    requires forall i :: 0 <= i < |mentions| ==> 0 <= mentions[i].start < mentions[i].end <= |body|
    ensures Joined(segments) == body
    ensures Highlighted(segments) == Covered(body, mentions)
    ensures |segments| == 1 || NoneEmpty(segments)
  {
    segments := [];
    var cursor := 0;
    var i := 0;
    while i < |mentions|
      invariant 0 <= i <= |mentions|
      invariant 0 <= cursor <= |body|
      invariant i > 0 ==> cursor == mentions[i - 1].end
      invariant i == 0 ==> cursor == 0 && segments == []
      invariant Joined(segments) == body[..cursor]
      invariant Highlighted(segments) == Covered(body, mentions[..i])
      invariant NoneEmpty(segments)
    {
      var mention := mentions[i];
      CoveredAppend(body, mentions, i);
      ghost var highlighted := Highlighted(segments);
      if mention.start > cursor {
        segments := Push(segments, body, cursor, mention.start, false);
        assert Highlighted(segments) == highlighted;
      }
      segments := Push(segments, body, mention.start, mention.end, true);
      cursor := mention.end;
      i := i + 1;
    }
    assert mentions[..i] == mentions;
    segments := PushRest(segments, body, cursor);
  }

  method PushRest(segments: seq<Segment>, body: Text, cursor: int) returns (all: seq<Segment>)
    requires 0 <= cursor <= |body|
    requires Joined(segments) == body[..cursor] && NoneEmpty(segments)
    ensures Joined(all) == body && Highlighted(all) == Highlighted(segments)
    ensures |all| == 1 || NoneEmpty(all)
  {
    all := segments;
    if cursor < |body| || |segments| == 0 {
      all := segments + [Segment(body[cursor..], false)];
      JoinedAppend(segments, Segment(body[cursor..], false));
    }
    assert body == body[..cursor] + body[cursor..];
  }

  predicate NoneEmpty(segments: seq<Segment>) {
    forall k :: 0 <= k < |segments| ==> segments[k].text != []
  }

  method Push(segments: seq<Segment>, body: Text, start: int, end: int, mentioned: bool) returns (longer: seq<Segment>)
    requires 0 <= start < end <= |body|
    requires Joined(segments) == body[..start] && NoneEmpty(segments)
    ensures longer == segments + [Segment(body[start..end], mentioned)]
    ensures Joined(longer) == body[..end] && NoneEmpty(longer)
    ensures Highlighted(longer) == Highlighted(segments) + (if mentioned then [SpanText(body, start, end)] else [])
  {
    longer := segments + [Segment(body[start..end], mentioned)];
    JoinedAppend(segments, Segment(body[start..end], mentioned));
    SpanTextIsSlice(body, start, end);
    assert body[..start] + body[start..end] == body[..end];
  }

  // ----- Edits ----------------------------------------------------------------------------------

  /** The longest common prefix of two bodies. */
  function CommonPrefix(a: Text, b: Text): (n: nat)
    ensures n <= |a| && n <= |b| && Agree(a, b, n)
    ensures n < |a| && n < |b| ==> a[n] != b[n]
  {
    CommonPrefixFrom(a, b, 0)
  }

  function CommonPrefixFrom(a: Text, b: Text, k: nat): (n: nat)
    requires k <= |a| && k <= |b| && Agree(a, b, k)
    ensures n <= |a| && n <= |b| && Agree(a, b, n)
    ensures n < |a| && n < |b| ==> a[n] != b[n]
    decreases |a| - k
  {
    if k < |a| && k < |b| && a[k] == b[k] then CommonPrefixFrom(a, b, k + 1) else k
  }

  /** The unit at `k`. */
  function FromStart(a: Text, k: nat): CodeUnit
    requires k < |a|
  {
    a[k]
  }

  /** The first `n` units are the same. */
  predicate Agree(a: Text, b: Text, n: nat)
    requires n <= |a| && n <= |b|
  {
    forall k :: 0 <= k < n ==> FromStart(a, k) == FromStart(b, k)
  }

  lemma HeadAt(a: Text, b: Text, m: nat, n: nat)
    requires n < m <= |a| && m <= |b| && Agree(a, b, m)
    ensures a[n] == b[n]
  {
    assert FromStart(a, n) == FromStart(b, n);
  }

  lemma PrefixStopsAt(a: Text, b: Text, n: nat)
    requires n < |a| && n < |b| && a[n] != b[n]
    ensures CommonPrefix(a, b) <= n
  {
    if CommonPrefix(a, b) > n {
      HeadAt(a, b, CommonPrefix(a, b), n);
    }
  }

  lemma PrefixIsUnique(a: Text, b: Text, n: nat)
    requires n <= |a| && n <= |b| && Agree(a, b, n)
    requires n < |a| && n < |b| ==> a[n] != b[n]
    ensures n == CommonPrefix(a, b)
  {
    var m := CommonPrefix(a, b);
    if m < n {
      HeadAt(a, b, n, m);
    } else if n < m {
      HeadAt(a, b, m, n);
    }
  }

  /** The unit `k` places before the last. */
  function FromEnd(a: Text, k: nat): CodeUnit
    requires k < |a|
  {
    a[|a| - k - 1]
  }

  /** `n` is the longest common suffix of `a` and `b` that leaves the first `prefix` units of both alone. */
  ghost predicate IsCommonSuffix(a: Text, b: Text, prefix: nat, n: nat)
  {
    && n <= |a| - prefix && n <= |b| - prefix
    && (forall k :: 0 <= k < n ==> FromEnd(a, k) == FromEnd(b, k))
    && (n < |a| - prefix && n < |b| - prefix ==> FromEnd(a, n) != FromEnd(b, n))
  }

  function CommonSuffixFrom(a: Text, b: Text, prefix: nat, k: nat): (n: nat)
    requires k <= |a| - prefix && k <= |b| - prefix
    requires forall j :: 0 <= j < k ==> FromEnd(a, j) == FromEnd(b, j)
    ensures IsCommonSuffix(a, b, prefix, n)
    decreases |a| - k
  {
    if k < |a| - prefix && k < |b| - prefix && FromEnd(a, k) == FromEnd(b, k)
      then CommonSuffixFrom(a, b, prefix, k + 1) else k
  }

  /** Where a mention goes when old region [prefix, oldEnd) was replaced and the length changed by delta. */
  function MovedSpans<U>(mentions: seq<Mention<U>>, prefix: int, oldEnd: int, delta: int): seq<Mention<U>> {
    if mentions == [] then []
    else
      var m := mentions[|mentions| - 1];
      MovedSpans(mentions[..|mentions| - 1], prefix, oldEnd, delta) +
      (if m.end <= prefix then [m]
       else if m.start >= oldEnd then [m.(start := m.start + delta, end := m.end + delta)]
       else [])
  }

  /** The edit between two bodies, as the composer sees it. */
  datatype Edit = Edit(prefix: nat, suffix: nat)

  ghost predicate IsEdit(previousBody: Text, nextBody: Text, e: Edit) {
    e.prefix == CommonPrefix(previousBody, nextBody) && IsCommonSuffix(previousBody, nextBody, e.prefix, e.suffix)
  }

  function EditBetween(previousBody: Text, nextBody: Text): Edit {
    var prefix := CommonPrefix(previousBody, nextBody);
    Edit(prefix, CommonSuffixFrom(previousBody, nextBody, prefix, 0))
  }

  /** Where the old region that an edit replaced ends. */
  function OldEnd(previousBody: Text, e: Edit): int { |previousBody| - e.suffix }

  function Delta(previousBody: Text, nextBody: Text): int { |nextBody| - |previousBody| }

  function Updated<U>(previousBody: Text, nextBody: Text, mentions: seq<Mention<U>>, e: Edit): seq<Mention<U>> {
    MovedSpans(mentions, e.prefix, OldEnd(previousBody, e), Delta(previousBody, nextBody))
  }

  method UpdateMentionRanges<U>(previousBody: Text, nextBody: Text, mentions: seq<Mention<U>>)
    returns (updated: seq<Mention<U>>)
    ensures IsEdit(previousBody, nextBody, EditBetween(previousBody, nextBody))
    ensures updated == Updated(previousBody, nextBody, mentions, EditBetween(previousBody, nextBody))
  {
    var prefix := 0;
    while prefix < |previousBody| && prefix < |nextBody| && previousBody[prefix] == nextBody[prefix]
      invariant 0 <= prefix <= |previousBody| && prefix <= |nextBody|
      invariant Agree(previousBody, nextBody, prefix)
    {
      prefix := prefix + 1;
    }
    PrefixIsUnique(previousBody, nextBody, prefix);
    var suffix := 0;
    while suffix < |previousBody| - prefix && suffix < |nextBody| - prefix &&
          previousBody[|previousBody| - suffix - 1] == nextBody[|nextBody| - suffix - 1]
      invariant 0 <= suffix <= |previousBody| - prefix && suffix <= |nextBody| - prefix
      invariant forall k :: 0 <= k < suffix ==> FromEnd(previousBody, k) == FromEnd(nextBody, k)
      invariant CommonSuffixFrom(previousBody, nextBody, prefix, suffix) == EditBetween(previousBody, nextBody).suffix
    {
      suffix := suffix + 1;
    }
    var oldEnd := |previousBody| - suffix;
    var newEnd := |nextBody| - suffix;
    var delta := newEnd - oldEnd;
    updated := [];
    var i := 0;
    while i < |mentions|
      invariant 0 <= i <= |mentions|
      invariant updated == MovedSpans(mentions[..i], prefix, oldEnd, delta)
    {
      var mention := mentions[i];
      assert mentions[..i + 1][..i] == mentions[..i];
      if mention.end <= prefix {
        updated := updated + [mention];
      } else if mention.start >= oldEnd {
        updated := updated + [mention.(start := mention.start + delta, end := mention.end + delta)];
      } else {
        assert updated + [] == updated;
      }
      i := i + 1;
    }
    assert mentions[..i] == mentions;
  }
}
