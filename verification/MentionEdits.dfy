/** What an edit of the draft does to its mentions. */
module MentionEdits {
  import opened Utf16
  import opened Mentions

  /** A span that reaches into the replaced region, or around an insertion point. */
  predicate Meets<U>(m: Mention<U>, prefix: int, oldEnd: int) { m.start < oldEnd && prefix < m.end }

  function Moved<U>(m: Mention<U>, prefix: int, delta: int): Mention<U> {
    if m.end <= prefix then m else m.(start := m.start + delta, end := m.end + delta)
  }

  /** Each span of the result is a span that did not meet the edit, moved; order is kept. */
  lemma {:induction false} Origins<U>(mentions: seq<Mention<U>>, prefix: int, oldEnd: int, delta: int, k: nat, l: nat)
    returns (i: nat, j: nat)
    requires k <= l < |MovedSpans(mentions, prefix, oldEnd, delta)|
    ensures i <= j < |mentions| && (k < l ==> i < j)
    ensures !Meets(mentions[i], prefix, oldEnd) && !Meets(mentions[j], prefix, oldEnd)
    ensures MovedSpans(mentions, prefix, oldEnd, delta)[k] == Moved(mentions[i], prefix, delta)
    ensures MovedSpans(mentions, prefix, oldEnd, delta)[l] == Moved(mentions[j], prefix, delta)
  {
    var n := |mentions| - 1;
    var front := MovedSpans(mentions[..n], prefix, oldEnd, delta);
    if l < |front| {
      i, j := Origins(mentions[..n], prefix, oldEnd, delta, k, l);
    } else if k < |front| {
      var same;
      i, same := Origins(mentions[..n], prefix, oldEnd, delta, k, k);
      j := n;
    } else {
      i, j := n, n;
    }
  }

  /** Every span that does not meet the edit is in the result. */
  lemma {:induction false} Survives<U>(mentions: seq<Mention<U>>, prefix: int, oldEnd: int, delta: int, i: nat)
    returns (k: nat)
    requires i < |mentions| && !Meets(mentions[i], prefix, oldEnd)
    ensures k < |MovedSpans(mentions, prefix, oldEnd, delta)|
    ensures MovedSpans(mentions, prefix, oldEnd, delta)[k] == Moved(mentions[i], prefix, delta)
  {
    var n := |mentions| - 1;
    if i == n {
      k := |MovedSpans(mentions[..n], prefix, oldEnd, delta)|;
    } else {
      k := Survives(mentions[..n], prefix, oldEnd, delta, i);
    }
  }

  lemma {:induction false} NoLonger<U>(mentions: seq<Mention<U>>, prefix: int, oldEnd: int, delta: int)
    ensures |MovedSpans(mentions, prefix, oldEnd, delta)| <= |mentions|
  {
    if mentions != [] { NoLonger(mentions[..|mentions| - 1], prefix, oldEnd, delta); }
  }

  lemma BeforeAgrees(previousBody: Text, nextBody: Text, e: Edit, k: nat)
    requires IsEdit(previousBody, nextBody, e) && k < e.prefix
    ensures nextBody[k] == previousBody[k]
  {
    HeadAt(nextBody, previousBody, e.prefix, k);
  }

  lemma AfterAgrees(previousBody: Text, nextBody: Text, e: Edit, k: nat)
    requires IsEdit(previousBody, nextBody, e) && OldEnd(previousBody, e) <= k < |previousBody|
    ensures nextBody[k + Delta(previousBody, nextBody)] == previousBody[k]
  {
    assert FromEnd(nextBody, |previousBody| - k - 1) == FromEnd(previousBody, |previousBody| - k - 1);
  }

  lemma {:induction false} SpanBefore(previousBody: Text, nextBody: Text, e: Edit, start: int, end: int)
    requires IsEdit(previousBody, nextBody, e)
    requires ValidSpan(previousBody, start, end) && end <= e.prefix && !IsHigh(previousBody[end - 1])
    ensures ValidSpan(nextBody, start, end) && SpanText(nextBody, start, end) == SpanText(previousBody, start, end)
  {
    forall k | start <= k < end ensures nextBody[k] == previousBody[k] {
      BeforeAgrees(previousBody, nextBody, e, k);
    }
    SameSpanText(nextBody, previousBody, start, end, 0);
  }

  lemma SpanAfter(previousBody: Text, nextBody: Text, e: Edit, start: int, end: int)
    requires IsEdit(previousBody, nextBody, e)
    requires ValidSpan(previousBody, start, end) && start >= OldEnd(previousBody, e)
    ensures var d := Delta(previousBody, nextBody);
            ValidSpan(nextBody, start + d, end + d) &&
                SpanText(nextBody, start + d, end + d) == SpanText(previousBody, start, end)
  {
    var d := Delta(previousBody, nextBody);
    AfterAgrees(previousBody, nextBody, e, start);
    AfterAgrees(previousBody, nextBody, e, end - 1);
    if end < |previousBody| { AfterAgrees(previousBody, nextBody, e, end); }
    forall k | start <= k < end ensures nextBody[k + d] == previousBody[k] {
      AfterAgrees(previousBody, nextBody, e, k);
    }
    SameSpanText(nextBody, previousBody, start, end, d);
  }

  /** A surviving span covers the same text and starts and ends where no pair is split. */
  lemma {:induction false} SpanSurvives<U>(previousBody: Text, nextBody: Text, e: Edit, m: Mention<U>)
    requires IsEdit(previousBody, nextBody, e)
    requires ValidSpan(previousBody, m.start, m.end) && !IsHigh(previousBody[m.end - 1]) &&
             !Meets(m, e.prefix, OldEnd(previousBody, e))
    ensures var t := Moved(m, e.prefix, Delta(previousBody, nextBody));
            ValidSpan(nextBody, t.start, t.end) &&
                SpanText(nextBody, t.start, t.end) == SpanText(previousBody, m.start, m.end)
  {
    if m.end <= e.prefix {
      SpanBefore(previousBody, nextBody, e, m.start, m.end);
    } else {
      SpanAfter(previousBody, nextBody, e, m.start, m.end);
    }
  }

  /** No span ends right after a lone high surrogate. */
  predicate EndsOnCharacters<U>(body: Text, mentions: seq<Mention<U>>) {
    forall i :: 0 <= i < |mentions| ==> !(1 <= mentions[i].end <= |body| && IsHigh(body[mentions[i].end - 1]))
  }

  lemma WellFormedEndsOnCharacters<U>(body: Text, mentions: seq<Mention<U>>)
    requires WellFormed(body)
    requires forall i :: 0 <= i < |mentions| ==> ValidSpan(body, mentions[i].start, mentions[i].end)
    ensures EndsOnCharacters(body, mentions)
  {
    forall i | 0 <= i < |mentions| && 1 <= mentions[i].end <= |body| ensures !IsHigh(body[mentions[i].end - 1]) {
      assert ValidSpan(body, mentions[i].start, mentions[i].end);
    }
  }

  /**
   * Mentions valid for the old body stay valid for every new body, well-formed or not, exactly when
   * none ends right after a lone high surrogate; in a well-formed body none does.
   */
  lemma UpdateKeepsValidity<U>(previousBody: Text, nextBody: Text, mentions: seq<Mention<U>>, acceptable: U -> bool,
                               e: Edit)
    requires ValidMentions(previousBody, mentions, acceptable) && EndsOnCharacters(previousBody, mentions)
    requires IsEdit(previousBody, nextBody, e)
    ensures ValidMentions(nextBody, Updated(previousBody, nextBody, mentions, e), acceptable)
  {
    var prefix, oldEnd, d := e.prefix, OldEnd(previousBody, e), Delta(previousBody, nextBody);
    var updated := Updated(previousBody, nextBody, mentions, e);
    NoLonger(mentions, prefix, oldEnd, d);
    forall k | 0 <= k < |updated|
      ensures acceptable(updated[k].user) && ValidSpan(nextBody, updated[k].start, updated[k].end)
    {
      var i, j := Origins(mentions, prefix, oldEnd, d, k, k);
      SpanSurvives(previousBody, nextBody, e, mentions[i]);
    }
    forall k, l | 0 <= k < l < |updated| ensures updated[k].end <= updated[l].start {
      var i, j := Origins(mentions, prefix, oldEnd, d, k, l);
      assert mentions[i].end <= mentions[j].start;
    }
  }

  /** A span that survives ends on the unit it ended on, so any number of edits may follow. */
  lemma UpdateKeepsEnds<U>(previousBody: Text, nextBody: Text, mentions: seq<Mention<U>>, acceptable: U -> bool,
                           e: Edit)
    requires ValidMentions(previousBody, mentions, acceptable) && EndsOnCharacters(previousBody, mentions)
    requires IsEdit(previousBody, nextBody, e)
    ensures EndsOnCharacters(nextBody, Updated(previousBody, nextBody, mentions, e))
  {
    var updated := Updated(previousBody, nextBody, mentions, e);
    forall k | 0 <= k < |updated| && 1 <= updated[k].end <= |nextBody| ensures !IsHigh(nextBody[updated[k].end - 1]) {
      var i, j := Origins(mentions, e.prefix, OldEnd(previousBody, e), Delta(previousBody, nextBody), k, k);
      var m := mentions[i];
      assert ValidSpan(previousBody, m.start, m.end);
      if m.end <= e.prefix {
        BeforeAgrees(previousBody, nextBody, e, m.end - 1);
      } else {
        AfterAgrees(previousBody, nextBody, e, m.end - 1);
      }
    }
  }

  /** The other half: a span ending after a lone high surrogate is made invalid by some edit. */
  lemma LoneSurrogateBreaks<U>(previousBody: Text, mentions: seq<Mention<U>>, acceptable: U -> bool)
    returns (nextBody: Text, e: Edit)
    requires ValidMentions(previousBody, mentions, acceptable) && !EndsOnCharacters(previousBody, mentions)
    ensures IsEdit(previousBody, nextBody, e)
    ensures !ValidMentions(nextBody, Updated(previousBody, nextBody, mentions, e), acceptable)
  {
    var i :| 0 <= i < |mentions| && 1 <= mentions[i].end <= |previousBody| && IsHigh(previousBody[mentions[i].end - 1]);
    var m := mentions[i];
    assert ValidSpan(previousBody, m.start, m.end);
    nextBody := previousBody[..m.end] + [0xDC00];
    assert Agree(previousBody, nextBody, m.end);
    assert nextBody[m.end - 1] == previousBody[m.end - 1];
    PrefixIsUnique(previousBody, nextBody, m.end);
    var touching := m.end < |previousBody| && previousBody[|previousBody| - 1] == 0xDC00;
    e := Edit(m.end, if touching then 1 else 0);
    var k := Survives(mentions, e.prefix, OldEnd(previousBody, e), Delta(previousBody, nextBody), i);
    assert SplitsSurrogatePair(nextBody, m.end);
    assert !ValidSpan(nextBody, m.start, m.end);
  }

  /**
   * A mention is dropped exactly when it meets the edited region: the result lists, in order and once
   * each, the mentions that do not, with the text they covered.
   */
  lemma {:induction false} UpdateDropsExactly<U>(previousBody: Text, nextBody: Text, mentions: seq<Mention<U>>,
                                                 acceptable: U -> bool, e: Edit)
    requires ValidMentions(previousBody, mentions, acceptable) && EndsOnCharacters(previousBody, mentions)
    requires IsEdit(previousBody, nextBody, e)
    ensures var updated := Updated(previousBody, nextBody, mentions, e);
            var kept := Keep(mentions, e.prefix, OldEnd(previousBody, e));
            && |updated| == |kept|
            && (forall k :: 0 <= k < |kept| ==>
                  && updated[k] == Moved(kept[k], e.prefix, Delta(previousBody, nextBody))
                  && SpanText(nextBody, updated[k].start, updated[k].end) ==
                       SpanText(previousBody, kept[k].start, kept[k].end))
  {
    var prefix, oldEnd, d := e.prefix, OldEnd(previousBody, e), Delta(previousBody, nextBody);
    var updated, kept := Updated(previousBody, nextBody, mentions, e), Keep(mentions, prefix, oldEnd);
    MovedIsKept(mentions, prefix, oldEnd, d);
    forall k | 0 <= k < |kept|
      ensures SpanText(nextBody, updated[k].start, updated[k].end) == SpanText(previousBody, kept[k].start, kept[k].end)
    {
      var i := KeptFrom(mentions, prefix, oldEnd, k);
      SpanSurvives(previousBody, nextBody, e, kept[k]);
    }
  }

  /** The mentions that do not meet the region, in order. */
  function Keep<U>(mentions: seq<Mention<U>>, prefix: int, oldEnd: int): seq<Mention<U>> {
    if mentions == [] then []
    else
      var m := mentions[|mentions| - 1];
      Keep(mentions[..|mentions| - 1], prefix, oldEnd) + (if Meets(m, prefix, oldEnd) then [] else [m])
  }

  lemma {:induction false} MovedIsKept<U>(mentions: seq<Mention<U>>, prefix: int, oldEnd: int, delta: int)
    ensures var updated, kept := MovedSpans(mentions, prefix, oldEnd, delta), Keep(mentions, prefix, oldEnd);
            |updated| == |kept| && forall k :: 0 <= k < |kept| ==> updated[k] == Moved(kept[k], prefix, delta)
  {
    if mentions != [] { MovedIsKept(mentions[..|mentions| - 1], prefix, oldEnd, delta); }
  }

  lemma {:induction false} KeptFrom<U>(mentions: seq<Mention<U>>, prefix: int, oldEnd: int, k: nat) returns (i: nat)
    requires k < |Keep(mentions, prefix, oldEnd)|
    ensures i < |mentions| && mentions[i] == Keep(mentions, prefix, oldEnd)[k] && !Meets(mentions[i], prefix, oldEnd)
  {
    var n := |mentions| - 1;
    if k < |Keep(mentions[..n], prefix, oldEnd)| {
      i := KeptFrom(mentions[..n], prefix, oldEnd, k);
    } else {
      i := n;
    }
  }

  /** Undoing an edit restores every mention that survived it, and loses none of them. */
  lemma {:induction false} UndoRestores<U>(previousBody: Text, nextBody: Text, mentions: seq<Mention<U>>,
                                           acceptable: U -> bool, e: Edit)
    requires IsEdit(previousBody, nextBody, e) && ValidMentions(previousBody, mentions, acceptable)
    ensures IsEdit(nextBody, previousBody, e)
    ensures Updated(nextBody, previousBody, Updated(previousBody, nextBody, mentions, e), e)
            == Keep(mentions, e.prefix, OldEnd(previousBody, e))
  {
    PrefixIsUnique(nextBody, previousBody, e.prefix);
    MoveBack(previousBody, nextBody, mentions, e);
  }

  lemma {:induction false} MoveBack<U>(previousBody: Text, nextBody: Text, mentions: seq<Mention<U>>, e: Edit)
    requires IsEdit(previousBody, nextBody, e)
    requires forall i :: 0 <= i < |mentions| ==> mentions[i].start < mentions[i].end
    ensures Updated(nextBody, previousBody, Updated(previousBody, nextBody, mentions, e), e)
            == Keep(mentions, e.prefix, OldEnd(previousBody, e))
  {
    if mentions != [] {
      var n := |mentions| - 1;
      var m := mentions[n];
      MoveBack(previousBody, nextBody, mentions[..n], e);
      var front := Updated(previousBody, nextBody, mentions[..n], e);
      var all := Updated(previousBody, nextBody, mentions, e);
      if Meets(m, e.prefix, OldEnd(previousBody, e)) {
        assert all == front;
      } else {
        assert all[..|all| - 1] == front;
      }
    }
  }
}
