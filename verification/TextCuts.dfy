/** Spans seen from inside a part of a text, for the bodies that are trimmed before they are sent. */
module TextCuts {
  import opened Utf16
  import opened Mentions

  /** `part` is cut out of `before + part + after` without separating a surrogate pair. */
  predicate CleanCut(before: Text, part: Text, after: Text) {
    && !SplitsSurrogatePair(before + part + after, |before|)
    && !SplitsSurrogatePair(before + part + after, |before| + |part|)
  }

  /** A span inside the part and its shifted copy are both valid or both not. */
  lemma ValidInMiddle(before: Text, part: Text, after: Text, start: int, end: int)
    requires |before| <= start <= end <= |before| + |part|
    requires CleanCut(before, part, after)
    ensures ValidSpan(before + part + after, start, end) <==> ValidSpan(part, start - |before|, end - |before|)
  {
  }

  /** They cover the same text. */
  lemma {:induction false} TextInMiddle(before: Text, part: Text, after: Text, start: int, end: int)
    requires |before| <= start <= end <= |before| + |part|
    ensures SpanText(before + part + after, start, end) == SpanText(part, start - |before|, end - |before|)
  {
    var whole := before + part + after;
    SameSpanText(whole, part, start - |before|, end - |before|, |before|);
  }

  /** Inside the kept part, every span of the list is valid exactly when its shifted copy is. */
  predicate AgreesInside<U>(part: Text, whole: Text, mentions: seq<Mention<U>>, shift: nat) {
    forall i :: 0 <= i < |mentions| && shift <= mentions[i].start <= mentions[i].end <= shift + |part| ==>
      (ValidSpan(whole, mentions[i].start, mentions[i].end) <==>
          ValidSpan(part, mentions[i].start - shift, mentions[i].end - shift))
  }

  /** Inside the kept part, every span covers what its shifted copy covers. */
  predicate CoversInside<U>(part: Text, whole: Text, mentions: seq<Mention<U>>, shift: nat) {
    forall i :: 0 <= i < |mentions| && shift <= mentions[i].start <= mentions[i].end <= shift + |part| ==>
      SpanText(whole, mentions[i].start, mentions[i].end) ==
          SpanText(part, mentions[i].start - shift, mentions[i].end - shift)
  }

  lemma InsideAgrees<U>(before: Text, part: Text, after: Text, mentions: seq<Mention<U>>)
    requires CleanCut(before, part, after)
    ensures AgreesInside(part, before + part + after, mentions, |before|)
  {
    forall i | 0 <= i < |mentions| && |before| <= mentions[i].start <= mentions[i].end <= |before| + |part|
      ensures ValidSpan(before + part + after, mentions[i].start, mentions[i].end) <==>
              ValidSpan(part, mentions[i].start - |before|, mentions[i].end - |before|)
    {
      ValidInMiddle(before, part, after, mentions[i].start, mentions[i].end);
    }
  }

  lemma InsideCovers<U>(before: Text, part: Text, after: Text, mentions: seq<Mention<U>>)
    ensures CoversInside(part, before + part + after, mentions, |before|)
  {
    forall i | 0 <= i < |mentions| && |before| <= mentions[i].start <= mentions[i].end <= |before| + |part|
      ensures SpanText(before + part + after, mentions[i].start, mentions[i].end) ==
              SpanText(part, mentions[i].start - |before|, mentions[i].end - |before|)
    {
      TextInMiddle(before, part, after, mentions[i].start, mentions[i].end);
    }
  }

  // ----- White space around a text --------------------------------------------------------------

  /** `body` is what is left of `whole` without the white space around it; it begins at `n`. */
  predicate IsTrimmed<T(==)>(whole: seq<T>, n: nat, body: seq<T>, isSpace: T -> bool) {
    && n + |body| <= |whole|
    && (forall k :: 0 <= k < |body| ==> body[k] == whole[n + k])
    && (forall k :: 0 <= k < n ==> isSpace(whole[k]))
    && (forall k :: n + |body| <= k < |whole| ==> isSpace(whole[k]))
    && (body != [] ==> !isSpace(body[0]) && !isSpace(body[|body| - 1]))
  }

  predicate AllSpace<T>(s: seq<T>, isSpace: T -> bool) { forall k :: 0 <= k < |s| ==> isSpace(s[k]) }

  lemma TrimmedParts<T>(whole: seq<T>, before: seq<T>, rest: seq<T>, body: seq<T>, after: seq<T>, isSpace: T -> bool)
    requires whole == before + rest && rest == body + after
    requires AllSpace(before, isSpace) && AllSpace(after, isSpace)
    requires body != [] ==> !isSpace(body[0]) && !isSpace(body[|body| - 1])
    ensures IsTrimmed(whole, |before|, body, isSpace)
  {
    assert whole == before + body + after;
    forall k | |before| + |body| <= k < |whole| ensures isSpace(whole[k]) {
      assert whole[k] == after[k - |before| - |body|];
    }
  }

  /** There is only one way to take the white space away. */
  lemma TrimIsUnique<T>(whole: seq<T>, m: nat, body: seq<T>, n: nat, other: seq<T>, isSpace: T -> bool)
    requires IsTrimmed(whole, m, body, isSpace) && IsTrimmed(whole, n, other, isSpace)
    ensures body == other && (body != [] ==> m == n)
  {
    if body != [] {
      assert !isSpace(whole[m]) && !isSpace(whole[m + |body| - 1]);
    }
    if other != [] {
      assert !isSpace(whole[n]) && !isSpace(whole[n + |other| - 1]);
    }
  }
}
