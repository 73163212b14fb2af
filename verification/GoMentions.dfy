/**
 * The server's side of mentions: bodies are strings of Unicode scalar values, offsets are still UTF-16.
 */
module GoMentions {
  import opened Utf16
  import opened Mentions
  import opened TextCuts

  type Scalar = r: int | 0 <= r < 0x11_0000 && !(0xD800 <= r <= 0xDFFF)

  function EncodeRune(r: Scalar): Text {
    if r < 0x1_0000 then [r]
    else [0xD800 + (r - 0x1_0000) / 0x400, 0xDC00 + (r - 0x1_0000) % 0x400]
  }

  function Encode(body: seq<Scalar>): Text {
    if body == [] then [] else Encode(body[..|body| - 1]) + EncodeRune(body[|body| - 1])
  }

  lemma {:induction false} EncodeConcat(a: seq<Scalar>, b: seq<Scalar>)
    ensures Encode(a + b) == Encode(a) + Encode(b)
  {
    if b == [] {
      assert a + b == a;
    } else {
      assert (a + b)[..|a + b| - 1] == a + b[..|b| - 1];
      EncodeConcat(a, b[..|b| - 1]);
    }
  }

  lemma EncodeNext(body: seq<Scalar>, i: nat)
    requires i < |body|
    ensures Encode(body[..i + 1]) == Encode(body[..i]) + EncodeRune(body[i])
  {
    assert body[..i + 1][..i] == body[..i];
  }

  /** The encoding of a prefix is a prefix of the encoding, and the next rune follows it. */
  lemma {:induction false} EncodeAt(body: seq<Scalar>, i: nat)
    requires i < |body|
    ensures Encode(body[..i + 1]) == Encode(body[..i]) + EncodeRune(body[i])
    ensures var o := |Encode(body[..i])|;
            o + |EncodeRune(body[i])| <= |Encode(body)| &&
                Encode(body)[o..o + |EncodeRune(body[i])|] == EncodeRune(body[i])
  {
    EncodeNext(body, i);
    assert body == body[..i + 1] + body[i + 1..];
    EncodeConcat(body[..i + 1], body[i + 1..]);
  }

  lemma {:induction false} EncodingEndsOnCharacter(body: seq<Scalar>)
    ensures Encode(body) != [] ==> !IsHigh(Encode(body)[|Encode(body)| - 1])
  {
  }

  /** Encoded text is well formed. */
  lemma {:induction false} EncodingIsWellFormed(body: seq<Scalar>)
    ensures WellFormed(Encode(body))
  {
    if body != [] {
      EncodingIsWellFormed(body[..|body| - 1]);
      var front, rune := Encode(body[..|body| - 1]), EncodeRune(body[|body| - 1]);
      var all := Encode(body);
      assert all == front + rune;
      forall i | 0 <= i < |all| && IsHigh(all[i]) ensures i + 1 < |all| && IsLow(all[i + 1]) {
        if i < |front| { assert front[i] == all[i]; } else { assert rune[i - |front|] == all[i]; }
      }
      forall i | 0 <= i < |all| && IsLow(all[i]) ensures 0 < i && IsHigh(all[i - 1]) {
        if i < |front| { assert front[i] == all[i]; } else { assert rune[i - |front|] == all[i]; }
      }
    }
  }

  predicate IsBoundary(text: Text, offset: int) { 0 <= offset <= |text| && !SplitsSurrogatePair(text, offset) }

  /** One rune starts at a boundary, ends at the next one, and is '@' exactly when its unit is. */
  lemma RuneBoundaries(text: Text, o: nat, r: Scalar)
    requires var n := |EncodeRune(r)|; o + n <= |text| && text[o..o + n] == EncodeRune(r)
    ensures var n := |EncodeRune(r)|;
            && IsBoundary(text, o + n)
            && (forall b :: o < b < o + n ==> !IsBoundary(text, b))
            && (forall b :: o <= b < o + n ==> (text[b] == AT <==> b == o && r == 0x40))
  {
    var n := |EncodeRune(r)|;
    assert text[o] == text[o..o + n][0];
    if n == 2 { assert text[o + 1] == text[o..o + n][1]; }
  }

  /** Boundary sets instead of a surrogate test, and the same decisions. */
  method ValidateMentions<U>(body: seq<Scalar>, mentions: seq<Mention<U>>, acceptable: U -> bool) returns (valid: bool)
    ensures valid <==> ValidMentions(Encode(body), mentions, acceptable)
  {
    if |mentions| > MAX_MENTIONS { return false; }
    var length := |Encode(body)|;
    var boundaries, atSignOffsets := BoundarySets(body, length);
    valid := CheckSpans(Encode(body), length, mentions, acceptable, boundaries, atSignOffsets);
  }

  method CheckSpans<U>(ghost text: Text, length: nat, mentions: seq<Mention<U>>, acceptable: U -> bool,
                       boundaries: set<int>, atSignOffsets: set<int>)
    returns (valid: bool)
    requires |mentions| <= MAX_MENTIONS && length == |text|
    requires forall b :: b in boundaries <==> IsBoundary(text, b)
    requires forall b :: b in atSignOffsets <==> 0 <= b < |text| && text[b] == AT
    ensures valid <==> ValidMentions(text, mentions, acceptable)
  {
    var lastEnd := 0;
    var i := 0;
    while i < |mentions|
      invariant 0 <= i <= |mentions|
      invariant forall k :: 0 <= k < i ==>
                acceptable(mentions[k].user) && ValidSpan(text, mentions[k].start, mentions[k].end)
      invariant forall a, b :: 0 <= a < b < i ==> mentions[a].end <= mentions[b].start
      invariant i > 0 ==> lastEnd == mentions[i - 1].end
      invariant forall k :: 0 <= k < i ==> mentions[k].end <= lastEnd
    {
      var mention := mentions[i];
      assert mention.start in atSignOffsets && mention.end in boundaries && mention.start + 1 < mention.end ==>
          ValidSpan(text, mention.start, mention.end);
      assert ValidSpan(text, mention.start, mention.end) ==>
          mention.start in atSignOffsets && mention.start in boundaries && mention.end in boundaries;
      if !acceptable(mention.user) || mention.start < 0 || mention.end <= mention.start + 1 || mention.end > length {
        return false;
      }
      if mention.start !in atSignOffsets { return false; }
      if mention.start !in boundaries { return false; }
      if mention.end !in boundaries { return false; }
      if i > 0 && mention.start < lastEnd { return false; }
      lastEnd := mention.end;
      i := i + 1;
    }
    return true;
  }

  /** The boundaries of `text` up to `offset` and its end, and the '@' before `offset`. */
  ghost predicate Collected(text: Text, offset: int, boundaries: set<int>, atSignOffsets: set<int>) {
    && offset <= |text|
    && (forall b :: b in boundaries <==> b == |text| || (b <= offset && IsBoundary(text, b)))
    && (forall b :: b in atSignOffsets <==> 0 <= b < offset && text[b] == AT)
  }

  lemma CollectRune(text: Text, offset: nat, r: Scalar, boundaries: set<int>, atSignOffsets: set<int>)
    requires offset + |EncodeRune(r)| <= |text| && text[offset..offset + |EncodeRune(r)|] == EncodeRune(r)
    requires Collected(text, offset, boundaries, atSignOffsets)
    ensures var next := offset + |EncodeRune(r)|;
            Collected(text, next, boundaries + {next}, if r == 0x40 then atSignOffsets + {offset} else atSignOffsets)
  {
    RuneBoundaries(text, offset, r);
  }

  method BoundarySets(body: seq<Scalar>, length: nat) returns (boundaries: set<int>, atSignOffsets: set<int>)
    requires length == |Encode(body)|
    ensures forall b :: b in boundaries <==> IsBoundary(Encode(body), b)
    ensures forall b :: b in atSignOffsets <==> 0 <= b < length && Encode(body)[b] == AT
  {
    ghost var text := Encode(body);
    assert body[..|body|] == body;
    boundaries := {0, length};
    atSignOffsets := {};
    var offset := 0;
    var rest := 0;
    while offset < length
      invariant 0 <= rest <= |body| && offset == |Encode(body[..rest])| <= length
      invariant Collected(text, offset, boundaries, atSignOffsets)
      decreases |body| - rest
    {
      var r := body[rest];
      EncodeAt(body, rest);
      CollectRune(text, offset, r, boundaries, atSignOffsets);
      if r == 0x40 {
        atSignOffsets := atSignOffsets + {offset};
      }
      offset := offset + |EncodeRune(r)|;
      rest := rest + 1;
      boundaries := boundaries + {offset};
    }
  }

  /** The users mentioned, each where it was first seen. */
  function FirstSeen<U(==)>(mentions: seq<Mention<U>>): seq<U> {
    if mentions == [] then []
    else
      var ids, user := FirstSeen(mentions[..|mentions| - 1]), mentions[|mentions| - 1].user;
      if user in ids then ids else ids + [user]
  }

  method MentionUserIDs<U(==)>(mentions: seq<Mention<U>>) returns (ids: seq<U>)
    ensures ids == FirstSeen(mentions)
  {
    var seen: set<U> := {};
    ids := [];
    var i := 0;
    while i < |mentions|
      invariant 0 <= i <= |mentions|
      invariant ids == FirstSeen(mentions[..i])
      invariant forall u :: u in seen <==> u in ids
    {
      assert mentions[..i + 1][..i] == mentions[..i];
      var user := mentions[i].user;
      if user !in seen {
        seen := seen + {user};
        ids := ids + [user];
      }
      i := i + 1;
    }
    assert mentions[..i] == mentions;
  }

  /** Exactly the mentioned users, each once. */
  lemma {:induction false} FirstSeenIsDistinct<U>(mentions: seq<Mention<U>>)
    ensures forall m <- mentions :: m.user in FirstSeen(mentions)
    ensures forall u <- FirstSeen(mentions) :: exists m <- mentions :: m.user == u
    ensures forall a, b :: 0 <= a < b < |FirstSeen(mentions)| ==> FirstSeen(mentions)[a] != FirstSeen(mentions)[b]
  {
    if mentions != [] {
      var front := mentions[..|mentions| - 1];
      FirstSeenIsDistinct(front);
      assert mentions == front + [mentions[|mentions| - 1]];
      forall u | u in FirstSeen(mentions) ensures exists m <- mentions :: m.user == u {
        if u in FirstSeen(front) {
          var m :| m in front && m.user == u;
          assert m in mentions;
        }
      }
    }
  }

  // ----- Trimming -------------------------------------------------------------------------------

  /** How many leading scalars `isSpace` accepts. */
  function LeadingSpaces(body: seq<Scalar>, isSpace: Scalar -> bool): (n: nat)
    ensures n <= |body| && (forall k :: 0 <= k < n ==> isSpace(body[k])) && (n < |body| ==> !isSpace(body[n]))
  {
    if body != [] && isSpace(body[0]) then 1 + LeadingSpaces(body[1..], isSpace) else 0
  }

  function TrimLeft(body: seq<Scalar>, isSpace: Scalar -> bool): seq<Scalar> {
    body[LeadingSpaces(body, isSpace)..]
  }

  function TrimRight(body: seq<Scalar>, isSpace: Scalar -> bool): (t: seq<Scalar>)
    ensures t <= body && (t != [] ==> !isSpace(t[|t| - 1]))
  {
    if body != [] && isSpace(body[|body| - 1]) then TrimRight(body[..|body| - 1], isSpace) else body
  }

  function TrimSpace(body: seq<Scalar>, isSpace: Scalar -> bool): seq<Scalar> {
    TrimRight(TrimLeft(body, isSpace), isSpace)
  }

  /** How far trimming moves every offset. */
  function Shift(body: seq<Scalar>, isSpace: Scalar -> bool): nat {
    |Encode(body[..LeadingSpaces(body, isSpace)])|
  }

  function Shifted<U>(mentions: seq<Mention<U>>, shift: int): seq<Mention<U>> {
    seq(|mentions|, i requires 0 <= i < |mentions| => mentions[i].(start := mentions[i].start - shift,
        end := mentions[i].end - shift))
  }

  datatype Normalized<U> = Stale | Moved(mentions: seq<Mention<U>>)

  method NormalizeMentionOffsets<U>(body: seq<Scalar>, mentions: seq<Mention<U>>, isSpace: Scalar -> bool)
    returns (r: Normalized<U>)
    ensures r.Moved? <==> forall m <- mentions :: m.start >= Shift(body, isSpace) && m.end >= Shift(body, isSpace)
    ensures r.Moved? ==> r.mentions == Shifted(mentions, Shift(body, isSpace))
  {
    var prefix := 0;
    while prefix < |body| && isSpace(body[prefix])
      invariant 0 <= prefix <= LeadingSpaces(body, isSpace)
    {
      prefix := prefix + 1;
    }
    var shift := |Encode(body[..prefix])|;
    var normalized: seq<Mention<U>> := [];
    var i := 0;
    while i < |mentions|
      invariant 0 <= i <= |mentions|
      invariant shift == Shift(body, isSpace)
      invariant forall k :: 0 <= k < i ==> mentions[k].start >= shift && mentions[k].end >= shift
      invariant normalized == Shifted(mentions[..i], shift)
    {
      var mention := mentions[i];
      if mention.start < shift || mention.end < shift {
        assert mention in mentions;
        return Stale;
      }
      normalized := normalized + [mention.(start := mention.start - shift, end := mention.end - shift)];
      i := i + 1;
    }
    assert mentions[..i] == mentions;
    return Moved(normalized);
  }

  /** Trimming takes the white space around the body, and nothing else. */
  lemma {:induction false} TrimSpaceExactly(body: seq<Scalar>, isSpace: Scalar -> bool)
    ensures IsTrimmed(body, LeadingSpaces(body, isSpace), TrimSpace(body, isSpace), isSpace)
  {
    var n := LeadingSpaces(body, isSpace);
    TrimmedAway(TrimLeft(body, isSpace), isSpace);
    TrimmedParts(body, body[..n], TrimLeft(body, isSpace), TrimSpace(body, isSpace),
                 TrailingSpaces(TrimLeft(body, isSpace), isSpace), isSpace);
  }

  /** What `TrimRight` takes away. */
  function TrailingSpaces(body: seq<Scalar>, isSpace: Scalar -> bool): seq<Scalar> {
    if body != [] && isSpace(body[|body| - 1]) then TrailingSpaces(body[..|body| - 1], isSpace) + [body[|body| - 1]]
    else []
  }

  lemma {:induction false} TrimmedAway(body: seq<Scalar>, isSpace: Scalar -> bool)
    ensures body == TrimRight(body, isSpace) + TrailingSpaces(body, isSpace)
    ensures AllSpace(TrailingSpaces(body, isSpace), isSpace)
  {
    if body != [] && isSpace(body[|body| - 1]) {
      var front := body[..|body| - 1];
      TrimmedAway(front, isSpace);
      assert body == front + [body[|body| - 1]];
    }
  }

  lemma TrimParts(body: seq<Scalar>, isSpace: Scalar -> bool) returns (before: seq<Scalar>, after: seq<Scalar>)
    ensures body == before + TrimSpace(body, isSpace) + after
    ensures |Encode(before)| == Shift(body, isSpace)
  {
    var n := LeadingSpaces(body, isSpace);
    before := body[..n];
    after := body[n + |TrimSpace(body, isSpace)|..];
  }

  /** Normalizing succeeds and its result is valid for the trimmed body. */
  ghost predicate NormalizedIsValid<U>(trimmed: Text, mentions: seq<Mention<U>>, shift: nat, acceptable: U -> bool) {
    (forall m <- mentions :: m.start >= shift && m.end >= shift) &&
        ValidMentions(trimmed, Shifted(mentions, shift), acceptable)
  }

  /** The list is valid for the submitted body and lies in the part that is kept. */
  ghost predicate ValidInside<U>(whole: Text, mentions: seq<Mention<U>>, shift: nat, length: nat,
                                 acceptable: U -> bool) {
    ValidMentions(whole, mentions, acceptable) && forall m <- mentions :: shift <= m.start && m.end <= shift + length
  }

  /** Trimming commutes with validation, and what a kept span covers does not change. */
  lemma {:induction false} TrimCommutes<U>(body: seq<Scalar>, mentions: seq<Mention<U>>, isSpace: Scalar -> bool,
                                           acceptable: U -> bool)
    ensures var shift, trimmed := Shift(body, isSpace), Encode(TrimSpace(body, isSpace));
            && (NormalizedIsValid(trimmed, mentions, shift, acceptable) <==>
                 ValidInside(Encode(body), mentions, shift, |trimmed|, acceptable))
            && CoversInside(trimmed, Encode(body), mentions, shift)
  {
    var before, after := TrimParts(body, isSpace);
    var middle := TrimSpace(body, isSpace);
    EncodeConcat(before + middle, after);
    EncodeConcat(before, middle);
    EncodingEndsOnCharacter(before);
    EncodingEndsOnCharacter(middle);
    CutCommutes(Encode(before), Encode(middle), Encode(after), mentions, acceptable);
    InsideCovers(Encode(before), Encode(middle), Encode(after), mentions);
  }

  lemma CutCommutes<U>(before: Text, part: Text, after: Text, mentions: seq<Mention<U>>, acceptable: U -> bool)
    requires CleanCut(before, part, after)
    ensures NormalizedIsValid(part, mentions, |before|, acceptable) <==>
            ValidInside(before + part + after, mentions, |before|, |part|, acceptable)
  {
    var shift, whole := |before|, before + part + after;
    InsideAgrees(before, part, after, mentions);
    if NormalizedIsValid(part, mentions, shift, acceptable) {
      CutValid(part, whole, mentions, shift, acceptable);
    }
  }

  lemma CutValid<U>(part: Text, whole: Text, mentions: seq<Mention<U>>, shift: nat, acceptable: U -> bool)
    requires AgreesInside(part, whole, mentions, shift)
    requires ValidMentions(part, Shifted(mentions, shift), acceptable)
    ensures ValidMentions(whole, mentions, acceptable)
    ensures forall m <- mentions :: shift <= m.start && m.end <= shift + |part|
  {
    var moved := Shifted(mentions, shift);
    forall i | 0 <= i < |mentions|
      ensures acceptable(mentions[i].user) && ValidSpan(whole, mentions[i].start, mentions[i].end)
      ensures shift <= mentions[i].start && mentions[i].end <= shift + |part|
    {
      assert acceptable(moved[i].user) && ValidSpan(part, moved[i].start, moved[i].end);
    }
    forall i, j | 0 <= i < j < |mentions| ensures mentions[i].end <= mentions[j].start {
      assert moved[i].end <= moved[j].start;
    }
  }
}
