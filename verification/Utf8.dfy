/** UTF-8 as in section 3 of RFC 3629: what the length in bytes that limits a message stands for. */
module Utf8 {
  import opened Options
  import opened GoMentions
  import opened Sender

  type Byte = b: int | 0 <= b < 0x100

  /** Six bits of a character, as a byte that continues another. */
  function Low(r: nat): Byte { 0x80 + r % 0x40 }

  /** The bytes of one character: how many there are shows in the first, and the others carry six bits each. */
  function Bytes(r: Scalar): seq<Byte> {
    var r1 := r / 0x40;
    var r2 := r1 / 0x40;
    if r < 0x80 then [r]
    else if r < 0x800 then [0xC0 + r1, Low(r)]
    else if r < 0x1_0000 then [0xE0 + r2, Low(r1), Low(r)]
    else [0xF0 + r2 / 0x40, Low(r2), Low(r1), Low(r)]
  }

  function EncodeUtf8(s: seq<Scalar>): seq<Byte> {
    if s == [] then [] else EncodeUtf8(s[..|s| - 1]) + Bytes(s[|s| - 1])
  }

  predicate Continues(b: Byte) { 0x80 <= b < 0xC0 }

  /** Where the last character begins: the continuing bytes at the end belong to it. */
  function LastStart(bytes: seq<Byte>): (at: nat)
    ensures bytes != [] ==> at < |bytes|
  {
    if |bytes| <= 1 then 0
    else if Continues(bytes[|bytes| - 1]) then LastStart(bytes[..|bytes| - 1])
    else |bytes| - 1
  }

  /** Six more bits. */
  function With(high: int, b: Byte): int { high * 0x40 + (b as int - 0x80) }

  /** The number the bytes of one character carry. */
  function Value(bytes: seq<Byte>): int {
    match |bytes|
    case 1 => bytes[0]
    case 2 => With(bytes[0] as int - 0xC0, bytes[1])
    case 3 => With(With(bytes[0] as int - 0xE0, bytes[1]), bytes[2])
    case 4 => With(With(With(bytes[0] as int - 0xF0, bytes[1]), bytes[2]), bytes[3])
    case _ => -1
  }

  /** Reading bytes back, character by character from the end. */
  function DecodeUtf8(bytes: seq<Byte>): seq<int>
    decreases |bytes|
  {
    if bytes == [] then []
    else
      var at := LastStart(bytes);
      DecodeUtf8(bytes[..at]) + [Value(bytes[at..])]
  }

  /** One character's bytes give it back, and only the first of them does not continue another. */
  lemma BytesOf(r: Scalar)
    ensures var bytes := Bytes(r);
            && 1 <= |bytes| <= 4 && Value(bytes) == r && !Continues(bytes[0])
            && forall k :: 1 <= k < |bytes| ==> Continues(bytes[k])
  {
  }

  lemma {:induction false} LastCharacter(before: seq<Byte>, bytes: seq<Byte>)
    requires bytes != [] && !Continues(bytes[0]) && forall k :: 1 <= k < |bytes| ==> Continues(bytes[k])
    ensures LastStart(before + bytes) == |before|
    decreases |bytes|
  {
    if |bytes| > 1 {
      var n := |bytes| - 1;
      assert (before + bytes)[..|before + bytes| - 1] == before + bytes[..n];
      LastCharacter(before, bytes[..n]);
    }
  }

  lemma {:induction false} DecodeNext(before: seq<Byte>, bytes: seq<Byte>)
    requires bytes != [] && !Continues(bytes[0]) && forall k :: 1 <= k < |bytes| ==> Continues(bytes[k])
    ensures DecodeUtf8(before + bytes) == DecodeUtf8(before) + [Value(bytes)]
  {
    LastCharacter(before, bytes);
    var all := before + bytes;
    assert all[..|before|] == before && all[|before|..] == bytes;
  }

  lemma {:induction false} CharacterReadBack(before: seq<Byte>, r: Scalar)
    ensures DecodeUtf8(before + Bytes(r)) == DecodeUtf8(before) + [r]
  {
    BytesOf(r);
    DecodeNext(before, Bytes(r));
  }

  lemma FrontAndLast<T>(s: seq<T>, n: nat)
    requires |s| == n + 1
    ensures s[..n] + [s[n]] == s
  {
  }

  /** What is encoded is read back as it was. */
  lemma {:induction false} Utf8RoundTrip(s: seq<Scalar>)
    ensures DecodeUtf8(EncodeUtf8(s)) == s
  {
    if s != [] {
      var n := |s| - 1;
      Utf8RoundTrip(s[..n]);
      CharacterReadBack(EncodeUtf8(s[..n]), s[n]);
      FrontAndLast(s, n);
    }
  }

  /** The length by which messages are limited is that of their encoding. */
  lemma {:induction false} LengthInBytes(s: seq<Scalar>)
    ensures Utf8Length(s) == |EncodeUtf8(s)|
  {
    if s != [] { LengthInBytes(s[..|s| - 1]); }
  }
}
