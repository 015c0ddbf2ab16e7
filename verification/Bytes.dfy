/** Bytes and 32-bit little-endian words. */
module Bytes {

  type Byte = b: nat | b < 256

  const Word: nat := 0x1_0000_0000

  function U32(v: nat): (b: seq<Byte>)
    requires v < Word
    ensures |b| == 4
  {
    [v % 256, (v / 256) % 256, (v / 65536) % 256, (v / 16777216) % 256]
  }

  function WordOf(b: seq<Byte>): (v: nat)
    requires |b| >= 4
    ensures v < Word
  {
    var b0: nat, b1: nat, b2: nat, b3: nat := b[0], b[1], b[2], b[3];
    b0 + 256 * b1 + 65536 * b2 + 16777216 * b3
  }

  lemma WordBack(v: nat)
    requires v < Word
    ensures WordOf(U32(v)) == v
  {
    var a, b, c := v / 256, v / 65536, v / 16777216;
    assert a / 256 == b && b / 256 == c && c < 256;
  }

  /** The bytes of a C string, without the terminator. */
  predicate CText(s: string) {
    forall i :: 0 <= i < |s| ==> 0 < s[i] as int < 256
  }

  function TextBytes(s: string): (b: seq<Byte>)
    requires CText(s)
    ensures |b| == |s| && forall i :: 0 <= i < |s| ==> b[i] == s[i] as nat && b[i] != 0
  {
    seq(|s|, i requires 0 <= i < |s| => s[i] as nat)
  }

  function BytesText(b: seq<Byte>): (s: string)
    ensures |s| == |b|
  {
    seq(|b|, i requires 0 <= i < |b| => b[i] as char)
  }

  lemma TextBack(s: string)
    requires CText(s)
    ensures BytesText(TextBytes(s)) == s
  {
  }

  /** The place of the first NUL, or the end. */
  function FirstNul(b: seq<Byte>): (k: nat)
    ensures k <= |b| && (k < |b| ==> b[k] == 0) && forall i :: 0 <= i < k ==> b[i] != 0
  {
    if b == [] || b[0] == 0 then 0 else 1 + FirstNul(b[1..])
  }

  lemma NulAfter(s: seq<Byte>, rest: seq<Byte>)
    requires forall i :: 0 <= i < |s| ==> s[i] != 0
    ensures FirstNul(s + ([0] + rest)) == |s|
  {
    var t := s + ([0] + rest);
    assert t[|s|] == 0 && forall i :: 0 <= i < |s| ==> t[i] == s[i];
  }
}
