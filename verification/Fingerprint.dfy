/** The payload fingerprint: xor a byte, multiply modulo 2^64, from the code's own start value. */
module Fingerprint {
  import opened Bytes

  const Modulus: nat := 0x1_0000_0000_0000_0000
  const Prime: nat := 1099511628211
  const StartValue: nat := 1469598103934665603

  /** Bitwise exclusive or of the low k bits. */
  function Xor(a: nat, b: nat, k: nat): nat {
    if k == 0 then 0 else (if a % 2 == b % 2 then 0 else 1) + 2 * Xor(a / 2, b / 2, k - 1)
  }

  function Power2(k: nat): nat {
    if k == 0 then 1 else 2 * Power2(k - 1)
  }

  lemma {:induction false} XorBound(a: nat, b: nat, k: nat)
    ensures Xor(a, b, k) < Power2(k)
  {
    if k > 0 { XorBound(a / 2, b / 2, k - 1); }
  }

  lemma {:induction false} XorTwice(a: nat, b: nat, k: nat)
    requires a < Power2(k)
    ensures Xor(Xor(a, b, k), b, k) == a
  {
    if k > 0 { XorTwice(a / 2, b / 2, k - 1); }
  }

  /** Bit by bit, the places where the two differ. */
  lemma {:induction false} XorBits(a: nat, b: nat, k: nat, j: nat)
    requires j < k
    ensures Bit(Xor(a, b, k), j) <==> Bit(a, j) != Bit(b, j)
  {
    if j > 0 { XorBits(a / 2, b / 2, k - 1, j - 1); }
  }

  /** Bit j of a number. */
  predicate Bit(n: nat, j: nat) {
    if j == 0 then n % 2 == 1 else Bit(n / 2, j - 1)
  }

  lemma {:induction false} XorSymmetric(a: nat, b: nat, k: nat)
    ensures Xor(a, b, k) == Xor(b, a, k)
  {
    if k > 0 { XorSymmetric(a / 2, b / 2, k - 1); }
  }

  /** Exclusive or of two bytes. */
  function XorByte(a: nat, b: nat): (r: nat)
    ensures r < 256
  {
    XorBound(a, b, 8);
    assert Power2(4) == 16 && Power2(8) == 256;
    Xor(a, b, 8)
  }

  lemma XorByteBack(a: nat, b: nat)
    requires a < 256
    ensures XorByte(XorByte(a, b), b) == a
  {
    assert Power2(4) == 16 && Power2(8) == 256;
    XorTwice(a, b, 8);
  }

  lemma XorByteInjective(a: nat, b: nat, c: nat)
    requires b < 256 && c < 256 && XorByte(a, b) == XorByte(a, c)
    ensures b == c
  {
    XorSymmetric(a, b, 8);
    XorSymmetric(a, c, 8);
    XorByteBack(b, a);
    XorByteBack(c, a);
  }

  type Hash = h: nat | h < Modulus

  lemma HighBits(h: Hash)
    ensures 256 * (h / 256) <= Modulus - 256
  {
  }

  /** The byte only touches the low eight bits. */
  function Mixed(h: Hash, b: Byte): (r: Hash) {
    HighBits(h);
    256 * (h / 256) + XorByte(h % 256, b)
  }

  function Step(h: Hash, b: Byte): (r: Hash) {
    (Mixed(h, b) * Prime) % Modulus
  }

  function Fold(h: Hash, bytes: seq<Byte>): (r: Hash) {
    if bytes == [] then h else Step(Fold(h, bytes[..|bytes| - 1]), bytes[|bytes| - 1])
  }

  function HashOf(bytes: seq<Byte>): Hash {
    Fold(StartValue, bytes)
  }

  /** The fingerprints of no byte and of a single letter a. */
  lemma KnownHashes()
    ensures HashOf([]) == 1469598103934665603
    ensures HashOf([97]) == 4953267810257967366
  {
    assert 1469598103934665603 % 256 == 131;
    assert Xor(8, 6, 4) == 14 && Xor(131, 97, 8) == 2 + 16 * Xor(8, 6, 4);
    assert Mixed(1469598103934665603, 97) == 1469598103934665698;
    assert [97][..0] == [];
  }

  /** vms_meta_shadow_check */
  method ShadowCheck(payload: seq<Byte>, stored: nat) returns (ok: bool)
    ensures ok <==> |payload| >= 12 && HashOf(payload) == stored
  {
    if |payload| < 12 { return false; }
    var fp: Hash := StartValue;
    for i := 0 to |payload|
      invariant fp == HashOf(payload[..i])
    {
      assert payload[..i + 1][..i] == payload[..i];
      fp := Step(fp, payload[i]);
    }
    assert payload[..|payload|] == payload;
    ok := fp == stored;
  }

  // ---- each step is a bijection ----

  /** The inverse of the prime modulo 2^64: Prime * Inverse == 1 + 887285111055 * 2^64. */
  const Inverse: nat := 14886173955864302971

  lemma MultiplyBack(x: Hash)
    ensures (((x * Prime) % Modulus) * Inverse) % Modulus == x
  {
    var q, r := (x * 1099511628211) / 0x1_0000_0000_0000_0000, (x * 1099511628211) % 0x1_0000_0000_0000_0000;
    assert x * 1099511628211 == q * 0x1_0000_0000_0000_0000 + r;
    var t := x * 887285111055 - q * 14886173955864302971;
    assert r * 14886173955864302971 == x + 0x1_0000_0000_0000_0000 * t;
    RemainderOf(x, t);
  }

  lemma RemainderOf(x: Hash, t: int)
    ensures (x + 0x1_0000_0000_0000_0000 * t) % 0x1_0000_0000_0000_0000 == x
  {
  }

  lemma LowAndHigh(q: nat, r: nat)
    requires r < 256
    ensures (256 * q + r) % 256 == r && (256 * q + r) / 256 == q
  {
  }

  lemma MixedParts(h: Hash, b: Byte)
    ensures Mixed(h, b) % 256 == XorByte(h % 256, b) && Mixed(h, b) / 256 == h / 256
  {
    LowAndHigh(h / 256, XorByte(h % 256, b));
  }

  lemma StateInjective(g: Hash, h: Hash, b: Byte)
    requires Step(g, b) == Step(h, b)
    ensures g == h
  {
    MultiplyBack(Mixed(g, b));
    MultiplyBack(Mixed(h, b));
    MixedParts(g, b);
    MixedParts(h, b);
    XorByteBack(g % 256, b);
    XorByteBack(h % 256, b);
  }

  lemma ByteInjective(h: Hash, b: Byte, c: Byte)
    requires Step(h, b) == Step(h, c)
    ensures b == c
  {
    MultiplyBack(Mixed(h, b));
    MultiplyBack(Mixed(h, c));
    MixedParts(h, b);
    MixedParts(h, c);
    XorByteInjective(h % 256, b, c);
  }

  lemma {:induction false} FoldInjective(g: Hash, h: Hash, bytes: seq<Byte>)
    requires Fold(g, bytes) == Fold(h, bytes)
    ensures g == h
  {
    if bytes != [] {
      var n := |bytes| - 1;
      StateInjective(Fold(g, bytes[..n]), Fold(h, bytes[..n]), bytes[n]);
      FoldInjective(g, h, bytes[..n]);
    }
  }

  lemma {:induction false} FoldAppend(h: Hash, a: seq<Byte>, b: seq<Byte>)
    ensures Fold(h, a + b) == Fold(Fold(h, a), b)
  {
    if b == [] {
      assert a + b == a;
    } else {
      assert (a + b)[..|a + b| - 1] == a + b[..|b| - 1];
      FoldAppend(h, a, b[..|b| - 1]);
    }
  }

  /** Payloads of equal length that differ in exactly one byte have different fingerprints. */
  lemma OneByteChangesHash(p: seq<Byte>, i: nat, c: Byte)
    requires i < |p| && p[i] != c
    ensures HashOf(p[i := c]) != HashOf(p)
  {
    var before, after := p[..i], p[i + 1..];
    var h := Fold(StartValue, before);
    assert p == before + ([p[i]] + after) && p[i := c] == before + ([c] + after);
    SplitFold(before, p[i], after);
    SplitFold(before, c, after);
    if HashOf(p[i := c]) == HashOf(p) {
      FoldInjective(Step(h, p[i]), Step(h, c), after);
      ByteInjective(h, p[i], c);
    }
  }

  lemma SplitFold(before: seq<Byte>, b: Byte, after: seq<Byte>)
    ensures HashOf(before + ([b] + after)) == Fold(Step(Fold(StartValue, before), b), after)
  {
    FoldAppend(StartValue, before, [b] + after);
    FoldAppend(Fold(StartValue, before), [b], after);
    assert [b][..0] == [] && Fold(Fold(StartValue, before), [b]) == Step(Fold(StartValue, before), b);
  }

  /** The shadow check rejects every single-byte corruption of a payload it accepts. */
  lemma CorruptionDetected(p: seq<Byte>, stored: nat, i: nat, c: Byte)
    requires |p| >= 12 && HashOf(p) == stored && i < |p| && p[i] != c
    ensures HashOf(p[i := c]) != stored
  {
    OneByteChangesHash(p, i, c);
  }
}
