/** vms_identity_decode: the pointer walk, against the field-by-field definition.  A pointer into the
    token is the text from there on. */
module IdentityDecode {
  import opened Bytes
  import opened Lists
  import opened Dml
  import opened Identity
  import Decimal

  /** The distance to the next colon, or to the end. */
  method SkipToColon(s: string) returns (k: nat)
    ensures k == IndexOf(s, ':')
  {
    k := 0;
    while k < |s| && s[k] != ':'
      invariant k <= |s| && IndexOf(s, ':') == k + IndexOf(s[k..], ':')
    {
      assert s[k..][1..] == s[k + 1..];
      k := k + 1;
    }
  }

  lemma {:induction false} DigitsFrom(s: string, k: nat)
    requires k <= |s| && Decimal.AllDigits(s[..k])
    ensures Decimal.DigitRun(s) == k + Decimal.DigitRun(s[k..])
  {
    if k > 0 {
      assert s[1..][..k - 1] == s[..k][1..] && s[1..][k - 1..] == s[k..];
      DigitsFrom(s[1..], k - 1);
    }
  }

  lemma NextDigit(s: string, k: nat)
    requires k < |s| && Decimal.AllDigits(s[..k]) && Decimal.IsDigit(s[k])
    ensures Decimal.AllDigits(s[..k + 1])
    ensures Decimal.Value(s[..k + 1]) == Decimal.Value(s[..k]) * 10 + Decimal.DigitValue(s[k])
  {
    assert s[..k + 1][..k] == s[..k];
  }

  lemma PartOfRun(s: string, k: nat)
    requires k <= |s| && Decimal.AllDigits(s[..k])
    ensures Decimal.Value(s[..k]) <= Decimal.Value(s[..Decimal.DigitRun(s)])
  {
    DigitsFrom(s, k);
    WithinRun(s, k, Decimal.DigitRun(s));
  }

  lemma WithinRun(s: string, k: nat, run: nat)
    requires k <= run <= |s| && Decimal.AllDigits(s[..run])
    ensures Decimal.AllDigits(s[..k]) && Decimal.Value(s[..k]) <= Decimal.Value(s[..run])
  {
    assert s[..run][..k] == s[..k];
    Decimal.PrefixValue(s[..run], k);
  }

  /** The digit loop; None when the 64-bit accumulator overflows. */
  method WalkDigits(s: string) returns (v: Option<nat>, k: nat)
    ensures var run := Decimal.DigitRun(s);
            && (v.None? <==> Decimal.Value(s[..run]) > MaxInt64)
            && (v.Some? ==> k == run && v.value == Decimal.Value(s[..run]))
  {
    k := 0;
    var n := 0;
    while k < |s| && Decimal.IsDigit(s[k])
      invariant k <= |s| && Decimal.AllDigits(s[..k]) && n == Decimal.Value(s[..k]) <= MaxInt64
    {
      NextDigit(s, k);
      n := n * 10 + Decimal.DigitValue(s[k]);
      if n > MaxInt64 {
        PartOfRun(s, k + 1);
        return None, k;
      }
      k := k + 1;
    }
    DigitsFrom(s, k);
    v := Some(n);
  }

  /** The digits of an int field behind its sign. */
  method WalkNumber(u: string, neg: bool) returns (r: FieldResult)
    ensures r == ReadDigits(u, neg)
  {
    if u == "" || !Decimal.IsDigit(u[0]) { return BadField; }
    var v, k := WalkDigits(u);
    if v.None? { return FieldOverflow; }
    if k == |u| || u[k] != ':' { return BadField; }
    var n: int := v.value;
    r := Got(Int(if neg then -n else n), u[k + 1..]);
  }

  method WalkInt(s: string) returns (r: FieldResult)
    ensures r == ReadInt(s)
  {
    var neg, u := false, s;
    if s != "" && s[0] == '-' {
      neg, u := true, s[1..];
    } else if s != "" && s[0] == '+' {
      u := s[1..];
    }
    r := WalkNumber(u, neg);
  }

  lemma HexStep(raw: seq<Byte>, s: string, n: nat)
    requires n > 0 && |s| >= 2 && HexDigit(s[0]) >= 0 && HexDigit(s[1]) >= 0
    ensures var b := HexDigit(s[0]) * 16 + HexDigit(s[1]);
            Joined(raw, ReadHex(s, n)) == Joined(raw + [b], ReadHex(s[2..], n - 1))
  {
    var b, more := HexDigit(s[0]) * 16 + HexDigit(s[1]), ReadHex(s[2..], n - 1);
    if more.Some? { Assoc(raw, [b], more.value); }
  }

  /** The hex loop. */
  method WalkHex(s: string, n: nat) returns (bytes: Option<seq<Byte>>)
    ensures bytes == ReadHex(s, n)
  {
    var raw: seq<Byte> := [];
    for i := 0 to n
      invariant 2 * i <= |s| && ReadHex(s, n) == Joined(raw, ReadHex(s[2 * i..], n - i))
    {
      var u := s[2 * i..];
      if |u| < 2 || HexDigit(u[0]) < 0 || HexDigit(u[1]) < 0 { return None; }
      HexStep(raw, u, n - i);
      assert u[2..] == s[2 * (i + 1)..];
      raw := raw + [HexDigit(u[0]) * 16 + HexDigit(u[1])];
    }
    assert raw + [] == raw;
    bytes := Some(raw);
  }

  method WalkBytes(s: string, text: bool) returns (r: FieldResult)
    ensures r == ReadBytes(s, text)
  {
    var k := SkipToColon(s);
    if k == |s| || k > 15 { return BadField; }
    var n := StrToUl(s[..k]);
    var bytes := WalkHex(s[k + 1..], n);
    if bytes.None? { return BadField; }
    r := Got(if text then Text(bytes.value) else Blob(bytes.value), s[k + 1..][2 * n..]);
  }

  method WalkField(s: string) returns (r: FieldResult)
    requires s != ""
    ensures r == ReadField(s)
  {
    match s[0]
    case 'n' =>
      var k := SkipToColon(s[1..]);
      if k == |s| - 1 { return BadField; }
      r := Got(Null, s[1..][k + 1..]);
    case 'i' => r := WalkInt(s[1..]);
    case 's' => r := WalkBytes(s[1..], true);
    case 'b' => r := WalkBytes(s[1..], false);
    case _ => r := BadField;
  }

  function Onto(got: seq<Part>, d: Decoded): Decoded {
    if d.Parts? then Parts(got + d.parts) else d
  }

  /** What is left to do with the parts got so far and the text still to read. */
  ghost function Left(read: string -> FieldResult, got: seq<Part>, s: string, max: nat): Decoded
    requires Shrinks(read) && |got| <= max
  {
    Onto(got, ReadFields(read, s, max - |got|))
  }

  lemma LeftStep(read: string -> FieldResult, got: seq<Part>, s: string, max: nat)
    requires Shrinks(read) && |got| < max && s != ""
    ensures Left(read, got, s, max) ==
            match read(s)
            case BadField => Bad
            case FieldOverflow => Overflow
            case Got(p, rest) =>
              if rest == "" then Parts(got + [p])
              else if rest[0] != '|' then Bad
              else Left(read, got + [p], rest[1..], max)
  {
    if read(s).Got? && read(s).rest != "" && read(s).rest[0] == '|' {
      var p, more := read(s).part, ReadFields(read, read(s).rest[1..], max - |got| - 1);
      assert more.Parts? ==> got + ([p] + more.parts) == got + [p] + more.parts;
    }
  }

  /** vms_identity_decode */
  method Run(token: string, max: nat) returns (r: Decoded)
    ensures r == Decode(token, max)
  {
    FieldShrinks();
    if |token| < 3 || token[..3] != "v1|" { return Bad; }
    r := ReadAll(token[3..], max, ReadField);
  }

  /** The field loop. */
  method ReadAll(body: string, max: nat, ghost read: string -> FieldResult) returns (r: Decoded)
    requires Shrinks(read) && forall s {:trigger ReadField(s)} :: read(s) == ReadField(s)
    ensures r == ReadFields(read, body, max)
  {
    var s := body;
    var parts: seq<Part> := [];
    assert Left(read, [], body, max) == ReadFields(read, body, max) by { OntoNothing(ReadFields(read, body, max)); }
    while s != ""
      invariant |parts| <= max && Left(read, parts, s, max) == ReadFields(read, body, max)
      decreases |s|
    {
      if |parts| >= max { return Bad; }
      LeftStep(read, parts, s, max);
      var field := WalkField(s);
      assert field == read(s);
      if field.BadField? { return Bad; }
      if field.FieldOverflow? { return Overflow; }
      parts := parts + [field.part];
      if field.rest == "" { return Parts(parts); }
      if field.rest[0] != '|' { return Bad; }
      s := field.rest[1..];
    }
    assert parts + [] == parts;
    r := Parts(parts);
  }

  lemma OntoNothing(d: Decoded)
    ensures Onto([], d) == d
  {
    if d.Parts? { assert [] + d.parts == d.parts; }
  }
}
