/** Identity tokens: "v1|" and one field per key part, encoded into a bounded buffer and decoded again. */
module Identity {
  import opened Bytes
  import opened Lists
  import opened Sql
  import opened Dml
  import Decimal

  datatype Part = Null | Int(n: int) | Text(bytes: seq<Byte>) | Blob(bytes: seq<Byte>)

  // ---- encoding ----

  function HexChar(d: nat): char
    requires d < 16
  {
    if d < 10 then '0' + d as char else 'a' + (d - 10) as char
  }

  function Hex(bytes: seq<Byte>): (r: string)
    ensures |r| == 2 * |bytes|
  {
    if bytes == [] then "" else [HexChar(bytes[0] / 16), HexChar(bytes[0] % 16)] + Hex(bytes[1..])
  }

  function Field(p: Part): string {
    match p
    case Null => "n0:"
    case Int(n) => "i" + PrintInt(n) + ":"
    case Text(bytes) => "s" + Decimal.Print(|bytes|) + ":" + Hex(bytes)
    case Blob(bytes) => "b" + Decimal.Print(|bytes|) + ":" + Hex(bytes)
  }

  /** The token text after the first i parts. */
  function Written(parts: seq<Part>, i: nat): string
    requires i <= |parts|
  {
    if i == 0 then "v1|" else Written(parts, i - 1) + (if i > 1 then "|" else "") + Field(parts[i - 1])
  }

  function Token(parts: seq<Part>): string {
    Written(parts, |parts|)
  }

  lemma {:induction false} WrittenGrows(parts: seq<Part>, i: nat, j: nat)
    requires i <= j <= |parts|
    ensures |Written(parts, i)| <= |Written(parts, j)|
    decreases j - i
  {
    if i < j { WrittenGrows(parts, i, j - 1); }
  }

  /** PUTS and PUTCH: append, or refuse when the text and one more character do not fit. */
  method Put(out: array<char>, o: nat, s: string) returns (ok: bool, o': nat)
    requires o <= out.Length
    modifies out
    ensures ok <==> o + |s| < out.Length
    ensures ok ==> o' == o + |s| && out[..o'] == old(out[..o]) + s
    ensures !ok ==> o' == o
  {
    if o + |s| >= out.Length { return false, o; }
    for k := 0 to |s|
      invariant out[..o + k] == old(out[..o]) + s[..k]
    {
      out[o + k] := s[k];
    }
    assert s[..|s|] == s;
    ok, o' := true, o + |s|;
  }

  method PutPart(out: array<char>, o: nat, parts: seq<Part>, i: nat) returns (ok: bool, o': nat)
    requires i < |parts| && o <= out.Length && out[..o] == Written(parts, i)
    modifies out
    ensures ok ==> o' <= out.Length && out[..o'] == Written(parts, i + 1) && o' < out.Length
    ensures !ok ==> out.Length <= |Written(parts, i + 1)|
  {
    ok, o' := true, o;
    if i > 0 {
      ok, o' := Put(out, o', "|");
      if !ok { return; }
    }
    ok, o' := Put(out, o', Field(parts[i]));
  }

  /** vms_identity_encode: succeeds exactly when token, terminator and one spare character fit. */
  method Encode(parts: seq<Part>, out: array<char>) returns (ok: bool)
    modifies out
    ensures ok <==> |Token(parts)| + 2 <= out.Length
    ensures ok ==> out[..|Token(parts)|] == Token(parts) && out[|Token(parts)|] == '\0'
  {
    WrittenGrows(parts, 0, |parts|);
    var o: nat;
    ok, o := Put(out, 0, "v1|");
    if !ok { return; }
    for i := 0 to |parts|
      invariant o < out.Length && out[..o] == Written(parts, i)
    {
      WrittenGrows(parts, i + 1, |parts|);
      ok, o := PutPart(out, o, parts, i);
      if !ok { return; }
    }
    if o + 1 >= out.Length { return false; }
    out[o] := '\0';
    ok := true;
  }

  // ---- decoding ----

  datatype FieldResult = BadField | FieldOverflow | Got(part: Part, rest: string)

  datatype Decoded = Bad | Overflow | Parts(parts: seq<Part>)

  /** The place of c in s, or the end of s. */
  function IndexOf(s: string, c: char): (k: nat)
    ensures k <= |s| && (k < |s| ==> s[k] == c) && forall i :: 0 <= i < k ==> s[i] != c
  {
    if s == "" || s[0] == c then 0 else 1 + IndexOf(s[1..], c)
  }

  function HexDigit(c: char): (d: int)
    ensures -1 <= d < 16
  {
    if '0' <= c <= '9' then (c - '0') as int else if 'a' <= c <= 'f' then (c - 'a') as int + 10 else -1
  }

  function ReadHex(s: string, n: nat): (r: Option<seq<Byte>>)
    ensures r.Some? ==> |r.value| == n && 2 * n <= |s|
    decreases n
  {
    if n == 0 then Some([])
    else if |s| < 2 || HexDigit(s[0]) < 0 || HexDigit(s[1]) < 0 then None
    else
      match ReadHex(s[2..], n - 1)
      case None => None
      case Some(more) => Some([HexDigit(s[0]) * 16 + HexDigit(s[1])] + more)
  }

  const MaxUlong: int := 0xFFFF_FFFF

  /** strtoul in base 10 with a 32-bit long. */
  function StrToUl(text: string): (n: nat) {
    var t := SkipSpace(text);
    var u := if t != "" && (t[0] == '-' || t[0] == '+') then t[1..] else t;
    var v := Decimal.Value(u[..Decimal.DigitRun(u)]);
    if v > MaxUlong then MaxUlong else if t != "" && t[0] == '-' then (MaxUlong + 1 - v) % (MaxUlong + 1) else v
  }

  /** The digits of an int field and what follows; the accumulator is a signed 64-bit integer. */
  function ReadDigits(u: string, neg: bool): FieldResult {
    var k := Decimal.DigitRun(u);
    if k == 0 then BadField
    else
      var v := Decimal.Value(u[..k]);
      if v > MaxInt64 then FieldOverflow
      else if k < |u| && u[k] == ':' then Got(Int(if neg then -(v as int) else v), u[k + 1..])
      else BadField
  }

  function ReadInt(s: string): FieldResult {
    if s != "" && s[0] == '-' then ReadDigits(s[1..], true)
    else if s != "" && s[0] == '+' then ReadDigits(s[1..], false)
    else ReadDigits(s, false)
  }

  /** n bytes in hex, and what follows. */
  function ReadSized(n: nat, s: string, text: bool): FieldResult {
    match ReadHex(s, n)
    case None => BadField
    case Some(bytes) => Got(if text then Text(bytes) else Blob(bytes), s[2 * n..])
  }

  function ReadBytes(s: string, text: bool): FieldResult {
    var k := IndexOf(s, ':');
    if k == |s| || k > 15 then BadField else ReadSized(StrToUl(s[..k]), s[k + 1..], text)
  }

  function ReadField(s: string): (r: FieldResult) {
    if s == "" then BadField
    else match s[0]
    case 'n' =>
      var k := IndexOf(s[1..], ':');
      if k == |s| - 1 then BadField else Got(Null, s[1..][k + 1..])
    case 'i' => ReadInt(s[1..])
    case 's' => ReadBytes(s[1..], true)
    case 'b' => ReadBytes(s[1..], false)
    case _ => BadField
  }

  ghost predicate Shrinks(read: string -> FieldResult) {
    forall s :: read(s).Got? ==> |read(s).rest| < |s|
  }

  lemma FieldShrinks()
    ensures Shrinks(ReadField)
  {
  }

  function Prepend(p: Part, d: Decoded): Decoded {
    if d.Parts? then Parts([p] + d.parts) else d
  }

  /** The fields of a token body, at most `max` of them, with a reader for one field. */
  ghost function ReadFields(read: string -> FieldResult, s: string, max: nat): Decoded
    requires Shrinks(read)
    decreases |s|
  {
    if s == "" then Parts([])
    else if max == 0 then Bad
    else
      match read(s)
      case BadField => Bad
      case FieldOverflow => Overflow
      case Got(p, rest) =>
        if rest == "" then Parts([p])
        else if rest[0] == '|' then Prepend(p, ReadFields(read, rest[1..], max - 1))
        else Bad
  }

  ghost function Decode(token: string, max: nat): Decoded {
    FieldShrinks();
    if |token| < 3 || token[..3] != "v1|" then Bad else ReadFields(ReadField, token[3..], max)
  }

  // ---- round trip ----

  predicate Encodable(p: Part) {
    if p.Int? then MinInt64 <= p.n <= MaxInt64 else p.Null? || |p.bytes| <= MaxUlong
  }

  lemma {:induction false} HexReads(bytes: seq<Byte>, rest: string)
    ensures ReadHex(Hex(bytes) + rest, |bytes|) == Some(bytes)
  {
    if bytes != [] {
      var s := Hex(bytes) + rest;
      assert s[2..] == Hex(bytes[1..]) + rest;
      HexReads(bytes[1..], rest);
      assert [bytes[0]] + bytes[1..] == bytes;
    }
  }

  lemma {:induction false} IndexAfter(s: string, c: char, rest: string)
    requires c !in s
    ensures IndexOf(s + [c] + rest, c) == |s|
  {
    if s != "" {
      assert (s + [c] + rest)[1..] == s[1..] + [c] + rest;
      IndexAfter(s[1..], c, rest);
    }
  }

  lemma {:induction false} FewDigits(n: nat, k: nat, bound: nat)
    requires n < bound && bound == Power10(k) && k > 0
    ensures |Decimal.Print(n)| <= k
  {
    if n >= 10 {
      assert k > 1;
      FewDigits(n / 10, k - 1, Power10(k - 1));
    }
  }

  function Power10(k: nat): nat {
    if k == 0 then 1 else 10 * Power10(k - 1)
  }

  lemma LengthReads(n: nat)
    requires n <= MaxUlong
    ensures StrToUl(Decimal.Print(n)) == n && |Decimal.Print(n)| <= 15
  {
    var s := Decimal.Print(n);
    Decimal.PrintValue(n);
    Decimal.DigitsRun(s, "");
    assert s + "" == s && Decimal.IsDigit(s[0]);
    assert Power10(10) == 10000000000 by { assert Power10(5) == 100000; }
    FewDigits(n, 10, Power10(10));
  }

  lemma DigitsRead(digits: string, neg: bool, rest: string)
    requires Decimal.AllDigits(digits) && digits != ""
    ensures ReadDigits(digits + (":" + rest), neg) ==
            var v := Decimal.Value(digits);
            if v > MaxInt64 then FieldOverflow else Got(Int(if neg then -(v as int) else v), rest)
  {
    Decimal.DigitsRun(digits, ":" + rest);
    assert (digits + (":" + rest))[|digits| + 1..] == rest;
  }

  lemma SignReads(digits: string, tail: string)
    requires digits != "" && Decimal.IsDigit(digits[0])
    ensures ReadInt("-" + digits + tail) == ReadDigits(digits + tail, true)
    ensures ReadInt(digits + tail) == ReadDigits(digits + tail, false)
  {
    assert ("-" + digits + tail)[1..] == digits + tail;
  }

  lemma IntReads(n: int, rest: string)
    requires MinInt64 <= n <= MaxInt64
    ensures ReadInt(PrintInt(n) + (":" + rest)) == if n == MinInt64 then FieldOverflow else Got(Int(n), rest)
  {
    var m := if n < 0 then -n else n;
    Decimal.PrintValue(m);
    SignReads(Decimal.Print(m), ":" + rest);
    DigitsRead(Decimal.Print(m), n < 0, rest);
  }

  lemma SizedReads(hex: string, bytes: seq<Byte>, rest: string, text: bool)
    requires |hex| == 2 * |bytes| && ReadHex(hex + rest, |bytes|) == Some(bytes)
    ensures ReadSized(|bytes|, hex + rest, text) == Got(if text then Text(bytes) else Blob(bytes), rest)
  {
    assert (hex + rest)[2 * |bytes|..] == rest;
  }

  lemma LengthSplits(len: string, payload: string, text: bool)
    requires ':' !in len && |len| <= 15
    ensures ReadBytes(len + (":" + payload), text) == ReadSized(StrToUl(len), payload, text)
  {
    var s := len + (":" + payload);
    assert s == len + [':'] + payload;
    IndexAfter(len, ':', payload);
    assert s[..|len|] == len && s[|len| + 1..] == payload;
  }

  lemma BytesRead(bytes: seq<Byte>, rest: string, text: bool)
    requires |bytes| <= MaxUlong
    ensures ReadBytes(Decimal.Print(|bytes|) + (":" + (Hex(bytes) + rest)), text)
            == Got(if text then Text(bytes) else Blob(bytes), rest)
  {
    LengthReads(|bytes|);
    LengthSplits(Decimal.Print(|bytes|), Hex(bytes) + rest, text);
    HexReads(bytes, rest);
    SizedReads(Hex(bytes), bytes, rest, text);
  }

  lemma NullReads(rest: string)
    ensures ReadField("n0:" + rest) == Got(Null, rest)
  {
    var s := "n0:" + rest;
    assert s[1..] == "0" + [':'] + rest;
    IndexAfter("0", ':', rest);
    assert s[1..][2..] == rest;
  }

  lemma FieldTail(c: char, s: string, rest: string)
    ensures ([c] + s + rest)[0] == c && ([c] + s + rest)[1..] == s + rest
  {
  }

  /** A field followed by anything is read back with exactly the rest left. */
  lemma FieldReads(p: Part, rest: string)
    requires Encodable(p)
    ensures ReadField(Field(p) + rest) == if p == Int(MinInt64) then FieldOverflow else Got(p, rest)
  {
    match p
    case Null => NullReads(rest);
    case Int(n) => IntFieldReads(n, rest);
    case Text(bytes) => BytesFieldReads(bytes, 's', rest);
    case Blob(bytes) => BytesFieldReads(bytes, 'b', rest);
  }

  lemma IntFieldReads(n: int, rest: string)
    requires MinInt64 <= n <= MaxInt64
    ensures ReadField("i" + PrintInt(n) + ":" + rest) == if n == MinInt64 then FieldOverflow else Got(Int(n), rest)
  {
    var digits := PrintInt(n);
    Assoc(['i'] + digits, ":", rest);
    FieldTail('i', digits, ":" + rest);
    IntReads(n, rest);
  }

  lemma BytesFieldSplits(kind: char, len: string, hex: string, rest: string)
    requires kind == 's' || kind == 'b'
    ensures ReadField([kind] + len + ":" + hex + rest) == ReadBytes(len + (":" + (hex + rest)), kind == 's')
  {
    Assoc([kind] + len + ":", hex, rest);
    Assoc([kind] + len, ":", hex + rest);
    FieldTail(kind, len, ":" + (hex + rest));
  }

  lemma BytesFieldReads(bytes: seq<Byte>, kind: char, rest: string)
    requires |bytes| <= MaxUlong && (kind == 's' || kind == 'b')
    ensures ReadField([kind] + Decimal.Print(|bytes|) + ":" + Hex(bytes) + rest)
            == Got(if kind == 's' then Text(bytes) else Blob(bytes), rest)
  {
    BytesFieldSplits(kind, Decimal.Print(|bytes|), Hex(bytes), rest);
    BytesRead(bytes, rest, kind == 's');
  }

  function Fields(parts: seq<Part>): (r: seq<string>)
    ensures |r| == |parts|
  {
    seq(|parts|, i requires 0 <= i < |parts| => Field(parts[i]))
  }

  /** The body of the token, from field i on. */
  function Body(fields: seq<string>, i: nat): string
    requires i <= |fields|
    decreases |fields| - i
  {
    if i == |fields| then "" else if i + 1 == |fields| then fields[i] else fields[i] + ("|" + Body(fields, i + 1))
  }

  lemma {:induction false} TokenIsBody(parts: seq<Part>, i: nat)
    requires i <= |parts|
    ensures Token(parts) == Written(parts, i) + (if 0 < i < |parts| then "|" else "") + Body(Fields(parts), i)
    decreases |parts| - i
  {
    if i < |parts| { TokenIsBody(parts, i + 1); }
  }

  /** The text is read back as the part, whatever follows. */
  ghost predicate ReadsAs(read: string -> FieldResult, field: string, p: Part) {
    forall rest :: read(field + rest) == if p == Int(MinInt64) then FieldOverflow else Got(p, rest)
  }

  predicate AllEncodable(parts: seq<Part>) {
    forall i :: 0 <= i < |parts| ==> Encodable(parts[i])
  }

  /** What decoding the body from part i on should give. */
  function Expected(parts: seq<Part>, i: nat): Decoded
    requires i <= |parts|
    decreases |parts| - i
  {
    if i == |parts| then Parts([])
    else if parts[i] == Int(MinInt64) then Overflow
    else Prepend(parts[i], Expected(parts, i + 1))
  }

  lemma {:induction false} ExpectedIs(parts: seq<Part>, i: nat)
    requires i <= |parts|
    ensures Expected(parts, i) == if Int(MinInt64) in parts[i..] then Overflow else Parts(parts[i..])
    decreases |parts| - i
  {
    if i < |parts| {
      assert parts[i..] == [parts[i]] + parts[i + 1..];
      ExpectedIs(parts, i + 1);
    }
  }

  lemma {:induction false} BodyReads(read: string -> FieldResult, fields: seq<string>, parts: seq<Part>, i: nat,
                                     max: nat)
    requires Shrinks(read) && i <= |fields| == |parts| <= i + max
    requires forall k :: 0 <= k < |parts| ==> fields[k] != "" && ReadsAs(read, fields[k], parts[k])
    ensures ReadFields(read, Body(fields, i), max) == Expected(parts, i)
    decreases |parts| - i
  {
    if i + 1 < |parts| {
      BodyReads(read, fields, parts, i + 1, max - 1);
      var more := "|" + Body(fields, i + 1);
      assert more[1..] == Body(fields, i + 1) && read(fields[i] + more) == read(Body(fields, i));
    } else if i < |parts| {
      assert fields[i] + "" == fields[i] && Expected(parts, i + 1) == Parts([]);
    }
  }

  lemma FieldReadsAs(p: Part)
    requires Encodable(p)
    ensures ReadsAs(ReadField, Field(p), p)
  {
    forall rest ensures ReadField(Field(p) + rest) == if p == Int(MinInt64) then FieldOverflow else Got(p, rest) {
      FieldReads(p, rest);
    }
  }

  /** Decoding a token gives its parts back, exactly unless one of them is the least 64-bit integer: its
      digits overflow the decoder's accumulator. */
  lemma RoundTrip(parts: seq<Part>, max: nat)
    requires AllEncodable(parts) && |parts| <= max
    ensures Decode(Token(parts), max) == if Int(MinInt64) in parts then Overflow else Parts(parts)
  {
    TokenIsBody(parts, 0);
    FieldShrinks();
    forall k | 0 <= k < |parts| ensures ReadsAs(ReadField, Fields(parts)[k], parts[k]) { FieldReadsAs(parts[k]); }
    BodyReads(ReadField, Fields(parts), parts, 0, max);
    ExpectedIs(parts, 0);
    assert parts[0..] == parts && Token(parts)[3..] == Body(Fields(parts), 0) && Token(parts)[..3] == "v1|";
  }

  // ---- tokens tell part lists apart ----

  /** Fields are read off the front of a text in one way only. */
  lemma FieldPrefix(p: Part, q: Part, r: string, r': string)
    requires Encodable(p) && Encodable(q) && Field(p) + r == Field(q) + r'
    ensures p == q && r == r'
  {
    FieldReads(p, r);
    FieldReads(q, r');
    assert p == q;
    assert (Field(p) + r)[|Field(p)|..] == r && (Field(q) + r')[|Field(q)|..] == r';
  }

  /** What follows field i. */
  function Tail(fields: seq<string>, i: nat): string
    requires i < |fields|
  {
    if i + 1 == |fields| then "" else "|" + Body(fields, i + 1)
  }

  lemma BodyTail(fields: seq<string>, i: nat)
    requires i < |fields|
    ensures Body(fields, i) == fields[i] + Tail(fields, i)
    ensures Tail(fields, i) == "" <==> i + 1 == |fields|
    ensures i + 1 < |fields| ==> Tail(fields, i)[1..] == Body(fields, i + 1)
  {
  }

  lemma SameUpTo(a: seq<Part>, b: seq<Part>, i: nat)
    requires i < |a| && i < |b| && a[..i] == b[..i] && a[i] == b[i]
    ensures a[..i + 1] == b[..i + 1]
  {
    assert a[..i + 1] == a[..i] + [a[i]] && b[..i + 1] == b[..i] + [b[i]];
  }

  /** Equal bodies begin with the same part, and go on equally. */
  lemma BodyHead(a: seq<Part>, b: seq<Part>, i: nat)
    requires AllEncodable(a) && AllEncodable(b) && i < |a| && i < |b| && Body(Fields(a), i) == Body(Fields(b), i)
    ensures a[i] == b[i] && (i + 1 == |a| <==> i + 1 == |b|) && Body(Fields(a), i + 1) == Body(Fields(b), i + 1)
  {
    BodyTail(Fields(a), i);
    BodyTail(Fields(b), i);
    FieldPrefix(a[i], b[i], Tail(Fields(a), i), Tail(Fields(b), i));
  }

  lemma {:induction false} BodyInjective(a: seq<Part>, b: seq<Part>, i: nat)
    requires AllEncodable(a) && AllEncodable(b) && i <= |a| && i <= |b| && a[..i] == b[..i]
    requires Body(Fields(a), i) == Body(Fields(b), i)
    ensures a == b
    decreases |a| - i
  {
    if i < |a| && i < |b| {
      BodyHead(a, b, i);
      SameUpTo(a, b, i);
      BodyInjective(a, b, i + 1);
    } else {
      if i < |a| { BodyTail(Fields(a), i); }
      if i < |b| { BodyTail(Fields(b), i); }
      assert a == a[..i] && b == b[..i];
    }
  }

  /** Distinct part lists have distinct tokens. */
  lemma TokenInjective(a: seq<Part>, b: seq<Part>)
    requires AllEncodable(a) && AllEncodable(b) && Token(a) == Token(b)
    ensures a == b
  {
    TokenIsBody(a, 0);
    TokenIsBody(b, 0);
    assert Token(a)[3..] == Body(Fields(a), 0) && Token(b)[3..] == Body(Fields(b), 0);
    BodyInjective(a, b, 0);
  }
}
