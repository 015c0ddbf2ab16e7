/** The texts the token decoder accepts, character by character, and what it reads in them. */
module IdentityGrammar {
  import opened Bytes
  import opened Lists
  import opened Identity
  import opened Dml
  import opened DmlMade
  import Decimal

  // ---- hex ----

  lemma HexDigitExactly(c: char, d: nat)
    requires d < 16
    ensures HexDigit(c) == d <==> c == HexChar(d)
    ensures HexChar(d) == "0123456789abcdef"[d]
  {
  }

  lemma {:induction false} HexExactly(s: string, bytes: seq<Byte>)
    ensures ReadHex(s, |bytes|) == Some(bytes) <==> Hex(bytes) <= s
    decreases |bytes|
  {
    if bytes != [] {
      var hex := Hex(bytes);
      assert hex[2..] == Hex(bytes[1..]);
      if |s| >= 2 {
        HexExactly(s[2..], bytes[1..]);
        TwoDigits(s, bytes);
        assert Hex(bytes) <= s <==> s[..2] == hex[..2] && hex[2..] <= s[2..] by { PrefixSplit(hex, s); }
        var more := ReadHex(s[2..], |bytes| - 1);
        assert more.Some? ==> ([0] + more.value)[1..] == more.value;
        assert bytes == [bytes[0]] + bytes[1..];
      }
    }
  }

  lemma PrefixSplit(a: string, b: string)
    requires |a| >= 2 && |b| >= 2
    ensures a <= b <==> b[..2] == a[..2] && a[2..] <= b[2..]
  {
    if b[..2] == a[..2] && a[2..] <= b[2..] {
      assert a == a[..2] + a[2..] && b[..|a|] == b[..2] + b[2..][..|a| - 2];
    }
    if a <= b { assert b[2..][..|a| - 2] == a[2..]; }
  }

  lemma TwoDigits(s: string, bytes: seq<Byte>)
    requires |s| >= 2 && bytes != []
    ensures s[..2] == Hex(bytes)[..2] <==>
              HexDigit(s[0]) >= 0 && HexDigit(s[1]) >= 0 && HexDigit(s[0]) * 16 + HexDigit(s[1]) == bytes[0]
  {
    var h, l := bytes[0] / 16, bytes[0] % 16;
    assert Hex(bytes)[0] == HexChar(h) && Hex(bytes)[1] == HexChar(l);
    TwoChars(s, HexChar(h), HexChar(l));
    TwoChars(Hex(bytes), HexChar(h), HexChar(l));
    HexDigitExactly(s[0], h);
    HexDigitExactly(s[1], l);
    SplitByte(HexDigit(s[0]), HexDigit(s[1]), bytes[0]);
  }

  lemma TwoChars(s: string, a: char, b: char)
    requires |s| >= 2
    ensures s[..2] == [a, b] <==> s[0] == a && s[1] == b
  {
    assert s[..2] == [s[0], s[1]];
  }

  lemma SplitByte(a: int, b: int, n: nat)
    ensures 0 <= a < 16 && 0 <= b < 16 ==> (a * 16 + b == n <==> a == n / 16 && b == n % 16)
  {
  }

  // ---- fields ----

  /** The length of a text or blob: at most 15 characters before the colon, read as a number. */
  predicate LengthOf(len: string, n: nat) {
    |len| <= 15 && ':' !in len && StrToUl(len) == n
  }

  /** A signed decimal of 64 bits. */
  predicate IntOf(sign: string, digits: string, n: int) {
    && sign in {"", "-", "+"} && digits != "" && Decimal.AllDigits(digits)
    && Decimal.Value(digits) <= 9223372036854775807
    && n == if sign == "-" then -(Decimal.Value(digits) as int) else Decimal.Value(digits)
  }

  /** The text begins with a field that stands for the part; the rest follows. */
  ghost predicate BeginsWith(s: string, p: Part, rest: string) {
    match p
    case Null => exists skipped :: ':' !in skipped && s == ['n'] + (skipped + (":" + rest))
    case Int(n) => exists sign, digits :: IntOf(sign, digits, n) && s == ['i'] + (sign + (digits + (":" + rest)))
    case Text(bytes) => s != "" && s[0] == 's' && SizedBegins(s[1..], bytes, rest)
    case Blob(bytes) => s != "" && s[0] == 'b' && SizedBegins(s[1..], bytes, rest)
  }

  /** A length, a colon and so many bytes in hex. */
  ghost predicate SizedBegins(s: string, bytes: seq<Byte>, rest: string) {
    exists len :: LengthOf(len, |bytes|) && s == len + (":" + (Hex(bytes) + rest))
  }

  lemma Head(s: string, c: char, t: string)
    ensures s == [c] + t <==> s != "" && s[0] == c && s[1..] == t
  {
    if s != "" { assert s == [s[0]] + s[1..]; }
    if s == [c] + t { assert s[1..] == t; }
  }

  lemma IndexFound(before: string, c: char, rest: string)
    requires c !in before
    ensures var s := before + ([c] + rest);
            IndexOf(s, c) == |before| && s[..|before|] == before && s[|before| + 1..] == rest
  {
    var s, k := before + ([c] + rest), |before|;
    assert s[k] == c && s[..k] == before && s[k + 1..] == rest;
    assert forall i :: 0 <= i < k ==> s[i] == before[i];
  }

  lemma IndexSplits(s: string, c: char)
    ensures var k := IndexOf(s, c); k < |s| ==> s == s[..k] + ([c] + s[k + 1..])
  {
  }

  lemma IndexExactly(s: string, before: string, c: char, rest: string)
    requires c !in before
    ensures s == before + ([c] + rest) <==>
              IndexOf(s, c) == |before| && |before| < |s| && s[..|before|] == before && s[|before| + 1..] == rest
  {
    IndexFound(before, c, rest);
    IndexSplits(s, c);
  }

  lemma Before(s: string, c: char)
    ensures c !in s[..IndexOf(s, c)]
  {
  }

  lemma NullExactly(s: string, rest: string)
    ensures IndexOf(s, ':') < |s| && s[IndexOf(s, ':') + 1..] == rest <==>
              exists skipped :: ':' !in skipped && s == skipped + ([':'] + rest)
  {
    var k := IndexOf(s, ':');
    Before(s, ':');
    IndexExactly(s, s[..k], ':', rest);
    if skipped :| ':' !in skipped && s == skipped + ([':'] + rest) { IndexExactly(s, skipped, ':', rest); }
  }

  lemma NullField(s: string, rest: string)
    requires s != "" && s[0] == 'n'
    ensures ReadField(s) == Got(Null, rest) <==> BeginsWith(s, Null, rest)
  {
    NullExactly(s[1..], rest);
    assert ReadField(s) == Got(Null, rest) <==>
             IndexOf(s[1..], ':') < |s[1..]| && s[1..][IndexOf(s[1..], ':') + 1..] == rest;
    if skipped :| ':' !in skipped && s[1..] == skipped + ([':'] + rest) {
      Head(s, 'n', skipped + (":" + rest));
    }
    if BeginsWith(s, Null, rest) {
      var skipped :| ':' !in skipped && s == ['n'] + (skipped + (":" + rest));
      Head(s, 'n', skipped + (":" + rest));
    }
  }

  lemma DigitsRead(digits: string, neg: bool, n: int, rest: string)
    requires IntOf(if neg then "-" else "", digits, n)
    ensures ReadDigits(digits + (":" + rest), neg) == Got(Int(n), rest)
  {
    var u := digits + (":" + rest);
    Decimal.DigitsRun(digits, ":" + rest);
    assert u[..|digits|] == digits && u[|digits|] == ':' && u[|digits| + 1..] == rest;
  }

  lemma DigitsFound(u: string, neg: bool, n: int, rest: string)
    requires ReadDigits(u, neg) == Got(Int(n), rest)
    ensures var digits := u[..Decimal.DigitRun(u)];
            IntOf(if neg then "-" else "", digits, n) && u == digits + (":" + rest)
  {
    var k := Decimal.DigitRun(u);
    assert u[k + 1..] == rest && u[k] == ':';
    assert u == u[..k] + ([u[k]] + u[k + 1..]);
  }

  lemma SignedRead(sign: string, digits: string, n: int, rest: string)
    requires IntOf(sign, digits, n)
    ensures ReadInt(sign + (digits + (":" + rest))) == Got(Int(n), rest)
  {
    var u := digits + (":" + rest);
    DigitsRead(digits, sign == "-", n, rest);
    assert u[0] == digits[0];
    if sign == "" {
      assert sign + u == u;
    } else {
      assert (sign + u)[0] == sign[0] && (sign + u)[1..] == u;
    }
  }

  lemma SignedFound(s: string, n: int, rest: string) returns (sign: string, digits: string)
    requires ReadInt(s) == Got(Int(n), rest)
    ensures IntOf(sign, digits, n) && s == sign + (digits + (":" + rest))
  {
    if s != "" && (s[0] == '-' || s[0] == '+') {
      sign := [s[0]];
      DigitsFound(s[1..], s[0] == '-', n, rest);
      digits := s[1..][..Decimal.DigitRun(s[1..])];
      Head(s, s[0], s[1..]);
    } else {
      sign := "";
      DigitsFound(s, false, n, rest);
      digits := s[..Decimal.DigitRun(s)];
      assert s == sign + s;
    }
  }

  lemma IntField(s: string, n: int, rest: string)
    requires s != "" && s[0] == 'i'
    ensures ReadField(s) == Got(Int(n), rest) <==> BeginsWith(s, Int(n), rest)
  {
    if ReadInt(s[1..]) == Got(Int(n), rest) {
      var sign, digits := SignedFound(s[1..], n, rest);
      Head(s, 'i', s[1..]);
    }
    if BeginsWith(s, Int(n), rest) {
      var sign, digits :| IntOf(sign, digits, n) && s == ['i'] + (sign + (digits + (":" + rest)));
      Head(s, 'i', sign + (digits + (":" + rest)));
      SignedRead(sign, digits, n, rest);
    }
  }

  function Sized(text: bool, bytes: seq<Byte>): Part {
    if text then Text(bytes) else Blob(bytes)
  }

  lemma SizedExactly(s: string, n: nat, bytes: seq<Byte>, text: bool, rest: string)
    ensures ReadSized(n, s, text) == Got(Sized(text, bytes), rest) <==> n == |bytes| && s == Hex(bytes) + rest
  {
    HexExactly(s, bytes);
    if Hex(bytes) <= s { assert s == Hex(bytes) + s[2 * |bytes|..]; }
    if s == Hex(bytes) + rest { assert s[..2 * |bytes|] == Hex(bytes) && s[2 * |bytes|..] == rest; }
  }

  lemma BytesFound(s: string, bytes: seq<Byte>, text: bool, rest: string)
    requires ReadBytes(s, text) == Got(Sized(text, bytes), rest)
    ensures var len := s[..IndexOf(s, ':')]; LengthOf(len, |bytes|) && s == len + (":" + (Hex(bytes) + rest))
  {
    var k := IndexOf(s, ':');
    Before(s, ':');
    SizedExactly(s[k + 1..], StrToUl(s[..k]), bytes, text, rest);
    IndexExactly(s, s[..k], ':', s[k + 1..]);
  }

  lemma BytesRead(len: string, bytes: seq<Byte>, text: bool, rest: string)
    requires LengthOf(len, |bytes|)
    ensures ReadBytes(len + (":" + (Hex(bytes) + rest)), text) == Got(Sized(text, bytes), rest)
  {
    var s := len + (":" + (Hex(bytes) + rest));
    IndexExactly(s, len, ':', Hex(bytes) + rest);
    SizedExactly(Hex(bytes) + rest, |bytes|, bytes, text, rest);
  }

  lemma SizedField(s: string, bytes: seq<Byte>, text: bool, rest: string)
    ensures ReadBytes(s, text) == Got(Sized(text, bytes), rest) <==> SizedBegins(s, bytes, rest)
  {
    if ReadBytes(s, text) == Got(Sized(text, bytes), rest) { BytesFound(s, bytes, text, rest); }
    if SizedBegins(s, bytes, rest) {
      var len :| LengthOf(len, |bytes|) && s == len + (":" + (Hex(bytes) + rest));
      BytesRead(len, bytes, text, rest);
    }
  }

  predicate KindIs(c: char, p: Part) {
    match p case Null => c == 'n' case Int(_) => c == 'i' case Text(_) => c == 's' case Blob(_) => c == 'b'
  }

  lemma FieldKind(s: string, p: Part, rest: string)
    ensures ReadField(s) == Got(p, rest) ==> s != "" && KindIs(s[0], p)
    ensures BeginsWith(s, p, rest) ==> s != "" && KindIs(s[0], p)
  {
  }

  /** The field reader accepts exactly the texts that begin with a field, and reads what it stands for. */
  lemma FieldExactly(s: string, p: Part, rest: string)
    ensures ReadField(s) == Got(p, rest) <==> BeginsWith(s, p, rest)
  {
    FieldKind(s, p, rest);
    if s != "" && KindIs(s[0], p) {
      match p
      case Null => NullField(s, rest);
      case Int(n) => IntField(s, n, rest);
      case Text(bytes) => SizedField(s[1..], bytes, true, rest);
      case Blob(bytes) => SizedField(s[1..], bytes, false, rest);
    }
  }

  /** A sign or none and digits that denote more than 2^63 - 1. */
  ghost predicate TooLarge(s: string) {
    exists sign, digits, rest ::
      && sign in {"", "-", "+"} && Decimal.AllDigits(digits) && Decimal.Value(digits) > 9223372036854775807
      && (rest == "" || !Decimal.IsDigit(rest[0])) && s == sign + (digits + rest)
  }

  lemma DigitsTooLarge(sign: string, digits: string, rest: string)
    requires sign in {"", "-", "+"} && Decimal.AllDigits(digits) && Decimal.Value(digits) > 9223372036854775807
    requires rest == "" || !Decimal.IsDigit(rest[0])
    ensures ReadInt(sign + (digits + rest)) == FieldOverflow
  {
    var u := digits + rest;
    Decimal.DigitsRun(digits, rest);
    assert digits != "" && u[0] == digits[0];
    assert ReadDigits(u, sign == "-") == FieldOverflow;
    if sign == "" {
      assert sign + u == u;
    } else {
      assert (sign + u)[0] == sign[0] && (sign + u)[1..] == u;
    }
  }

  lemma OverflowFound(s: string)
    requires ReadInt(s) == FieldOverflow
    ensures TooLarge(s)
  {
    if s != "" && (s[0] == '-' || s[0] == '+') {
      LargeDigits(s[1..], s[0] == '-');
      Head(s, s[0], s[1..]);
      Signed(s, [s[0]], s[1..]);
    } else {
      LargeDigits(s, false);
      assert s == "" + s;
      Signed(s, "", s);
    }
  }

  lemma LargeDigits(u: string, neg: bool)
    requires ReadDigits(u, neg) == FieldOverflow
    ensures var k := Decimal.DigitRun(u);
            Decimal.Value(u[..k]) > 9223372036854775807 && u == u[..k] + u[k..]
  {
  }

  lemma Signed(s: string, sign: string, u: string)
    requires sign in {"", "-", "+"} && s == sign + u
    requires var k := Decimal.DigitRun(u); Decimal.Value(u[..k]) > 9223372036854775807 && u == u[..k] + u[k..]
    ensures TooLarge(s)
  {
    var k := Decimal.DigitRun(u);
    assert s == sign + (u[..k] + u[k..]);
  }

  /** Overflow is reported exactly for an integer field with too large a number, whatever follows it. */
  lemma OverflowExactly(s: string)
    ensures ReadField(s) == FieldOverflow <==> s != "" && s[0] == 'i' && TooLarge(s[1..])
  {
    if s != "" && s[0] == 'i' {
      if ReadInt(s[1..]) == FieldOverflow { OverflowFound(s[1..]); }
      if TooLarge(s[1..]) {
        var sign, digits, rest :|
          && sign in {"", "-", "+"} && Decimal.AllDigits(digits) && Decimal.Value(digits) > 9223372036854775807
          && (rest == "" || !Decimal.IsDigit(rest[0])) && s[1..] == sign + (digits + rest);
        DigitsTooLarge(sign, digits, rest);
      }
    }
  }

  // ---- tokens ----

  /** Fields with a bar between them; one more bar may stand at the end. */
  ghost predicate IsBody(s: string, parts: seq<Part>)
    decreases |parts|
  {
    if parts == [] then s == ""
    else exists rest :: BeginsWith(s, parts[0], rest) && BodyGoesOn(rest, parts)
  }

  ghost predicate BodyGoesOn(rest: string, parts: seq<Part>)
    requires parts != []
    decreases |parts|, 0
  {
    if rest == "" then |parts| == 1 else rest[0] == '|' && IsBody(rest[1..], parts[1..])
  }

  lemma {:induction false} BodyExactly(s: string, parts: seq<Part>, max: nat)
    requires Shrinks(ReadField)
    ensures ReadFields(ReadField, s, max) == Parts(parts) <==> |parts| <= max && IsBody(s, parts)
    decreases |s|
  {
    var r := ReadField(s);
    if s == "" {
      if parts != [] && IsBody(s, parts) {
        var rest :| BeginsWith(s, parts[0], rest) && BodyGoesOn(rest, parts);
        FieldKind(s, parts[0], rest);
      }
    } else if r.Got? {
      FieldExactly(s, r.part, r.rest);
      if r.rest != "" && r.rest[0] == '|' && parts != [] {
        BodyExactly(r.rest[1..], parts[1..], if max > 0 then max - 1 else 0);
      }
      GotBody(s, r.part, r.rest, parts);
      if max > 0 { GotParts(s, r.part, r.rest, parts, max); }
    } else if parts != [] && IsBody(s, parts) {
      var rest :| BeginsWith(s, parts[0], rest) && BodyGoesOn(rest, parts);
      FieldExactly(s, parts[0], rest);
    }
  }

  /** With its first field read, a text is a body exactly if it goes on as one. */
  lemma GotBody(s: string, p: Part, rest: string, parts: seq<Part>)
    requires ReadField(s) == Got(p, rest) && s != ""
    ensures IsBody(s, parts) <==> parts != [] && parts[0] == p && BodyGoesOn(rest, parts)
  {
    FieldExactly(s, p, rest);
    if parts != [] && IsBody(s, parts) {
      var r' :| BeginsWith(s, parts[0], r') && BodyGoesOn(r', parts);
      FieldExactly(s, parts[0], r');
    }
  }

  lemma GotParts(s: string, p: Part, rest: string, parts: seq<Part>, max: nat)
    requires Shrinks(ReadField) && ReadField(s) == Got(p, rest) && s != "" && max > 0
    ensures ReadFields(ReadField, s, max) == Parts(parts) <==>
              && parts != [] && parts[0] == p
              && (if rest == "" then |parts| == 1
                  else rest[0] == '|' && ReadFields(ReadField, rest[1..], max - 1) == Parts(parts[1..]))
  {
    if rest == "" {
      assert |parts| == 1 ==> parts == [parts[0]];
    } else if rest[0] == '|' {
      var more := ReadFields(ReadField, rest[1..], max - 1);
      if more.Parts? { assert ([p] + more.parts)[1..] == more.parts; }
      assert parts != [] ==> parts == [parts[0]] + parts[1..];
    }
  }

  /** The decoder accepts exactly "v1|" and a body of at most max fields, and gives the parts they stand for. */
  lemma DecodeExactly(token: string, parts: seq<Part>, max: nat)
    ensures Decode(token, max) == Parts(parts) <==>
              |parts| <= max && |token| >= 3 && token[..3] == "v1|" && IsBody(token[3..], parts)
  {
    FieldShrinks();
    if |token| >= 3 && token[..3] == "v1|" { BodyExactly(token[3..], parts, max); }
  }

  // ---- how a length is read ----

  /** Blanks, a sign or none, and digits: their number, the largest of 32 bits if it is larger, and modulo 2^32 with a
      minus. */
  lemma LengthRead(ws: string, sign: string, digits: string, rest: string)
    requires Blank(ws) && sign in {"", "-", "+"} && Decimal.AllDigits(digits) &&
             (rest == "" || !Decimal.IsDigit(rest[0]))
    requires digits == "" && sign == "" ==> rest == "" || (!Blank(rest[..1]) && rest[0] != '-' && rest[0] != '+')
    ensures var v := Decimal.Value(digits);
            StrToUl(ws + (sign + (digits + rest))) ==
              if v > 4294967295 then 4294967295 else if sign == "-" && v > 0 then 4294967296 - v else v
  {
    var tail := digits + rest;
    FirstOf(digits, rest);
    FirstOf(sign, tail);
    assert sign + tail != "" ==> !Blank((sign + tail)[..1]) by { SignNotBlank(sign, tail); }
    SkipBlank(ws, sign + tail);
    Decimal.DigitsRun(digits, rest);
    SignedUl(ws + (sign + tail), sign, tail);
  }

  lemma SignNotBlank(sign: string, tail: string)
    requires sign in {"", "-", "+"} && (sign == "" && tail != "" ==> !Blank(tail[..1]))
    ensures sign + tail != "" ==> !Blank((sign + tail)[..1])
  {
    FirstOf(sign, tail);
    if sign != "" { assert (sign + tail)[..1][0] == sign[0]; }
  }

  lemma SignedUl(text: string, sign: string, tail: string)
    requires sign in {"", "-", "+"} && (sign == "" && tail != "" ==> tail[0] != '-' && tail[0] != '+')
    requires SkipSpace(text) == sign + tail
    ensures var v := Decimal.Value(tail[..Decimal.DigitRun(tail)]);
            StrToUl(text) ==
              if v > 4294967295 then 4294967295 else if sign == "-" && v > 0 then 4294967296 - v else v
  {
    var t := sign + tail;
    if sign == "" {
      assert t == tail;
      SkippedUl(text, tail, false);
    } else {
      assert t[0] == sign[0] && t[1..] == tail;
      SkippedUl(text, tail, sign == "-");
    }
  }

  lemma SkippedUl(text: string, u: string, neg: bool)
    requires var t := SkipSpace(text);
             && u == (if t != "" && (t[0] == '-' || t[0] == '+') then t[1..] else t)
             && neg == (t != "" && t[0] == '-')
    ensures var v := Decimal.Value(u[..Decimal.DigitRun(u)]);
            StrToUl(text) == if v > 4294967295 then 4294967295 else if neg && v > 0 then 4294967296 - v else v
  {
  }
}
