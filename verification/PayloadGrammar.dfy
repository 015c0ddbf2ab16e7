/** The bytes payload_read accepts, field by field, and what it reads in them. */
module PayloadGrammar {
  import opened Bytes
  import opened Lists
  import opened Meta
  import opened Payload

  lemma {:induction false} WordForward(b: seq<Byte>, v: nat)
    requires |b| >= 4 && v < 4294967296
    ensures WordOf(b) == v <==> b[..4] == U32(v)
  {
    WordBack(v);
    var b0: nat, b1: nat, b2: nat, b3: nat := b[0], b[1], b[2], b[3];
    assert b[..4] == [b0, b1, b2, b3];
    if WordOf(b) == v {
      LowByte(b0, b1 + 256 * b2 + 65536 * b3);
      LowByte(b1, b2 + 256 * b3);
      LowByte(b2, b3);
      assert v / 256 / 256 == v / 65536 && v / 65536 / 256 == v / 16777216;
    }
    if b[..4] == U32(v) {
      assert U32(v)[0] == b0 && U32(v)[1] == b1 && U32(v)[2] == b2 && U32(v)[3] == b3;
    }
  }

  lemma LowByte(b: nat, more: nat)
    requires b < 256
    ensures (b + 256 * more) % 256 == b && (b + 256 * more) / 256 == more
  {
  }

  lemma U32Exactly(s: seq<Byte>, v: nat, rest: seq<Byte>)
    requires v < 4294967296
    ensures |s| >= 4 && GetU32(s) == (v, rest) <==> s == U32(v) + rest
  {
    if |s| >= 4 {
      WordForward(s, v);
      assert s == s[..4] + s[4..];
    }
    if s == U32(v) + rest { assert s[..4] == U32(v) && s[4..] == rest; }
  }

  lemma TextExactly(s: seq<Byte>, max: nat, t: string, rest: seq<Byte>)
    requires max > 0
    ensures GetText(s, max) == Some((t, rest)) <==> CText(t) && 0 < |t| < max && s == TextField(t) + rest
  {
    if CText(t) && 0 < |t| < max && s == TextField(t) + rest { TextReads(t, max, rest); }
    if GetText(s, max) == Some((t, rest)) {
      var k := FirstNul(s);
      assert forall i :: 0 <= i < k ==> s[..k][i] == s[i] != 0;
      assert TextBytes(t) == s[..k];
      assert s == s[..k] + [s[k]] + s[k + 1..];
    }
  }

  // ---- one column ----

  /** The flag word holds the three flags in its low bits; the others are not looked at. */
  predicate FlagsAre(word: nat, c: Column) {
    word < 4294967296 &&
    word % 8 == (if c.nullable then 1 else 0) + (if c.identity then 2 else 0) + (if c.computed then 4 else 0)
  }

  function Numbers(c: Column, rest: seq<Byte>): seq<Byte>
    requires Storable(c)
  {
    [c.precision, c.scale] + rest
  }

  /** Type code, flags, length, precision and scale. */
  ghost predicate WholeTail(s: seq<Byte>, c: Column, rest: seq<Byte>)
    requires Storable(c)
  {
    exists f :: FlagsAre(f, c) && s == U32(TypeCode(c.vtype)) + (U32(f) + (U32(c.maxLength) + Numbers(c, rest)))
  }

  /** A word that is not all there is read as all ones, and its bytes are read again. */
  ghost predicate CutTail(s: seq<Byte>, c: Column, rest: seq<Byte>)
    requires Storable(c)
  {
    && |rest| < 2 && c.maxLength == 4294967295
    && ((c.nullable && c.identity && c.computed && s == U32(TypeCode(c.vtype)) + Numbers(c, rest))
        || exists f :: FlagsAre(f, c) && s == U32(TypeCode(c.vtype)) + (U32(f) + Numbers(c, rest)))
  }

  /** The bytes begin with a column; the rest follows. */
  ghost predicate ColumnBegins(s: seq<Byte>, c: Column, rest: seq<Byte>) {
    && Storable(c) && Readable(c)
    && exists tail ::
         s == TextField(c.name) + (TextField(c.typeName) + tail) &&
         (WholeTail(tail, c, rest) || CutTail(tail, c, rest))
  }

  lemma CodeExactly(code: nat, t: ColType)
    ensures code <= 8 && TypeOf(code) == t <==> t != Unsupported && TypeCode(t) == code
  {
  }

  lemma FlagsExactly(word: nat, c: Column)
    requires word < 4294967296
    ensures FlagsAre(word, c) <==>
              c.nullable == (word % 2 == 1) && c.identity == ((word / 2) % 2 == 1) &&
              c.computed == ((word / 4) % 2 == 1)
  {
    LowBits(word / 8, word % 8);
    ThreeBits(word % 8, c.nullable, c.identity, c.computed);
  }

  lemma ThreeBits(r: nat, a: bool, b: bool, c: bool)
    requires r < 8
    ensures r == (if a then 1 else 0) + (if b then 2 else 0) + (if c then 4 else 0) <==>
              a == (r % 2 == 1) && b == (r / 2 % 2 == 1) && c == (r / 4 == 1)
  {
  }

  lemma LowBits(q: nat, r: nat)
    requires r < 8
    ensures (8 * q + r) % 2 == r % 2 && (8 * q + r) / 2 % 2 == r / 2 % 2 && (8 * q + r) / 4 % 2 == r / 4
  {
    assert (8 * q + r) / 2 == 4 * q + r / 2 && (8 * q + r) / 4 == 2 * q + r / 4;
  }

  /** What is left when the code is read. */
  predicate RestIs(s1: seq<Byte>, c: Column, rest: seq<Byte>) {
    var (flags, s2) := GetU32(s1);
    var (maxLength, s3) := GetU32(s2);
    && |s3| >= 2 && s3[2..] == rest && c.precision == s3[0] && c.scale == s3[1] && c.maxLength == maxLength
    && c.nullable == (flags % 2 == 1) && c.identity == ((flags / 2) % 2 == 1) && c.computed == ((flags / 4) % 2 == 1)
  }

  lemma TailSplit(name: string, typeName: string, s: seq<Byte>, c: Column, rest: seq<Byte>)
    ensures GetTail(name, typeName, s) == Some((c, rest)) <==>
              && c.name == name && c.typeName == typeName && |s| >= 4
              && c.vtype != Unsupported && WordOf(s) == TypeCode(c.vtype) && RestIs(s[4..], c, rest)
  {
    var (code, s1) := GetU32(s);
    CodeExactly(code, c.vtype);
  }

  /** The bytes behind the code, whole or cut. */
  ghost predicate WholeRest(s1: seq<Byte>, c: Column, rest: seq<Byte>)
    requires Storable(c)
  {
    exists f :: FlagsAre(f, c) && s1 == U32(f) + (U32(c.maxLength) + Numbers(c, rest))
  }

  ghost predicate CutRest(s1: seq<Byte>, c: Column, rest: seq<Byte>)
    requires Storable(c)
  {
    && |rest| < 2 && c.maxLength == 4294967295
    && ((c.nullable && c.identity && c.computed && s1 == Numbers(c, rest))
        || exists f :: FlagsAre(f, c) && s1 == U32(f) + Numbers(c, rest))
  }

  lemma NumbersAre(s: seq<Byte>, c: Column, rest: seq<Byte>)
    requires Storable(c)
    ensures s == Numbers(c, rest) <==> |s| >= 2 && s[0] == c.precision && s[1] == c.scale && s[2..] == rest
  {
    if |s| >= 2 { assert s == [s[0], s[1]] + s[2..]; }
    if s == Numbers(c, rest) { assert s[2..] == rest; }
  }

  lemma RestRead(s1: seq<Byte>, c: Column, rest: seq<Byte>)
    requires Storable(c)
    ensures RestIs(s1, c, rest) ==> WholeRest(s1, c, rest) || CutRest(s1, c, rest)
  {
    if RestIs(s1, c, rest) {
      var (f, s2) := GetU32(s1);
      var (n, s3) := GetU32(s2);
      NumbersAre(s3, c, rest);
      FlagsExactly(f, c);
      if |s1| >= 4 {
        U32Exactly(s1, f, s2);
        if |s2| >= 4 { U32Exactly(s2, n, s3); }
      }
    }
  }

  lemma WholeRead(s1: seq<Byte>, c: Column, rest: seq<Byte>)
    requires Storable(c) && WholeRest(s1, c, rest)
    ensures RestIs(s1, c, rest)
  {
    var f :| FlagsAre(f, c) && s1 == U32(f) + (U32(c.maxLength) + Numbers(c, rest));
    WordReads(f, U32(c.maxLength) + Numbers(c, rest));
    WordReads(c.maxLength, Numbers(c, rest));
    NumbersAre(Numbers(c, rest), c, rest);
    FlagsExactly(f, c);
  }

  lemma NumbersOnly(c: Column, rest: seq<Byte>)
    requires Storable(c) && |rest| < 2 && c.maxLength == 4294967295 && c.nullable && c.identity && c.computed
    ensures RestIs(Numbers(c, rest), c, rest)
  {
    var s1 := Numbers(c, rest);
    NumbersAre(s1, c, rest);
    assert |s1| < 4 && GetU32(s1) == (4294967295, s1);
    FlagsExactly(4294967295, c);
  }

  lemma FlagsAndNumbers(f: nat, c: Column, rest: seq<Byte>)
    requires Storable(c) && |rest| < 2 && c.maxLength == 4294967295 && FlagsAre(f, c)
    ensures RestIs(U32(f) + Numbers(c, rest), c, rest)
  {
    var s2 := Numbers(c, rest);
    WordReads(f, s2);
    NumbersAre(s2, c, rest);
    assert |s2| < 4 && GetU32(s2) == (4294967295, s2);
    FlagsExactly(f, c);
  }

  lemma CutRead(s1: seq<Byte>, c: Column, rest: seq<Byte>)
    requires Storable(c) && CutRest(s1, c, rest)
    ensures RestIs(s1, c, rest)
  {
    if c.nullable && c.identity && c.computed && s1 == Numbers(c, rest) {
      NumbersOnly(c, rest);
    } else {
      var f :| FlagsAre(f, c) && s1 == U32(f) + Numbers(c, rest);
      FlagsAndNumbers(f, c, rest);
    }
  }

  lemma TailParts(s: seq<Byte>, c: Column, rest: seq<Byte>)
    requires Storable(c)
    ensures WholeTail(s, c, rest) || CutTail(s, c, rest) <==>
              |s| >= 4 && WordOf(s) == TypeCode(c.vtype) && (WholeRest(s[4..], c, rest) || CutRest(s[4..], c, rest))
  {
    var code := U32(TypeCode(c.vtype));
    if |s| >= 4 && WordOf(s) == TypeCode(c.vtype) {
      U32Exactly(s, TypeCode(c.vtype), s[4..]);
    }
    if WholeTail(s, c, rest) {
      var f :| FlagsAre(f, c) && s == code + (U32(f) + (U32(c.maxLength) + Numbers(c, rest)));
      U32Exactly(s, TypeCode(c.vtype), U32(f) + (U32(c.maxLength) + Numbers(c, rest)));
    } else if CutTail(s, c, rest) {
      if c.nullable && c.identity && c.computed && s == code + Numbers(c, rest) {
        U32Exactly(s, TypeCode(c.vtype), Numbers(c, rest));
      } else {
        var f :| FlagsAre(f, c) && s == code + (U32(f) + Numbers(c, rest));
        U32Exactly(s, TypeCode(c.vtype), U32(f) + Numbers(c, rest));
      }
    }
  }

  lemma TailExactly(name: string, typeName: string, s: seq<Byte>, c: Column, rest: seq<Byte>)
    requires Storable(c)
    ensures GetTail(name, typeName, s) == Some((c, rest)) <==>
              c.name == name && c.typeName == typeName && c.vtype != Unsupported &&
              (WholeTail(s, c, rest) || CutTail(s, c, rest))
  {
    TailSplit(name, typeName, s, c, rest);
    TailParts(s, c, rest);
    if |s| >= 4 {
      RestRead(s[4..], c, rest);
      if WholeRest(s[4..], c, rest) { WholeRead(s[4..], c, rest); }
      if CutRest(s[4..], c, rest) { CutRead(s[4..], c, rest); }
    }
  }

  lemma ColumnFound(s: seq<Byte>, c: Column, rest: seq<Byte>)
    requires GetColumn(s) == Some((c, rest))
    ensures ColumnBegins(s, c, rest)
  {
    var (name, s1) := GetText(s, 128).value;
    var (typeName, s2) := GetText(s1, 64).value;
    TextExactly(s, 128, name, s1);
    TextExactly(s1, 64, typeName, s2);
    TailSplit(name, typeName, s2, c, rest);
    TailExactly(name, typeName, s2, c, rest);
  }

  /** The column reader accepts exactly the bytes that begin with a column, and reads that one. */
  lemma ColumnExactly(s: seq<Byte>, c: Column, rest: seq<Byte>)
    ensures GetColumn(s) == Some((c, rest)) <==> ColumnBegins(s, c, rest)
  {
    if GetColumn(s) == Some((c, rest)) { ColumnFound(s, c, rest); }
    if ColumnBegins(s, c, rest) {
      var tail :| s == TextField(c.name) + (TextField(c.typeName) + tail) &&
                    (WholeTail(tail, c, rest) || CutTail(tail, c, rest));
      TextExactly(s, 128, c.name, TextField(c.typeName) + tail);
      TextExactly(TextField(c.typeName) + tail, 64, c.typeName, tail);
      TailExactly(c.name, c.typeName, tail, c, rest);
    }
  }

  // ---- the payload ----

  ghost predicate ColumnsBegin(s: seq<Byte>, cols: seq<Column>)
    decreases |cols|
  {
    cols == [] || exists rest :: ColumnBegins(s, cols[0], rest) && ColumnsBegin(rest, cols[1..])
  }

  ghost predicate Reads(read: Reader) {
    forall s, c, rest :: read(s) == Some((c, rest)) <==> ColumnBegins(s, c, rest)
  }

  lemma {:induction false} ColumnsExactly(read: Reader, s: seq<Byte>, cols: seq<Column>)
    requires Reads(read)
    ensures GetColumns(read, s, |cols|) == Some(cols) <==> ColumnsBegin(s, cols)
    decreases |cols|
  {
    if cols != [] {
      if read(s).Some? {
        var (c, rest) := read(s).value;
        ColumnsExactly(read, rest, cols[1..]);
        OneMore(read, s, c, rest, cols);
      }
      FirstBegins(read, s, cols);
    }
  }

  lemma FirstBegins(read: Reader, s: seq<Byte>, cols: seq<Column>)
    requires Reads(read) && cols != []
    ensures ColumnsBegin(s, cols) <==>
              read(s).Some? && read(s).value.0 == cols[0] && ColumnsBegin(read(s).value.1, cols[1..])
  {
    if ColumnsBegin(s, cols) {
      var rest :| ColumnBegins(s, cols[0], rest) && ColumnsBegin(rest, cols[1..]);
      assert read(s) == Some((cols[0], rest));
    }
    if read(s).Some? { assert ColumnBegins(s, read(s).value.0, read(s).value.1); }
  }

  lemma OneMore(read: Reader, s: seq<Byte>, c: Column, rest: seq<Byte>, cols: seq<Column>)
    requires read(s) == Some((c, rest)) && cols != []
    ensures GetColumns(read, s, |cols|) == Some(cols) <==>
              cols[0] == c && GetColumns(read, rest, |cols| - 1) == Some(cols[1..])
  {
    var more := GetColumns(read, rest, |cols| - 1);
    if more.Some? { assert ([c] + more.value)[1..] == more.value; }
    assert cols == [cols[0]] + cols[1..];
  }

  lemma {:induction false} CountIs(read: Reader, s: seq<Byte>, n: nat)
    ensures GetColumns(read, s, n).Some? ==> |GetColumns(read, s, n).value| == n
    decreases n
  {
    if n > 0 && read(s).Some? { CountIs(read, read(s).value.1, n - 1); }
  }

  /** The letters VMSC, version 1, the number of columns: 1 to 512. */
  predicate HeadIs(b: seq<Byte>, count: nat) {
    1 <= count <= 512 && |b| >= 12 && b[..4] == [0x56, 0x4D, 0x53, 0x43] && b[4..8] == [1, 0, 0, 0] &&
    b[8..12] == U32(count)
  }

  lemma HeadExactly(b: seq<Byte>, count: nat)
    requires |b| >= 12
    ensures HeadIs(b, count) <==>
              WordOf(b) == Magic && WordOf(b[4..]) == Version && 1 <= WordOf(b[8..]) == count <= MaxColumns
  {
    assert U32(Magic) == [0x56, 0x4D, 0x53, 0x43] && U32(Version) == [1, 0, 0, 0];
    WordForward(b, Magic);
    WordForward(b[4..], Version);
    if count <= 512 { WordForward(b[8..], count); }
    assert b[4..][..4] == b[4..8] && b[8..][..4] == b[8..12];
  }

  lemma ReaderReads()
    ensures Reads(GetColumn)
  {
    forall s, c, rest ensures GetColumn(s) == Some((c, rest)) <==> ColumnBegins(s, c, rest) {
      ColumnExactly(s, c, rest);
    }
  }

  /** payload_read accepts exactly a header and so many columns, and gives those columns; what follows the last one is
      not looked at. */
  lemma ReadExactly(b: seq<Byte>, cols: seq<Column>)
    ensures ReadPayload(b) == Some(cols) <==> HeadIs(b, |cols|) && ColumnsBegin(b[12..], cols)
  {
    if |b| >= 12 {
      HeadExactly(b, |cols|);
      HeadExactly(b, WordOf(b[8..]));
      CountIs(GetColumn, b[12..], WordOf(b[8..]));
      ReaderReads();
      ColumnsExactly(GetColumn, b[12..], cols);
    }
  }
}
