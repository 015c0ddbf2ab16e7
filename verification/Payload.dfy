/** The canonical column payload: header, then per column two texts, three words and two bytes. */
module Payload {
  import opened Bytes
  import opened Lists
  import opened Meta

  const Magic: nat := 0x43534D56
  const Version: nat := 1
  const MaxColumns: nat := 512

  // ---- writing ----

  /** What a VmsMetaColumn can hold. */
  predicate Storable(c: Column) {
    && CText(c.name) && |c.name| < 128 && CText(c.typeName) && |c.typeName| < 64
    && c.maxLength < Word && c.precision < 256 && c.scale < 256
  }

  function TypeCode(t: ColType): (n: nat)
    ensures n < 10
  {
    match t
    case Int64 => 0 case Float64 => 1 case TextT => 2 case BigText => 3 case BlobT => 4
    case DecimalT => 5 case DateTime => 6 case Guid => 7 case Spatial => 8 case Unsupported => 9
  }

  function Flags(c: Column): (n: nat)
    ensures n < 8
  {
    (if c.nullable then 1 else 0) + (if c.identity then 2 else 0) + (if c.computed then 4 else 0)
  }

  /** The fixed-width tail of a column. */
  function Tail(c: Column): (b: seq<Byte>)
    requires Storable(c)
    ensures |b| == 14
  {
    U32(TypeCode(c.vtype)) + (U32(Flags(c)) + (U32(c.maxLength) + [c.precision, c.scale]))
  }

  /** A text and its terminator. */
  function TextField(s: string): (b: seq<Byte>)
    requires CText(s)
    ensures |b| == |s| + 1
  {
    TextBytes(s) + [0]
  }

  function ColumnBytes(c: Column): (b: seq<Byte>)
    requires Storable(c)
    ensures |b| == |c.name| + |c.typeName| + 16
  {
    TextField(c.name) + (TextField(c.typeName) + Tail(c))
  }

  predicate AllStorable(cols: seq<Column>) {
    forall i :: 0 <= i < |cols| ==> Storable(cols[i])
  }

  function Header(count: nat): (b: seq<Byte>)
    requires count <= MaxColumns
    ensures |b| == 12
  {
    U32(Magic) + (U32(Version) + U32(count))
  }

  /** The payload after the first n columns. */
  function Written(cols: seq<Column>, n: nat): (b: seq<Byte>)
    requires AllStorable(cols) && n <= |cols| <= MaxColumns
    ensures |b| >= 12
  {
    if n == 0 then Header(|cols|) else Written(cols, n - 1) + ColumnBytes(cols[n - 1])
  }

  function PayloadOf(cols: seq<Column>): seq<Byte>
    requires AllStorable(cols) && |cols| <= MaxColumns
  {
    Written(cols, |cols|)
  }

  lemma {:induction false} WrittenGrows(cols: seq<Column>, n: nat, m: nat)
    requires AllStorable(cols) && n <= m <= |cols| <= MaxColumns
    ensures |Written(cols, n)| <= |Written(cols, m)|
    decreases m - n
  {
    if n < m { WrittenGrows(cols, n, m - 1); }
  }

  /** payload_size: -1 for too many columns, else the exact number of bytes. */
  method Size(cols: seq<Column>) returns (sz: int)
    requires AllStorable(cols)
    ensures sz == if |cols| > MaxColumns then -1 else |PayloadOf(cols)|
  {
    if |cols| > MaxColumns { return -1; }
    sz := 12;
    for i := 0 to |cols|
      invariant sz == |Written(cols, i)|
    {
      sz := sz + |cols[i].name| + 1;
      sz := sz + |cols[i].typeName| + 1;
      sz := sz + 4 + 4 + 4 + 1 + 1;
    }
  }

  method PutBytes(buf: array<Byte>, p: nat, b: seq<Byte>) returns (q: nat)
    requires p + |b| <= buf.Length
    modifies buf
    ensures q == p + |b| && buf[..q] == old(buf[..p]) + b
  {
    for k := 0 to |b|
      invariant buf[..p + k] == old(buf[..p]) + b[..k]
    {
      buf[p + k] := b[k];
    }
    assert b[..|b|] == b;
    q := p + |b|;
  }

  method PutU32(buf: array<Byte>, p: nat, v: nat) returns (q: nat)
    requires p + 4 <= buf.Length && v < Word
    modifies buf
    ensures q == p + 4 && buf[..q] == old(buf[..p]) + U32(v)
  {
    buf[p] := v % 256;
    buf[p + 1] := (v / 256) % 256;
    buf[p + 2] := (v / 65536) % 256;
    buf[p + 3] := (v / 16777216) % 256;
    q := p + 4;
  }

  method PutTail(buf: array<Byte>, p: nat, c: Column) returns (q: nat)
    requires Storable(c) && p + 14 <= buf.Length
    modifies buf
    ensures q == p + 14 && buf[..q] == old(buf[..p]) + Tail(c)
  {
    var flags := 0;
    if c.nullable { flags := flags + 1; }
    if c.identity { flags := flags + 2; }
    if c.computed { flags := flags + 4; }
    q := PutU32(buf, p, TypeCode(c.vtype));
    q := PutU32(buf, q, flags);
    q := PutU32(buf, q, c.maxLength);
    q := PutBytes(buf, q, [c.precision, c.scale]);
  }

  method PutText(buf: array<Byte>, p: nat, s: string) returns (q: nat)
    requires CText(s) && p + |s| + 1 <= buf.Length
    modifies buf
    ensures q == p + |s| + 1 && buf[..q] == old(buf[..p]) + TextField(s)
  {
    q := PutBytes(buf, p, TextBytes(s));
    q := PutBytes(buf, q, [0]);
  }

  method PutColumn(buf: array<Byte>, p: nat, c: Column) returns (q: nat)
    requires Storable(c) && p + |ColumnBytes(c)| <= buf.Length
    modifies buf
    ensures q == p + |ColumnBytes(c)| && buf[..q] == old(buf[..p]) + ColumnBytes(c)
  {
    ghost var before := buf[..p];
    q := PutText(buf, p, c.name);
    q := PutText(buf, q, c.typeName);
    q := PutTail(buf, q, c);
    Assoc(before + TextField(c.name), TextField(c.typeName), Tail(c));
    Assoc(before, TextField(c.name), TextField(c.typeName) + Tail(c));
  }

  method PutHeader(buf: array<Byte>, count: nat) returns (p: nat)
    requires count <= MaxColumns && buf.Length >= 12
    modifies buf
    ensures p == 12 && buf[..p] == Header(count)
  {
    p := PutU32(buf, 0, Magic);
    p := PutU32(buf, p, Version);
    p := PutU32(buf, p, count);
    Assoc(U32(Magic), U32(Version), U32(count));
  }

  /** payload_write into a buffer of payload_size bytes fills all of it. */
  method Write(buf: array<Byte>, cols: seq<Column>) returns (n: nat)
    requires AllStorable(cols) && |cols| <= MaxColumns && buf.Length == |PayloadOf(cols)|
    modifies buf
    ensures n == buf.Length && buf[..] == PayloadOf(cols)
  {
    WrittenGrows(cols, 0, |cols|);
    var p := PutHeader(buf, |cols|);
    for i := 0 to |cols|
      invariant p == |Written(cols, i)| <= buf.Length && buf[..p] == Written(cols, i)
    {
      WrittenGrows(cols, i + 1, |cols|);
      p := PutColumn(buf, p, cols[i]);
    }
    assert buf[..p] == buf[..];
    n := p;
  }

  // ---- reading; a pointer is the bytes from there on ----

  /** get_u32: the word and what follows; too few bytes give all ones and stay where they are. */
  function GetU32(s: seq<Byte>): (nat, seq<Byte>) {
    if |s| < 4 then (Word - 1, s) else (WordOf(s), s[4..])
  }

  /** A NUL-terminated text of 1 to max - 1 bytes, and what follows. */
  function GetText(s: seq<Byte>, max: nat): Option<(string, seq<Byte>)> {
    var k := FirstNul(s);
    if k >= |s| || k == 0 || k >= max then None else Some((BytesText(s[..k]), s[k + 1..]))
  }

  function TypeOf(code: nat): ColType {
    match code
    case 0 => Int64 case 1 => Float64 case 2 => TextT case 3 => BigText case 4 => BlobT
    case 5 => DecimalT case 6 => DateTime case 7 => Guid case 8 => Spatial case _ => Unsupported
  }

  function GetTail(name: string, typeName: string, s: seq<Byte>): Option<(Column, seq<Byte>)> {
    var (code, s1) := GetU32(s);
    var (flags, s2) := GetU32(s1);
    var (maxLength, s3) := GetU32(s2);
    if |s3| < 2 || code > 8 then None
    else Some((Column(name, typeName, TypeOf(code), flags % 2 == 1, (flags / 2) % 2 == 1, (flags / 4) % 2 == 1,
                      maxLength, s3[0], s3[1]), s3[2..]))
  }

  function GetColumn(s: seq<Byte>): Option<(Column, seq<Byte>)> {
    match GetText(s, 128)
    case None => None
    case Some((name, s1)) =>
      match GetText(s1, 64)
      case None => None
      case Some((typeName, s2)) => GetTail(name, typeName, s2)
  }

  type Reader = seq<Byte> -> Option<(Column, seq<Byte>)>

  function GetColumns(read: Reader, s: seq<Byte>, n: nat): Option<seq<Column>>
    decreases n
  {
    if n == 0 then Some([])
    else
      match read(s)
      case None => None
      case Some((c, rest)) =>
        match GetColumns(read, rest, n - 1)
        case None => None
        case Some(more) => Some([c] + more)
  }

  function ReadPayload(b: seq<Byte>): Option<seq<Column>> {
    if |b| < 12 || WordOf(b) != Magic || WordOf(b[4..]) != Version then None
    else
      var count := WordOf(b[8..]);
      if count == 0 || count > MaxColumns then None else GetColumns(GetColumn, b[12..], count)
  }

  /** payload_read */
  method Read(b: seq<Byte>) returns (cols: Option<seq<Column>>)
    ensures cols == ReadPayload(b)
  {
    if |b| < 12 { return None; }
    var magic, version, count := WordOf(b), WordOf(b[4..]), WordOf(b[8..]);
    if magic != Magic || version != Version { return None; }
    if count == 0 || count > MaxColumns { return None; }
    cols := ReadAll(b[12..], count, GetColumn);
  }

  method ReadAll(b: seq<Byte>, count: nat, read: Reader) returns (cols: Option<seq<Column>>)
    ensures cols == GetColumns(read, b, count)
  {
    var s, got := b, [];
    for i := 0 to count
      invariant Joined(got, GetColumns(read, s, count - i)) == GetColumns(read, b, count)
    {
      var c := read(s);
      if c.None? { return None; }
      ghost var more := GetColumns(read, c.value.1, count - i - 1);
      assert more.Some? ==> got + ([c.value.0] + more.value) == got + [c.value.0] + more.value;
      got, s := got + [c.value.0], c.value.1;
    }
    assert got + [] == got;
    cols := Some(got);
  }

  // ---- round trip ----

  /** The columns payload_read accepts. */
  predicate Readable(c: Column) {
    c.name != "" && c.typeName != "" && c.vtype != Unsupported
  }

  lemma TextReads(t: string, max: nat, rest: seq<Byte>)
    requires CText(t) && |t| < max
    ensures GetText(TextField(t) + rest, max) == if t == "" then None else Some((t, rest))
  {
    var s := TextBytes(t) + ([0] + rest);
    Assoc(TextBytes(t), [0], rest);
    NulAfter(TextBytes(t), rest);
    TextBack(t);
    assert s[..|t|] == TextBytes(t) && s[|t| + 1..] == rest;
  }

  lemma WordReads(v: nat, rest: seq<Byte>)
    requires v < Word
    ensures GetU32(U32(v) + rest) == (v, rest)
  {
    WordBack(v);
    var s := U32(v) + rest;
    assert s[0] == U32(v)[0] && s[1] == U32(v)[1] && s[2] == U32(v)[2] && s[3] == U32(v)[3] && s[4..] == rest;
  }

  lemma TailReads(c: Column, rest: seq<Byte>)
    requires Storable(c)
    ensures GetTail(c.name, c.typeName, Tail(c) + rest) == if c.vtype == Unsupported then None else Some((c, rest))
  {
    var s3 := [c.precision, c.scale] + rest;
    var s2 := U32(c.maxLength) + s3;
    var s1 := U32(Flags(c)) + s2;
    assert Tail(c) + rest == U32(TypeCode(c.vtype)) + s1;
    WordReads(TypeCode(c.vtype), s1);
    WordReads(Flags(c), s2);
    WordReads(c.maxLength, s3);
    assert s3[2..] == rest;
  }

  lemma ColumnReads(c: Column, rest: seq<Byte>)
    requires Storable(c)
    ensures GetColumn(ColumnBytes(c) + rest) == if Readable(c) then Some((c, rest)) else None
  {
    var s2 := Tail(c) + rest;
    var s1 := TextField(c.typeName) + s2;
    Assoc(TextField(c.name), TextField(c.typeName) + Tail(c), rest);
    Assoc(TextField(c.typeName), Tail(c), rest);
    TextReads(c.name, 128, s1);
    TextReads(c.typeName, 64, s2);
    TailReads(c, rest);
  }

  /** The columns' bytes from column i on. */
  function Columns(cols: seq<Column>, i: nat): seq<Byte>
    requires AllStorable(cols) && i <= |cols|
    decreases |cols| - i
  {
    if i == |cols| then [] else ColumnBytes(cols[i]) + Columns(cols, i + 1)
  }

  lemma {:induction false} PayloadIsColumns(cols: seq<Column>, i: nat)
    requires AllStorable(cols) && i <= |cols| <= MaxColumns
    ensures PayloadOf(cols) == Written(cols, i) + Columns(cols, i)
    decreases |cols| - i
  {
    if i < |cols| {
      PayloadIsColumns(cols, i + 1);
      Assoc(Written(cols, i), ColumnBytes(cols[i]), Columns(cols, i + 1));
    } else {
      assert Written(cols, i) + [] == Written(cols, i);
    }
  }

  predicate AllReadable(cols: seq<Column>, i: nat) {
    forall k :: i <= k < |cols| ==> Readable(cols[k])
  }

  ghost predicate ReadsAs(read: Reader, b: seq<Byte>, c: Column) {
    forall rest :: read(b + rest) == if Readable(c) then Some((c, rest)) else None
  }

  ghost predicate Sound(read: Reader) {
    forall c :: Storable(c) ==> ReadsAs(read, ColumnBytes(c), c)
  }

  function Expected(cols: seq<Column>, i: nat): Option<seq<Column>>
    requires i <= |cols|
    decreases |cols| - i
  {
    if i == |cols| then Some([]) else if !Readable(cols[i]) then None else Joined([cols[i]], Expected(cols, i + 1))
  }

  lemma {:induction false} ExpectedIs(cols: seq<Column>, i: nat)
    requires i <= |cols|
    ensures Expected(cols, i) == if AllReadable(cols, i) then Some(cols[i..]) else None
    decreases |cols| - i
  {
    if i < |cols| {
      ExpectedIs(cols, i + 1);
      assert cols[i..] == [cols[i]] + cols[i + 1..];
    } else {
      assert cols[i..] == [];
    }
  }

  lemma {:induction false} ColumnsRead(read: Reader, cols: seq<Column>, i: nat)
    requires AllStorable(cols) && i <= |cols| && Sound(read)
    ensures GetColumns(read, Columns(cols, i), |cols| - i) == Expected(cols, i)
    decreases |cols| - i
  {
    if i < |cols| {
      ColumnsRead(read, cols, i + 1);
      NextColumn(read, cols[i], Columns(cols, i + 1), |cols| - i);
    }
  }

  lemma NextColumn(read: Reader, c: Column, more: seq<Byte>, n: nat)
    requires Storable(c) && Sound(read) && n > 0
    ensures GetColumns(read, ColumnBytes(c) + more, n) ==
            if Readable(c) then Joined([c], GetColumns(read, more, n - 1)) else None
  {
    assert ReadsAs(read, ColumnBytes(c), c);
  }

  /** Reading a written payload gives the columns back exactly when there are any and each has a name, a
      type name and a supported type. */
  lemma PayloadRoundTrip(cols: seq<Column>)
    requires AllStorable(cols) && |cols| <= MaxColumns
    ensures ReadPayload(PayloadOf(cols)) == if cols != [] && AllReadable(cols, 0) then Some(cols) else None
  {
    var b := PayloadOf(cols);
    PayloadIsColumns(cols, 0);
    HeaderReads(|cols|, Columns(cols, 0));
    forall c, rest | Storable(c)
      ensures GetColumn(ColumnBytes(c) + rest) == if Readable(c) then Some((c, rest)) else None
    {
      ColumnReads(c, rest);
    }
    ColumnsRead(GetColumn, cols, 0);
    ExpectedIs(cols, 0);
    assert cols[0..] == cols;
  }

  lemma HeaderReads(count: nat, rest: seq<Byte>)
    requires count <= MaxColumns
    ensures var b := Header(count) + rest;
            WordOf(b) == Magic && WordOf(b[4..]) == Version && WordOf(b[8..]) == count && b[12..] == rest
  {
    var b := Header(count) + rest;
    assert b == U32(Magic) + (U32(Version) + (U32(count) + rest));
    WordReads(Magic, U32(Version) + (U32(count) + rest));
    assert b[4..] == U32(Version) + (U32(count) + rest);
    WordReads(Version, U32(count) + rest);
    assert b[8..] == U32(count) + rest;
    WordReads(count, rest);
  }
}
