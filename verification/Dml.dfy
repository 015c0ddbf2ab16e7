/** vms_dml: which columns a write names, the literals it carries, and the builders. */
module Dml {
  import opened Lists
  import opened Meta
  import opened Plan
  import opened Sql
  import opened DmlSql
  import opened DmlText
  import opened SqlTokens
  import opened SqlText
  import Decimal

  const SqlCap: nat := 4096
  const MaxParams: nat := 64

  /** The write context: the table's columns and the column names of its stable key, in key order. */
  datatype Context = Context(schema: string, table: string, cols: seq<Column>, key: seq<string>)

  /** strtod and "%.17g". */
  datatype Formats = Formats(parseReal: string -> Option<Double>, printReal: Double -> string)

  /** col_writable */
  predicate Writable(c: Column) {
    !c.identity && !c.computed && Lower(c.typeName) != "rowversion" && Lower(c.typeName) != "timestamp"
  }

  function KeyPartCol(d: Context, k: nat): (j: int)
    requires k < |d.key|
    ensures -1 <= j < |d.cols|
  {
    FindColumn(d.cols, d.key[k])
  }

  predicate IsKeyCol(d: Context, i: nat) {
    exists k :: 0 <= k < |d.key| && KeyPartCol(d, k) == i
  }

  // ---- literals ----

  const MaxInt64: int := 0x7FFF_FFFF_FFFF_FFFF
  const MinInt64: int := -0x8000_0000_0000_0000

  predicate IsSpace(c: char) {
    c == ' ' || '\t' <= c <= '\r'
  }

  function SkipSpace(s: string): string {
    if s != "" && IsSpace(s[0]) then SkipSpace(s[1..]) else s
  }

  function Clamp(n: int): int {
    if n > MaxInt64 then MaxInt64 else if n < MinInt64 then MinInt64 else n
  }

  function ConvertDigits(u: string, neg: bool): Option<int> {
    var k := Decimal.DigitRun(u);
    if k == 0 then None
    else if neg then Some(Clamp(-(Decimal.Value(u[..k]) as int)))
    else Some(Clamp(Decimal.Value(u[..k])))
  }

  /** _strtoi64 in base 10; None when nothing was converted. */
  function StrToI64(text: string): Option<int> {
    var t := SkipSpace(text);
    if t != "" && t[0] == '-' then ConvertDigits(t[1..], true)
    else if t != "" && t[0] == '+' then ConvertDigits(t[1..], false)
    else ConvertDigits(t, false)
  }

  /** text_to_value: the literal for a column value given as text, or None for a bad value. */
  function LiteralOf(text: Option<string>, vtype: ColType, f: Formats): (lit: Option<Tok>)
    ensures lit.Some? ==> IsLit(lit.value)
  {
    if text.None? then Some(NullLit)
    else match vtype
      case Int64 => (match StrToI64(text.value) case None => None case Some(n) => Some(Num(PrintInt(n))))
      case Float64 => (match f.parseReal(text.value) case None => None case Some(r) => Some(Num(f.printReal(r))))
      case _ => Some(TextLit(text.value))
  }

  // ---- what the statements say ----

  type Texts = seq<Option<string>>

  /** Column i of an UPDATE's SET list. */
  predicate Settable(d: Context, present: seq<bool>, i: nat)
    requires i < |d.cols| == |present|
  {
    Writable(d.cols[i]) && !IsKeyCol(d, i) && present[i]
  }

  /** Column i of an INSERT: key columns without a value are left to the server's default. */
  predicate Listed(d: Context, present: seq<bool>, values: Texts, i: nat)
    requires i < |d.cols| == |present| == |values|
  {
    Writable(d.cols[i]) && !(IsKeyCol(d, i) && (values[i] == None || values[i] == Some(""))) && present[i]
  }

  /** The literal written for a value; a bad value refuses the statement, whatever is written. */
  function Written(text: Option<string>, vtype: ColType, f: Formats): (lit: Tok)
    ensures IsLit(lit)
  {
    var lit := LiteralOf(text, vtype, f);
    if lit.None? then NullLit else lit.value
  }

  function SetsFrom(d: Context, present: seq<bool>, values: Texts, f: Formats, i: nat): (r: List<Pair>)
    requires i <= |d.cols| == |present| == |values|
    ensures PairLits(r)
    decreases |d.cols| - i
  {
    if i == |d.cols| then Nil
    else if !Settable(d, present, i) then SetsFrom(d, present, values, f, i + 1)
    else Cons(Pair(d.cols[i].name, Written(values[i], d.cols[i].vtype, f)), SetsFrom(d, present, values, f, i + 1))
  }

  /** No bad value from column i on. */
  predicate SetsOk(d: Context, present: seq<bool>, values: Texts, f: Formats, i: nat)
    requires i <= |d.cols| == |present| == |values|
    decreases |d.cols| - i
  {
    i == |d.cols| ||
    ((Settable(d, present, i) ==> LiteralOf(values[i], d.cols[i].vtype, f).Some?) &&
     SetsOk(d, present, values, f, i + 1))
  }

  function KeyPair(d: Context, keys: Texts, f: Formats, k: nat): (p: Pair)
    requires k < |d.key| && |keys| == |d.cols|
    ensures IsLit(p.lit)
  {
    var col := KeyPartCol(d, k);
    if col < 0 then Pair("", NullLit) else Pair(d.cols[col].name, Written(keys[col], d.cols[col].vtype, f))
  }

  function KeysFrom(d: Context, keys: Texts, f: Formats, k: nat): (r: List<Pair>)
    requires k <= |d.key| && |keys| == |d.cols|
    ensures PairLits(r) && (r.Nil? <==> k == |d.key|)
    decreases |d.key| - k
  {
    if k == |d.key| then Nil else Cons(KeyPair(d, keys, f, k), KeysFrom(d, keys, f, k + 1))
  }

  predicate KeyOk(d: Context, keys: Texts, f: Formats, k: nat)
    requires k < |d.key| && |keys| == |d.cols|
  {
    var col := KeyPartCol(d, k);
    col >= 0 && LiteralOf(keys[col], d.cols[col].vtype, f).Some?
  }

  predicate KeysOk(d: Context, keys: Texts, f: Formats, k: nat)
    requires k <= |d.key| && |keys| == |d.cols|
    decreases |d.key| - k
  {
    k == |d.key| || (KeyOk(d, keys, f, k) && KeysOk(d, keys, f, k + 1))
  }

  function NamesFrom(d: Context, present: seq<bool>, values: Texts, i: nat): List<string>
    requires i <= |d.cols| == |present| == |values|
    decreases |d.cols| - i
  {
    if i == |d.cols| then Nil
    else if Listed(d, present, values, i) then Cons(d.cols[i].name, NamesFrom(d, present, values, i + 1))
    else NamesFrom(d, present, values, i + 1)
  }

  function LitsFrom(d: Context, present: seq<bool>, values: Texts, f: Formats, i: nat): (r: List<Tok>)
    requires i <= |d.cols| == |present| == |values|
    ensures AllLits(r) && Length(r) == Length(NamesFrom(d, present, values, i))
    decreases |d.cols| - i
  {
    if i == |d.cols| then Nil
    else if !Listed(d, present, values, i) then LitsFrom(d, present, values, f, i + 1)
    else Cons(Written(values[i], d.cols[i].vtype, f), LitsFrom(d, present, values, f, i + 1))
  }

  predicate ValuesOk(d: Context, present: seq<bool>, values: Texts, f: Formats, i: nat)
    requires i <= |d.cols| == |present| == |values|
    decreases |d.cols| - i
  {
    i == |d.cols| ||
    ((Listed(d, present, values, i) ==> LiteralOf(values[i], d.cols[i].vtype, f).Some?) &&
     ValuesOk(d, present, values, f, i + 1))
  }

  function UpdateOf(d: Context, present: seq<bool>, values: Texts, keys: Texts, f: Formats): (r: Option<Statement>)
    requires |d.cols| == |present| == |values| == |keys| && d.key != []
    ensures r.Some? ==> r.value.Update? && WellFormed(r.value)
  {
    var sets := SetsFrom(d, present, values, f, 0);
    if SetsOk(d, present, values, f, 0) && KeysOk(d, keys, f, 0) && sets.Cons? then
      Some(Update(d.schema, d.table, sets, KeysFrom(d, keys, f, 0)))
    else None
  }

  function DeleteOf(d: Context, keys: Texts, f: Formats): (r: Option<Statement>)
    requires |keys| == |d.cols| && d.key != []
    ensures r.Some? ==> r.value.Delete? && WellFormed(r.value)
  {
    if KeysOk(d, keys, f, 0) then Some(Delete(d.schema, d.table, KeysFrom(d, keys, f, 0))) else None
  }

  function InsertOf(d: Context, present: seq<bool>, values: Texts, f: Formats): (r: Option<Statement>)
    requires |d.cols| == |present| == |values|
    ensures r.Some? ==> r.value.Insert? && WellFormed(r.value)
  {
    var names := NamesFrom(d, present, values, 0);
    if ValuesOk(d, present, values, f, 0) && 0 < Length(names) <= MaxParams then
      Some(Insert(d.schema, d.table, names, LitsFrom(d, present, values, f, 0)))
    else None
  }

  // ---- the builders ----

  function PairsLeft(ps: List<Pair>, first: bool, sep: Tok, after: List<Tok>): List<Tok> {
    if ps.Nil? then after else if first then PrintPairs(ps, sep, after) else Cons(sep, PrintPairs(ps, sep, after))
  }

  function NamesLeft(names: List<string>, first: bool, after: List<Tok>): List<Tok> {
    if names.Nil? then after else if first then PrintNames(names, after) else Cons(Comma, PrintNames(names, after))
  }

  function LitsLeft(lits: List<Tok>, first: bool, after: List<Tok>): List<Tok> {
    if lits.Nil? then after else if first then PrintLits(lits, after) else Cons(Comma, PrintLits(lits, after))
  }

  method AddTable(b: SqlBuffer, schema: string, table: string, ghost after: List<Tok>)
    requires b.Valid() && b.left == PrintTable(schema, table, after)
    modifies b
    ensures b.Valid() && b.left == after
  {
    b.Add(Name(schema));
    b.Add(Dot);
    b.Add(Name(table));
  }

  method AddPair(b: SqlBuffer, first: bool, sep: Tok, p: Pair, ghost more: List<Pair>, ghost after: List<Tok>)
    requires b.Valid() && b.left == PairsLeft(Cons(p, more), first, sep, after)
    modifies b
    ensures b.Valid() && b.left == PairsLeft(more, false, sep, after)
  {
    if !first { b.Add(sep); }
    b.Add(Name(p.name));
    b.Add(Cmp(EQ));
    b.Add(p.lit);
  }

  /** The SET loop; false means a bad value. */
  method AddSets(b: SqlBuffer, d: Context, present: seq<bool>, values: Texts, f: Formats, ghost after: List<Tok>)
    returns (ok: bool, np: nat)
    requires b.Valid() && |d.cols| == |present| == |values|
    requires b.left == PairsLeft(SetsFrom(d, present, values, f, 0), true, Comma, after)
    modifies b
    ensures b.Valid() && (ok <==> SetsOk(d, present, values, f, 0))
    ensures ok ==> b.left == after && np == Length(SetsFrom(d, present, values, f, 0))
  {
    np := 0;
    for i := 0 to |d.cols|
      invariant b.Valid() && b.left == PairsLeft(SetsFrom(d, present, values, f, i), np == 0, Comma, after)
      invariant Length(SetsFrom(d, present, values, f, 0)) == np + Length(SetsFrom(d, present, values, f, i))
      invariant SetsOk(d, present, values, f, 0) == SetsOk(d, present, values, f, i)
    {
      if Settable(d, present, i) {
        var lit := LiteralOf(values[i], d.cols[i].vtype, f);
        if lit.None? { return false, np; }
        AddPair(b, np == 0, Comma, Pair(d.cols[i].name, lit.value), SetsFrom(d, present, values, f, i + 1), after);
        np := np + 1;
      }
    }
    ok := true;
  }

  /** The WHERE loop over the key parts; false means a missing column or a bad value. */
  method AddKeyTests(b: SqlBuffer, d: Context, keys: Texts, f: Formats) returns (ok: bool)
    requires b.Valid() && |keys| == |d.cols| && b.left == PairsLeft(KeysFrom(d, keys, f, 0), true, AndKw, Nil)
    modifies b
    ensures b.Valid() && (ok <==> KeysOk(d, keys, f, 0)) && (ok ==> b.left == Nil)
  {
    for k := 0 to |d.key|
      invariant b.Valid() && b.left == PairsLeft(KeysFrom(d, keys, f, k), k == 0, AndKw, Nil)
      invariant KeysOk(d, keys, f, 0) == KeysOk(d, keys, f, k)
    {
      var col := KeyPartCol(d, k);
      if col < 0 || LiteralOf(keys[col], d.cols[col].vtype, f).None? { return false; }
      AddPair(b, k == 0, AndKw, KeyPair(d, keys, f, k), KeysFrom(d, keys, f, k + 1), Nil);
    }
    ok := true;
  }

  function KeyClause(keys: List<Pair>): List<Tok> {
    Cons(WhereKw, PairsLeft(keys, true, AndKw, Nil))
  }

  function UpdateText(schema: string, table: string, sets: List<Pair>, keys: List<Pair>): List<Tok> {
    Cons(UpdateKw, PrintTable(schema, table, Cons(SetKw, PairsLeft(sets, true, Comma, KeyClause(keys)))))
  }

  lemma UpdatePrinted(schema: string, table: string, sets: List<Pair>, keys: List<Pair>)
    requires sets.Cons? && keys.Cons? && PairLits(sets) && PairLits(keys)
    ensures UpdateText(schema, table, sets, keys) == Print(Update(schema, table, sets, keys))
  {
  }

  method AddKeyClause(b: SqlBuffer, d: Context, keys: Texts, f: Formats) returns (ok: bool)
    requires b.Valid() && |keys| == |d.cols| && b.left == KeyClause(KeysFrom(d, keys, f, 0))
    modifies b
    ensures b.Valid() && (ok <==> KeysOk(d, keys, f, 0)) && (ok ==> b.left == Nil)
  {
    b.Add(WhereKw);
    ok := AddKeyTests(b, d, keys, f);
  }

  method AddSetClause(b: SqlBuffer, d: Context, present: seq<bool>, values: Texts, f: Formats, ghost after: List<Tok>)
    returns (ok: bool, np: nat)
    requires b.Valid() && |d.cols| == |present| == |values|
    requires b.left == Cons(UpdateKw, PrintTable(d.schema, d.table, Cons(SetKw,
                         PairsLeft(SetsFrom(d, present, values, f, 0), true, Comma, after))))
    modifies b
    ensures b.Valid() && (ok <==> SetsOk(d, present, values, f, 0))
    ensures ok ==> b.left == after && np == Length(SetsFrom(d, present, values, f, 0))
  {
    b.Add(UpdateKw);
    AddTable(b, d.schema, d.table, b.left.tail.tail.tail);
    b.Add(SetKw);
    ok, np := AddSets(b, d, present, values, f, after);
  }

  /** vms_dml_update: a statement is sent exactly when every value converts, something is to be set, the
      key columns exist, and the text fits. */
  method BuildUpdate(d: Context, present: seq<bool>, values: Texts, keys: Texts, f: Formats) returns (r: Option<string>)
    requires |d.cols| == |present| == |values| == |keys| && d.key != []
    ensures var s := UpdateOf(d, present, values, keys, f);
            r == if s.Some? && |StatementText(s.value)| < 4096 then Some(StatementText(s.value)) else None
  {
    ghost var sets, ks := SetsFrom(d, present, values, f, 0), KeysFrom(d, keys, f, 0);
    var b := new SqlBuffer(SqlCap, UpdateText(d.schema, d.table, sets, ks));
    var ok, np := AddSetClause(b, d, present, values, f, KeyClause(ks));
    if !ok || np == 0 { return None; }
    UpdatePrinted(d.schema, d.table, sets, ks);
    ok := AddKeyClause(b, d, keys, f);
    if !ok { return None; }
    r := b.Finish();
  }

  lemma DeletePrinted(schema: string, table: string, keys: List<Pair>)
    requires keys.Cons? && PairLits(keys)
    ensures Cons(DeleteFrom, PrintTable(schema, table, KeyClause(keys))) == Print(Delete(schema, table, keys))
  {
  }

  /** vms_dml_delete */
  method BuildDelete(d: Context, keys: Texts, f: Formats) returns (r: Option<string>)
    requires |keys| == |d.cols| && d.key != []
    ensures var s := DeleteOf(d, keys, f);
            r == if s.Some? && |StatementText(s.value)| < 4096 then Some(StatementText(s.value)) else None
  {
    ghost var tail := KeyClause(KeysFrom(d, keys, f, 0));
    DeletePrinted(d.schema, d.table, KeysFrom(d, keys, f, 0));
    var b := new SqlBuffer(SqlCap, Cons(DeleteFrom, PrintTable(d.schema, d.table, tail)));
    b.Add(DeleteFrom);
    AddTable(b, d.schema, d.table, tail);
    var ok := AddKeyClause(b, d, keys, f);
    if !ok { return None; }
    r := b.Finish();
  }

  method AddName(b: SqlBuffer, first: bool, name: string, ghost more: List<string>, ghost after: List<Tok>)
    requires b.Valid() && b.left == NamesLeft(Cons(name, more), first, after)
    modifies b
    ensures b.Valid() && b.left == NamesLeft(more, false, after)
  {
    if !first { b.Add(Comma); }
    b.Add(Name(name));
  }

  method AddNames(b: SqlBuffer, d: Context, present: seq<bool>, values: Texts, ghost after: List<Tok>) returns (np: nat)
    requires b.Valid() && |d.cols| == |present| == |values|
    requires b.left == NamesLeft(NamesFrom(d, present, values, 0), true, after)
    modifies b
    ensures b.Valid() && b.left == after && np == Length(NamesFrom(d, present, values, 0))
  {
    np := 0;
    for i := 0 to |d.cols|
      invariant b.Valid() && b.left == NamesLeft(NamesFrom(d, present, values, i), np == 0, after)
      invariant Length(NamesFrom(d, present, values, 0)) == np + Length(NamesFrom(d, present, values, i))
    {
      if Listed(d, present, values, i) {
        AddName(b, np == 0, d.cols[i].name, NamesFrom(d, present, values, i + 1), after);
        np := np + 1;
      }
    }
  }

  method AddLit(b: SqlBuffer, first: bool, lit: Tok, ghost more: List<Tok>, ghost after: List<Tok>)
    requires b.Valid() && b.left == LitsLeft(Cons(lit, more), first, after)
    modifies b
    ensures b.Valid() && b.left == LitsLeft(more, false, after)
  {
    if !first { b.Add(Comma); }
    b.Add(lit);
  }

  method AddValues(b: SqlBuffer, d: Context, present: seq<bool>, values: Texts, f: Formats, ghost after: List<Tok>)
    returns (ok: bool)
    requires b.Valid() && |d.cols| == |present| == |values|
    requires b.left == LitsLeft(LitsFrom(d, present, values, f, 0), true, after)
    modifies b
    ensures b.Valid() && (ok <==> ValuesOk(d, present, values, f, 0)) && (ok ==> b.left == after)
  {
    var first := true;
    for i := 0 to |d.cols|
      invariant b.Valid() && b.left == LitsLeft(LitsFrom(d, present, values, f, i), first, after)
      invariant ValuesOk(d, present, values, f, 0) == ValuesOk(d, present, values, f, i)
    {
      if Listed(d, present, values, i) {
        var lit := LiteralOf(values[i], d.cols[i].vtype, f);
        if lit.None? { return false; }
        AddLit(b, first, lit.value, LitsFrom(d, present, values, f, i + 1), after);
        first := false;
      }
    }
    ok := true;
  }

  /** vms_dml_insert: two passes, the column names and then the values of the same columns. */
  method BuildInsert(d: Context, present: seq<bool>, values: Texts, f: Formats) returns (r: Option<string>)
    requires |d.cols| == |present| == |values|
    ensures var s := InsertOf(d, present, values, f);
            r == if s.Some? && |StatementText(s.value)| < 4096 then Some(StatementText(s.value)) else None
  {
    ghost var close := Cons(CloseList, Nil);
    ghost var tail := Cons(ValuesKw, LitsLeft(LitsFrom(d, present, values, f, 0), true, close));
    ghost var list := NamesLeft(NamesFrom(d, present, values, 0), true, tail);
    var b := new SqlBuffer(SqlCap, Cons(InsertInto, PrintTable(d.schema, d.table, Cons(OpenList, list))));
    b.Add(InsertInto);
    AddTable(b, d.schema, d.table, Cons(OpenList, list));
    b.Add(OpenList);
    var np := AddNames(b, d, present, values, tail);
    if np == 0 || np > MaxParams { return None; }
    b.Add(ValuesKw);
    var ok := AddValues(b, d, present, values, f, close);
    if !ok { return None; }
    b.Add(CloseList);
    r := b.Finish();
  }

  // ---- what is sent can be read ----

  /** "%.17g" writes a number for a finite double, which strtod reads back, and a word for the others. */
  ghost predicate ValidFormats(f: Formats) {
    forall r: Double :: if Finite(r) then NumberText(f.printReal(r)) && f.parseReal(f.printReal(r)) == Some(r)
                        else NotANumber(f.printReal(r))
  }

  function ReadBits(s: string): Option<Double> {
    if s != "" && Decimal.AllDigits(s) && Decimal.Value(s) < 0x1_0000_0000_0000_0000 then Some(Decimal.Value(s))
      else None
  }

  function WriteBits(r: Double): string {
    if Finite(r) then Decimal.Print(r) else "inf"
  }

  lemma BitsBack(r: Double)
    ensures if Finite(r) then NumberText(WriteBits(r)) && ReadBits(WriteBits(r)) == Some(r)
              else NotANumber(WriteBits(r))
  {
    if Finite(r) {
      Decimal.PrintValue(r);
      IntIsNumber(r);
    } else {
      assert "inf"[..2] == "in";
    }
  }

  /** There are such formats: here they write the bits themselves. */
  lemma FormatsExist()
    ensures ValidFormats(Formats(ReadBits, WriteBits))
  {
    forall r: Double
      ensures if Finite(r) then NumberText(WriteBits(r)) && ReadBits(WriteBits(r)) == Some(r)
                else NotANumber(WriteBits(r))
    {
      BitsBack(r);
    }
  }

  predicate PlainTable(d: Context) {
    ']' !in d.schema && ']' !in d.table && forall i :: 0 <= i < |d.cols| ==> ']' !in d.cols[i].name
  }

  lemma IntIsNumber(n: int)
    ensures NumberText(PrintInt(n))
  {
    var m := if n < 0 then -n else n;
    assert forall i :: 0 <= i < |Decimal.Print(m)| ==> Decimal.IsDigit(Decimal.Print(m)[i]);
  }

  /** The text does not stand for an infinity or a NaN. */
  predicate FiniteText(text: Option<string>, vtype: ColType, f: Formats) {
    text.Some? && vtype == Float64 && f.parseReal(text.value).Some? ==> Finite(f.parseReal(text.value).value)
  }

  /** The literal written for a text is a literal of the grammar, unless the text stands for an infinity
      or a NaN. */
  lemma WrittenSound(text: Option<string>, vtype: ColType, f: Formats)
    requires ValidFormats(f)
    ensures SoundTok(Written(text, vtype, f))
    ensures PlainTok(Written(text, vtype, f)) <==> FiniteText(text, vtype, f)
  {
    if text.Some? && vtype == Int64 && StrToI64(text.value).Some? { IntIsNumber(StrToI64(text.value).value); }
    if !FiniteText(text, vtype, f) { NotBoth(Written(text, vtype, f).digits); }
  }

  lemma NotBoth(t: string)
    requires NotANumber(t)
    ensures !NumberText(t)
  {
    var k := if t[0] == '-' then 1 else 0;
    assert t[k..][..2][0] == t[k];
    assert k == 0 ==> t[k..] == t;
  }

  lemma {:induction false} SetsReadable(d: Context, present: seq<bool>, values: Texts, f: Formats, i: nat)
    requires i <= |d.cols| == |present| == |values| && ValidFormats(f) && PlainTable(d)
    ensures var ps := SetsFrom(d, present, values, f, i); SoundPairs(ps) && PlainPairs(ps)
    ensures NumericPairs(SetsFrom(d, present, values, f, i)) <==>
            forall c :: i <= c < |d.cols| && Settable(d, present, c) ==> FiniteText(values[c], d.cols[c].vtype, f)
    decreases |d.cols| - i
  {
    if i < |d.cols| {
      SetsReadable(d, present, values, f, i + 1);
      WrittenSound(values[i], d.cols[i].vtype, f);
    }
  }

  lemma {:induction false} KeysReadable(d: Context, keys: Texts, f: Formats, k: nat)
    requires k <= |d.key| && |keys| == |d.cols| && ValidFormats(f) && PlainTable(d)
    ensures var ps := KeysFrom(d, keys, f, k); SoundPairs(ps) && PlainPairs(ps)
    ensures NumericPairs(KeysFrom(d, keys, f, k)) <==>
            forall j :: k <= j < |d.key| && KeyPartCol(d, j) >= 0 ==>
              FiniteText(keys[KeyPartCol(d, j)], d.cols[KeyPartCol(d, j)].vtype, f)
    decreases |d.key| - k
  {
    if k < |d.key| {
      KeysReadable(d, keys, f, k + 1);
      var col := KeyPartCol(d, k);
      if col >= 0 { WrittenSound(keys[col], d.cols[col].vtype, f); }
    }
  }

  lemma {:induction false} ListsReadable(d: Context, present: seq<bool>, values: Texts, f: Formats, i: nat)
    requires i <= |d.cols| == |present| == |values| && ValidFormats(f) && PlainTable(d)
    ensures AllSound(LitsFrom(d, present, values, f, i)) && PlainNameList(NamesFrom(d, present, values, i))
    ensures Plain(LitsFrom(d, present, values, f, i)) <==>
            forall c :: i <= c < |d.cols| && Listed(d, present, values, c) ==> FiniteText(values[c], d.cols[c].vtype, f)
    decreases |d.cols| - i
  {
    if i < |d.cols| {
      ListsReadable(d, present, values, f, i + 1);
      WrittenSound(values[i], d.cols[i].vtype, f);
    }
  }

  // ---- exactly the finite statements are read ----

  predicate FiniteSets(d: Context, present: seq<bool>, values: Texts, f: Formats)
    requires |d.cols| == |present| == |values|
  {
    forall c :: 0 <= c < |d.cols| && Settable(d, present, c) ==> FiniteText(values[c], d.cols[c].vtype, f)
  }

  predicate FiniteKeys(d: Context, keys: Texts, f: Formats)
    requires |d.cols| == |keys|
  {
    forall k :: 0 <= k < |d.key| && KeyPartCol(d, k) >= 0 ==>
      FiniteText(keys[KeyPartCol(d, k)], d.cols[KeyPartCol(d, k)].vtype, f)
  }

  predicate FiniteValues(d: Context, present: seq<bool>, values: Texts, f: Formats)
    requires |d.cols| == |present| == |values|
  {
    forall c :: 0 <= c < |d.cols| && Listed(d, present, values, c) ==> FiniteText(values[c], d.cols[c].vtype, f)
  }

  /** What the server makes of the text of a statement: the statement if its floats are finite, and
      nothing otherwise. */
  ghost predicate ReadIfFinite(s: Statement, finite: bool) {
    && WellFormed(s) && (NumericStatement(s) <==> finite)
    && ReadStatement(StatementText(s)) == (if finite then Some(s) else None)
  }

  lemma TextReads(s: Statement, finite: bool)
    requires WellFormed(s) && SoundStatement(s) && PlainStatement(s) && (NumericStatement(s) <==> finite)
    ensures ReadIfFinite(s, finite)
  {
    ReadPrint(s);
  }

  lemma UpdateReads(d: Context, present: seq<bool>, values: Texts, keys: Texts, f: Formats)
    requires |d.cols| == |present| == |values| == |keys| && d.key != [] && ValidFormats(f) && PlainTable(d)
    ensures var s := UpdateOf(d, present, values, keys, f);
            s.Some? ==> ReadIfFinite(s.value, FiniteSets(d, present, values, f) && FiniteKeys(d, keys, f))
  {
    var s := UpdateOf(d, present, values, keys, f);
    SetsReadable(d, present, values, f, 0);
    KeysReadable(d, keys, f, 0);
    if s.Some? { TextReads(s.value, FiniteSets(d, present, values, f) && FiniteKeys(d, keys, f)); }
  }

  lemma DeleteReads(d: Context, keys: Texts, f: Formats)
    requires |keys| == |d.cols| && d.key != [] && ValidFormats(f) && PlainTable(d)
    ensures var s := DeleteOf(d, keys, f); s.Some? ==> ReadIfFinite(s.value, FiniteKeys(d, keys, f))
  {
    KeysReadable(d, keys, f, 0);
    if DeleteOf(d, keys, f).Some? { TextReads(DeleteOf(d, keys, f).value, FiniteKeys(d, keys, f)); }
  }

  lemma InsertReads(d: Context, present: seq<bool>, values: Texts, f: Formats)
    requires |d.cols| == |present| == |values| && ValidFormats(f) && PlainTable(d)
    ensures var s := InsertOf(d, present, values, f);
            s.Some? ==> ReadIfFinite(s.value, FiniteValues(d, present, values, f))
  {
    ListsReadable(d, present, values, f, 0);
    if InsertOf(d, present, values, f).Some? {
      TextReads(InsertOf(d, present, values, f).value, FiniteValues(d, present, values, f));
    }
  }
}
