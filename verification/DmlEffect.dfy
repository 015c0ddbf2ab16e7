/** What the generated statements do to a keyed table. */
module DmlEffect {
  import opened Lists
  import opened Meta
  import opened Plan
  import opened Sql
  import opened DmlSql
  import opened DmlText
  import opened Dml
  import Decimal

  type Row = seq<Value>
  type Table = seq<Row>

  /** The server's equality of column values, under the column's collation. */
  type Same = (Value, Value) -> bool

  ghost predicate Equivalence(same: Same) {
    && (forall a :: same(a, a))
    && (forall a, b :: same(a, b) ==> same(b, a))
    && (forall a, b, c :: same(a, b) && same(b, c) ==> same(a, c))
  }

  /** How the server reads an integer constant. */
  function ReadInt(t: string): Value {
    if t != "" && t[0] == '-' then if Decimal.AllDigits(t[1..]) then IntV(-(Decimal.Value(t[1..]) as int)) else NullV
    else if Decimal.AllDigits(t) then IntV(Decimal.Value(t))
    else NullV
  }

  /** The value of a literal in a column of that type. */
  function LitValue(lit: Tok, vtype: ColType, f: Formats): Value {
    match lit
    case Num(t) =>
      if vtype == Float64 then (match f.parseReal(t) case None => NullV case Some(r) => RealV(r)) else ReadInt(t)
    case TextLit(s) => TextV(s)
    case _ => NullV
  }

  function LitFor(cols: seq<Column>, name: string, lit: Tok, f: Formats): Value {
    var j := FindColumn(cols, name);
    if j < 0 then NullV else LitValue(lit, cols[j].vtype, f)
  }

  // ---- execution ----

  /** [name] = literal is True; with a NULL on either side it is Unknown. */
  predicate PairHolds(p: Pair, cols: seq<Column>, row: Row, f: Formats, same: Same)
    requires |row| == |cols|
  {
    var cell, v := CellNamed(cols, row, p.name), LitFor(cols, p.name, p.lit, f);
    cell != NullV && v != NullV && same(cell, v)
  }

  predicate Matches(ps: List<Pair>, cols: seq<Column>, row: Row, f: Formats, same: Same)
    requires |row| == |cols|
  {
    ps.Nil? || (PairHolds(ps.head, cols, row, f, same) && Matches(ps.tail, cols, row, f, same))
  }

  function Assign(ps: List<Pair>, cols: seq<Column>, row: Row, f: Formats): (r: Row)
    requires |row| == |cols|
    ensures |r| == |cols|
  {
    if ps.Nil? then row
    else
      var j := FindColumn(cols, ps.head.name);
      Assign(ps.tail, cols, if j < 0 then row else row[j := LitValue(ps.head.lit, cols[j].vtype, f)], f)
  }

  predicate Shaped(t: Table, cols: seq<Column>) {
    forall i :: 0 <= i < |t| ==> |t[i]| == |cols|
  }

  function ExecUpdate(s: Statement, cols: seq<Column>, t: Table, f: Formats, same: Same): (r: Table)
    requires s.Update? && Shaped(t, cols)
    ensures |r| == |t| && Shaped(r, cols)
  {
    seq(|t|, i requires 0 <= i < |t| && |t[i]| == |cols| =>
      if Matches(s.keys, cols, t[i], f, same) then Assign(s.sets, cols, t[i], f) else t[i])
  }

  function ExecDelete(s: Statement, cols: seq<Column>, t: Table, f: Formats, same: Same): (r: Table)
    requires s.Delete? && Shaped(t, cols)
    ensures Shaped(r, cols)
  {
    if t == [] then []
    else
      var last := t[|t| - 1];
      ExecDelete(s, cols, t[..|t| - 1], f, same) + (if Matches(s.keys, cols, last, f, same) then [] else [last])
  }

  function AssignLists(names: List<string>, values: List<Tok>, cols: seq<Column>, row: Row, f: Formats): (r: Row)
    requires |row| == |cols|
    ensures |r| == |cols|
  {
    if names.Nil? || values.Nil? then row
    else
      var j := FindColumn(cols, names.head);
      var row' := if j < 0 then row else row[j := LitValue(values.head, cols[j].vtype, f)];
      AssignLists(names.tail, values.tail, cols, row', f)
  }

  /** The inserted row; `defaults` is what the server fills in for columns not named. */
  function InsertedRow(s: Statement, cols: seq<Column>, defaults: Row, f: Formats): (r: Row)
    requires s.Insert? && |defaults| == |cols|
    ensures |r| == |cols|
  {
    AssignLists(s.names, s.values, cols, defaults, f)
  }

  /** The server reads a text and carries out the statement it stands for, if it is for this table;
      `defaults` is what it fills in for columns an INSERT does not name. */
  ghost function Execute(sql: string, d: Context, t: Table, defaults: Row, f: Formats, same: Same): (r: Table)
    requires Shaped(t, d.cols) && |defaults| == |d.cols|
    ensures Shaped(r, d.cols)
  {
    match ReadStatement(sql)
    case None => t
    case Some(s) =>
      if s.schema != d.schema || s.table != d.table then t
      else match s
        case Insert(_, _, _, _) => t + [InsertedRow(s, d.cols, defaults, f)]
        case Update(_, _, _, _) => ExecUpdate(s, d.cols, t, f, same)
        case Delete(_, _, _) => ExecDelete(s, d.cols, t, f, same)
  }

  // ---- the key ----

  /** The value meant by a text for a column of that type. */
  function ValueOf(text: Option<string>, vtype: ColType, f: Formats): Value {
    if text.None? then NullV
    else match vtype
      case Int64 => (match StrToI64(text.value) case None => NullV case Some(n) => IntV(n))
      case Float64 => (match f.parseReal(text.value) case None => NullV case Some(r) => RealV(r))
      case _ => TextV(text.value)
  }

  lemma ReadPrintedInt(n: int)
    ensures ReadInt(PrintInt(n)) == IntV(n)
  {
    var m := if n < 0 then -n else n;
    Decimal.PrintValue(m);
    assert Decimal.IsDigit(Decimal.Print(m)[0]);
    if n < 0 { assert PrintInt(n)[1..] == Decimal.Print(m); }
  }

  /** The literal written for a text is read as the value the text means. */
  lemma LiteralMeans(text: Option<string>, vtype: ColType, f: Formats)
    requires ValidFormats(f) && FiniteText(text, vtype, f)
    ensures LitValue(Written(text, vtype, f), vtype, f) == ValueOf(text, vtype, f)
  {
    if text.Some? && vtype == Int64 && StrToI64(text.value).Some? { ReadPrintedInt(StrToI64(text.value).value); }
  }

  /** Key part k of the row equals the text given for its column. */
  predicate PartEquals(d: Context, keys: Texts, row: Row, k: nat, f: Formats, same: Same)
    requires k < |d.key| && |keys| == |row| == |d.cols|
  {
    var col := KeyPartCol(d, k);
    col >= 0 && row[col] != NullV &&
    (var v := ValueOf(keys[col], d.cols[col].vtype, f); v != NullV && same(row[col], v))
  }

  predicate KeyEquals(d: Context, keys: Texts, row: Row, f: Formats, same: Same)
    requires |keys| == |row| == |d.cols|
  {
    forall k :: 0 <= k < |d.key| ==> PartEquals(d, keys, row, k, f, same)
  }

  /** No two rows agree on all key columns: the unique index behind the stable key. */
  ghost predicate Unique(d: Context, t: Table, same: Same) {
    Shaped(t, d.cols) &&
    forall i, j :: 0 <= i < j < |t| ==> !SameKey(d, t[i], t[j], same)
  }

  predicate SameKey(d: Context, a: Row, b: Row, same: Same)
    requires |a| == |b| == |d.cols|
  {
    forall k :: 0 <= k < |d.key| ==> (var col := KeyPartCol(d, k); col >= 0 && same(a[col], b[col]))
  }

  lemma PartMeans(d: Context, keys: Texts, f: Formats, k: nat, row: Row, same: Same)
    requires DistinctNames(d.cols) && k < |d.key| && |keys| == |row| == |d.cols| && KeyOk(d, keys, f, k)
    requires ValidFormats(f) && FiniteKeys(d, keys, f)
    ensures PairHolds(KeyPair(d, keys, f, k), d.cols, row, f, same) <==> PartEquals(d, keys, row, k, f, same)
  {
    var col := KeyPartCol(d, k);
    FindOwnName(d.cols, col);
    LiteralMeans(keys[col], d.cols[col].vtype, f);
  }

  predicate PartsEqual(d: Context, keys: Texts, row: Row, k: nat, f: Formats, same: Same)
    requires k <= |d.key| && |keys| == |row| == |d.cols|
    decreases |d.key| - k
  {
    k == |d.key| || (PartEquals(d, keys, row, k, f, same) && PartsEqual(d, keys, row, k + 1, f, same))
  }

  lemma {:induction false} PartsAre(d: Context, keys: Texts, row: Row, k: nat, f: Formats, same: Same)
    requires k <= |d.key| && |keys| == |row| == |d.cols|
    ensures PartsEqual(d, keys, row, k, f, same) <==>
              forall j :: k <= j < |d.key| ==> PartEquals(d, keys, row, j, f, same)
    decreases |d.key| - k
  {
    if k < |d.key| { PartsAre(d, keys, row, k + 1, f, same); }
  }

  lemma {:induction false} MatchesParts(d: Context, keys: Texts, f: Formats, k: nat, row: Row, same: Same)
    requires DistinctNames(d.cols) && k <= |d.key| && |keys| == |row| == |d.cols| && KeysOk(d, keys, f, k)
    requires ValidFormats(f) && FiniteKeys(d, keys, f)
    ensures Matches(KeysFrom(d, keys, f, k), d.cols, row, f, same) <==> PartsEqual(d, keys, row, k, f, same)
    decreases |d.key| - k
  {
    if k < |d.key| {
      MatchesParts(d, keys, f, k + 1, row, same);
      PartMeans(d, keys, f, k, row, same);
    }
  }

  /** The WHERE clause holds of exactly the rows with the given key. */
  lemma MatchesMeans(d: Context, keys: Texts, f: Formats, row: Row, same: Same)
    requires DistinctNames(d.cols) && |keys| == |row| == |d.cols| && KeysOk(d, keys, f, 0)
    requires ValidFormats(f) && FiniteKeys(d, keys, f)
    ensures Matches(KeysFrom(d, keys, f, 0), d.cols, row, f, same) <==> KeyEquals(d, keys, row, f, same)
  {
    MatchesParts(d, keys, f, 0, row, same);
    PartsAre(d, keys, row, 0, f, same);
  }

  /** At most one row of a keyed table has a given key. */
  lemma OneMatch(d: Context, keys: Texts, t: Table, i: nat, j: nat, f: Formats, same: Same)
    requires Unique(d, t, same) && Equivalence(same) && |keys| == |d.cols| && i < j < |t|
    ensures !(KeyEquals(d, keys, t[i], f, same) && KeyEquals(d, keys, t[j], f, same))
  {
    if KeyEquals(d, keys, t[i], f, same) && KeyEquals(d, keys, t[j], f, same) {
      forall k | 0 <= k < |d.key| ensures var col := KeyPartCol(d, k); col >= 0 && same(t[i][col], t[j][col]) {
        assert PartEquals(d, keys, t[i], k, f, same) && PartEquals(d, keys, t[j], k, f, same);
      }
      assert SameKey(d, t[i], t[j], same);
    }
  }

  // ---- which columns are written ----

  /** The server alone fills the column: identity, computed, rowversion or timestamp, in whatever case. */
  predicate ServerKept(c: Column) {
    c.identity || c.computed || AnyCase(c.typeName, "rowversion") || AnyCase(c.typeName, "timestamp")
  }

  /** The column is a part of the stable key. */
  predicate InKey(d: Context, c: nat)
    requires c < |d.cols|
  {
    exists k :: 0 <= k < |d.key| && AnyCase(d.cols[c].name, d.key[k])
  }

  lemma WritableMeans(c: Column)
    ensures Writable(c) <==> !ServerKept(c)
  {
    SameNameMeans(c.typeName, "rowversion");
    SameNameMeans(c.typeName, "timestamp");
    assert Lower("rowversion") == "rowversion" && Lower("timestamp") == "timestamp";
  }

  lemma KeyColMeans(d: Context, c: nat)
    requires DistinctNames(d.cols) && c < |d.cols|
    ensures IsKeyCol(d, c) <==> InKey(d, c)
  {
    forall k | 0 <= k < |d.key| ensures KeyPartCol(d, k) == c <==> AnyCase(d.cols[c].name, d.key[k]) {
      SameNameMeans(d.cols[c].name, d.key[k]);
      var j := KeyPartCol(d, k);
      assert 0 <= j < c ==> !SameName(d.cols[j].name, d.cols[c].name);
    }
    if InKey(d, c) {
      var k :| 0 <= k < |d.key| && AnyCase(d.cols[c].name, d.key[k]);
      assert KeyPartCol(d, k) == c;
    }
  }

  /** UPDATE sets exactly the columns present that neither the server keeps nor the key has. */
  lemma SettableMeans(d: Context, present: seq<bool>, c: nat)
    requires DistinctNames(d.cols) && c < |d.cols| == |present|
    ensures Settable(d, present, c) <==> !ServerKept(d.cols[c]) && !InKey(d, c) && present[c]
  {
    WritableMeans(d.cols[c]);
    KeyColMeans(d, c);
  }

  /** INSERT lists exactly the columns present that the server does not keep, a key column only with a text. */
  lemma ListedMeans(d: Context, present: seq<bool>, values: Texts, c: nat)
    requires DistinctNames(d.cols) && c < |d.cols| == |present| == |values|
    ensures Listed(d, present, values, c) <==>
              !ServerKept(d.cols[c]) && present[c] && (InKey(d, c) ==> values[c].Some? && values[c].value != "")
  {
    WritableMeans(d.cols[c]);
    KeyColMeans(d, c);
  }

  // ---- UPDATE ----

  /** The row after column i of the SET list. */
  function AssignedAt(d: Context, present: seq<bool>, values: Texts, f: Formats, i: nat, row: Row): (r: Row)
    requires i < |d.cols| == |present| == |values| == |row|
    ensures |r| == |row|
  {
    if Settable(d, present, i) then row[i := ValueOf(values[i], d.cols[i].vtype, f)] else row
  }

  lemma AssignStep(d: Context, present: seq<bool>, values: Texts, f: Formats, i: nat, row: Row)
    requires DistinctNames(d.cols) && i < |d.cols| == |present| == |values| == |row|
    requires ValidFormats(f) && FiniteSets(d, present, values, f)
    ensures Assign(SetsFrom(d, present, values, f, i), d.cols, row, f) ==
            Assign(SetsFrom(d, present, values, f, i + 1), d.cols, AssignedAt(d, present, values, f, i, row), f)
  {
    if Settable(d, present, i) {
      FindOwnName(d.cols, i);
      LiteralMeans(values[i], d.cols[i].vtype, f);
    }
  }

  lemma {:induction false} AssignMeans(d: Context, present: seq<bool>, values: Texts, f: Formats, i: nat, row: Row,
                                       c: nat)
    requires DistinctNames(d.cols) && i <= |d.cols| == |present| == |values| == |row| && c < |row|
    requires ValidFormats(f) && FiniteSets(d, present, values, f)
    ensures Assign(SetsFrom(d, present, values, f, i), d.cols, row, f)[c] ==
            if i <= c && Settable(d, present, c) then ValueOf(values[c], d.cols[c].vtype, f) else row[c]
    decreases |d.cols| - i
  {
    if i < |d.cols| {
      AssignStep(d, present, values, f, i, row);
      AssignMeans(d, present, values, f, i + 1, AssignedAt(d, present, values, f, i, row), c);
    }
  }

  /** What an UPDATE leaves of a row: of the row with the given key every column present gets its value, but those the
      server keeps and those of the key; the other rows stay. */
  ghost predicate UpdatedRow(d: Context, present: seq<bool>, values: Texts, keys: Texts, f: Formats, same: Same,
                             old': Row, new': Row) {
    && |old'| == |new'| == |d.cols| == |present| == |values| == |keys|
    && (!KeyEquals(d, keys, old', f, same) ==> new' == old')
    && (KeyEquals(d, keys, old', f, same) ==>
          forall c :: 0 <= c < |d.cols| ==>
            new'[c] == if ServerKept(d.cols[c]) || InKey(d, c) || !present[c] then old'[c]
                       else ValueOf(values[c], d.cols[c].vtype, f))
  }

  lemma RowUpdated(d: Context, present: seq<bool>, values: Texts, keys: Texts, f: Formats, same: Same, row: Row)
    requires |d.cols| == |present| == |values| == |keys| == |row| && d.key != [] && DistinctNames(d.cols)
    requires ValidFormats(f) && FiniteSets(d, present, values, f) && FiniteKeys(d, keys, f)
    requires UpdateOf(d, present, values, keys, f).Some?
    ensures var s := UpdateOf(d, present, values, keys, f).value;
            UpdatedRow(d, present, values, keys, f, same, row,
                       if Matches(s.keys, d.cols, row, f, same) then Assign(s.sets, d.cols, row, f) else row)
  {
    var s := UpdateOf(d, present, values, keys, f).value;
    MatchesMeans(d, keys, f, row, same);
    forall c | 0 <= c < |d.cols|
      ensures Assign(s.sets, d.cols, row, f)[c] ==
              if Settable(d, present, c) then ValueOf(values[c], d.cols[c].vtype, f) else row[c]
    {
      AssignMeans(d, present, values, f, 0, row, c);
    }
    forall c | 0 <= c < |d.cols|
      ensures Settable(d, present, c) <==> !ServerKept(d.cols[c]) && !InKey(d, c) && present[c]
    {
      SettableMeans(d, present, c);
    }
  }

  /** A key part was NULL in the row, or is not known any more. */
  predicate NullPart(d: Context, keys: Texts)
    requires |keys| == |d.cols|
  {
    exists k :: 0 <= k < |d.key| && KeyPartCol(d, k) >= 0 && keys[KeyPartCol(d, k)] == None
  }

  lemma NullPartMatchesNone(d: Context, keys: Texts, f: Formats, same: Same, row: Row)
    requires |keys| == |d.cols| == |row| && NullPart(d, keys)
    ensures !KeyEquals(d, keys, row, f, same)
  {
    var k :| 0 <= k < |d.key| && KeyPartCol(d, k) >= 0 && keys[KeyPartCol(d, k)] == None;
    assert !PartEquals(d, keys, row, k, f, same);
  }

  /** UPDATE on a keyed table: only the row whose key equals the given one changes, and of it only the
      present writable columns outside the key; at most one row has that key, none if a part is NULL;
      key, identity, computed and rowversion columns never change. */
  lemma UpdateHitsTheRow(d: Context, present: seq<bool>, values: Texts, keys: Texts, f: Formats, same: Same, t: Table,
                         i: nat)
    requires |d.cols| == |present| == |values| == |keys| && d.key != [] && DistinctNames(d.cols)
    requires ValidFormats(f) && FiniteSets(d, present, values, f) && FiniteKeys(d, keys, f)
    requires Unique(d, t, same) && Equivalence(same) && UpdateOf(d, present, values, keys, f).Some? && i < |t|
    ensures var t' := ExecUpdate(UpdateOf(d, present, values, keys, f).value, d.cols, t, f, same);
            && UpdatedRow(d, present, values, keys, f, same, t[i], t'[i])
            && (forall c :: 0 <= c < |d.cols| && (InKey(d, c) || ServerKept(d.cols[c])) ==> t'[i][c] == t[i][c])
            && (forall j :: 0 <= j < |t| && j != i && KeyEquals(d, keys, t[j], f, same) ==> t'[i] == t[i])
            && (NullPart(d, keys) ==> t'[i] == t[i])
  {
    RowUpdated(d, present, values, keys, f, same, t[i]);
    forall j | 0 <= j < |t| && j != i && KeyEquals(d, keys, t[j], f, same) ensures !KeyEquals(d, keys, t[i], f, same) {
      if i < j { OneMatch(d, keys, t, i, j, f, same); } else { OneMatch(d, keys, t, j, i, f, same); }
    }
    if NullPart(d, keys) { NullPartMatchesNone(d, keys, f, same, t[i]); }
  }

  // ---- DELETE ----

  lemma {:induction false} DeleteKeeps(s: Statement, cols: seq<Column>, t: Table, f: Formats, same: Same)
    requires s.Delete? && Shaped(t, cols) && forall i :: 0 <= i < |t| ==> !Matches(s.keys, cols, t[i], f, same)
    ensures ExecDelete(s, cols, t, f, same) == t
  {
    if t != [] {
      var n := |t| - 1;
      assert forall i :: 0 <= i < n ==> t[..n][i] == t[i];
      DeleteKeeps(s, cols, t[..n], f, same);
      assert t[..n] + [t[n]] == t;
    }
  }

  lemma {:induction false} DeleteRemoves(s: Statement, cols: seq<Column>, t: Table, f: Formats, same: Same, p: nat)
    requires s.Delete? && Shaped(t, cols) && p < |t|
    requires forall i :: 0 <= i < |t| ==> (Matches(s.keys, cols, t[i], f, same) <==> i == p)
    ensures ExecDelete(s, cols, t, f, same) == t[..p] + t[p + 1..]
  {
    var n := |t| - 1;
    if p == n {
      DeleteKeeps(s, cols, t[..n], f, same);
    } else {
      DeleteRemoves(s, cols, t[..n], f, same, p);
      assert t[..n][..p] == t[..p] && t[..n][p + 1..] + [t[n]] == t[p + 1..];
    }
  }

  /** DELETE removes exactly the row with the given key and keeps the others in order; without such a row
      nothing happens. */
  lemma DeleteHitsTheRow(d: Context, keys: Texts, f: Formats, same: Same, t: Table)
    requires |keys| == |d.cols| && d.key != [] && DistinctNames(d.cols)
    requires ValidFormats(f) && FiniteKeys(d, keys, f)
    requires Unique(d, t, same) && Equivalence(same) && DeleteOf(d, keys, f).Some?
    ensures var t' := ExecDelete(DeleteOf(d, keys, f).value, d.cols, t, f, same);
            && (forall p :: 0 <= p < |t| && KeyEquals(d, keys, t[p], f, same) ==> t' == t[..p] + t[p + 1..])
            && ((forall p :: 0 <= p < |t| ==> !KeyEquals(d, keys, t[p], f, same)) ==> t' == t)
            && (NullPart(d, keys) ==> t' == t)
  {
    var s := DeleteOf(d, keys, f).value;
    forall i | 0 <= i < |t| ensures Matches(s.keys, d.cols, t[i], f, same) <==> KeyEquals(d, keys, t[i], f, same) {
      MatchesMeans(d, keys, f, t[i], same);
    }
    forall p | 0 <= p < |t| && KeyEquals(d, keys, t[p], f, same)
      ensures ExecDelete(s, d.cols, t, f, same) == t[..p] + t[p + 1..]
    {
      forall i | 0 <= i < |t| ensures KeyEquals(d, keys, t[i], f, same) <==> i == p {
        if i < p { OneMatch(d, keys, t, i, p, f, same); } else if p < i { OneMatch(d, keys, t, p, i, f, same); }
      }
      DeleteRemoves(s, d.cols, t, f, same, p);
    }
    if NullPart(d, keys) {
      forall p | 0 <= p < |t| ensures !KeyEquals(d, keys, t[p], f, same) {
        NullPartMatchesNone(d, keys, f, same, t[p]);
      }
    }
    if forall p :: 0 <= p < |t| ==> !KeyEquals(d, keys, t[p], f, same) { DeleteKeeps(s, d.cols, t, f, same); }
  }

  // ---- INSERT ----

  function ListedAt(d: Context, present: seq<bool>, values: Texts, f: Formats, i: nat, row: Row): (r: Row)
    requires i < |d.cols| == |present| == |values| == |row|
    ensures |r| == |row|
  {
    if Listed(d, present, values, i) then row[i := ValueOf(values[i], d.cols[i].vtype, f)] else row
  }

  lemma InsertStep(d: Context, present: seq<bool>, values: Texts, f: Formats, i: nat, row: Row)
    requires DistinctNames(d.cols) && i < |d.cols| == |present| == |values| == |row|
    requires ValidFormats(f) && FiniteValues(d, present, values, f)
    ensures AssignLists(NamesFrom(d, present, values, i), LitsFrom(d, present, values, f, i), d.cols, row, f) ==
            AssignLists(NamesFrom(d, present, values, i + 1), LitsFrom(d, present, values, f, i + 1), d.cols,
                        ListedAt(d, present, values, f, i, row), f)
  {
    if Listed(d, present, values, i) {
      FindOwnName(d.cols, i);
      LiteralMeans(values[i], d.cols[i].vtype, f);
    }
  }

  lemma {:induction false} InsertMeans(d: Context, present: seq<bool>, values: Texts, f: Formats, i: nat, row: Row,
                                       c: nat)
    requires DistinctNames(d.cols) && i <= |d.cols| == |present| == |values| == |row| && c < |row|
    requires ValidFormats(f) && FiniteValues(d, present, values, f)
    ensures AssignLists(NamesFrom(d, present, values, i), LitsFrom(d, present, values, f, i), d.cols, row, f)[c] ==
            if i <= c && Listed(d, present, values, c) then ValueOf(values[c], d.cols[c].vtype, f) else row[c]
    decreases |d.cols| - i
  {
    if i < |d.cols| {
      InsertStep(d, present, values, f, i, row);
      InsertMeans(d, present, values, f, i + 1, ListedAt(d, present, values, f, i, row), c);
    }
  }

  /** How many listed columns come before column c. */
  function ListedBefore(d: Context, present: seq<bool>, values: Texts, c: nat): nat
    requires c <= |d.cols| == |present| == |values|
  {
    if c == 0 then 0 else ListedBefore(d, present, values, c - 1) + (if Listed(d, present, values, c - 1) then 1 else 0)
  }

  /** From column i on, name and value of a listed column stand at the same place of their lists. */
  lemma {:induction false} SamePlace(d: Context, present: seq<bool>, values: Texts, f: Formats, i: nat, c: nat)
    requires i <= c < |d.cols| == |present| == |values| && Listed(d, present, values, c)
    ensures var k := ListedBefore(d, present, values, c) - ListedBefore(d, present, values, i);
            k >= 0 && Nth(NamesFrom(d, present, values, i), k) == Some(d.cols[c].name) &&
            Nth(LitsFrom(d, present, values, f, i), k) == Some(Written(values[c], d.cols[c].vtype, f))
    decreases c - i
  {
    if i < c { SamePlace(d, present, values, f, i + 1, c); }
  }

  /** The k-th value of an INSERT belongs to the k-th listed column. */
  lemma KthValueKthColumn(d: Context, present: seq<bool>, values: Texts, f: Formats, c: nat)
    requires c < |d.cols| == |present| == |values| && InsertOf(d, present, values, f).Some? &&
             Listed(d, present, values, c)
    ensures var s, k := InsertOf(d, present, values, f).value, ListedBefore(d, present, values, c);
            Nth(s.names, k) == Some(d.cols[c].name) && Nth(s.values, k) == Some(Written(values[c], d.cols[c].vtype, f))
  {
    SamePlace(d, present, values, f, 0, c);
  }

  /** INSERT: as many values as names, and every column present of the new row gets its own value, but those the
      server keeps and key columns without a text, which get the server's default. */
  lemma InsertFillsColumns(d: Context, present: seq<bool>, values: Texts, f: Formats, defaults: Row, c: nat)
    requires |d.cols| == |present| == |values| == |defaults| && DistinctNames(d.cols) && c < |d.cols|
    requires ValidFormats(f) && FiniteValues(d, present, values, f)
    requires InsertOf(d, present, values, f).Some?
    ensures var s := InsertOf(d, present, values, f).value;
            && Length(s.names) == Length(s.values)
            && InsertedRow(s, d.cols, defaults, f)[c] ==
               (if ServerKept(d.cols[c]) || !present[c] || (InKey(d, c) && (values[c] == None || values[c] == Some("")))
                then defaults[c] else ValueOf(values[c], d.cols[c].vtype, f))
  {
    ListedMeans(d, present, values, c);
    InsertMeans(d, present, values, f, 0, defaults, c);
  }
}
