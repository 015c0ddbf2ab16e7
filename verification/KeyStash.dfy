/** The key stash of a virtual table: what xRowid keeps of a row's key, and which rows that names. */
module KeyStash {
  import opened Lists
  import opened Meta
  import opened Sql
  import opened DmlSql
  import opened Dml
  import opened DmlEffect
  import Decimal

  const TextBytes: nat := 159

  /** What a C string keeps of the bytes: everything before the first NUL. */
  function CString(s: string): string {
    if s == "" || s[0] == '\0' then "" else [s[0]] + CString(s[1..])
  }

  function Truncated(s: string): string {
    if |s| <= TextBytes then s else s[..TextBytes]
  }

  /** The text kept for a key value; None for NULL and for binary values. */
  function KeyText(v: Value, f: Formats): Option<string> {
    match v
    case IntV(n) => Some(PrintInt(n))
    case RealV(r) => Some(f.printReal(r))
    case TextV(s) => Some(CString(Truncated(s)))
    case _ => None
  }

  /** Key part k of the row can be kept; `shown` are the columns the scan reads. */
  predicate Stashable(d: Context, row: Row, shown: set<nat>, f: Formats, k: nat)
    requires k < |d.key| && |row| == |d.cols|
  {
    var col := KeyPartCol(d, k);
    col >= 0 && col in shown && KeyText(row[col], f).Some?
  }

  /** The texts after keeping the parts from k on, until one cannot be kept. */
  function Keeping(text: seq<string>, d: Context, row: Row, shown: set<nat>, f: Formats, k: nat)
    : (r: (bool, seq<string>))
    requires k <= |d.key| <= |text| && |row| == |d.cols|
    ensures |r.1| == |text|
    decreases |d.key| - k
  {
    if k == |d.key| then (true, text)
    else if !Stashable(d, row, shown, f, k) then (false, text)
    else Keeping(text[k := KeyText(row[KeyPartCol(d, k)], f).value], d, row, shown, f, k + 1)
  }

  /** The key is kept when every part can be, and then each text is that of its part. */
  lemma {:induction false} KeepingMeans(text: seq<string>, d: Context, row: Row, shown: set<nat>, f: Formats, k: nat)
    requires k <= |d.key| <= |text| && |row| == |d.cols|
    ensures var r := Keeping(text, d, row, shown, f, k);
            && (r.0 <==> forall j :: k <= j < |d.key| ==> Stashable(d, row, shown, f, j))
            && (r.0 ==> forall j :: k <= j < |d.key| ==>
                KeyPartCol(d, j) >= 0 && Some(r.1[j]) == KeyText(row[KeyPartCol(d, j)], f))
            && (forall j :: 0 <= j < k ==> r.1[j] == text[j])
    decreases |d.key| - k
  {
    if k < |d.key| && Stashable(d, row, shown, f, k) {
      KeepingMeans(text[k := KeyText(row[KeyPartCol(d, k)], f).value], d, row, shown, f, k + 1);
    }
  }

  /** The first part mapped to the column, or -1. */
  function FirstPart(partCol: seq<int>, col: int, part: nat): (p: int)
    requires part <= |partCol|
    ensures p == -1 || part <= p < |partCol|
    ensures p >= 0 ==> partCol[p] == col
    ensures forall q :: part <= q < |partCol| && partCol[q] == col ==> part <= p <= q
    decreases |partCol| - part
  {
    if part == |partCol| then -1 else if partCol[part] == col then part else FirstPart(partCol, col, part + 1)
  }

  function Stashed(have: bool, text: seq<string>, partCol: seq<int>, col: nat): Option<string>
    requires |text| == |partCol|
  {
    var p := FirstPart(partCol, col, 0);
    if have && p >= 0 then Some(text[p]) else None
  }

  function KeyTexts(have: bool, text: seq<string>, partCol: seq<int>, ncols: nat): (r: Texts)
    requires |text| == |partCol|
    ensures |r| == ncols
  {
    seq(ncols, col requires 0 <= col && |text| == |partCol| => Stashed(have, text, partCol, col))
  }

  // ---- key values survive the stash ----

  /** The values a key column of that type holds and the stash keeps whole. */
  predicate Kept(v: Value, vtype: ColType) {
    match v
    case IntV(n) => vtype == Int64 && MinInt64 <= n <= MaxInt64
    case RealV(r) => vtype == Float64 && Finite(r)
    case TextV(s) => vtype != Int64 && vtype != Float64 && |s| <= 159 && '\0' !in s
    case _ => false
  }

  lemma {:induction false} CStringWhole(s: string)
    ensures CString(s) == s <==> '\0' !in s
  {
    if s != "" && s[0] != '\0' {
      CStringWhole(s[1..]);
      assert s == [s[0]] + s[1..];
    }
  }

  /** What is kept of a text: its first 159 characters, up to a NUL among them. */
  lemma {:induction false} TextKept(s: string, f: Formats)
    ensures var r := KeyText(TextV(s), f);
            && r.Some? && r.value <= s && |r.value| <= 159 && '\0' !in r.value
            && (|r.value| < |s| && |r.value| < 159 ==> s[|r.value|] == '\0')
            && (r == Some(s) <==> |s| <= 159 && '\0' !in s)
  {
    var u := if |s| <= 159 then s else s[..159];
    CStringIs(u);
    CStringWhole(u);
  }

  lemma {:induction false} CStringIs(s: string)
    ensures var r := CString(s); r <= s && '\0' !in r && (|r| < |s| ==> s[|r|] == '\0')
  {
    if s != "" && s[0] != '\0' {
      CStringIs(s[1..]);
      assert s == [s[0]] + s[1..];
    }
  }

  lemma ReadDigits(digits: string, neg: bool)
    requires Decimal.AllDigits(digits) && digits != ""
    ensures ConvertDigits(digits, neg) == Some(Clamp(if neg then -(Decimal.Value(digits) as int)
                                                     else Decimal.Value(digits)))
  {
    Decimal.DigitsRun(digits, "");
    assert digits + "" == digits && digits[..|digits|] == digits;
  }

  /** Reading a printed 64-bit integer gives it back. */
  lemma ReadPrinted(n: int)
    requires MinInt64 <= n <= MaxInt64
    ensures StrToI64(PrintInt(n)) == Some(n)
  {
    var m := if n < 0 then -n else n;
    Decimal.PrintValue(m);
    ReadDigits(Decimal.Print(m), n < 0);
    assert Decimal.IsDigit(Decimal.Print(m)[0]);
    if n < 0 { assert PrintInt(n)[1..] == Decimal.Print(m); }
  }

  lemma KeptValue(v: Value, vtype: ColType, f: Formats)
    requires Kept(v, vtype) && ValidFormats(f)
    ensures KeyText(v, f).Some? && ValueOf(KeyText(v, f), vtype, f) == v
  {
    match v
    case IntV(n) => ReadPrinted(n);
    case TextV(s) => CStringWhole(s);
    case _ =>
  }

  // ---- the written row is the row under the cursor ----

  predicate DistinctParts(d: Context) {
    forall j, k :: 0 <= j < k < |d.key| ==> KeyPartCol(d, j) != KeyPartCol(d, k)
  }

  predicate Bound(d: Context, partCol: seq<int>) {
    |d.key| <= |partCol| && forall k :: 0 <= k < |d.key| ==> partCol[k] == KeyPartCol(d, k)
  }

  /** The texts kept of a row's key, by column. */
  function RowTexts(d: Context, row: Row, f: Formats): (r: Texts)
    requires |row| == |d.cols|
    ensures |r| == |d.cols|
  {
    seq(|d.cols|, c requires 0 <= c < |row| => if IsKeyCol(d, c) then KeyText(row[c], f) else None)
  }

  /** With the part map bound, the stash of a row is asked for exactly that row's key. */
  lemma StashIsRowTexts(d: Context, row: Row, text: seq<string>, partCol: seq<int>, f: Formats, c: nat)
    requires |row| == |d.cols| && |text| == |partCol| && Bound(d, partCol) && DistinctParts(d) && c < |d.cols| &&
             IsKeyCol(d, c)
    requires forall k :: 0 <= k < |d.key| ==>
               KeyPartCol(d, k) >= 0 && Some(text[k]) == KeyText(row[KeyPartCol(d, k)], f)
    ensures KeyTexts(true, text, partCol, |d.cols|)[c] == RowTexts(d, row, f)[c]
  {
    var k :| 0 <= k < |d.key| && KeyPartCol(d, k) == c;
    var p := FirstPart(partCol, c, 0);
    assert 0 <= p <= k;
  }

  /** Row a's key, as the stash keeps it, is the key of row b. */
  predicate Names(d: Context, a: Row, b: Row, f: Formats, same: Same)
    requires |a| == |b| == |d.cols|
  {
    KeyEquals(d, RowTexts(d, a, f), b, f, same)
  }

  /** Key values that the stash keeps whole: the row names exactly the rows with its key, itself among
      them. */
  lemma NamesExactly(d: Context, a: Row, b: Row, f: Formats, same: Same)
    requires |a| == |b| == |d.cols| && ValidFormats(f) && Equivalence(same)
    requires forall k :: 0 <= k < |d.key| ==>
               KeyPartCol(d, k) >= 0 && Kept(a[KeyPartCol(d, k)], d.cols[KeyPartCol(d, k)].vtype) &&
                 b[KeyPartCol(d, k)] != NullV
    ensures Names(d, a, b, f, same) <==> SameKey(d, a, b, same)
  {
    forall k | 0 <= k < |d.key|
      ensures var col := KeyPartCol(d, k); PartEquals(d, RowTexts(d, a, f), b, k, f, same) <==> same(a[col], b[col])
    {
      var col := KeyPartCol(d, k);
      assert IsKeyCol(d, col);
      KeptValue(a[col], d.cols[col].vtype, f);
    }
    if Names(d, a, b, f, same) {
      forall k | 0 <= k < |d.key| ensures same(a[KeyPartCol(d, k)], b[KeyPartCol(d, k)]) {
        assert PartEquals(d, RowTexts(d, a, f), b, k, f, same);
      }
    }
  }

  /** Before the part map is bound (every write context of the table so far was made under a pin) the
      stash answers for column 0 alone: unless the key is that one column, some part reads as NULL and no
      row is written. */
  lemma UnboundMapNamesColumnZero(d: Context, have: bool, text: seq<string>, partCol: seq<int>)
    requires |text| == |partCol| == MaxKeyParts && (forall k :: 0 <= k < MaxKeyParts ==> partCol[k] == 0)
    requires 0 < |d.key| <= MaxKeyParts && DistinctParts(d) && forall k :: 0 <= k < |d.key| ==> KeyPartCol(d, k) >= 0
    ensures !NullPart(d, KeyTexts(have, text, partCol, |d.cols|)) <==> have && |d.key| == 1 && KeyPartCol(d, 0) == 0
    ensures |d.key| == 1 && KeyPartCol(d, 0) == 0 <==> Bound(d, partCol)
  {
    var keys := KeyTexts(have, text, partCol, |d.cols|);
    forall k | 0 <= k < |d.key| ensures keys[KeyPartCol(d, k)] == None <==> !(have && KeyPartCol(d, k) == 0) {}
    if |d.key| > 1 { assert KeyPartCol(d, 0) != KeyPartCol(d, 1); }
    if |d.key| > 1 && KeyPartCol(d, 0) == 0 { assert KeyPartCol(d, 1) != 0; }
  }
}
