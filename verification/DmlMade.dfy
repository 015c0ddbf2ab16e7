/** When the write path makes a statement at all, in terms of the columns' own fields and the characters of the
    texts. */
module DmlMade {
  import opened Lists
  import opened Meta
  import opened DmlSql
  import opened Dml
  import opened DmlEffect
  import Decimal

  /** The text can be a value of a column of that type. */
  predicate Converts(text: Option<string>, vtype: ColType, f: Formats) {
    && (text.Some? && vtype == Int64 ==> StrToI64(text.value).Some?)
    && (text.Some? && vtype == Float64 ==> f.parseReal(text.value).Some?)
  }

  /** Every part of the key has a column, and a text it can be. */
  predicate KeysConvert(d: Context, keys: Texts, f: Formats)
    requires |keys| == |d.cols|
  {
    forall k :: 0 <= k < |d.key| ==>
      var col := KeyPartCol(d, k); col >= 0 && Converts(keys[col], d.cols[col].vtype, f)
  }

  lemma {:induction false} KeysOkMeans(d: Context, keys: Texts, f: Formats, k: nat)
    requires k <= |d.key| && |keys| == |d.cols|
    ensures KeysOk(d, keys, f, k) <==>
              forall j :: k <= j < |d.key| ==>
                var col := KeyPartCol(d, j); col >= 0 && Converts(keys[col], d.cols[col].vtype, f)
    decreases |d.key| - k
  {
    if k < |d.key| {
      KeysOkMeans(d, keys, f, k + 1);
      assert KeyOk(d, keys, f, k) <==>
               var col := KeyPartCol(d, k); col >= 0 && Converts(keys[col], d.cols[col].vtype, f);
    }
  }

  lemma {:induction false} SetsOkMeans(d: Context, present: seq<bool>, values: Texts, f: Formats, i: nat)
    requires i <= |d.cols| == |present| == |values|
    ensures SetsOk(d, present, values, f, i) <==>
              forall c :: i <= c < |d.cols| && Settable(d, present, c) ==> Converts(values[c], d.cols[c].vtype, f)
    ensures SetsFrom(d, present, values, f, i).Cons? <==> exists c :: i <= c < |d.cols| && Settable(d, present, c)
    decreases |d.cols| - i
  {
    if i < |d.cols| { SetsOkMeans(d, present, values, f, i + 1); }
  }

  /** A DELETE is made exactly when every part of the key has a column and a text it can be. */
  lemma DeleteMade(d: Context, keys: Texts, f: Formats)
    requires |keys| == |d.cols| && d.key != []
    ensures DeleteOf(d, keys, f).Some? <==> KeysConvert(d, keys, f)
  {
    KeysOkMeans(d, keys, f, 0);
  }

  predicate InSets(d: Context, present: seq<bool>, c: nat)
    requires c < |d.cols| == |present|
  {
    !ServerKept(d.cols[c]) && !InKey(d, c) && present[c]
  }

  /** An UPDATE is made exactly when there is something to set, every value to set can be one of its column, and
      every part of the key has a column and a text it can be. */
  lemma UpdateMade(d: Context, present: seq<bool>, values: Texts, keys: Texts, f: Formats)
    requires |d.cols| == |present| == |values| == |keys| && d.key != [] && DistinctNames(d.cols)
    ensures UpdateOf(d, present, values, keys, f).Some? <==>
              && (exists c :: 0 <= c < |d.cols| && InSets(d, present, c))
              && (forall c :: 0 <= c < |d.cols| && InSets(d, present, c) ==> Converts(values[c], d.cols[c].vtype, f))
              && KeysConvert(d, keys, f)
  {
    SetsOkMeans(d, present, values, f, 0);
    KeysOkMeans(d, keys, f, 0);
    forall c | 0 <= c < |d.cols| ensures Settable(d, present, c) <==> InSets(d, present, c) {
      SettableMeans(d, present, c);
    }
    if c :| 0 <= c < |d.cols| && InSets(d, present, c) { assert Settable(d, present, c); }
    if c :| 0 <= c < |d.cols| && Settable(d, present, c) { assert InSets(d, present, c); }
  }

  predicate InList(d: Context, present: seq<bool>, values: Texts, c: nat)
    requires c < |d.cols| == |present| == |values|
  {
    !ServerKept(d.cols[c]) && present[c] && (InKey(d, c) ==> values[c].Some? && values[c].value != "")
  }

  function ListCount(d: Context, present: seq<bool>, values: Texts, i: nat): nat
    requires i <= |d.cols| == |present| == |values|
    decreases |d.cols| - i
  {
    if i == |d.cols| then 0
    else (if InList(d, present, values, i) then 1 else 0) + ListCount(d, present, values, i + 1)
  }

  lemma {:induction false} ValuesOkMeans(d: Context, present: seq<bool>, values: Texts, f: Formats, i: nat)
    requires i <= |d.cols| == |present| == |values| && DistinctNames(d.cols)
    ensures ValuesOk(d, present, values, f, i) <==>
              forall c :: i <= c < |d.cols| && InList(d, present, values, c) ==> Converts(values[c], d.cols[c].vtype, f)
    ensures Length(NamesFrom(d, present, values, i)) == ListCount(d, present, values, i)
    decreases |d.cols| - i
  {
    if i < |d.cols| {
      ListedMeans(d, present, values, i);
      ValuesOkMeans(d, present, values, f, i + 1);
    }
  }

  /** An INSERT is made exactly when it lists 1 to 64 columns and every value listed can be one of its column. */
  lemma InsertMade(d: Context, present: seq<bool>, values: Texts, f: Formats)
    requires |d.cols| == |present| == |values| && DistinctNames(d.cols)
    ensures InsertOf(d, present, values, f).Some? <==>
              && 1 <= ListCount(d, present, values, 0) <= 64
              && (forall c :: 0 <= c < |d.cols| && InList(d, present, values, c) ==>
                    Converts(values[c], d.cols[c].vtype, f))
  {
    ValuesOkMeans(d, present, values, f, 0);
  }

  // ---- how an integer is read from a text ----

  predicate Blank(s: string) {
    forall i :: 0 <= i < |s| ==> s[i] in {' ', '\t', '\n', '\r'} || s[i] as int == 11 || s[i] as int == 12
  }

  lemma {:induction false} SkipBlank(ws: string, rest: string)
    requires Blank(ws) && (rest == "" || !Blank(rest[..1]))
    ensures SkipSpace(ws + rest) == rest
  {
    if ws == "" {
      assert ws + rest == rest;
      if rest != "" { assert rest[..1][0] == rest[0]; }
    } else {
      assert (ws + rest)[1..] == ws[1..] + rest;
      SkipBlank(ws[1..], rest);
    }
  }

  /** The number nearest to n in 64 bits. */
  function Nearest(n: int): int {
    if n > 9223372036854775807 then 9223372036854775807
    else if n < -9223372036854775808 then -9223372036854775808
    else n
  }

  /** Digits are read as their number, or the nearest one in 64 bits; without a digit nothing is read. */
  lemma DigitsConvert(digits: string, rest: string, neg: bool)
    requires Decimal.AllDigits(digits) && (rest == "" || !Decimal.IsDigit(rest[0]))
    ensures ConvertDigits(digits + rest, neg) ==
              if digits == "" then None
              else Some(Nearest(if neg then -(Decimal.Value(digits) as int) else Decimal.Value(digits)))
  {
    Decimal.DigitsRun(digits, rest);
  }

  lemma SignRead(sign: string, tail: string)
    requires sign in {"", "-", "+"} &&
             (sign == "" ==> tail == "" || (!Blank(tail[..1]) && tail[0] != '-' && tail[0] != '+'))
    ensures SkipSpace(sign + tail) == sign + tail && StrToI64(sign + tail) == ConvertDigits(tail, sign == "-")
  {
    if sign != "" {
      assert (sign + tail)[..1] == sign && |sign| == 1;
      assert sign[0] == '-' || sign[0] == '+';
      assert !Blank(sign);
    } else {
      assert sign + tail == tail;
    }
    SkipBlank("", sign + tail);
    assert "" + (sign + tail) == sign + tail;
    if sign == "" {
      assert sign + tail == tail;
    } else {
      assert (sign + tail)[1..] == tail && (sign + tail)[0] == sign[0];
    }
  }

  lemma BlanksRead(ws: string, tail: string)
    requires Blank(ws) && SkipSpace(tail) == tail && (tail == "" || !Blank(tail[..1]))
    ensures StrToI64(ws + tail) == StrToI64(tail)
  {
    SkipBlank(ws, tail);
  }

  /** Blanks, a sign or none, and digits are read as their number, whatever follows that is no digit; a number out of
      64 bits as the nearest one; and without a digit nothing is read. */
  lemma IntegerRead(ws: string, sign: string, digits: string, rest: string)
    requires Blank(ws) && sign in {"", "-", "+"} && Decimal.AllDigits(digits) &&
             (rest == "" || !Decimal.IsDigit(rest[0]))
    requires digits == "" && sign == "" ==> rest == "" || (!Blank(rest[..1]) && rest[0] != '-' && rest[0] != '+')
    ensures StrToI64(ws + (sign + (digits + rest))) ==
              if digits == "" then None
              else Some(Nearest(if sign == "-" then -(Decimal.Value(digits) as int) else Decimal.Value(digits)))
  {
    var tail := digits + rest;
    FirstOf(digits, rest);
    SignRead(sign, tail);
    DigitsConvert(digits, rest, sign == "-");
    FirstOf(sign, tail);
    BlanksRead(ws, sign + tail);
  }

  lemma FirstOf(a: string, b: string)
    ensures a != "" ==> (a + b)[0] == a[0] && (a + b)[..1] == [a[0]]
    ensures a == "" ==> a + b == b
  {
  }
}
