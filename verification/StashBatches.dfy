/** DELETE over several rows, in the two orders in which SQLite may call: every xRowid first, or each xRowid
    right before its xUpdate. Either may follow any run that made the autocommit context. */
module StashBatches {
  import opened Lists
  import opened Meta
  import opened Plan
  import opened Sql
  import opened DmlSql
  import opened DmlText
  import opened Dml
  import opened DmlEffect
  import opened KeyStash
  import opened StashRuns
  import opened StashOutcome

  /** A row whose key the stash keeps whole, with a statement that can be sent. */
  ghost predicate RowFine(s: Site, row: Row) {
    && |row| == |s.d.cols| && KeyFits(s.d)
    && (forall k :: 0 <= k < |s.d.key| ==>
          KeyPartCol(s.d, k) >= 0 && Kept(row[KeyPartCol(s.d, k)], s.d.cols[KeyPartCol(s.d, k)].vtype))
    && Sendable(DeleteOf(s.d, RowTexts(s.d, row, s.f), s.f)).Some?
  }

  ghost predicate TableFine(s: Site, t: Table) {
    SiteOk(s) && Unique(s.d, t, s.same) && forall i :: 0 <= i < |t| ==> RowFine(s, t[i])
  }

  function Below(n: nat): (r: set<nat>)
    ensures forall i :: 0 <= i < n ==> i in r
  {
    if n == 0 then {} else Below(n - 1) + {n - 1}
  }

  function Stand(d: Context, row: Row): Call {
    RowId(Some(row), Below(|d.cols|))
  }

  const Scan := BestIndex(false, Ready)

  function Erase(rowid: int): Call {
    DeleteRow(false, Ready, rowid)
  }

  // ---- one more call ----

  lemma OneMore(run: seq<Call>, c: Call, s: Site, t: Table)
    requires SiteOk(s) && RunOk(run, s.d) && CallOk(c, s.d) && Shaped(t, s.d.cols)
    ensures RunOk(run + [c], s.d)
    ensures Run(run + [c], s.d, s.f).0 == Step(Run(run, s.d, s.f).0, c, s.d, s.f).0
    ensures RowsAfter(run + [c], s, t) == After(Run(run, s.d, s.f).0, c, s, RowsAfter(run, s, t))
  {
    assert (run + [c])[..|run|] == run;
  }

  /** A run with an autocommit context that left the rows u, with row r stashed. */
  ghost predicate At(run: seq<Call>, s: Site, t: Table, u: Table, r: Option<Row>) {
    && SiteOk(s) && RunOk(run, s.d) && Shaped(t, s.d.cols)
    && Run(run, s.d, s.f).0.dml && RowsAfter(run, s, t) == u && StashedRow(run, s.d, s.f) == r
  }

  lemma Started(s: Site, t: Table)
    requires SiteOk(s) && Shaped(t, s.d.cols)
    ensures At([Scan], s, t, t, None)
  {
    OneMore([], Scan, s, t);
    assert [] + [Scan] == [Scan];
  }

  lemma Stood(run: seq<Call>, s: Site, t: Table, u: Table, r: Option<Row>, row: Row)
    requires At(run, s, t, u, r) && RowFine(s, row)
    ensures At(run + [Stand(s.d, row)], s, t, u, Some(row))
  {
    var c := Stand(s.d, row);
    OneMore(run, c, s, t);
    assert (run + [c])[..|run|] == run;
    assert LastRowId(run + [c]) == |run|;
    forall k | 0 <= k < |s.d.key| ensures Stashable(s.d, row, Below(|s.d.cols|), s.f, k) {
      KeptValue(row[KeyPartCol(s.d, k)], s.d.cols[KeyPartCol(s.d, k)].vtype, s.f);
    }
  }

  lemma Erased(run: seq<Call>, s: Site, t: Table, u: Table, r: Option<Row>, rowid: int)
    requires At(run, s, t, u, r)
    ensures At(run + [Erase(rowid)], s, t, After(Run(run, s.d, s.f).0, Erase(rowid), s, u), r)
  {
    OneMore(run, Erase(rowid), s, t);
    StashStays(run + [Erase(rowid)], s.d, s.f);
    assert (run + [Erase(rowid)])[..|run|] == run;
  }

  lemma ErasesFor(run: seq<Call>, s: Site, t: Table, u: Table, row: Row, rowid: int)
    requires At(run, s, t, u, Some(row)) && RowFine(s, row)
    ensures WritesFor(run, Erase(rowid), s.d, s.f) == Some(row)
  {
    KeptFinite(s, row);
  }

  /** Key values kept whole are finite. */
  lemma KeptFinite(s: Site, row: Row)
    requires SiteOk(s) && RowFine(s, row)
    ensures FiniteKeys(s.d, RowTexts(s.d, row, s.f), s.f)
  {
    forall k | 0 <= k < |s.d.key|
      ensures FiniteText(RowTexts(s.d, row, s.f)[KeyPartCol(s.d, k)], s.d.cols[KeyPartCol(s.d, k)].vtype, s.f)
    {
      assert IsKeyCol(s.d, KeyPartCol(s.d, k));
    }
  }

  lemma NamesItself(s: Site, a: Row, b: Row)
    requires SiteOk(s) && RowFine(s, a) && RowFine(s, b)
    ensures Names(s.d, a, b, s.f, s.same) <==> SameKey(s.d, a, b, s.same)
  {
    NamesExactly(s.d, a, b, s.f, s.same);
  }

  /** A DELETE while row p of the table is stashed takes row p away. */
  lemma EraseStashed(run: seq<Call>, s: Site, t: Table, u: Table, p: nat, rowid: int)
    requires TableFine(s, u) && p < |u| && At(run, s, t, u, Some(u[p]))
    ensures At(run + [Erase(rowid)], s, t, Without(u, p), Some(u[p]))
  {
    ErasesFor(run, s, t, u, u[p], rowid);
    NamesItself(s, u[p], u[p]);
    assert SameKey(s.d, u[p], u[p], s.same);
    DeleteHit(run, Erase(rowid), s, u, p);
    Erased(run, s, t, u, Some(u[p]), rowid);
  }

  /** A DELETE while a row that is gone is stashed takes nothing away. */
  lemma EraseGone(run: seq<Call>, s: Site, t: Table, u: Table, p: nat, rowid: int)
    requires TableFine(s, u) && p < |u| && At(run, s, t, Without(u, p), Some(u[p]))
    ensures At(run + [Erase(rowid)], s, t, Without(u, p), Some(u[p]))
  {
    var w := Without(u, p);
    ErasesFor(run, s, t, w, u[p], rowid);
    WithoutFine(s, u, p);
    forall i | 0 <= i < |w| ensures !Hits(run, Erase(rowid), s, w, i) {
      NamesItself(s, u[p], w[i]);
      KeysDiffer(s, u, p, i);
    }
    DeleteMiss(run, Erase(rowid), s, w);
    Erased(run, s, t, w, Some(u[p]), rowid);
  }

  lemma KeysDiffer(s: Site, u: Table, p: nat, i: nat)
    requires SiteOk(s) && Unique(s.d, u, s.same) && p < |u| && i < |u| - 1
    ensures !SameKey(s.d, u[p], Without(u, p)[i], s.same)
  {
    var j := if i < p then i else i + 1;
    assert Without(u, p)[i] == u[j];
    if SameKey(s.d, u[p], u[j], s.same) {
      forall k | 0 <= k < |s.d.key| ensures var col := KeyPartCol(s.d, k); s.same(u[j][col], u[p][col]) {
        assert s.same(u[p][KeyPartCol(s.d, k)], u[j][KeyPartCol(s.d, k)]);
      }
      assert SameKey(s.d, u[j], u[p], s.same);
    }
  }

  lemma WithoutFine(s: Site, u: Table, p: nat)
    requires TableFine(s, u) && p < |u|
    ensures TableFine(s, Without(u, p))
  {
    var w := Without(u, p);
    assert forall i :: 0 <= i < |w| ==> w[i] == u[if i < p then i else i + 1];
  }

  // ---- every xRowid first ----

  predicate InTable(picks: seq<nat>, t: Table) {
    forall i :: 0 <= i < |picks| ==> picks[i] < |t|
  }

  /** xRowid on all picked rows ... */
  function Stands(run: seq<Call>, d: Context, t: Table, picks: seq<nat>): seq<Call>
    requires InTable(picks, t)
    decreases |picks|
  {
    if picks == [] then run else Stands(run + [Stand(d, t[picks[0]])], d, t, picks[1..])
  }

  /** ... then the writes. */
  function Erases(run: seq<Call>, rowids: seq<int>): seq<Call>
    decreases |rowids|
  {
    if rowids == [] then run else Erases(run + [Erase(rowids[0])], rowids[1..])
  }

  function LastOf(r: Option<Row>, u: Table, picks: seq<nat>): Option<Row>
    requires InTable(picks, u)
    decreases |picks|
  {
    if picks == [] then r else LastOf(Some(u[picks[0]]), u, picks[1..])
  }

  lemma {:induction false} LastIs(r: Option<Row>, u: Table, picks: seq<nat>)
    requires InTable(picks, u) && picks != []
    ensures LastOf(r, u, picks) == Some(u[picks[|picks| - 1]])
    decreases |picks|
  {
    if |picks| > 1 { LastIs(Some(u[picks[0]]), u, picks[1..]); }
  }

  lemma {:induction false} StandsAt(run: seq<Call>, r: Option<Row>, s: Site, t: Table, u: Table, picks: seq<nat>)
    requires TableFine(s, u) && At(run, s, t, u, r) && InTable(picks, u)
    ensures At(Stands(run, s.d, u, picks), s, t, u, LastOf(r, u, picks))
    decreases |picks|
  {
    if picks != [] {
      var row := u[picks[0]];
      Stood(run, s, t, u, r, row);
      StandsAt(run + [Stand(s.d, row)], Some(row), s, t, u, picks[1..]);
    }
  }

  lemma {:induction false} ErasesNoMore(run: seq<Call>, s: Site, t: Table, u: Table, p: nat, rowids: seq<int>)
    requires TableFine(s, u) && p < |u| && At(run, s, t, Without(u, p), Some(u[p]))
    ensures At(Erases(run, rowids), s, t, Without(u, p), Some(u[p]))
    decreases |rowids|
  {
    if rowids != [] {
      EraseGone(run, s, t, u, p, rowids[0]);
      ErasesNoMore(run + [Erase(rowids[0])], s, t, u, p, rowids[1..]);
    }
  }

  /** With every xRowid first, a DELETE of many rows takes away only the last of them. */
  lemma TwoPassLosesRows(run: seq<Call>, r: Option<Row>, s: Site, t: Table, u: Table, picks: seq<nat>, rowids: seq<int>)
    requires TableFine(s, u) && At(run, s, t, u, r) && picks != [] && InTable(picks, u) && rowids != []
    ensures var p := picks[|picks| - 1];
            At(Erases(Stands(run, s.d, u, picks), rowids), s, t, Without(u, p), Some(u[p]))
  {
    var p, stood := picks[|picks| - 1], Stands(run, s.d, u, picks);
    StandsAt(run, r, s, t, u, picks);
    LastIs(r, u, picks);
    EraseStashed(stood, s, t, u, p, rowids[0]);
    ErasesNoMore(stood + [Erase(rowids[0])], s, t, u, p, rowids[1..]);
  }

  // ---- each xRowid right before its xUpdate ----

  function OnePass(run: seq<Call>, d: Context, u: Table, picks: seq<nat>, rowids: seq<int>): seq<Call>
    requires InTable(picks, u) && |rowids| == |picks|
    decreases |picks|
  {
    if picks == [] then run
    else OnePass(run + [Stand(d, u[picks[0]])] + [Erase(rowids[0])], d, u, picks[1..], rowids[1..])
  }

  /** The rows of the table whose places are not among those gone, in order. */
  function Rest(u: Table, gone: set<nat>): (r: Table)
    ensures forall i :: 0 <= i < |r| ==> r[i] in u
  {
    if u == [] then []
    else
      var n := |u| - 1;
      Rest(u[..n], gone) + (if n in gone then [] else [u[n]])
  }

  /** A row still there has a place, and without it the rest is that of one more gone. */
  lemma {:induction false} RestPlace(u: Table, gone: set<nat>, p: nat) returns (q: nat)
    requires p < |u| && p !in gone
    ensures q < |Rest(u, gone)| && Rest(u, gone)[q] == u[p] && Without(Rest(u, gone), q) == Rest(u, gone + {p})
  {
    var n := |u| - 1;
    var before := Rest(u[..n], gone);
    if p == n {
      RestSame(u[..n], gone, gone + {p});
      q := |before|;
      assert Rest(u, gone) == before + [u[n]];
    } else {
      q := RestPlace(u[..n], gone, p);
      var tail := if n in gone then [] else [u[n]];
      assert Rest(u, gone) == before + tail;
      assert Without(before + tail, q) == Without(before, q) + tail;
    }
  }

  lemma {:induction false} RestSame(u: Table, gone: set<nat>, more: set<nat>)
    requires forall i :: 0 <= i < |u| ==> (i in gone <==> i in more)
    ensures Rest(u, gone) == Rest(u, more)
  {
    if u != [] { RestSame(u[..|u| - 1], gone, more); }
  }

  lemma {:induction false} RestAll(u: Table)
    ensures Rest(u, {}) == u
  {
    if u != [] { RestAll(u[..|u| - 1]); }
  }

  lemma OneRow(run: seq<Call>, s: Site, t: Table, u: Table, r: Option<Row>, p: nat, rowid: int)
    requires TableFine(s, u) && p < |u| && At(run, s, t, u, r)
    ensures At(run + [Stand(s.d, u[p])] + [Erase(rowid)], s, t, Without(u, p), Some(u[p])) &&
            TableFine(s, Without(u, p))
  {
    Stood(run, s, t, u, r, u[p]);
    EraseStashed(run + [Stand(s.d, u[p])], s, t, u, p, rowid);
    WithoutFine(s, u, p);
  }

  /** No place twice, and none that is gone. */
  predicate Fresh(picks: seq<nat>, gone: set<nat>) {
    && (forall i :: 0 <= i < |picks| ==> picks[i] !in gone)
    && (forall i, j :: 0 <= i < j < |picks| ==> picks[i] != picks[j])
  }

  lemma FreshTail(picks: seq<nat>, gone: set<nat>)
    requires picks != [] && Fresh(picks, gone)
    ensures Fresh(picks[1..], gone + {picks[0]})
  {
  }

  function Places(picks: seq<nat>): (r: set<nat>)
    ensures forall p :: p in r <==> p in picks
  {
    if picks == [] then {} else {picks[0]} + Places(picks[1..])
  }

  lemma {:induction false} OnePassFrom(run: seq<Call>, r: Option<Row>, s: Site, t: Table, u: Table, picks: seq<nat>,
                                       rowids: seq<int>, gone: set<nat>) returns (last: Option<Row>)
    requires TableFine(s, Rest(u, gone)) && At(run, s, t, Rest(u, gone), r)
    requires InTable(picks, u) && Fresh(picks, gone) && |rowids| == |picks|
    ensures At(OnePass(run, s.d, u, picks, rowids), s, t, Rest(u, gone + Places(picks)), last)
    decreases |picks|
  {
    if picks == [] {
      last := r;
      assert gone + {} == gone;
    } else {
      var p := picks[0];
      OnePick(run, r, s, t, u, p, rowids[0], gone);
      FreshTail(picks, gone);
      PlacesTail(picks, gone);
      last := OnePassFrom(run + [Stand(s.d, u[p])] + [Erase(rowids[0])], Some(u[p]), s, t, u, picks[1..], rowids[1..],
                          gone + {p});
    }
  }

  lemma OnePick(run: seq<Call>, r: Option<Row>, s: Site, t: Table, u: Table, p: nat, rowid: int, gone: set<nat>)
    requires TableFine(s, Rest(u, gone)) && At(run, s, t, Rest(u, gone), r) && p < |u| && p !in gone
    ensures At(run + [Stand(s.d, u[p])] + [Erase(rowid)], s, t, Rest(u, gone + {p}), Some(u[p]))
    ensures TableFine(s, Rest(u, gone + {p}))
  {
    var q := RestPlace(u, gone, p);
    OneRow(run, s, t, Rest(u, gone), r, q, rowid);
  }

  lemma PlacesTail(picks: seq<nat>, gone: set<nat>)
    requires picks != []
    ensures gone + {picks[0]} + Places(picks[1..]) == gone + Places(picks)
  {
  }

  /** With each xRowid right before its write, a DELETE takes away exactly the picked rows, in whatever
      order they are picked, and the others stay in order. */
  lemma OnePassTakesRows(run: seq<Call>, r: Option<Row>, s: Site, t: Table, u: Table, picks: seq<nat>, rowids: seq<int>)
    returns (last: Option<Row>)
    requires TableFine(s, u) && At(run, s, t, u, r) && InTable(picks, u) && Fresh(picks, {}) && |rowids| == |picks|
    ensures At(OnePass(run, s.d, u, picks, rowids), s, t, Rest(u, Places(picks)), last)
  {
    RestAll(u);
    last := OnePassFrom(run, r, s, t, u, picks, rowids, {});
    assert {} + Places(picks) == Places(picks);
  }

  // ---- two rows ----

  const TwoColumns := [Column("id", "int", Int64, false, false, false, 4, 10, 0),
                       Column("v", "int", Int64, true, false, false, 4, 10, 0)]

  const TwoColumnTable := Context("dbo", "t", TwoColumns, ["id"])

  const RowOne := [IntV(1), IntV(10)]
  const RowTwo := [IntV(2), IntV(20)]

  function SmallSite(f: Formats): Site {
    Site(TwoColumnTable, f, (a, b) => a == b)
  }

  lemma KeyIsFirst()
    ensures DistinctNames(TwoColumns) && KeyPartCol(TwoColumnTable, 0) == 0
  {
    assert Lower("id")[0] == 'i' && Lower("v")[0] == 'v';
    assert FindFrom(TwoColumns, "id", 0) == 0;
  }

  lemma SmallSiteOk(f: Formats)
    requires ValidFormats(f)
    ensures SiteOk(SmallSite(f))
  {
    KeyIsFirst();
  }

  lemma SmallRowFine(f: Formats, n: int, v: int)
    requires ValidFormats(f) && 0 <= n < 10
    ensures RowFine(SmallSite(f), [IntV(n), IntV(v)])
  {
    var d, row := TwoColumnTable, [IntV(n), IntV(v)];
    KeyIsFirst();
    assert IsKeyCol(d, 0);
    var keys := RowTexts(d, row, f);
    assert keys[0] == Some(PrintInt(n));
    ReadPrinted(n);
    assert LiteralOf(keys[0], Int64, f) == Some(Num(PrintInt(n)));
    var pair := Pair("id", Num(PrintInt(n)));
    assert KeyPair(d, keys, f, 0) == pair && KeyOk(d, keys, f, 0);
    assert KeysOk(d, keys, f, 1) && KeysFrom(d, keys, f, 1) == Nil;
    assert KeysFrom(d, keys, f, 0) == Cons(pair, Nil);
    ShortDelete(PrintInt(n));
  }

  lemma ShortDelete(digits: string)
    requires |digits| < 100
    ensures |StatementText(Delete("dbo", "t", Cons(Pair("id", Num(digits)), Nil)))| < SqlCap
  {
    var lit := Cons(Num(digits), Nil);
    assert |Chars(lit)| == |digits|;
    var test := Cons(Name("id"), Cons(Cmp(EQ), lit));
    assert |Chars(test)| == |digits| + 7;
    var where := Cons(WhereKw, test);
    assert |Chars(where)| == |digits| + 14;
    var table := Cons(Dot, Cons(Name("t"), where));
    assert |Chars(table)| == |digits| + 18;
    assert |Chars(Cons(DeleteFrom, Cons(Name("dbo"), table)))| == |digits| + 35;
  }

  lemma PairFine(s: Site, a: Row, b: Row)
    requires SiteOk(s) && RowFine(s, a) && RowFine(s, b) && !SameKey(s.d, a, b, s.same)
    ensures TableFine(s, [a, b])
  {
    UniquePair(s.d, a, b, s.same);
    var t := [a, b];
    forall i | 0 <= i < |t| ensures RowFine(s, t[i]) { assert t[i] == if i == 0 then a else b; }
  }

  lemma UniquePair(d: Context, a: Row, b: Row, same: Same)
    requires |a| == |d.cols| && |b| == |d.cols| && !SameKey(d, a, b, same)
    ensures Unique(d, [a, b], same)
  {
  }

  /** Two rows, both stood on and then both deleted: the write meant for the first row takes the second
      away, and the write meant for the second nothing. */
  lemma SecondRowGoes(s: Site, a: Row, b: Row, x: int, y: int)
    requires TableFine(s, [a, b])
    ensures At(Erases(Stands([Scan], s.d, [a, b], [0, 1]), [x, y]), s, [a, b], [a], Some(b))
  {
    Started(s, [a, b]);
    TwoPassLosesRows([Scan], None, s, [a, b], [a, b], [0, 1], [x, y]);
    assert Without([a, b], 1) == [a];
  }

  lemma KeysTwo(f: Formats)
    ensures !SameKey(TwoColumnTable, RowOne, RowTwo, SmallSite(f).same)
  {
    KeyIsFirst();
    assert 0 < |TwoColumnTable.key|;
  }

  lemma TwoRows(x: int, y: int)
    ensures At(Erases(Stands([Scan], TwoColumnTable, [RowOne, RowTwo], [0, 1]), [x, y]),
               SmallSite(Formats(ReadBits, WriteBits)),
               [RowOne, RowTwo], [RowOne], Some(RowTwo))
  {
    var f := Formats(ReadBits, WriteBits);
    FormatsExist();
    SmallSiteOk(f);
    SmallRowFine(f, 1, 10);
    SmallRowFine(f, 2, 20);
    KeysTwo(f);
    PairFine(SmallSite(f), RowOne, RowTwo);
    SecondRowGoes(SmallSite(f), RowOne, RowTwo, x, y);
  }
}
