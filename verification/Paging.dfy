/** LIMIT and OFFSET with a consumed ORDER BY: the server cuts the page before SQLite tests the rows again. */
module Paging {
  import opened Lists
  import opened Meta
  import opened Plan
  import opened PlanSql
  import opened PlanBuild
  import opened Filter
  import opened Alignment
  import opened Pushdown

  /** One call of xBestIndex and xFilter. */
  datatype Request = Request(info: IndexInfo, cols: seq<Column>, keys: seq<string>, schema: string, table: string,
                             wkt: bool, values: seq<Value>, argv: seq<Value>, h: Host)

  ghost predicate Fine(r: Request) {
    Callable(r.info, r.cols, r.values, r.argv, r.h) && LimitsOf(r.info, r.cols).limitArg >= 0
  }

  function QueryFor(r: Request): Query
    requires 0 < |r.cols| <= 32 && ColumnsInRange(r.info, |r.cols|)
  {
    SentQuery(r.info, r.cols, r.keys, r.schema, r.table, r.wkt, r.argv, r.h)
  }

  function ParamsFor(r: Request): seq<int> {
    SentParams(r.info, r.cols, r.argv, r.h)
  }

  ghost predicate Answered(r: Request, rows: seq<Row>, out: seq<Row>)
    requires Fine(r)
  {
    Answers(QueryFor(r), r.cols, ParamsFor(r), rows, out) && forall i :: 0 <= i < |rows| ==> Typed(rows[i], r.cols)
  }

  /** SQLite keeps the row. */
  predicate Kept(r: Request, row: Row) {
    |r.values| == |r.info.constraints| && Rechecks(r.info, r.cols, r.keys, r.wkt, r.values, r.h, row)
  }

  function ResultOf(r: Request, out: seq<Row>): seq<Row> {
    Select(out, row => Kept(r, row))
  }

  // ---- the page SQLite asks for ----

  /** The value of the constraint that got the argument slot, if it is an integer. */
  function SlotValue(r: Request, slot: int, otherwise: int): int {
    var l := LimitsOf(r.info, r.cols);
    if 0 <= slot < |l.sources| && l.sources[slot] < |r.values| && r.h.integer(r.values[l.sources[slot]]).Some?
    then r.h.integer(r.values[l.sources[slot]]).value else otherwise
  }

  /** The LIMIT; negative for none. */
  function Limit(r: Request): int {
    SlotValue(r, LimitsOf(r.info, r.cols).limitArg, -1)
  }

  /** The OFFSET taken into the plan, 0 without one. */
  function Offset(r: Request): int {
    SlotValue(r, LimitsOf(r.info, r.cols).offsetArg, 0)
  }

  function Wanted(r: Request, full: seq<Row>): seq<Row> {
    var m: nat := if Offset(r) < 0 then 0 else Offset(r);
    Slice(full, m, if Limit(r) < 0 then |full| else Limit(r))
  }

  /** The result is the page of the satisfying rows, sorted by the ORDER BY, ties in some order. */
  ghost predicate Right(r: Request, rows: seq<Row>, result: seq<Row>) {
    exists full :: Ranked(r, rows, full) && result == Wanted(r, full)
  }

  ghost predicate Ranked(r: Request, rows: seq<Row>, full: seq<Row>) {
    Sorted(full, r.info.orderBy) && multiset(full) == multiset(Satisfying(r.info, r.values, r.h, rows))
  }

  lemma SlotRead(r: Request, slot: nat)
    requires Fine(r) && slot < |LimitsOf(r.info, r.cols).sources|
    ensures var i := LimitsOf(r.info, r.cols).sources[slot];
            i < |r.values| && ArgInt(r.argv, slot, r.h) == r.h.integer(r.values[i])
  {
    LimitReads(r.info, r.cols, r.values, r.argv, slot);
  }

  /** The limit and offset xFilter reads are those of the constraints. */
  lemma LimitIs(r: Request)
    requires Fine(r)
    ensures LimitOf(PlanOf(r.info, r.cols), r.argv, r.h) == Limit(r)
    ensures OffsetOf(PlanOf(r.info, r.cols), r.argv, r.h) == Offset(r)
  {
    var l := LimitsOf(r.info, r.cols);
    ArgvIndexesExact(r.info, r.cols);
    SlotRead(r, l.limitArg);
    if l.offsetArg >= 0 { SlotRead(r, l.offsetArg); }
  }

  lemma OrderConsumed(r: Request)
    requires Fine(r)
    ensures Consumes(r.info.orderBy, r.cols)
  {
    PlanLimits(r.info, r.cols);
  }

  /** The server's page of the rows it selects. */
  lemma WindowIs(r: Request, full: seq<Row>)
    requires Fine(r) && Limit(r) >= 0
    ensures Window(QueryFor(r).page, ParamsFor(r), full) ==
            if Offset(r) >= 0 && Limit(r) >= 1 then Some(Slice(full, Offset(r), Limit(r))) else None
  {
    var p := CompiledPlan(r.info, r.cols, r.keys);
    LimitIs(r);
    OrderConsumed(r);
    assert Adjusted(p, r.argv, r.h) == p && p.hasLimit;
    assert Params(p, r.argv, r.h) == ParamsFor(r);
    ParametersAlign(r.info, r.cols, r.values, r.argv, r.h, p.mask, r.schema, r.table, r.wkt);
    ArgvIndexesExact(r.info, r.cols);
    SlotRead(r, LimitsOf(r.info, r.cols).limitArg);
    if p.hasOffset { SlotRead(r, LimitsOf(r.info, r.cols).offsetArg); }
  }

  // ---- rows that come too early ----

  /** The row satisfies every constraint. */
  ghost predicate Good(r: Request, x: Row) {
    |r.values| == |r.info.constraints| && Typed(x, r.cols) && Satisfies(r.info.constraints, r.values, x, r.h)
  }

  /** The row passes the WHERE and fails a constraint SQLite still tests. */
  ghost predicate Stray(r: Request, x: Row) {
    |r.values| == |r.info.constraints| && Typed(x, r.cols) && TakenHold(r.info, r.cols, r.values, r.h, x) && !Good(r, x)
  }

  /** No stray row may stand before a good one. */
  ghost predicate StraysLast(r: Request) {
    forall x, y :: Stray(r, x) && Good(r, y) ==> !Before(r.info.orderBy, 0, x, y)
  }

  ghost predicate PassesRow(r: Request, x: Row)
    requires Fine(r)
  {
    Passes(QueryFor(r), r.cols, ParamsFor(r), x)
  }

  lemma RowIs(r: Request, x: Row)
    requires Fine(r) && Typed(x, r.cols)
    ensures PassesRow(r, x) <==> Stray(r, x) || Good(r, x)
    ensures PassesRow(r, x) ==> (Kept(r, x) <==> Good(r, x))
  {
    PassesMeans(r.info, r.cols, r.keys, r.schema, r.table, r.wkt, r.values, r.argv, r.h, x);
    RowMeans(r.info, r.cols, r.keys, r.wkt, r.values, r.h, x);
  }

  // ---- selecting from a slice ----

  lemma {:induction false} SelectSum(a: seq<Row>, b: seq<Row>, keep: Row -> bool)
    ensures Select(a + b, keep) == Select(a, keep) + Select(b, keep)
  {
    if b == [] {
      assert a + b == a;
    } else {
      var n := |b| - 1;
      assert (a + b)[..|a| + n] == a + b[..n];
      SelectSum(a, b[..n], keep);
    }
  }

  lemma {:induction false} SelectAll(a: seq<Row>, keep: Row -> bool)
    requires forall i :: 0 <= i < |a| ==> keep(a[i])
    ensures Select(a, keep) == a
  {
    if a != [] { SelectAll(a[..|a| - 1], keep); }
  }

  lemma {:induction false} SelectNone(a: seq<Row>, keep: Row -> bool)
    requires forall i :: 0 <= i < |a| ==> !keep(a[i])
    ensures Select(a, keep) == []
  {
    if a != [] { SelectNone(a[..|a| - 1], keep); }
  }

  /** The kept rows stand in front. */
  predicate KeptFirst(full: seq<Row>, keep: Row -> bool) {
    forall i, j :: 0 <= i < j < |full| && keep(full[j]) ==> keep(full[i])
  }

  lemma {:induction false} Front(full: seq<Row>, keep: Row -> bool) returns (k: nat)
    requires KeptFirst(full, keep)
    ensures k <= |full| && (forall i :: 0 <= i < k ==> keep(full[i])) &&
            (forall i :: k <= i < |full| ==> !keep(full[i]))
  {
    k := 0;
    while k < |full| && keep(full[k])
      invariant k <= |full| && forall i :: 0 <= i < k ==> keep(full[i])
    {
      k := k + 1;
    }
  }

  lemma {:induction false} SelectFront(full: seq<Row>, k: nat, keep: Row -> bool)
    requires k <= |full| && (forall i :: 0 <= i < k ==> keep(full[i])) &&
             (forall i :: k <= i < |full| ==> !keep(full[i]))
    ensures Select(full, keep) == full[..k]
  {
    if k == |full| {
      SelectAll(full, keep);
      assert full[..k] == full;
    } else {
      var n := |full| - 1;
      SelectFront(full[..n], k, keep);
      assert full[..n][..k] == full[..k];
    }
  }

  lemma SelectParts(a: seq<Row>, b: seq<Row>, keep: Row -> bool)
    requires (forall i :: 0 <= i < |a| ==> keep(a[i])) && (forall i :: 0 <= i < |b| ==> !keep(b[i]))
    ensures Select(a + b, keep) == a && Select(b + a, keep) == a
  {
    SelectAll(a, keep);
    SelectNone(b, keep);
    SelectSum(a, b, keep);
    SelectSum(b, a, keep);
  }

  /** Where slice and front meet. */
  function Meet(size: nat, m: nat, n: nat, k: nat): nat
    requires k <= size
  {
    if k <= m then 0 else if k >= m + n then n else k - m
  }

  lemma SliceAt(full: seq<Row>, m: nat, n: nat, i: nat)
    requires i < |Slice(full, m, n)|
    ensures m + i < |full| && Slice(full, m, n)[i] == full[m + i]
  {
  }

  lemma SliceFront(full: seq<Row>, m: nat, n: nat, k: nat)
    requires k <= |full|
    ensures var e := Meet(|full|, m, n, k); e <= |Slice(full, m, n)| && Slice(full, m, n)[..e] == Slice(full[..k], m, n)
  {
  }

  /** Then selecting from a slice is slicing what is selected. */
  lemma SliceSelect(full: seq<Row>, m: nat, n: nat, keep: Row -> bool)
    requires KeptFirst(full, keep)
    ensures Select(Slice(full, m, n), keep) == Slice(Select(full, keep), m, n)
  {
    var k := Front(full, keep);
    SelectFront(full, k, keep);
    SliceFront(full, m, n, k);
    var s, e := Slice(full, m, n), Meet(|full|, m, n, k);
    forall i | 0 <= i < |s| ensures keep(s[i]) <==> i < e { SliceAt(full, m, n, i); }
    SelectFront(s, e, keep);
  }

  // ---- when the page is right ----

  lemma FullRows(r: Request, rows: seq<Row>, full: seq<Row>, x: Row)
    requires Fine(r) && Selects(QueryFor(r), r.cols, ParamsFor(r), rows, full) && x in full
    requires forall i :: 0 <= i < |rows| ==> Typed(rows[i], r.cols)
    ensures Typed(x, r.cols) && PassesRow(r, x)
  {
    var passing := row => Passes(QueryFor(r), r.cols, ParamsFor(r), row);
    assert x in multiset(full) && x in multiset(Select(rows, passing));
    SelectCount(rows, passing, x);
    assert x in multiset(rows);
  }

  lemma GoodFirst(r: Request, rows: seq<Row>, full: seq<Row>)
    requires Fine(r) && StraysLast(r) && Selects(QueryFor(r), r.cols, ParamsFor(r), rows, full)
    requires forall i :: 0 <= i < |rows| ==> Typed(rows[i], r.cols)
    ensures KeptFirst(full, row => Kept(r, row))
  {
    OrderConsumed(r);
    SelectionSorted(r.info, r.cols, QueryFor(r), ParamsFor(r), rows, full, r.keys, r.wkt, r.values, r.h);
    forall i, j | 0 <= i < j < |full| && Kept(r, full[j]) ensures Kept(r, full[i]) {
      FullRows(r, rows, full, full[i]);
      FullRows(r, rows, full, full[j]);
      RowIs(r, full[i]);
      RowIs(r, full[j]);
      assert Before(r.info.orderBy, 0, full[i], full[j]);
    }
  }

  lemma RightIfStraysLast(r: Request, rows: seq<Row>, out: seq<Row>)
    requires Fine(r) && Limit(r) >= 0 && StraysLast(r) && Answered(r, rows, out)
    ensures Right(r, rows, ResultOf(r, out))
  {
    var q, params := QueryFor(r), ParamsFor(r);
    var full :| Selects(q, r.cols, params, rows, full) && Window(q.page, params, full) == Some(out);
    WindowIs(r, full);
    OrderConsumed(r);
    GoodFirst(r, rows, full);
    SliceSelect(full, Offset(r), Limit(r), row => Kept(r, row));
    SelectionMeans(r.info, r.cols, r.keys, r.schema, r.table, r.wkt, r.values, r.argv, r.h, rows, full);
    SameResult(r, full);
    assert Ranked(r, rows, ResultOf(r, full));
  }

  lemma {:induction false} SameSelection(rows: seq<Row>, f: Row -> bool, g: Row -> bool)
    requires forall x :: f(x) == g(x)
    ensures Select(rows, f) == Select(rows, g)
  {
    if rows != [] { SameSelection(rows[..|rows| - 1], f, g); }
  }

  lemma SameResult(r: Request, rows: seq<Row>)
    requires |r.values| == |r.info.constraints|
    ensures ResultOf(r, rows) == Result(r.info, r.cols, r.keys, r.wkt, r.values, r.h, rows)
  {
    SameSelection(rows, row => Kept(r, row),
      row => |r.values| == |r.info.constraints| && Rechecks(r.info, r.cols, r.keys, r.wkt, r.values, r.h, row));
  }

  // ---- when it is not ----

  lemma BeforeItself(r: Request, x: Row)
    requires Fine(r) && |x| == |r.cols|
    ensures Before(r.info.orderBy, 0, x, x)
  {
    OrderConsumed(r);
    BeforeFrom(r.info.orderBy, 0, x);
  }

  lemma {:induction false} BeforeFrom(order: seq<OrderTerm>, i: nat, x: Row)
    requires i <= |order| && forall k :: 0 <= k < |order| ==> 0 <= order[k].column < |x|
    ensures Before(order, i, x, x)
    decreases |order| - i
  {
    if i < |order| { BeforeFrom(order, i + 1, x); }
  }

  function Copies(x: Row, n: nat): (r: seq<Row>)
    ensures |r| == n && forall i :: 0 <= i < n ==> r[i] == x
  {
    seq(n, _ => x)
  }

  /** The stray row a times, the good one b times. */
  function Mixed(x: Row, a: nat, y: Row, b: nat): (r: seq<Row>)
    ensures |r| == a + b && forall i :: 0 <= i < a + b ==> r[i] == if i < a then x else y
  {
    Copies(x, a) + Copies(y, b)
  }

  predicate AllOrdered(order: seq<OrderTerm>, x: Row, y: Row) {
    Before(order, 0, x, x) && Before(order, 0, x, y) && Before(order, 0, y, y)
  }

  lemma MixedOrdered(r: Request, x: Row, a: nat, y: Row, b: nat)
    requires KeysOk(r.info.orderBy, |r.cols|) && DistinctNames(r.cols) && |x| == |r.cols| && |y| == |r.cols|
    requires AllOrdered(r.info.orderBy, x, y)
    ensures var keys, rows := KeysFrom(r.info.orderBy, r.cols, 0), Mixed(x, a, y, b);
            forall i, j :: 0 <= i < j < |rows| ==> ServerBefore(keys, r.cols, rows[i], rows[j])
  {
    OrderMeans(r.info.orderBy, r.cols, 0, x, x);
    OrderMeans(r.info.orderBy, r.cols, 0, x, y);
    OrderMeans(r.info.orderBy, r.cols, 0, y, y);
  }

  lemma MixedPasses(r: Request, x: Row, a: nat, y: Row, b: nat)
    requires Fine(r) && Stray(r, x) && Good(r, y)
    ensures Select(Mixed(x, a, y, b), row => Passes(QueryFor(r), r.cols, ParamsFor(r), row)) == Mixed(x, a, y, b)
  {
    RowIs(r, x);
    RowIs(r, y);
    SelectAll(Mixed(x, a, y, b), row => Passes(QueryFor(r), r.cols, ParamsFor(r), row));
  }

  lemma OrderUsable(r: Request)
    requires Fine(r)
    ensures KeysOk(r.info.orderBy, |r.cols|) && DistinctNames(r.cols)
    ensures QueryFor(r).keys == KeysFrom(r.info.orderBy, r.cols, 0)
  {
    OrderConsumed(r);
  }

  lemma MixedSelected(r: Request, x: Row, a: nat, y: Row, b: nat)
    requires Fine(r) && Stray(r, x) && Good(r, y) && Before(r.info.orderBy, 0, x, y)
    ensures Selects(QueryFor(r), r.cols, ParamsFor(r), Mixed(x, a, y, b), Mixed(x, a, y, b))
  {
    MixedPasses(r, x, a, y, b);
    OrderUsable(r);
    BeforeItself(r, x);
    BeforeItself(r, y);
    MixedOrdered(r, x, a, y, b);
  }

  lemma MixedSelect(x: Row, a: nat, y: Row, b: nat, keep: Row -> bool)
    requires !keep(x) && keep(y)
    ensures Select(Mixed(x, a, y, b), keep) == Copies(y, b)
  {
    SelectParts(Copies(y, b), Copies(x, a), keep);
  }

  /** What is left of a slice of a mixed table. */
  lemma MixedSlice(x: Row, a: nat, y: Row, b: nat, m: nat, n: nat, keep: Row -> bool)
    requires !keep(x) && keep(y)
    ensures a >= m + n ==> Select(Slice(Mixed(x, a, y, b), m, n), keep) == []
    ensures a <= m < a + b <= m + n ==> |Select(Slice(Mixed(x, a, y, b), m, n), keep)| == a + b - m
  {
    var rows := Mixed(x, a, y, b);
    var s := Slice(rows, m, n);
    if a >= m + n {
      forall i | 0 <= i < |s| ensures s[i] == x { SliceAt(rows, m, n, i); }
      SelectNone(s, keep);
    } else if a <= m < a + b <= m + n {
      forall i | 0 <= i < |s| ensures s[i] == y { SliceAt(rows, m, n, i); }
      SelectAll(s, keep);
    }
  }

  lemma RightLength(r: Request, rows: seq<Row>, result: seq<Row>)
    requires Right(r, rows, result) && Limit(r) >= 0 && Offset(r) >= 0
    ensures |result| == |Slice(Satisfying(r.info, r.values, r.h, rows), Offset(r), Limit(r))|
  {
    var full :| Ranked(r, rows, full) && result == Wanted(r, full);
    var sat := Satisfying(r.info, r.values, r.h, rows);
    assert |full| == |multiset(full)| == |multiset(sat)| == |sat|;
  }

  /** How many rows a right result has. */
  lemma RightSize(r: Request, x: Row, a: nat, y: Row, b: nat, result: seq<Row>)
    requires Stray(r, x) && Good(r, y) && Right(r, Mixed(x, a, y, b), result) && Limit(r) >= 0 && Offset(r) >= 0
    ensures |result| == |Slice(Copies(y, b), Offset(r), Limit(r))|
  {
    RightLength(r, Mixed(x, a, y, b), result);
    MixedSelect(x, a, y, b,
                row => |r.values| == |r.info.constraints| && Satisfies(r.info.constraints, r.values, row, r.h));
  }

  lemma MixedKept(r: Request, x: Row, y: Row)
    requires Fine(r) && Stray(r, x) && Good(r, y)
    ensures !Kept(r, x) && Kept(r, y) && Typed(x, r.cols) && Typed(y, r.cols)
  {
    RowIs(r, x);
    RowIs(r, y);
  }

  lemma MixedAnswered(r: Request, x: Row, a: nat, y: Row, b: nat)
    requires Fine(r) && Limit(r) >= 1 && Offset(r) >= 0
    requires Stray(r, x) && Good(r, y) && Before(r.info.orderBy, 0, x, y)
    ensures Answered(r, Mixed(x, a, y, b), Slice(Mixed(x, a, y, b), Offset(r), Limit(r)))
  {
    MixedSelected(r, x, a, y, b);
    WindowIs(r, Mixed(x, a, y, b));
    MixedKept(r, x, y);
  }

  /** Strays fill the page, or push the first good row behind the skipped ones into it. */
  lemma MixedWrong(r: Request, x: Row, a: nat, y: Row, b: nat)
    requires Fine(r) && Limit(r) >= 1 && Offset(r) >= 0 && Stray(r, x) && Good(r, y)
    requires if Offset(r) == 0 then a == Limit(r) && b == 1 else a == 1 && b == Offset(r)
    ensures !Right(r, Mixed(x, a, y, b), ResultOf(r, Slice(Mixed(x, a, y, b), Offset(r), Limit(r))))
  {
    var m, n := Offset(r), Limit(r);
    var result := ResultOf(r, Slice(Mixed(x, a, y, b), m, n));
    MixedKept(r, x, y);
    MixedSlice(x, a, y, b, m, n, row => Kept(r, row));
    assert |result| == if m == 0 then 0 else 1;
    if Right(r, Mixed(x, a, y, b), result) { RightSize(r, x, a, y, b, result); }
  }

  /** A stray row before a good one: some table is answered wrongly. */
  lemma WrongIfStrayBefore(r: Request, x: Row, y: Row) returns (rows: seq<Row>, out: seq<Row>)
    requires Fine(r) && Limit(r) >= 1 && Offset(r) >= 0
    requires Stray(r, x) && Good(r, y) && Before(r.info.orderBy, 0, x, y)
    ensures Answered(r, rows, out) && !Right(r, rows, ResultOf(r, out))
  {
    var m, n := Offset(r), Limit(r);
    var a, b := if m == 0 then n else 1, if m == 0 then 1 else m;
    rows := Mixed(x, a, y, b);
    out := Slice(rows, m, n);
    MixedAnswered(r, x, a, y, b);
    MixedWrong(r, x, a, y, b);
  }

  /** LIMIT with a consumed ORDER BY gives the right page of every table, however the server answers, if
      and only if no row that passes the WHERE and fails another test may stand before a good row. */
  lemma LimitExactly(r: Request)
    requires Fine(r) && Limit(r) >= 1 && Offset(r) >= 0
    ensures (forall rows, out :: Answered(r, rows, out) ==> Right(r, rows, ResultOf(r, out))) <==> StraysLast(r)
  {
    if StraysLast(r) {
      forall rows, out | Answered(r, rows, out) ensures Right(r, rows, ResultOf(r, out)) {
        RightIfStraysLast(r, rows, out);
      }
    } else {
      var x, y :| Stray(r, x) && Good(r, y) && Before(r.info.orderBy, 0, x, y);
      var rows, out := WrongIfStrayBefore(r, x, y);
    }
  }

  /** Every test was taken into the WHERE. */
  predicate AllTaken(r: Request) {
    forall i :: 0 <= i < |r.info.constraints| && Tests(r.info.constraints[i]) ==> i in Taken(r.info.constraints, r.cols)
  }

  lemma TakenSatisfy(r: Request, x: Row)
    requires AllTaken(r) && |r.values| == |r.info.constraints| && TakenHold(r.info, r.cols, r.values, r.h, x)
    ensures Satisfies(r.info.constraints, r.values, x, r.h)
  {
    var cs, idx := r.info.constraints, Taken(r.info.constraints, r.cols);
    forall i | 0 <= i < |cs| && Tests(cs[i]) ensures Pushdown.Holds(cs[i], x, r.values[i], r.h) {
      var k :| 0 <= k < |idx| && idx[k] == i;
    }
  }

  lemma NoStrays(r: Request)
    requires AllTaken(r)
    ensures StraysLast(r)
  {
    forall x ensures !Stray(r, x) {
      if |r.values| == |r.info.constraints| && TakenHold(r.info, r.cols, r.values, r.h, x) { TakenSatisfy(r, x); }
    }
  }

  /** With every test taken, every page is right. */
  lemma LimitPreservesMeaning(r: Request, rows: seq<Row>, out: seq<Row>)
    requires Fine(r) && Limit(r) >= 0 && AllTaken(r) && Answered(r, rows, out)
    ensures Right(r, rows, ResultOf(r, out))
  {
    NoStrays(r);
    RightIfStraysLast(r, rows, out);
  }

  /** A negative LIMIT drops the OFFSET with it: the result is right if and only if there was no row to
      skip. */
  lemma NegativeLimit(r: Request, rows: seq<Row>, out: seq<Row>)
    requires Fine(r) && Limit(r) < 0 && Answered(r, rows, out)
    ensures Right(r, rows, ResultOf(r, out)) <==> Offset(r) <= 0 || Satisfying(r.info, r.values, r.h, rows) == []
  {
    LimitIs(r);
    OrderConsumed(r);
    SameResult(r, out);
    PushdownPreservesMeaning(r.info, r.cols, r.keys, r.schema, r.table, r.wkt, r.values, r.argv, r.h, rows, out);
    var result, sat := ResultOf(r, out), Satisfying(r.info, r.values, r.h, rows);
    assert Ranked(r, rows, result);
    assert |multiset(result)| == |result| && |multiset(sat)| == |sat|;
    if Right(r, rows, result) {
      var full :| Ranked(r, rows, full) && result == Wanted(r, full);
      assert |multiset(full)| == |full|;
    }
    if Offset(r) <= 0 || sat == [] { assert result == Wanted(r, result); }
  }

  // ---- a page that is lost ----

  /** SQLite's tests on integers, and equality of other values. */
  predicate PlainTest(op: ConstraintOp, c: Value, v: Value) {
    if op.ISNULL? then c == NullV
    else if op.ISNOTNULL? then c != NullV
    else if c.IntV? && v.IntV? then Compares(op, c.n, v.n)
    else op.EQ? && c == v && c != NullV
  }

  function PlainInteger(v: Value): Option<int> {
    if v.IntV? then Some(v.n) else None
  }

  const PlainHost := Host(PlainInteger, PlainTest)

  const TwoColumns := [Column("id", "int", Int64, false, false, false, 4, 10, 0),
                       Column("b", "nvarchar", TextT, true, false, false, 10, 0, 0)]

  /** WHERE b = 'yes' ORDER BY id LIMIT 1 */
  const FirstYes := IndexInfo([Constraint(1, EQ, true), Constraint(-1, LIMIT, true)], [OrderTerm(0, false)], {0, 1})

  const FirstYesCall := Request(FirstYes, TwoColumns, [], "dbo", "t", false, [TextV("yes"), IntV(1)], [IntV(1)],
                                PlainHost)

  lemma FirstYesTakesNothing()
    ensures Taken(FirstYes.constraints, TwoColumns) == []
  {
    var cs := FirstYes.constraints;
    assert Pushables(cs, TwoColumns, 0) == Pushables(cs, TwoColumns, 1) == Pushables(cs, TwoColumns, 2) == [];
  }

  lemma FirstYesLimits()
    ensures var l := LimitsOf(FirstYes, TwoColumns);
            l.limitArg == 0 && l.offsetArg == -1 && l.sources == [1] && l.usage == [Usage(0, false), Usage(1, true)]
  {
    FirstYesTakesNothing();
    var cs, start := FirstYes.constraints, AfterTerms(FirstYes, TwoColumns);
    assert start.sources == [] && start.usage == [Usage(0, false), Usage(0, false)];
    assert ScanLimits(cs, 1, start) == ScanLimits(cs, 0, start) == start;
  }

  lemma FirstYesFine()
    ensures Fine(FirstYesCall) && Limit(FirstYesCall) == 1 && Offset(FirstYesCall) == 0
  {
    FirstYesTakesNothing();
    FirstYesLimits();
    assert Lower("id")[0] == 'i' && Lower("b")[0] == 'b';
    assert Consumes(FirstYes.orderBy, TwoColumns);
  }

  /** With a test on a text column beside it, LIMIT loses rows: some table is answered wrongly. */
  lemma LimitLosesRows() returns (rows: seq<Row>, out: seq<Row>)
    ensures Fine(FirstYesCall) && Answered(FirstYesCall, rows, out) &&
            !Right(FirstYesCall, rows, ResultOf(FirstYesCall, out))
  {
    var x, y := [IntV(1), TextV("no")], [IntV(2), TextV("yes")];
    FirstYesFine();
    FirstYesTakesNothing();
    StrayAndGood(x, y);
    rows, out := WrongIfStrayBefore(FirstYesCall, x, y);
  }

  lemma StrayAndGood(x: Row, y: Row)
    requires x == [IntV(1), TextV("no")] && y == [IntV(2), TextV("yes")]
    ensures Stray(FirstYesCall, x) && Good(FirstYesCall, y) && Before(FirstYes.orderBy, 0, x, y)
  {
    FirstYesTakesNothing();
    assert "no" != "yes" by { assert |"no"| == 2; }
    assert !Pushdown.Holds(FirstYes.constraints[0], x, TextV("yes"), PlainHost);
  }

  // ---- an offset that is lost ----

  /** ORDER BY id LIMIT -1 OFFSET 1 */
  const SkipOne := IndexInfo([Constraint(-1, LIMIT, true), Constraint(-1, OFFSET, true)], [OrderTerm(0, false)], {0, 1})

  const SkipOneCall :=
    Request(SkipOne, TwoColumns, [], "dbo", "t", false, [IntV(-1), IntV(1)], [IntV(-1), IntV(1)], PlainHost)

  lemma SkipOneTakesNothing()
    ensures Taken(SkipOne.constraints, TwoColumns) == []
  {
    var cs := SkipOne.constraints;
    assert Pushables(cs, TwoColumns, 0) == Pushables(cs, TwoColumns, 1) == Pushables(cs, TwoColumns, 2) == [];
  }

  lemma SkipOneLimits()
    ensures var l := LimitsOf(SkipOne, TwoColumns);
            l.limitArg == 0 && l.offsetArg == 1 && l.sources == [0, 1] && l.usage == [Usage(1, true), Usage(2, true)]
  {
    SkipOneTakesNothing();
    var cs, start := SkipOne.constraints, AfterTerms(SkipOne, TwoColumns);
    assert start.sources == [] && start.usage == [Usage(0, false), Usage(0, false)];
    var one := ScanLimits(cs, 1, start);
    assert ScanLimits(cs, 0, start) == start;
    assert one.limitArg == 0 && one.offsetArg == -1 && one.sources == [0] &&
           one.usage == [Usage(1, true), Usage(0, false)];
  }

  lemma SkipOneFine()
    ensures Fine(SkipOneCall) && Limit(SkipOneCall) == -1 && Offset(SkipOneCall) == 1
  {
    SkipOneTakesNothing();
    SkipOneLimits();
    assert Lower("id")[0] == 'i' && Lower("b")[0] == 'b';
    assert Consumes(SkipOne.orderBy, TwoColumns);
  }

  lemma OneGoodRow(r: Request, row: Row)
    requires Fine(r) && Limit(r) < 0 && Good(r, row)
    ensures Answered(r, [row], [row])
  {
    LimitIs(r);
    RowIs(r, row);
    SelectAll([row], x => Passes(QueryFor(r), r.cols, ParamsFor(r), x));
    assert Selects(QueryFor(r), r.cols, ParamsFor(r), [row], [row]);
    assert QueryFor(r).page == Whole;
  }

  /** A table of one row: the row is to be skipped, and comes. */
  lemma OneRowComes(r: Request, row: Row)
    requires Fine(r) && Limit(r) < 0 && Offset(r) > 0 && Good(r, row)
    ensures Answered(r, [row], [row]) && !Right(r, [row], ResultOf(r, [row]))
  {
    OneGoodRow(r, row);
    SelectAll([row], x => |r.values| == |r.info.constraints| && Satisfies(r.info.constraints, r.values, x, r.h));
    NegativeLimit(r, [row], [row]);
  }

  lemma NegativeLimitLosesOffset()
    ensures var r, rows := SkipOneCall, [[IntV(1), NullV]];
            Fine(r) && Answered(r, rows, rows) && !Right(r, rows, ResultOf(r, rows))
  {
    SkipOneFine();
    assert Good(SkipOneCall, [IntV(1), NullV]);
    OneRowComes(SkipOneCall, [IntV(1), NullV]);
  }
}
