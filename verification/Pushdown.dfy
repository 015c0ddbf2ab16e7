/** Pushdown preserves meaning: remote WHERE and ORDER BY, then SQLite's own recheck, against the plain
    meaning of the constraint list. */
module Pushdown {
  import opened Lists
  import opened Meta
  import opened Plan
  import opened Sql
  import opened PlanSql
  import opened PlanText
  import opened PlanBuild
  import opened Filter
  import opened Alignment
  import opened Projection

  type Row = seq<Value>

  // ---- SQLite's meaning ----

  predicate Compares(op: ConstraintOp, a: int, b: int) {
    match op
    case EQ => a == b
    case LT => a < b
    case LE => a <= b
    case GT => a > b
    case GE => a >= b
    case _ => false
  }

  /** What SQLite guarantees for the tests that may be pushed: NULL tests, and comparisons of an integer
      column with a value it sees as an integer.  All other tests are left open. */
  ghost predicate ValidHost(h: Host) {
    && (forall op, c: Value, v :: IsComparison(op) && c.IntV? && h.integer(v).Some? ==>
          h.holds(op, c, v) == Compares(op, c.n, h.integer(v).value))
    && (forall op, v :: IsComparison(op) ==> !h.holds(op, NullV, v))
    && (forall c, v :: h.holds(ISNULL, c, v) == (c == NullV))
    && (forall c, v :: h.holds(ISNOTNULL, c, v) == (c != NullV))
  }

  /** Integer columns hold integers or NULL. */
  predicate Typed(row: Row, cols: seq<Column>) {
    |row| == |cols| && forall i :: 0 <= i < |cols| && cols[i].vtype == Int64 ==> row[i].NullV? || row[i].IntV?
  }

  /** The constraint is a test, and neither LIMIT nor OFFSET. */
  predicate Tests(c: Constraint) {
    !c.op.LIMIT? && !c.op.OFFSET?
  }

  /** Every test is of a column of the row; LIMIT and OFFSET have no column. */
  predicate RowTests(cs: seq<Constraint>, ncols: nat) {
    forall i :: 0 <= i < |cs| ==> if Tests(cs[i]) then 0 <= cs[i].column < ncols else cs[i].column == -1
  }

  predicate Holds(c: Constraint, row: Row, v: Value, h: Host) {
    0 <= c.column < |row| && h.holds(c.op, row[c.column], v)
  }

  predicate Satisfies(cs: seq<Constraint>, values: seq<Value>, row: Row, h: Host)
    requires |values| == |cs|
  {
    forall i :: 0 <= i < |cs| && Tests(cs[i]) ==> Holds(cs[i], row, values[i], h)
  }

  // ---- the server's meaning ----

  datatype Tri = False | Unknown | True

  function And(a: Tri, b: Tri): Tri {
    if a == False || b == False then False else if a == Unknown || b == Unknown then Unknown else True
  }

  function Known(b: bool): Tri {
    if b then True else False
  }

  function CondValue(c: Cond, cols: seq<Column>, params: seq<int>, row: Row): Tri
    requires |row| == |cols|
  {
    var cell := CellNamed(cols, row, c.name);
    match c
    case Null(_) => Known(cell == NullV)
    case NotNull(_) => Known(cell != NullV)
    case Compare(_, op, j) => if j < |params| && cell.IntV? then Known(Compares(op, cell.n, params[j])) else Unknown
  }

  function WhereValue(conds: List<Cond>, cols: seq<Column>, params: seq<int>, row: Row): Tri
    requires |row| == |cols|
  {
    if conds.Nil? then True
    else And(CondValue(conds.head, cols, params, row), WhereValue(conds.tail, cols, params, row))
  }

  predicate Passes(q: Query, cols: seq<Column>, params: seq<int>, row: Row) {
    |row| == |cols| && WhereValue(q.conds, cols, params, row) == True
  }

  // ---- one row ----

  ghost predicate AllTrue(conds: List<Cond>, cols: seq<Column>, params: seq<int>, row: Row)
    requires |row| == |cols|
  {
    forall k: nat :: Nth(conds, k).Some? ==> CondValue(Nth(conds, k).value, cols, params, row) == True
  }

  /** Three-valued AND is True exactly when every condition is. */
  lemma {:induction false} WhereIsAll(conds: List<Cond>, cols: seq<Column>, params: seq<int>, row: Row)
    requires |row| == |cols|
    ensures WhereValue(conds, cols, params, row) == True <==> AllTrue(conds, cols, params, row)
  {
    if conds.Cons? {
      WhereIsAll(conds.tail, cols, params, row);
      assert Nth(conds, 0) == Some(conds.head);
      forall k: nat | k > 0 ensures Nth(conds, k) == Nth(conds.tail, k - 1) {}
      if AllTrue(conds, cols, params, row) {
        forall k: nat | Nth(conds.tail, k).Some?
          ensures CondValue(Nth(conds.tail, k).value, cols, params, row) == True
        {
          assert Nth(conds, k + 1) == Nth(conds.tail, k);
        }
      }
    }
  }

  /** A bound condition is True on the server exactly when the constraint holds for SQLite. */
  lemma CondMeans(o: Option<Cond>, c: Constraint, cols: seq<Column>, v: Value, params: seq<int>, h: Host, row: Row)
    requires ValidHost(h) && Typed(row, cols) && DistinctNames(cols) && Pushable(c, cols)
    requires CondBound(o, c, cols, v, params, h) && (IsComparison(c.op) ==> h.integer(v).Some?)
    ensures CondValue(o.value, cols, params, row) == True <==> Holds(c, row, v, h)
  {
    FindOwnName(cols, c.column);
  }

  lemma {:induction false} NthOut(terms: seq<Term>, cols: seq<Column>, i: nat, n: nat, k: nat)
    requires i <= |terms| && TermsOk(terms, |cols|)
    ensures Nth(CondsFrom(terms, cols, i, n), k).Some? <==> k < |terms| - i
    decreases |terms| - i
  {
    if i < |terms| && k > 0 { NthOut(terms, cols, i + 1, n + Takes(CondOf(terms[i], cols, n)), k - 1); }
  }

  /** All values SQLite passes for pushed comparisons are integers: xFilter goes on. */
  predicate AllIntegers(info: IndexInfo, cols: seq<Column>, values: seq<Value>, h: Host)
    requires |values| == |info.constraints|
  {
    var idx := Taken(info.constraints, cols);
    forall k :: 0 <= k < |idx| && IsComparison(info.constraints[idx[k]].op) ==> h.integer(values[idx[k]]).Some?
  }

  /** xFilter reports an error exactly when a pushed comparison got a value that is no integer. */
  lemma ErrorExactly(info: IndexInfo, cols: seq<Column>, values: seq<Value>, argv: seq<Value>, h: Host)
    requires Called(info, cols, values, argv)
    ensures AllBindable(PlanOf(info, cols).terms, argv, h) <==> AllIntegers(info, cols, values, h)
  {
    var cs, idx, terms := info.constraints, Taken(info.constraints, cols), PlanOf(info, cols).terms;
    forall k | 0 <= k < |idx|
      ensures Bindable(terms[k], argv, h) <==> (IsComparison(cs[idx[k]].op) ==> h.integer(values[idx[k]]).Some?)
    {
      TermReads(info, cols, values, argv, k);
    }
  }

  ghost predicate TakenHold(info: IndexInfo, cols: seq<Column>, values: seq<Value>, h: Host, row: Row)
    requires |values| == |info.constraints|
  {
    var idx := Taken(info.constraints, cols);
    forall k :: 0 <= k < |idx| ==> Holds(info.constraints[idx[k]], row, values[idx[k]], h)
  }

  /** The remote WHERE keeps exactly the rows on which all taken constraints hold. */
  lemma WhereMeans(info: IndexInfo, cols: seq<Column>, values: seq<Value>, params: seq<int>, h: Host, q: Query,
                   row: Row)
    requires ValidHost(h) && Typed(row, cols) && DistinctNames(cols) && |values| == |info.constraints|
    requires AllIntegers(info, cols, values, h)
    requires var cs, idx := info.constraints, Taken(info.constraints, cols);
             && (forall k: nat :: Nth(q.conds, k).Some? <==> k < |idx|)
             && (forall k :: 0 <= k < |idx| ==> CondBound(Nth(q.conds, k), cs[idx[k]], cols, values[idx[k]], params, h))
    ensures Passes(q, cols, params, row) <==> TakenHold(info, cols, values, h, row)
  {
    var cs, idx := info.constraints, Taken(info.constraints, cols);
    WhereIsAll(q.conds, cols, params, row);
    forall k | 0 <= k < |idx|
      ensures CondValue(Nth(q.conds, k).value, cols, params, row) == True <==> Holds(cs[idx[k]], row, values[idx[k]], h)
    {
      CondMeans(Nth(q.conds, k), cs[idx[k]], cols, values[idx[k]], params, h, row);
    }
  }

  // ---- SQLite's recheck ----

  /** SQLite stops testing a constraint only when it got an argv index and omit. */
  predicate Owned(u: Usage) {
    !(u.argvIndex > 0 && u.omit)
  }

  /** SQLite tests the constraints it still owns on the columns as xColumn returns them. */
  predicate Rechecks(info: IndexInfo, cols: seq<Column>, keys: seq<string>, wkt: bool, values: seq<Value>, h: Host,
                     row: Row)
    requires |values| == |info.constraints|
  {
    var mask, usage := KeyMask(MaskOf(info, |cols|), cols, keys), LimitsOf(info, cols).usage;
    |row| == |cols| &&
    forall i :: 0 <= i < |usage| && Owned(usage[i]) && 0 <= info.constraints[i].column < |cols| ==>
      h.holds(info.constraints[i].op, ReadColumn(mask, cols, wkt, row, info.constraints[i].column), values[i])
  }

  lemma RecheckMeans(info: IndexInfo, cols: seq<Column>, keys: seq<string>, wkt: bool, values: seq<Value>, h: Host,
                     row: Row)
    requires |cols| <= 32 && DistinctNames(cols) && |row| == |cols| && |values| == |info.constraints|
    requires RowTests(info.constraints, |cols|)
    ensures Rechecks(info, cols, keys, wkt, values, h, row) <==>
            forall i :: 0 <= i < |values| && Tests(info.constraints[i]) && Owned(LimitsOf(info, cols).usage[i]) ==>
              Holds(info.constraints[i], row, values[i], h)
  {
    var mask := KeyMask(MaskOf(info, |cols|), cols, keys);
    forall i | 0 <= i < |values| && Tests(info.constraints[i])
      ensures ReadColumn(mask, cols, wkt, row, info.constraints[i].column) == row[info.constraints[i].column]
    {
      ProjectionFaithful(info, cols, keys, wkt, row, info.constraints[i].column);
    }
  }

  /** What SQLite no longer tests was taken into the plan. */
  lemma UnownedTaken(info: IndexInfo, cols: seq<Column>, i: nat)
    requires i < |info.constraints| && RowTests(info.constraints, |cols|)
    requires Tests(info.constraints[i]) && !Owned(LimitsOf(info, cols).usage[i])
    ensures i in Taken(info.constraints, cols)
  {
    ArgvIndexesExact(info, cols);
  }

  /** Remote filter and local recheck together keep exactly the rows satisfying every constraint. */
  lemma RowMeans(info: IndexInfo, cols: seq<Column>, keys: seq<string>, wkt: bool, values: seq<Value>, h: Host,
                 row: Row)
    requires |cols| <= 32 && DistinctNames(cols) && Typed(row, cols) && |values| == |info.constraints|
    requires RowTests(info.constraints, |cols|)
    ensures TakenHold(info, cols, values, h, row) && Rechecks(info, cols, keys, wkt, values, h, row)
            <==> Satisfies(info.constraints, values, row, h)
  {
    RecheckMeans(info, cols, keys, wkt, values, h, row);
    if TakenHold(info, cols, values, h, row) && Rechecks(info, cols, keys, wkt, values, h, row) {
      forall i | 0 <= i < |values| && Tests(info.constraints[i]) ensures Holds(info.constraints[i], row, values[i], h) {
        if !Owned(LimitsOf(info, cols).usage[i]) { UnownedTaken(info, cols, i); }
      }
    }
    if Satisfies(info.constraints, values, row, h) { TakenAreTests(info, cols); }
  }

  lemma TakenAreTests(info: IndexInfo, cols: seq<Column>)
    ensures var idx := Taken(info.constraints, cols); forall k :: 0 <= k < |idx| ==> Tests(info.constraints[idx[k]])
  {
    var idx := Taken(info.constraints, cols);
    forall k | 0 <= k < |idx| ensures Tests(info.constraints[idx[k]]) {
      assert Pushable(info.constraints[idx[k]], cols);
    }
  }

  // ---- order ----

  /** Negative, zero or positive; NULL is lowest for SQLite and for the server. */
  function CompareCells(a: Value, b: Value): int {
    match (a, b)
    case (NullV, NullV) => 0
    case (NullV, _) => -1
    case (_, NullV) => 1
    case (IntV(m), IntV(n)) => m - n
    case _ => 0
  }

  /** a may stand before b under the ORDER BY, from its i-th term on. */
  predicate Before(order: seq<OrderTerm>, i: nat, a: Row, b: Row)
    requires i <= |order|
    decreases |order| - i
  {
    i == |order| ||
    (0 <= order[i].column < |a| && order[i].column < |b| &&
     var c := CompareCells(a[order[i].column], b[order[i].column]);
     (if order[i].desc then c > 0 else c < 0) || (c == 0 && Before(order, i + 1, a, b)))
  }

  predicate ServerBefore(keys: List<Key>, cols: seq<Column>, a: Row, b: Row)
    requires |a| == |b| == |cols|
  {
    keys.Nil? ||
    (var c := CompareCells(CellNamed(cols, a, keys.head.name), CellNamed(cols, b, keys.head.name));
     (if keys.head.desc then c > 0 else c < 0) || (c == 0 && ServerBefore(keys.tail, cols, a, b)))
  }

  lemma {:induction false} OrderMeans(order: seq<OrderTerm>, cols: seq<Column>, i: nat, a: Row, b: Row)
    requires i <= |order| && KeysOk(order, |cols|) && DistinctNames(cols) && |a| == |b| == |cols|
    ensures ServerBefore(KeysFrom(order, cols, i), cols, a, b) == Before(order, i, a, b)
    decreases |order| - i
  {
    if i < |order| {
      FindOwnName(cols, order[i].column);
      OrderMeans(order, cols, i + 1, a, b);
    }
  }

  // ---- whole results ----

  function Select(rows: seq<Row>, keep: Row -> bool): (r: seq<Row>)
    ensures forall x :: x in r ==> x in rows
  {
    if rows == [] then []
    else
      var last := rows[|rows| - 1];
      Select(rows[..|rows| - 1], keep) + (if keep(last) then [last] else [])
  }

  lemma {:induction false} SelectCount(rows: seq<Row>, keep: Row -> bool, x: Row)
    ensures multiset(Select(rows, keep))[x] == if keep(x) then multiset(rows)[x] else 0
  {
    if rows != [] {
      SelectCount(rows[..|rows| - 1], keep, x);
      assert rows == rows[..|rows| - 1] + [rows[|rows| - 1]];
    }
  }

  predicate Sorted(rows: seq<Row>, order: seq<OrderTerm>) {
    forall i, j :: 0 <= i < j < |rows| ==> Before(order, 0, rows[i], rows[j])
  }

  lemma {:induction false} SelectSorted(rows: seq<Row>, keep: Row -> bool, order: seq<OrderTerm>)
    requires Sorted(rows, order)
    ensures Sorted(Select(rows, keep), order)
  {
    if rows != [] {
      var n := |rows| - 1;
      SelectSorted(rows[..n], keep, order);
      var kept := Select(rows[..n], keep);
      forall i | 0 <= i < |kept| ensures Before(order, 0, kept[i], rows[n]) {
        assert kept[i] in rows[..n];
        var k :| 0 <= k < n && rows[..n][k] == kept[i];
        assert Before(order, 0, rows[k], rows[n]);
      }
    }
  }

  /** The passing rows, each as often as in the table, in an order the keys allow. */
  ghost predicate Selects(q: Query, cols: seq<Column>, params: seq<int>, table: seq<Row>, full: seq<Row>) {
    && multiset(full) == multiset(Select(table, row => Passes(q, cols, params, row)))
    && (forall i :: 0 <= i < |full| ==> |full[i]| == |cols|)
    && (forall i, j :: 0 <= i < j < |full| ==> ServerBefore(q.keys, cols, full[i], full[j]))
  }

  /** At most n elements from the m-th on. */
  function Slice<T>(xs: seq<T>, m: nat, n: nat): seq<T> {
    if m >= |xs| then [] else if m + n >= |xs| then xs[m..] else xs[m..m + n]
  }

  /** OFFSET and FETCH; the server refuses a negative offset and a fetch of no rows. */
  function Window(page: Page, params: seq<int>, full: seq<Row>): Option<seq<Row>> {
    match page
    case Whole => Some(full)
    case Fetch(n) => if n < |params| && params[n] >= 1 then Some(Slice(full, 0, params[n])) else None
    case Skip(m, n) =>
      if m < |params| && n < |params| && params[m] >= 0 && params[n] >= 1 then Some(Slice(full, params[m], params[n]))
      else None
  }

  /** What the server may answer. */
  ghost predicate Answers(q: Query, cols: seq<Column>, params: seq<int>, table: seq<Row>, out: seq<Row>) {
    exists full :: Selects(q, cols, params, table, full) && Window(q.page, params, full) == Some(out)
  }

  /** The rows SQLite goes on with. */
  function Result(info: IndexInfo, cols: seq<Column>, keys: seq<string>, wkt: bool, values: seq<Value>, h: Host,
                  out: seq<Row>): seq<Row>
    requires |values| == |info.constraints|
  {
    Select(out, row => |values| == |info.constraints| && Rechecks(info, cols, keys, wkt, values, h, row))
  }

  /** The plan of a call, with the key columns of a writable table. */
  function CompiledPlan(info: IndexInfo, cols: seq<Column>, keys: seq<string>): (p: Plan)
    requires 0 < |cols| <= 32 && ColumnsInRange(info, |cols|)
    ensures PlanOk(p, |cols|)
  {
    CompiledPlanOk(info, cols, keys);
    PlanOf(info, cols).(mask := KeyMask(MaskOf(info, |cols|), cols, keys))
  }

  /** A call on a table: SQLite and the table as they should be, every value of a pushed comparison an
      integer, and a text of the grammar. */
  ghost predicate Callable(info: IndexInfo, cols: seq<Column>, values: seq<Value>, argv: seq<Value>, h: Host) {
    && ValidHost(h) && 0 < |cols| <= 32 && DistinctNames(cols) && ColumnsInRange(info, |cols|)
    && RowTests(info.constraints, |cols|) && Called(info, cols, values, argv) && Covered(info, cols)
    && AllBindable(PlanOf(info, cols).terms, argv, h)
  }

  /** The query sent. */
  function SentQuery(info: IndexInfo, cols: seq<Column>, keys: seq<string>, schema: string, table: string, wkt: bool,
                     argv: seq<Value>, h: Host): (q: Query)
    requires 0 < |cols| <= 32 && ColumnsInRange(info, |cols|)
    ensures WellFormed(q)
  {
    QueryOf(Adjusted(CompiledPlan(info, cols, keys), argv, h), schema, table, cols, wkt)
  }

  function SentParams(info: IndexInfo, cols: seq<Column>, argv: seq<Value>, h: Host): seq<int> {
    Params(PlanOf(info, cols), argv, h)
  }

  /** What SQLite makes of all the rows the statement selects: exactly those satisfying every constraint. */
  lemma SelectionMeans(info: IndexInfo, cols: seq<Column>, keys: seq<string>, schema: string, table: string, wkt: bool,
                       values: seq<Value>, argv: seq<Value>, h: Host, rows: seq<Row>, full: seq<Row>)
    requires Callable(info, cols, values, argv, h)
    requires forall i :: 0 <= i < |rows| ==> Typed(rows[i], cols)
    requires Selects(SentQuery(info, cols, keys, schema, table, wkt, argv, h), cols, SentParams(info, cols, argv, h),
                     rows, full)
    ensures var result := Result(info, cols, keys, wkt, values, h, full);
            && multiset(result) == multiset(Satisfying(info, values, h, rows))
            && (Consumes(info.orderBy, cols) ==> Sorted(result, info.orderBy))
  {
    var q, params := SentQuery(info, cols, keys, schema, table, wkt, argv, h), SentParams(info, cols, argv, h);
    forall x | x in rows
      ensures Passes(q, cols, params, x) && Rechecks(info, cols, keys, wkt, values, h, x)
              <==> Satisfies(info.constraints, values, x, h)
    {
      PassesMeans(info, cols, keys, schema, table, wkt, values, argv, h, x);
      RowMeans(info, cols, keys, wkt, values, h, x);
    }
    SelectTwice(rows, full, row => Passes(q, cols, params, row),
                row => |values| == |info.constraints| && Rechecks(info, cols, keys, wkt, values, h, row),
                row => |values| == |info.constraints| && Satisfies(info.constraints, values, row, h));
    if Consumes(info.orderBy, cols) { SelectionSorted(info, cols, q, params, rows, full, keys, wkt, values, h); }
  }

  /** Pushdown preserves meaning: whatever order the server answers in, SQLite ends with exactly the rows
      of the table that satisfy every constraint, each as often as it occurs there, and with a consumed
      ORDER BY they come sorted by the whole of it. */
  lemma PushdownPreservesMeaning(info: IndexInfo, cols: seq<Column>, keys: seq<string>, schema: string, table: string,
                                 wkt: bool, values: seq<Value>, argv: seq<Value>, h: Host, rows: seq<Row>,
                                 out: seq<Row>)
    requires Callable(info, cols, values, argv, h) && !Adjusted(PlanOf(info, cols), argv, h).hasLimit
    requires forall i :: 0 <= i < |rows| ==> Typed(rows[i], cols)
    requires Answers(SentQuery(info, cols, keys, schema, table, wkt, argv, h), cols, SentParams(info, cols, argv, h),
                     rows, out)
    ensures var result := Result(info, cols, keys, wkt, values, h, out);
            && multiset(result) == multiset(Satisfying(info, values, h, rows))
            && (Consumes(info.orderBy, cols) ==> Sorted(result, info.orderBy))
  {
    var q, params := SentQuery(info, cols, keys, schema, table, wkt, argv, h), SentParams(info, cols, argv, h);
    PlanLimits(info, cols);
    assert q.page == Whole;
    var full :| Selects(q, cols, params, rows, full) && Window(q.page, params, full) == Some(out);
    SelectionMeans(info, cols, keys, schema, table, wkt, values, argv, h, rows, full);
  }

  /** The rows that satisfy every constraint. */
  function Satisfying(info: IndexInfo, values: seq<Value>, h: Host, rows: seq<Row>): seq<Row> {
    Select(rows, row => |values| == |info.constraints| && Satisfies(info.constraints, values, row, h))
  }

  /** A server that reads the text and answers the query it stands for. */
  ghost predicate AnswersText(text: string, cols: seq<Column>, params: seq<int>, table: seq<Row>, out: seq<Row>) {
    ReadQuery(text).Some? && Answers(ReadQuery(text).value, cols, params, table, out)
  }

  /** The same from the characters sent: with plain column names they mean what the constraints mean. */
  lemma TextPreservesMeaning(info: IndexInfo, cols: seq<Column>, keys: seq<string>, schema: string, table: string,
                             wkt: bool, values: seq<Value>, argv: seq<Value>, h: Host, rows: seq<Row>, out: seq<Row>)
    requires Callable(info, cols, values, argv, h) && !Adjusted(PlanOf(info, cols), argv, h).hasLimit
    requires PlainNames(cols) && IdentValid(schema, 128) && IdentValid(table, 128)
    requires forall i :: 0 <= i < |rows| ==> Typed(rows[i], cols)
    requires AnswersText(QueryText(SentQuery(info, cols, keys, schema, table, wkt, argv, h)), cols,
                         SentParams(info, cols, argv, h), rows, out)
    ensures var result := Result(info, cols, keys, wkt, values, h, out);
            && multiset(result) == multiset(Satisfying(info, values, h, rows))
            && (Consumes(info.orderBy, cols) ==> Sorted(result, info.orderBy))
  {
    PlainColumnsRead(Adjusted(CompiledPlan(info, cols, keys), argv, h), schema, table, cols, wkt);
    PushdownPreservesMeaning(info, cols, keys, schema, table, wkt, values, argv, h, rows, out);
  }

  /** Selecting twice, with any reordering between, selects the conjunction. */
  lemma SelectTwice(rows: seq<Row>, out: seq<Row>, f: Row -> bool, g: Row -> bool, both: Row -> bool)
    requires multiset(out) == multiset(Select(rows, f)) && forall x :: x in rows ==> (f(x) && g(x) <==> both(x))
    ensures multiset(Select(out, g)) == multiset(Select(rows, both))
  {
    forall x ensures multiset(Select(out, g))[x] == multiset(Select(rows, both))[x] {
      SelectCount(out, g, x);
      SelectCount(rows, f, x);
      SelectCount(rows, both, x);
    }
  }

  lemma SelectionSorted(info: IndexInfo, cols: seq<Column>, q: Query, params: seq<int>, rows: seq<Row>, full: seq<Row>,
                        keys: seq<string>, wkt: bool, values: seq<Value>, h: Host)
    requires Consumes(info.orderBy, cols) && DistinctNames(cols) && |values| == |info.constraints|
    requires Selects(q, cols, params, rows, full) && q.keys == KeysFrom(info.orderBy, cols, 0)
    ensures Sorted(full, info.orderBy) && Sorted(Result(info, cols, keys, wkt, values, h, full), info.orderBy)
  {
    forall i, j | 0 <= i < j < |full| ensures Before(info.orderBy, 0, full[i], full[j]) {
      OrderMeans(info.orderBy, cols, 0, full[i], full[j]);
    }
    SelectSorted(full, row => |values| == |info.constraints| && Rechecks(info, cols, keys, wkt, values, h, row),
                 info.orderBy);
  }

  /** The plan of any call on a table of 1 to 32 columns can be printed. */
  lemma CompiledPlanOk(info: IndexInfo, cols: seq<Column>, keys: seq<string>)
    requires 0 < |cols| <= 32 && ColumnsInRange(info, |cols|)
    ensures PlanOk(PlanOf(info, cols).(mask := KeyMask(MaskOf(info, |cols|), cols, keys)), |cols|)
  {
    var mask := KeyMask(MaskOf(info, |cols|), cols, keys);
    if 63 in info.colUsed {
      assert 0 in mask;
    } else if mask != {} {
      var k :| k in mask;
      assert k < |cols|;
    }
    PlanIsOk(info, cols, mask);
  }

  lemma PassesMeans(info: IndexInfo, cols: seq<Column>, keys: seq<string>, schema: string, table: string, wkt: bool,
                    values: seq<Value>, argv: seq<Value>, h: Host, row: Row)
    requires Callable(info, cols, values, argv, h) && Typed(row, cols)
    ensures Passes(SentQuery(info, cols, keys, schema, table, wkt, argv, h), cols, SentParams(info, cols, argv, h), row)
            <==> TakenHold(info, cols, values, h, row)
  {
    var p := CompiledPlan(info, cols, keys);
    var q := SentQuery(info, cols, keys, schema, table, wkt, argv, h);
    assert Params(p, argv, h) == SentParams(info, cols, argv, h);
    ParametersAlign(info, cols, values, argv, h, p.mask, schema, table, wkt);
    ErrorExactly(info, cols, values, argv, h);
    forall k: nat ensures Nth(q.conds, k).Some? <==> k < |p.terms| { NthOut(p.terms, cols, 0, 0, k); }
    WhereMeans(info, cols, values, SentParams(info, cols, argv, h), h, q, row);
  }
}
