/** A whole scan: xBestIndex compiles the plan and adds the key columns, xFilter sends the statements, and what the
    server answers to their characters is what the constraints mean. */
module Scans {
  import opened Lists
  import opened Meta
  import opened Plan
  import opened PlanSql
  import opened PlanText
  import opened PlanBuild
  import opened Filter
  import opened Alignment
  import opened Projection
  import opened Pushdown
  import opened Paging
  import opened XFilter

  /** SQLite and the table as they should be. */
  ghost predicate Proper(r: Request) {
    && ValidHost(r.h) && 0 < |r.cols| <= 32 && DistinctNames(r.cols) && ColumnsInRange(r.info, |r.cols|)
    && RowTests(r.info.constraints, |r.cols|) && Called(r.info, r.cols, r.values, r.argv) && Covered(r.info, r.cols)
  }

  predicate PlainCall(r: Request) {
    PlainNames(r.cols) && IdentValid(r.schema, 128) && IdentValid(r.table, 128)
  }

  ghost predicate AllTyped(rows: seq<Row>, cols: seq<Column>) {
    forall i :: 0 <= i < |rows| ==> Typed(rows[i], cols)
  }

  /** Whatever the server answers to the statement, SQLite ends with exactly the satisfying rows, sorted by a
      consumed ORDER BY. */
  ghost predicate Means(s: Statement, r: Request)
    requires |r.values| == |r.info.constraints|
  {
    forall rows, out :: AllTyped(rows, r.cols) && AnswersText(s.text, r.cols, s.params, rows, out) ==>
      var result := Result(r.info, r.cols, r.keys, r.wkt, r.values, r.h, out);
      && multiset(result) == multiset(Satisfying(r.info, r.values, r.h, rows))
      && (Consumes(r.info.orderBy, r.cols) ==> Sorted(result, r.info.orderBy))
  }

  /** Whatever it answers, SQLite ends with the page asked for. */
  ghost predicate MeansPage(s: Statement, r: Request) {
    forall rows, out :: AllTyped(rows, r.cols) && AnswersText(s.text, r.cols, s.params, rows, out) ==>
      Right(r, rows, ResultOf(r, out))
  }

  lemma SentMeans(s: Statement, r: Request)
    requires Proper(r) && AllBindable(PlanOf(r.info, r.cols).terms, r.argv, r.h) && PlainCall(r)
    requires !Adjusted(PlanOf(r.info, r.cols), r.argv, r.h).hasLimit
    requires s.text == QueryText(QueryFor(r)) && s.params == ParamsFor(r)
    ensures Means(s, r)
  {
    forall rows, out | AllTyped(rows, r.cols) && AnswersText(s.text, r.cols, s.params, rows, out)
      ensures var result := Result(r.info, r.cols, r.keys, r.wkt, r.values, r.h, out);
              && multiset(result) == multiset(Satisfying(r.info, r.values, r.h, rows))
              && (Consumes(r.info.orderBy, r.cols) ==> Sorted(result, r.info.orderBy))
    {
      TextPreservesMeaning(r.info, r.cols, r.keys, r.schema, r.table, r.wkt, r.values, r.argv, r.h, rows, out);
    }
  }

  lemma SentMeansPage(s: Statement, r: Request)
    requires Proper(r) && AllBindable(PlanOf(r.info, r.cols).terms, r.argv, r.h) && PlainCall(r)
    requires LimitsOf(r.info, r.cols).limitArg >= 0 && Limit(r) >= 0 && StraysLast(r)
    requires s.text == QueryText(QueryFor(r)) && s.params == ParamsFor(r)
    ensures MeansPage(s, r)
  {
    PlainColumnsRead(Adjusted(CompiledPlan(r.info, r.cols, r.keys), r.argv, r.h), r.schema, r.table, r.cols, r.wkt);
    forall rows, out | AllTyped(rows, r.cols) && AnswersText(s.text, r.cols, s.params, rows, out)
      ensures Right(r, rows, ResultOf(r, out))
    {
      RightIfStraysLast(r, rows, out);
    }
  }

  /** xBestIndex: the plan SQLite hands back to xFilter, and what it is told of the constraints and the order. */
  method BestIndex(info: IndexInfo, cols: seq<Column>, keys: seq<string>)
    returns (plan: Plan, usage: seq<Usage>, consumed: bool)
    requires 0 < |cols| <= 32 && ColumnsInRange(info, |cols|)
    ensures plan == CompiledPlan(info, cols, keys) && usage == LimitsOf(info, cols).usage
    ensures consumed == Consumes(info.orderBy, cols)
  {
    plan, usage, consumed := Compile(info, cols);
    var mask := AddKeyColumns(plan.mask, cols, keys);
    plan := plan.(mask := mask);
  }

  /** The whole path.  A full scan happens exactly for more than 32 arguments; an error exactly for a pushed
      comparison with a value that is no integer or a text that cannot be built; and every statement sent means
      what the constraints mean, and with a limit in effect the page asked for unless strays may come first. */
  method Scan(r: Request, retry: bool) returns (o: Outcome)
    requires Proper(r)
    ensures o.FullScan? <==> ArgsUsed(LimitsOf(r.info, r.cols).usage) > 32
    ensures NoLimit(r.info.constraints) ==> !o.FullScan?
    ensures !o.FullScan? ==>
              (o.Error? <==> !AllIntegers(r.info, r.cols, r.values, r.h) || !IdentValid(r.schema, 128) ||
                             !IdentValid(r.table, 128) || |QueryText(QueryFor(r))| >= 2048)
    ensures o.Sent? ==> |o.statements| == if retry then 2 else 1
    ensures o.Sent? && PlainCall(r) && NoLimit(r.info.constraints) ==>
              forall i :: 0 <= i < |o.statements| ==> Means(o.statements[i], r)
    ensures o.Sent? && PlainCall(r) && LimitsOf(r.info, r.cols).limitArg >= 0 && Limit(r) >= 0 && StraysLast(r) ==>
              forall i :: 0 <= i < |o.statements| ==> MeansPage(o.statements[i], r)
  {
    var plan, usage, consumed := BestIndex(r.info, r.cols, r.keys);
    o := Run(r.info, r.cols, plan, r.argv, r.h, r.schema, r.table, r.wkt, retry, r.values);
    if o.Sent? && PlainCall(r) { SentRight(o, r, plan); }
  }

  lemma OneSent(s: Statement, r: Request)
    requires Proper(r) && PlainCall(r) && AllBindable(PlanOf(r.info, r.cols).terms, r.argv, r.h)
    requires s.text == QueryText(QueryFor(r)) && s.params == ParamsFor(r)
    ensures NoLimit(r.info.constraints) ==> Means(s, r)
    ensures LimitsOf(r.info, r.cols).limitArg >= 0 && Limit(r) >= 0 && StraysLast(r) ==> MeansPage(s, r)
  {
    if NoLimit(r.info.constraints) {
      ArgvIndexesExact(r.info, r.cols);
      SentMeans(s, r);
    }
    if LimitsOf(r.info, r.cols).limitArg >= 0 && Limit(r) >= 0 && StraysLast(r) { SentMeansPage(s, r); }
  }

  lemma SentRight(o: Outcome, r: Request, plan: Plan)
    requires Proper(r) && PlainCall(r) && AllIntegers(r.info, r.cols, r.values, r.h)
    requires plan == CompiledPlan(r.info, r.cols, r.keys) && o.Sent?
    requires forall i :: 0 <= i < |o.statements| ==>
               o.statements[i].params == Params(plan, r.argv, r.h) && o.statements[i].text == QueryText(QueryFor(r))
    ensures NoLimit(r.info.constraints) ==> forall i :: 0 <= i < |o.statements| ==> Means(o.statements[i], r)
    ensures LimitsOf(r.info, r.cols).limitArg >= 0 && Limit(r) >= 0 && StraysLast(r) ==>
              forall i :: 0 <= i < |o.statements| ==> MeansPage(o.statements[i], r)
  {
    ErrorExactly(r.info, r.cols, r.values, r.argv, r.h);
    assert Params(plan, r.argv, r.h) == ParamsFor(r);
    forall i | 0 <= i < |o.statements|
      ensures NoLimit(r.info.constraints) ==> Means(o.statements[i], r)
      ensures LimitsOf(r.info, r.cols).limitArg >= 0 && Limit(r) >= 0 && StraysLast(r) ==> MeansPage(o.statements[i], r)
    {
      OneSent(o.statements[i], r);
    }
  }
}
