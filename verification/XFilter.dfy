/** xFilter for a plan, first attempt and retry, with what it sends. */
module XFilter {
  import opened Lists
  import opened Meta
  import opened Plan
  import opened Sql
  import opened PlanSql
  import opened PlanText
  import SqlText
  import opened PlanBuild
  import opened Filter
  import opened Alignment
  import opened Pushdown

  datatype Statement = Statement(text: string, params: seq<int>)

  datatype Outcome = FullScan | Error | Sent(statements: seq<Statement>)

  const SqlChars: nat := 2048

  /** The text and the parameters agree: the text is the plan's query and, its names being plain, reads back
      as that query; and every placeholder is bound to the value of the constraint it was made from. */
  ghost predicate RightStatement(s: Statement, info: IndexInfo, cols: seq<Column>, values: seq<Value>, q: Query,
                                 h: Host)
  {
    var cs, idx, l := info.constraints, Taken(info.constraints, cols), LimitsOf(info, cols);
    && WellFormed(q) && s.text == QueryText(q) && (ReadQuery(s.text) == Some(q) <==> PlainQuery(q))
    && (PlainQuery(q) ==> SqlText.PlaceholdersOf(s.text) == |s.params|) && |s.params| <= MaxArgs
    && |values| == |cs|
    && (forall k :: 0 <= k < |idx| ==> CondBound(Nth(q.conds, k), cs[idx[k]], cols, values[idx[k]], s.params, h))
    && PageBound(q.page, l, values, s.params, h)
  }

  // ---- when the plan is kept ----

  /** How many constraints SQLite was given an argv index for. */
  function ArgsUsed(usage: seq<Usage>): nat {
    |set i | 0 <= i < |usage| && usage[i].argvIndex > 0|
  }

  function Elements(xs: seq<nat>): set<nat> {
    set x | x in xs
  }

  lemma {:induction false} DistinctSize(xs: seq<nat>)
    requires forall i, j :: 0 <= i < j < |xs| ==> xs[i] != xs[j]
    ensures |Elements(xs)| == |xs|
  {
    if xs != [] {
      var n := |xs| - 1;
      DistinctSize(xs[..n]);
      assert xs[n] !in xs[..n];
      assert Elements(xs) == Elements(xs[..n]) + {xs[n]};
    }
  }

  lemma ArgsCounted(usage: seq<Usage>, sources: seq<nat>)
    requires Exact(usage, sources)
    ensures ArgsUsed(usage) == |sources|
  {
    forall i, j | 0 <= i < j < |sources| ensures sources[i] != sources[j] {
      assert usage[sources[i]] == Usage(i + 1, true) && usage[sources[j]] == Usage(j + 1, true);
    }
    DistinctSize(sources);
    var used := set i | 0 <= i < |usage| && usage[i].argvIndex > 0;
    forall i | i in used ensures i in sources { assert sources[usage[i].argvIndex - 1] == i; }
    forall v | 0 <= v < |sources| ensures sources[v] in used { assert usage[sources[v]] == Usage(v + 1, true); }
    assert used == Elements(sources);
  }

  /** A compiled plan fits exactly when the call uses at most 32 arguments, which it always does without LIMIT. */
  lemma FitsExactly(info: IndexInfo, cols: seq<Column>, mask: set<nat>)
    ensures Fits(PlanOf(info, cols).(mask := mask)) <==> ArgsUsed(LimitsOf(info, cols).usage) <= 32
    ensures NoLimit(info.constraints) ==> Fits(PlanOf(info, cols).(mask := mask))
  {
    ArgvIndexesExact(info, cols);
    ArgsCounted(LimitsOf(info, cols).usage, LimitsOf(info, cols).sources);
  }

  /** One attempt: build the text, then bind. */
  method Attempt(a: Plan, schema: string, table: string, cols: seq<Column>, wkt: bool, termParams: array<int>,
                 limit: int, offset: int, ghost p: Plan, ghost argv: seq<Value>, ghost h: Host)
    returns (s: Option<Statement>)
    requires PlanOk(a, |cols|) && !UsesTop(a) && a == Adjusted(p, argv, h)
    requires limit == LimitOf(p, argv, h) && offset == OffsetOf(p, argv, h)
    requires |a.terms| <= termParams.Length && forall k :: 0 <= k < |a.terms| ==>
               termParams[k] == TermParam(a.terms[k], argv, h)
    requires |Params(p, argv, h)| <= MaxArgs
    ensures var text := QueryText(QueryOf(a, schema, table, cols, wkt));
            && (s.None? <==> !IdentValid(schema, 128) || !IdentValid(table, 128) || |text| >= SqlChars)
            && (s.Some? ==> s.value.text == text && s.value.params == Params(p, argv, h))
  {
    var text := BuildSql(a, schema, table, cols, wkt, SqlChars);
    if text.None? { return None; }
    var sqlparams, sp := BindParams(a, termParams, limit, offset, argv, h);
    s := Some(Statement(text.value, sqlparams[..sp]));
  }

  lemma Fitting(info: IndexInfo, cols: seq<Column>, values: seq<Value>, argv: seq<Value>, h: Host, p: Plan)
    requires p == PlanOf(info, cols).(mask := p.mask) && Called(info, cols, values, argv) && Covered(info, cols)
    ensures !UsesTop(Adjusted(p, argv, h)) && |Params(p, argv, h)| <= p.nargs
  {
    ParamsShape(info, cols, values, argv, h, p.mask);
    LimitValues(info.constraints, |info.constraints|, AfterTerms(info, cols));
  }

  lemma StatementRight(s: Statement, info: IndexInfo, cols: seq<Column>, values: seq<Value>, argv: seq<Value>, h: Host,
                       p: Plan, schema: string, table: string, wkt: bool)
    requires p == PlanOf(info, cols).(mask := p.mask) && Called(info, cols, values, argv) && Covered(info, cols)
    requires Fits(p) && PlanOk(Adjusted(p, argv, h), |cols|) && s.params == Params(p, argv, h)
    requires s.text == QueryText(QueryOf(Adjusted(p, argv, h), schema, table, cols, wkt))
    ensures RightStatement(s, info, cols, values, QueryOf(Adjusted(p, argv, h), schema, table, cols, wkt), h)
  {
    ParametersAlign(info, cols, values, argv, h, p.mask, schema, table, wkt);
    ReadPrint(QueryOf(Adjusted(p, argv, h), schema, table, cols, wkt));
  }

  /** The first attempt, and the retry of an attempt that got its text. */
  method Attempts(a: Plan, schema: string, table: string, cols: seq<Column>, wkt: bool, termParams: array<int>,
                  limit: int, offset: int, retry: bool, ghost p: Plan, ghost argv: seq<Value>, ghost h: Host)
    returns (r: seq<Statement>)
    requires PlanOk(a, |cols|) && !UsesTop(a) && a == Adjusted(p, argv, h)
    requires limit == LimitOf(p, argv, h) && offset == OffsetOf(p, argv, h)
    requires |a.terms| <= termParams.Length && forall k :: 0 <= k < |a.terms| ==>
               termParams[k] == TermParam(a.terms[k], argv, h)
    requires |Params(p, argv, h)| <= MaxArgs
    ensures var text := QueryText(QueryOf(a, schema, table, cols, wkt));
            && |r| == (if !IdentValid(schema, 128) || !IdentValid(table, 128) || |text| >= SqlChars then 0
                       else if retry then 2 else 1)
            && forall i :: 0 <= i < |r| ==> r[i].text == text && r[i].params == Params(p, argv, h)
  {
    var first := Attempt(a, schema, table, cols, wkt, termParams, limit, offset, p, argv, h);
    if first.None? { return []; }
    r := [first.value];
    if retry {
      var again := Attempt(a, schema, table, cols, wkt, termParams, limit, offset, p, argv, h);
      r := [first.value, again.value];
    }
  }

  /** More than 32 arguments mean a full scan, which never happens without LIMIT; a pushed comparison with a value
      that is no integer, or a text that cannot be built, an error; otherwise one statement, or two equal ones when
      the first attempt asks for a retry, and each is right. */
  method Run(info: IndexInfo, cols: seq<Column>, p: Plan, argv: seq<Value>, h: Host, schema: string, table: string,
             wkt: bool, retry: bool, ghost values: seq<Value>) returns (r: Outcome)
    requires p == PlanOf(info, cols).(mask := p.mask) && Called(info, cols, values, argv) && Covered(info, cols)
    requires PlanOk(p, |cols|)
    ensures r.FullScan? <==> ArgsUsed(LimitsOf(info, cols).usage) > 32
    ensures NoLimit(info.constraints) ==> !r.FullScan?
    ensures var q := QueryOf(Adjusted(p, argv, h), schema, table, cols, wkt);
            && (!r.FullScan? ==> (r.Error? <==> !AllIntegers(info, cols, values, h) || !IdentValid(schema, 128) ||
                                                !IdentValid(table, 128) || |QueryText(q)| >= 2048))
            && (r.Sent? ==> |r.statements| == (if retry then 2 else 1) &&
                            forall i :: 0 <= i < |r.statements| ==>
                              r.statements[i].params == Params(p, argv, h) &&
                              RightStatement(r.statements[i], info, cols, values, q, h))
  {
    FitsExactly(info, cols, p.mask);
    ErrorExactly(info, cols, values, argv, h);
    if !Fits(p) { return FullScan; }
    var ok, termParams := BindTerms(p.terms, argv, h);
    if !ok { return Error; }
    var limit, offset, a := LimitOf(p, argv, h), OffsetOf(p, argv, h), p;
    if p.hasLimit && limit < 0 { a := p.(hasLimit := false, hasOffset := false); }
    Fitting(info, cols, values, argv, h, p);
    var sent := Attempts(a, schema, table, cols, wkt, termParams, limit, offset, retry, p, argv, h);
    if sent == [] { return Error; }
    forall i | 0 <= i < |sent|
      ensures RightStatement(sent[i], info, cols, values, QueryOf(a, schema, table, cols, wkt), h)
    {
      StatementRight(sent[i], info, cols, values, argv, h, p, schema, table, wkt);
    }
    r := Sent(sent);
  }
}
