/** End-to-end parameter alignment: constraint, argv slot, placeholder and bound value. */
module Alignment {
  import opened Lists
  import opened Meta
  import opened Plan
  import opened Sql
  import opened PlanSql
  import opened PlanText
  import SqlText
  import opened PlanBuild
  import opened Filter

  /** SQLite hands xFilter the value of each constraint under the argv index it was given. */
  ghost predicate ArgvOk(usage: seq<Usage>, nargs: nat, values: seq<Value>, argv: seq<Value>) {
    && |values| == |usage| && |argv| == nargs
    && forall i :: 0 <= i < |usage| && usage[i].argvIndex > 0 ==>
         usage[i].argvIndex <= |argv| && argv[usage[i].argvIndex - 1] == values[i]
  }

  ghost predicate Called(info: IndexInfo, cols: seq<Column>, values: seq<Value>, argv: seq<Value>) {
    ArgvOk(LimitsOf(info, cols).usage, PlanOf(info, cols).nargs, values, argv)
  }

  function IntOf(v: Value, h: Host): int {
    if h.integer(v).Some? then h.integer(v).value else 0
  }

  /** A comparison term reads the value of the constraint it was made from. */
  lemma TermReads(info: IndexInfo, cols: seq<Column>, values: seq<Value>, argv: seq<Value>, k: nat)
    requires Called(info, cols, values, argv) && k < |Taken(info.constraints, cols)|
    ensures var cs, idx, t := info.constraints, Taken(info.constraints, cols), PlanOf(info, cols).terms[k];
            && t == TermAt(cs, cols, idx, k) && t.op == cs[idx[k]].op && (IsComparison(t.op) || IsNullTest(t.op))
            && (IsComparison(t.op) ==> t.arg == |Sources(cs, idx, k)| < |argv| && argv[t.arg] == values[idx[k]])
  {
    ArgvIndexesExact(info, cols);
    var cs, idx := info.constraints, Taken(info.constraints, cols);
    assert Pushable(cs[idx[k]], cols);
    assert LimitsOf(info, cols).usage[idx[k]] == Usage((PlanOf(info, cols).terms[k].arg + 1) as nat, true);
  }

  predicate ReadsAt(cs: seq<Constraint>, idx: seq<nat>, terms: seq<Term>, values: seq<Value>, argv: seq<Value>, k: nat)
    requires k < |idx| == |terms| && Indexes(idx, |cs|) && |values| == |cs|
  {
    var t := terms[k];
    && t.op == cs[idx[k]].op && (IsComparison(t.op) || IsNullTest(t.op))
    && (IsComparison(t.op) ==> t.arg == |Sources(cs, idx, k)| < |argv| && argv[t.arg] == values[idx[k]])
  }

  predicate Reads(cs: seq<Constraint>, idx: seq<nat>, terms: seq<Term>, values: seq<Value>, argv: seq<Value>) {
    && |idx| == |terms| && Indexes(idx, |cs|) && |values| == |cs|
    && forall k :: 0 <= k < |idx| ==> ReadsAt(cs, idx, terms, values, argv, k)
  }

  lemma CalledReads(info: IndexInfo, cols: seq<Column>, values: seq<Value>, argv: seq<Value>)
    requires Called(info, cols, values, argv)
    ensures Reads(info.constraints, Taken(info.constraints, cols), PlanOf(info, cols).terms, values, argv)
  {
    var cs, idx, terms := info.constraints, Taken(info.constraints, cols), PlanOf(info, cols).terms;
    forall k | 0 <= k < |idx| ensures ReadsAt(cs, idx, terms, values, argv, k) {
      TermReads(info, cols, values, argv, k);
    }
  }

  /** There are as many WHERE parameters as arguments taken ... */
  lemma {:induction false} WhereCount(cs: seq<Constraint>, idx: seq<nat>, terms: seq<Term>, values: seq<Value>,
                                      argv: seq<Value>, h: Host, n: nat)
    requires Reads(cs, idx, terms, values, argv) && n <= |idx|
    ensures |WhereParams(terms, argv, h, n)| == |Sources(cs, idx, n)|
  {
    if n > 0 {
      WhereCount(cs, idx, terms, values, argv, h, n - 1);
      assert ReadsAt(cs, idx, terms, values, argv, n - 1);
    }
  }

  /** ... and the parameter of a comparison is the value of its constraint. */
  lemma {:induction false} WhereAligned(cs: seq<Constraint>, idx: seq<nat>, terms: seq<Term>, values: seq<Value>,
                                        argv: seq<Value>, h: Host, k: nat, n: nat)
    requires Reads(cs, idx, terms, values, argv) && k < n <= |idx| && IsComparison(terms[k].op)
    ensures var ps, j := WhereParams(terms, argv, h, n), |Sources(cs, idx, k)|;
            j < |ps| && ps[j] == IntOf(values[idx[k]], h)
  {
    if k < n - 1 {
      WhereAligned(cs, idx, terms, values, argv, h, k, n - 1);
    } else {
      WhereCount(cs, idx, terms, values, argv, h, k);
      assert ReadsAt(cs, idx, terms, values, argv, k);
    }
  }

  /** The k-th condition of the text comes from the k-th taken constraint, and its placeholder has the
      number of that constraint's argument. */
  lemma {:induction false} CondFrom(cs: seq<Constraint>, cols: seq<Column>, idx: seq<nat>, terms: seq<Term>, i: nat,
                                    k: nat)
    requires Chosen(cs, cols, idx) && terms == Terms(cs, cols, idx) && TermsOk(terms, |cols|) && i <= k < |idx|
    ensures Nth(CondsFrom(terms, cols, i, |Sources(cs, idx, i)|), k - i) ==
              Some(CondOf(terms[k], cols, |Sources(cs, idx, k)|))
    decreases k - i
  {
    if i < k {
      NextCond(cs, cols, idx, terms, i);
      CondFrom(cs, cols, idx, terms, i + 1, k);
    }
  }

  lemma NextCond(cs: seq<Constraint>, cols: seq<Column>, idx: seq<nat>, terms: seq<Term>, i: nat)
    requires Chosen(cs, cols, idx) && terms == Terms(cs, cols, idx) && TermsOk(terms, |cols|) && i < |idx|
    ensures var n := |Sources(cs, idx, i)|;
            var c := CondOf(terms[i], cols, n);
            && |Sources(cs, idx, i + 1)| == n + Takes(c)
            && CondsFrom(terms, cols, i, n) == Cons(c, CondsFrom(terms, cols, i + 1, n + Takes(c)))
  {
    assert Pushable(cs[idx[i]], cols) && terms[i] == TermAt(cs, cols, idx, i);
  }

  lemma PlaceholdersStep(cs: seq<Constraint>, cols: seq<Column>, idx: seq<nat>, terms: seq<Term>, i: nat)
    requires Chosen(cs, cols, idx) && terms == Terms(cs, cols, idx) && TermsOk(terms, |cols|) && i < |idx|
    ensures |Sources(cs, idx, i)| + Placeholders(CondsFrom(terms, cols, i, |Sources(cs, idx, i)|)) ==
            |Sources(cs, idx, i + 1)| + Placeholders(CondsFrom(terms, cols, i + 1, |Sources(cs, idx, i + 1)|))
  {
    NextCond(cs, cols, idx, terms, i);
  }

  /** All conditions together hold as many placeholders as the terms took arguments. */
  lemma {:induction false} CondsPlaceholders(cs: seq<Constraint>, cols: seq<Column>, idx: seq<nat>, terms: seq<Term>,
                                             i: nat)
    requires Chosen(cs, cols, idx) && terms == Terms(cs, cols, idx) && TermsOk(terms, |cols|) && i <= |idx|
    ensures |Sources(cs, idx, i)| + Placeholders(CondsFrom(terms, cols, i, |Sources(cs, idx, i)|)) ==
              |Sources(cs, idx, |idx|)|
    decreases |idx| - i
  {
    if i < |idx| {
      CondsPlaceholders(cs, cols, idx, terms, i + 1);
      PlaceholdersStep(cs, cols, idx, terms, i);
    }
  }

  // ---- the theorem ----

  /** The condition made from constraint c with value v, with the parameters it is executed with. */
  ghost predicate CondBound(o: Option<Cond>, c: Constraint, cols: seq<Column>, v: Value, params: seq<int>, h: Host) {
    && 0 <= c.column < |cols| && o.Some?
    && match o.value
       case Compare(n, op, j) =>
         && IsComparison(op) && n == cols[c.column].name && op == c.op
         && j < |params| && params[j] == IntOf(v, h)
       case Null(n) => n == cols[c.column].name && c.op == ISNULL
       case NotNull(n) => n == cols[c.column].name && c.op == ISNOTNULL
  }

  ghost predicate PageBound(page: Page, l: Limits, values: seq<Value>, params: seq<int>, h: Host) {
    match page
    case Whole => true
    case Fetch(n) =>
      && 0 <= l.limitArg < |l.sources| && l.sources[l.limitArg] < |values|
      && n < |params| && params[n] == IntOf(values[l.sources[l.limitArg]], h)
    case Skip(m, n) =>
      && 0 <= l.limitArg < |l.sources| && l.sources[l.limitArg] < |values|
      && 0 <= l.offsetArg < |l.sources| && l.sources[l.offsetArg] < |values|
      && m < |params| && params[m] == IntOf(values[l.sources[l.offsetArg]], h)
      && n < |params| && params[n] == IntOf(values[l.sources[l.limitArg]], h)
  }

  lemma SlotReads(usage: seq<Usage>, sources: seq<nat>, nargs: nat, values: seq<Value>, argv: seq<Value>, j: nat)
    requires Exact(usage, sources) && ArgvOk(usage, nargs, values, argv) && j < |sources|
    ensures sources[j] < |values| && j < |argv| && argv[j] == values[sources[j]]
  {
    assert usage[sources[j]] == Usage(j + 1, true);
  }

  lemma LimitReads(info: IndexInfo, cols: seq<Column>, values: seq<Value>, argv: seq<Value>, j: nat)
    requires Called(info, cols, values, argv) && j < |LimitsOf(info, cols).sources|
    ensures var l := LimitsOf(info, cols);
            j < |argv| && l.sources[j] < |values| && argv[j] == values[l.sources[j]]
  {
    var l := LimitsOf(info, cols);
    assert Exact(l.usage, l.sources) by { ArgvIndexesExact(info, cols); }
    SlotReads(l.usage, l.sources, PlanOf(info, cols).nargs, values, argv, j);
  }

  /** The plans whose text is a statement of the grammar: no LIMIT, or LIMIT with the ORDER BY consumed. */
  predicate Covered(info: IndexInfo, cols: seq<Column>) {
    NoLimit(info.constraints) || Consumes(info.orderBy, cols)
  }

  lemma PlanIsOk(info: IndexInfo, cols: seq<Column>, mask: set<nat>)
    requires 0 < |cols| <= 32 && ColumnsInRange(info, |cols|)
    requires mask == {} || exists k :: k in mask && k < |cols|
    ensures PlanOk(PlanOf(info, cols).(mask := mask), |cols|)
  {
    var cs, idx, p := info.constraints, Taken(info.constraints, cols), PlanOf(info, cols).(mask := mask);
    forall k | 0 <= k < |p.terms|
      ensures p.terms[k].column < |cols| && (IsComparison(p.terms[k].op) || IsNullTest(p.terms[k].op))
    {
      assert Pushable(cs[idx[k]], cols);
      assert p.terms[k] == TermAt(cs, cols, idx, k);
    }
    if mask == {} { assert IsProjected(mask, 0); }
    else {
      var k :| k in mask && k < |cols|;
      assert IsProjected(mask, k);
    }
  }

  /** Parameter alignment: the text has as many placeholders as there are parameters, never more than the
      buffer holds; each condition's placeholder is bound to the value of the constraint the condition
      was made from; FETCH and OFFSET are bound to the values of the LIMIT and OFFSET constraints. */
  lemma ParametersAlign(info: IndexInfo, cols: seq<Column>, values: seq<Value>, argv: seq<Value>, h: Host,
                        mask: set<nat>, schema: string, table: string, wkt: bool)
    requires Called(info, cols, values, argv) && Covered(info, cols)
    requires PlanOk(Adjusted(PlanOf(info, cols).(mask := mask), argv, h), |cols|)
    ensures var cs, idx, l := info.constraints, Taken(info.constraints, cols), LimitsOf(info, cols);
            var p := PlanOf(info, cols).(mask := mask);
            var params, q := Params(p, argv, h), QueryOf(Adjusted(p, argv, h), schema, table, cols, wkt);
            && |params| == Placeholders(q.conds) + PageTakes(q.page) <= p.nargs
            && (PlainQuery(q) ==> |params| == SqlText.PlaceholdersOf(QueryText(q)))
            && (forall k :: 0 <= k < |idx| ==> CondBound(Nth(q.conds, k), cs[idx[k]], cols, values[idx[k]], params, h))
            && PageBound(q.page, l, values, params, h)
  {
    CountsAlign(info, cols, values, argv, h, mask, schema, table, wkt);
    TextCounts(QueryOf(Adjusted(PlanOf(info, cols).(mask := mask), argv, h), schema, table, cols, wkt));
    CondsAlign(info, cols, values, argv, h, mask);
    PageAlignsIn(info, cols, values, argv, h, mask, schema, table, wkt);
  }

  lemma TextCounts(q: Query)
    requires WellFormed(q)
    ensures PlainQuery(q) ==> SqlText.PlaceholdersOf(QueryText(q)) == Placeholders(q.conds) + PageTakes(q.page)
  {
    if PlainQuery(q) { QueryPlaceholders(q); }
  }

  lemma PageAlignsIn(info: IndexInfo, cols: seq<Column>, values: seq<Value>, argv: seq<Value>, h: Host,
                     mask: set<nat>, schema: string, table: string, wkt: bool)
    requires Called(info, cols, values, argv) && Covered(info, cols)
    requires PlanOk(Adjusted(PlanOf(info, cols).(mask := mask), argv, h), |cols|)
    ensures var p := PlanOf(info, cols).(mask := mask);
            PageBound(QueryOf(Adjusted(p, argv, h), schema, table, cols, wkt).page, LimitsOf(info, cols), values,
                      Params(p, argv, h), h)
  {
    var cs, idx := info.constraints, Taken(info.constraints, cols);
    PageAligns(info, cols, values, argv, h, mask);
    CondsPlaceholders(cs, cols, idx, Terms(cs, cols, idx), 0);
  }

  lemma CountsAlign(info: IndexInfo, cols: seq<Column>, values: seq<Value>, argv: seq<Value>, h: Host, mask: set<nat>,
                    schema: string, table: string, wkt: bool)
    requires Called(info, cols, values, argv) && Covered(info, cols)
    requires PlanOk(Adjusted(PlanOf(info, cols).(mask := mask), argv, h), |cols|)
    ensures var p := PlanOf(info, cols).(mask := mask);
            var q := QueryOf(Adjusted(p, argv, h), schema, table, cols, wkt);
            && |Params(p, argv, h)| == Placeholders(q.conds) + PageTakes(q.page) <= p.nargs
  {
    var cs, idx := info.constraints, Taken(info.constraints, cols);
    var p := PlanOf(info, cols).(mask := mask);
    ParamsShape(info, cols, values, argv, h, mask);
    CondsPlaceholders(cs, cols, idx, p.terms, 0);
  }

  lemma CondsAlign(info: IndexInfo, cols: seq<Column>, values: seq<Value>, argv: seq<Value>, h: Host, mask: set<nat>)
    requires Called(info, cols, values, argv) && Covered(info, cols) && TermsOk(PlanOf(info, cols).terms, |cols|)
    ensures var cs, idx, p := info.constraints, Taken(info.constraints, cols), PlanOf(info, cols).(mask := mask);
            forall k :: 0 <= k < |idx| ==>
              CondBound(Nth(CondsFrom(p.terms, cols, 0, 0), k), cs[idx[k]], cols, values[idx[k]], Params(p, argv, h), h)
  {
    var cs, idx, p := info.constraints, Taken(info.constraints, cols), PlanOf(info, cols).(mask := mask);
    assert WhereParams(p.terms, argv, h, |p.terms|) <= Params(p, argv, h) by {
      ParamsShape(info, cols, values, argv, h, mask);
    }
    CalledReads(info, cols, values, argv);
    forall k | 0 <= k < |idx|
      ensures CondBound(Nth(CondsFrom(p.terms, cols, 0, 0), k), cs[idx[k]], cols, values[idx[k]], Params(p, argv, h), h)
    {
      OneCondBound(cs, cols, idx, p.terms, values, argv, h, k);
    }
  }

  /** A limit comes with a consumed ORDER BY, an offset with a limit, and both have slots of their own. */
  lemma PlanLimits(info: IndexInfo, cols: seq<Column>)
    requires Covered(info, cols)
    ensures var p, n := PlanOf(info, cols), |AfterTerms(info, cols).sources|;
            && (p.hasLimit ==> p.order != []) && (p.hasOffset ==> p.hasLimit)
            && n + (if p.hasLimit then 1 else 0) + (if p.hasOffset then 1 else 0) <= p.nargs
  {
    var cs := info.constraints;
    LimitSlots(cs, |cs|, AfterTerms(info, cols));
    LimitValues(cs, |cs|, AfterTerms(info, cols));
  }

  lemma NoTop(p: Plan, argv: seq<Value>, h: Host)
    requires p.hasLimit ==> p.order != []
    ensures Params(p, argv, h) == WhereParams(p.terms, argv, h, |p.terms|) +
                                  PageParams(Adjusted(p, argv, h), LimitOf(p, argv, h), OffsetOf(p, argv, h))
  {
    var wh := WhereParams(p.terms, argv, h, |p.terms|);
    assert [] + wh == wh;
  }

  /** No TOP parameter: the vector is the WHERE values followed by the page values. */
  lemma ParamsShape(info: IndexInfo, cols: seq<Column>, values: seq<Value>, argv: seq<Value>, h: Host, mask: set<nat>)
    requires Called(info, cols, values, argv) && Covered(info, cols)
    ensures var p := PlanOf(info, cols).(mask := mask);
            var a, wh := Adjusted(p, argv, h), WhereParams(p.terms, argv, h, |p.terms|);
            && Params(p, argv, h) == wh + PageParams(a, LimitOf(p, argv, h), OffsetOf(p, argv, h))
            && |wh| == |Sources(info.constraints, Taken(info.constraints, cols), |p.terms|)|
            && |wh| + PageTakes(PageOf(a, |wh|)) <= p.nargs
  {
    var cs, idx := info.constraints, Taken(info.constraints, cols);
    CalledReads(info, cols, values, argv);
    WhereCount(cs, idx, PlanOf(info, cols).terms, values, argv, h, |idx|);
    PlanLimits(info, cols);
    NoTop(PlanOf(info, cols).(mask := mask), argv, h);
  }

  lemma {:induction false} LimitSlots(cs: seq<Constraint>, n: nat, start: Limits)
    requires n <= |cs| == |start.usage| && start.limitArg == start.offsetArg == -1
    ensures var l := ScanLimits(cs, n, start);
            |start.sources| + (if l.limitArg >= 0 then 1 else 0) + (if l.offsetArg >= 0 then 1 else 0) <= |l.sources|
  {
    if n > 0 { LimitSlots(cs, n - 1, start); }
  }

  lemma OneCondBound(cs: seq<Constraint>, cols: seq<Column>, idx: seq<nat>, terms: seq<Term>, values: seq<Value>,
                     argv: seq<Value>, h: Host, k: nat)
    requires Reads(cs, idx, terms, values, argv) && k < |idx|
    requires Chosen(cs, cols, idx) && terms == Terms(cs, cols, idx) && TermsOk(terms, |cols|)
    ensures CondBound(Nth(CondsFrom(terms, cols, 0, 0), k), cs[idx[k]], cols, values[idx[k]],
                      WhereParams(terms, argv, h, |terms|), h)
  {
    CondFrom(cs, cols, idx, terms, 0, k);
    assert ReadsAt(cs, idx, terms, values, argv, k) && terms[k] == TermAt(cs, cols, idx, k);
    if IsComparison(terms[k].op) { WhereAligned(cs, idx, terms, values, argv, h, k, |terms|); }
  }

  lemma PageAligns(info: IndexInfo, cols: seq<Column>, values: seq<Value>, argv: seq<Value>, h: Host, mask: set<nat>)
    requires Called(info, cols, values, argv) && Covered(info, cols)
    ensures var p := PlanOf(info, cols).(mask := mask);
            var n := |Sources(info.constraints, Taken(info.constraints, cols), |p.terms|)|;
            PageBound(PageOf(Adjusted(p, argv, h), n), LimitsOf(info, cols), values, Params(p, argv, h), h)
  {
    var l := LimitsOf(info, cols);
    ParamsShape(info, cols, values, argv, h, mask);
    ArgvIndexesExact(info, cols);
    if l.limitArg >= 0 { LimitReads(info, cols, values, argv, l.limitArg); }
    if l.offsetArg >= 0 { LimitReads(info, cols, values, argv, l.offsetArg); }
  }
}
