/** xFilter for a pushed-down plan: from argv values to the parameter vector of the remote statement. */
module Filter {
  import opened Lists
  import opened Meta
  import opened Plan
  import opened Sql
  import opened PlanSql
  import opened PlanBuild

  /** SQLite itself: the integer it sees in a value (sqlite3_value_numeric_type and _int64), and its own
      test of a constraint on a cell. */
  datatype Host = Host(integer: Value -> Option<int>, holds: (ConstraintOp, Value, Value) -> bool)

  // ---- declarative binding ----

  predicate Fits(p: Plan) {
    |p.terms| <= MaxArgs && p.nargs <= MaxArgs && |p.order| <= MaxArgs
  }

  function ArgInt(argv: seq<Value>, arg: int, h: Host): Option<int> {
    if 0 <= arg < |argv| then h.integer(argv[arg]) else None
  }

  predicate Bindable(t: Term, argv: seq<Value>, h: Host) {
    IsNullTest(t.op) || ArgInt(argv, t.arg, h).Some?
  }

  predicate AllBindable(terms: seq<Term>, argv: seq<Value>, h: Host) {
    forall k :: 0 <= k < |terms| ==> Bindable(terms[k], argv, h)
  }

  function TermParam(t: Term, argv: seq<Value>, h: Host): int {
    if IsNullTest(t.op) || ArgInt(argv, t.arg, h).None? then 0 else ArgInt(argv, t.arg, h).value
  }

  function LimitOf(p: Plan, argv: seq<Value>, h: Host): int {
    if p.hasLimit && ArgInt(argv, p.limitArg, h).Some? then ArgInt(argv, p.limitArg, h).value else -1
  }

  function OffsetOf(p: Plan, argv: seq<Value>, h: Host): int {
    if p.hasOffset && ArgInt(argv, p.offsetArg, h).Some? then ArgInt(argv, p.offsetArg, h).value else 0
  }

  /** A negative limit means no limit: the plan forgets limit and offset. */
  function Adjusted(p: Plan, argv: seq<Value>, h: Host): Plan {
    if p.hasLimit && LimitOf(p, argv, h) < 0 then p.(hasLimit := false, hasOffset := false) else p
  }

  /** The values of the comparison terms, in term order. */
  function WhereParams(terms: seq<Term>, argv: seq<Value>, h: Host, k: nat): seq<int>
    requires k <= |terms|
  {
    if k == 0 then []
    else WhereParams(terms, argv, h, k - 1) +
         (if IsNullTest(terms[k - 1].op) then [] else [TermParam(terms[k - 1], argv, h)])
  }

  function TopParams(p: Plan, limit: int): seq<int> {
    if p.hasLimit && p.order == [] && !p.hasOffset then [limit] else []
  }

  function PageParams(p: Plan, limit: int, offset: int): seq<int> {
    if p.order == [] then [] else if p.hasOffset then [offset, limit] else if p.hasLimit then [limit] else []
  }

  /** The parameter vector of the plan as xFilter adjusts it. */
  function Params(p: Plan, argv: seq<Value>, h: Host): seq<int> {
    var q, limit, offset := Adjusted(p, argv, h), LimitOf(p, argv, h), OffsetOf(p, argv, h);
    TopParams(q, limit) + WhereParams(p.terms, argv, h, |p.terms|) + PageParams(q, limit, offset)
  }

  /** Without an order, a limit comes before the values of the terms; with one, it comes last, behind an offset. */
  lemma ParamsInOrder(p: Plan, argv: seq<Value>, h: Host)
    requires p.hasLimit && LimitOf(p, argv, h) >= 0
    ensures var wh, limit := WhereParams(p.terms, argv, h, |p.terms|), LimitOf(p, argv, h);
            Params(p, argv, h) ==
              if p.order == [] && !p.hasOffset then [limit] + wh
              else if p.order == [] then wh
              else if p.hasOffset then wh + [OffsetOf(p, argv, h), limit]
              else wh + [limit]
  {
    var wh := WhereParams(p.terms, argv, h, |p.terms|);
    assert [] + wh + [] == wh && [LimitOf(p, argv, h)] + wh + [] == [LimitOf(p, argv, h)] + wh;
  }

  // ---- the source's loops ----

  method BindTerms(terms: seq<Term>, argv: seq<Value>, h: Host) returns (ok: bool, termParams: array<int>)
    requires |terms| <= MaxArgs
    ensures fresh(termParams) && termParams.Length == MaxArgs
    ensures ok == AllBindable(terms, argv, h)
    ensures ok ==> forall k :: 0 <= k < |terms| ==> termParams[k] == TermParam(terms[k], argv, h)
  {
    termParams := new int[MaxArgs](_ => 0);
    for a := 0 to |terms|
      invariant forall k :: a <= k < MaxArgs ==> termParams[k] == 0
      invariant forall k :: 0 <= k < a ==> Bindable(terms[k], argv, h) && termParams[k] == TermParam(terms[k], argv, h)
    {
      var t := terms[a];
      if IsNullTest(t.op) { continue; }
      var v := ArgInt(argv, t.arg, h);
      if v.None? {
        assert !Bindable(terms[a], argv, h);
        return false, termParams;
      }
      termParams[a] := v.value;
    }
    ok := true;
  }

  /** The loop over the terms. */
  method BindWhere(sqlparams: array<int>, start: nat, terms: seq<Term>, termParams: array<int>, ghost argv: seq<Value>,
                   ghost h: Host)
    returns (sp: nat)
    requires |terms| <= termParams.Length && sqlparams != termParams
    requires forall k :: 0 <= k < |terms| ==> termParams[k] == TermParam(terms[k], argv, h)
    requires start + |WhereParams(terms, argv, h, |terms|)| <= sqlparams.Length
    modifies sqlparams
    ensures sp == start + |WhereParams(terms, argv, h, |terms|)|
    ensures sqlparams[..sp] == old(sqlparams[..start]) + WhereParams(terms, argv, h, |terms|)
  {
    sp := start;
    for a := 0 to |terms|
      invariant sp == start + |WhereParams(terms, argv, h, a)| <= sqlparams.Length
      invariant sqlparams[..sp] == old(sqlparams[..start]) + WhereParams(terms, argv, h, a)
    {
      if IsNullTest(terms[a].op) { continue; }
      WhereGrows(terms, argv, h, a + 1);
      sqlparams[sp] := termParams[a];
      sp := sp + 1;
    }
  }

  /** OFFSET then FETCH, or FETCH alone. */
  method BindPage(sqlparams: array<int>, start: nat, p: Plan, limit: int, offset: int) returns (sp: nat)
    requires start + |PageParams(p, limit, offset)| <= sqlparams.Length
    modifies sqlparams
    ensures sp == start + |PageParams(p, limit, offset)|
    ensures sqlparams[..sp] == old(sqlparams[..start]) + PageParams(p, limit, offset)
  {
    sp := start;
    if p.order != [] {
      if p.hasOffset {
        sqlparams[sp], sqlparams[sp + 1], sp := offset, limit, sp + 2;
      } else if p.hasLimit {
        sqlparams[sp], sp := limit, sp + 1;
      }
    }
  }

  /** Fills the parameter array in the order the placeholders have in the text; the first attempt and the
      retry both run this. */
  method BindParams(p: Plan, termParams: array<int>, limit: int, offset: int, ghost argv: seq<Value>, ghost h: Host)
    returns (sqlparams: array<int>, sp: nat)
    requires |p.terms| <= termParams.Length
    requires forall k :: 0 <= k < |p.terms| ==> termParams[k] == TermParam(p.terms[k], argv, h)
    requires |TopParams(p, limit) + WhereParams(p.terms, argv, h, |p.terms|) + PageParams(p, limit, offset)| <= MaxArgs
    ensures fresh(sqlparams) && sp <= sqlparams.Length
    ensures sqlparams[..sp] == TopParams(p, limit) + WhereParams(p.terms, argv, h, |p.terms|) +
              PageParams(p, limit, offset)
  {
    sqlparams, sp := new int[MaxArgs], 0;
    if p.hasLimit && p.order == [] && !p.hasOffset {
      sqlparams[0], sp := limit, 1;
    }
    sp := BindWhere(sqlparams, sp, p.terms, termParams, argv, h);
    sp := BindPage(sqlparams, sp, p, limit, offset);
  }

  lemma WhereGrows(terms: seq<Term>, argv: seq<Value>, h: Host, k: nat)
    requires k <= |terms|
    ensures |WhereParams(terms, argv, h, k)| <= |WhereParams(terms, argv, h, |terms|)|
    decreases |terms| - k
  {
    if k < |terms| { WhereGrows(terms, argv, h, k + 1); }
  }
}
