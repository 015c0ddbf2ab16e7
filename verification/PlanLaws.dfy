/** What the plan compiler decides, constraint by constraint and column by column. */
module PlanLaws {
  import opened Lists
  import opened Meta
  import opened Plan

  // ---- which constraints are taken ----

  /** A usable NULL test of a column, or a usable comparison of an integer column. */
  predicate MayPush(c: Constraint, cols: seq<Column>) {
    c.usable && 0 <= c.column < |cols| &&
    (c.op in {ISNULL, ISNOTNULL} || (c.op in {EQ, LT, LE, GT, GE} && cols[c.column].vtype == Int64))
  }

  /** How many of the first n constraints may be pushed. */
  function PushCount(cs: seq<Constraint>, cols: seq<Column>, n: nat): nat
    requires n <= |cs|
  {
    if n == 0 then 0 else PushCount(cs, cols, n - 1) + (if MayPush(cs[n - 1], cols) then 1 else 0)
  }

  lemma {:induction false} PushablesCounted(cs: seq<Constraint>, cols: seq<Column>, n: nat)
    requires n <= |cs|
    ensures |Pushables(cs, cols, n)| == PushCount(cs, cols, n)
  {
    if n > 0 { PushablesCounted(cs, cols, n - 1); }
  }

  lemma {:induction false} PushablesGrow(cs: seq<Constraint>, cols: seq<Column>, m: nat, n: nat)
    requires m <= n <= |cs|
    ensures Pushables(cs, cols, m) <= Pushables(cs, cols, n)
    decreases n
  {
    if m < n { PushablesGrow(cs, cols, m, n - 1); }
  }

  lemma PushablePlace(cs: seq<Constraint>, cols: seq<Column>, i: nat)
    requires i < |cs| && Pushable(cs[i], cols)
    ensures var all, k := Pushables(cs, cols, |cs|), |Pushables(cs, cols, i)|; k < |all| && all[k] == i
  {
    PushablesGrow(cs, cols, i + 1, |cs|);
    assert Pushables(cs, cols, i + 1) == Pushables(cs, cols, i) + [i];
  }

  /** The terms of the plan come from exactly the first 32 constraints that may be pushed. */
  lemma TakenExactly(cs: seq<Constraint>, cols: seq<Column>, i: nat)
    requires i < |cs|
    ensures i in Taken(cs, cols) <==> MayPush(cs[i], cols) && PushCount(cs, cols, i) < 32
  {
    var all, k := Pushables(cs, cols, |cs|), |Pushables(cs, cols, i)|;
    PushablesCounted(cs, cols, i);
    if Pushable(cs[i], cols) {
      PushablePlace(cs, cols, i);
      if k < 32 { assert Taken(cs, cols)[k] == i; }
      if i in Taken(cs, cols) {
        var j :| 0 <= j < |Taken(cs, cols)| && Taken(cs, cols)[j] == i;
        assert all[j] == i == all[k];
      }
    }
  }

  // ---- what SQLite is told ----

  /** How many of the first n constraints are comparisons among those listed. */
  function CompareCount(cs: seq<Constraint>, idx: seq<nat>, n: nat): nat
    requires n <= |cs|
  {
    if n == 0 then 0
    else CompareCount(cs, idx, n - 1) + (if n - 1 in idx && cs[n - 1].op in {EQ, LT, LE, GT, GE} then 1 else 0)
  }

  /** The first k of the constraints listed are those before n. */
  predicate SplitAt(idx: seq<nat>, k: nat, n: nat) {
    k <= |idx| && (forall j :: 0 <= j < k ==> idx[j] < n) && (forall j :: k <= j < |idx| ==> idx[j] >= n)
  }

  lemma SplitBefore(idx: seq<nat>, k: nat, n: nat)
    requires Ascending(idx) && SplitAt(idx, k, n) && n > 0
    ensures n - 1 in idx ==> k > 0 && idx[k - 1] == n - 1 && SplitAt(idx, k - 1, n - 1)
    ensures n - 1 !in idx ==> SplitAt(idx, k, n - 1)
  {
    if n - 1 in idx {
      var j :| 0 <= j < |idx| && idx[j] == n - 1;
      assert j < k;
      assert idx[j] <= idx[k - 1];
    }
  }

  lemma {:induction false} SourcesCounted(cs: seq<Constraint>, idx: seq<nat>, k: nat, n: nat)
    requires Ascending(idx) && Indexes(idx, |cs|) && SplitAt(idx, k, n) && n <= |cs|
    ensures |Sources(cs, idx, k)| == CompareCount(cs, idx, n)
    decreases n
  {
    if n > 0 {
      SplitBefore(idx, k, n);
      SourcesCounted(cs, idx, if n - 1 in idx then k - 1 else k, n - 1);
    }
  }

  lemma TakenUsage(info: IndexInfo, cols: seq<Column>, k: nat)
    requires k < |Taken(info.constraints, cols)|
    ensures var cs, idx := info.constraints, Taken(info.constraints, cols);
            && Pushable(cs[idx[k]], cols)
            && LimitsOf(info, cols).usage[idx[k]] ==
                 Usage(if IsComparison(cs[idx[k]].op) then |Sources(cs, idx, k)| + 1 else 0, true)
  {
    ArgvIndexesExact(info, cols);
    var cs, idx := info.constraints, Taken(info.constraints, cols);
    assert Pushable(cs[idx[k]], cols) && PlanOf(info, cols).terms[k] == TermAt(cs, cols, idx, k);
  }

  lemma LeftUsage(info: IndexInfo, cols: seq<Column>, i: nat)
    requires i < |info.constraints| && info.constraints[i].column != -1 && i !in Taken(info.constraints, cols)
    ensures LimitsOf(info, cols).usage[i] == Usage(0, false)
  {
    ArgvIndexesExact(info, cols);
  }

  /** A constraint on a column: a taken comparison gets the next argument and SQLite stops testing it, a taken NULL test
      gets none, so SQLite goes on testing it, and the others get nothing. */
  lemma UsageExactly(info: IndexInfo, cols: seq<Column>, i: nat)
    requires i < |info.constraints| && info.constraints[i].column != -1
    ensures var cs := info.constraints;
            LimitsOf(info, cols).usage[i] ==
              if i !in Taken(cs, cols) then Usage(0, false)
              else if cs[i].op in {ISNULL, ISNOTNULL} then Usage(0, true)
              else Usage(CompareCount(cs, Taken(cs, cols), i) + 1, true)
  {
    var cs, idx := info.constraints, Taken(info.constraints, cols);
    if i in idx {
      var k :| 0 <= k < |idx| && idx[k] == i;
      TakenUsage(info, cols, k);
      SourcesCounted(cs, idx, k, i);
    } else {
      LeftUsage(info, cols, i);
    }
  }

  /** The k-th term is that of the k-th constraint taken: its column, its operator, its argument. */
  lemma TermExactly(info: IndexInfo, cols: seq<Column>, k: nat)
    requires k < |Taken(info.constraints, cols)|
    ensures var p, i := PlanOf(info, cols), Taken(info.constraints, cols)[k];
            && |p.terms| == |Taken(info.constraints, cols)| && p.terms[k].column == info.constraints[i].column
            && p.terms[k].op == info.constraints[i].op
            && p.terms[k].arg == LimitsOf(info, cols).usage[i].argvIndex - 1
  {
    var cs, idx := info.constraints, Taken(info.constraints, cols);
    ArgvIndexesExact(info, cols);
    assert Pushable(cs[idx[k]], cols) && PlanOf(info, cols).terms[k] == TermAt(cs, cols, idx, k);
  }

  // ---- LIMIT and OFFSET ----

  predicate IsLimit(c: Constraint) {
    c.usable && c.column == -1 && c.op == LIMIT
  }

  predicate IsOffset(c: Constraint) {
    c.usable && c.column == -1 && c.op == OFFSET
  }

  /** Constraint i is the first LIMIT. */
  predicate FirstLimit(cs: seq<Constraint>, i: nat) {
    i < |cs| && IsLimit(cs[i]) && forall j :: 0 <= j < i ==> !IsLimit(cs[j])
  }

  /** Constraint i is an OFFSET with a LIMIT somewhere before it. */
  predicate OffsetBehind(cs: seq<Constraint>, i: nat) {
    i < |cs| && IsOffset(cs[i]) && exists j :: 0 <= j < i && IsLimit(cs[j])
  }

  /** After n constraints: which have been given a slot as LIMIT or OFFSET, and which the plan reads. */
  lemma {:induction false} ScanExactly(cs: seq<Constraint>, n: nat, start: Limits)
    requires n <= |cs| == |start.usage| && start.limitArg == start.offsetArg == -1
    ensures var l := ScanLimits(cs, n, start);
            && (l.limitArg >= 0 <==> exists j :: 0 <= j < n && IsLimit(cs[j]))
            && (l.limitArg >= 0 ==>
                  l.limitArg < |l.sources| && l.sources[l.limitArg] < n && FirstLimit(cs, l.sources[l.limitArg]))
            && (l.offsetArg >= 0 <==> exists j :: 0 <= j < n && OffsetBehind(cs, j))
            && (l.offsetArg >= 0 ==>
                  && l.offsetArg < |l.sources| && l.sources[l.offsetArg] < n && OffsetBehind(cs, l.sources[l.offsetArg])
                  && forall j :: l.sources[l.offsetArg] < j < n ==> !OffsetBehind(cs, j))
  {
    if n > 0 {
      ScanExactly(cs, n - 1, start);
      var b, l := ScanLimits(cs, n - 1, start), ScanLimits(cs, n, start);
      assert b.sources <= l.sources;
      if IsLimit(cs[n - 1]) && b.limitArg < 0 { assert FirstLimit(cs, n - 1); }
      if b.limitArg >= 0 {
        assert IsLimit(cs[b.sources[b.limitArg]]);
        if IsOffset(cs[n - 1]) { assert OffsetBehind(cs, n - 1); }
      }
    }
  }

  /** The plan has a limit exactly when there is a LIMIT, and reads the first one; it has an offset exactly when an
      OFFSET comes behind a LIMIT, and reads the last such one. */
  lemma LimitsExactly(info: IndexInfo, cols: seq<Column>)
    ensures var cs, p, l := info.constraints, PlanOf(info, cols), LimitsOf(info, cols);
            && (p.hasLimit <==> exists j :: 0 <= j < |cs| && IsLimit(cs[j]))
            && (p.hasLimit ==> 0 <= p.limitArg < |l.sources| && FirstLimit(cs, l.sources[p.limitArg]))
            && (p.hasOffset <==> exists j :: 0 <= j < |cs| && OffsetBehind(cs, j))
            && (p.hasOffset ==>
                  && 0 <= p.offsetArg < |l.sources| && OffsetBehind(cs, l.sources[p.offsetArg])
                  && forall j :: l.sources[p.offsetArg] < j < |cs| ==> !OffsetBehind(cs, j))
  {
    ScanExactly(info.constraints, |info.constraints|, AfterTerms(info, cols));
  }

  // ---- columns and order ----

  /** A column is projected exactly when SQLite reads it, or asks for everything, or a constraint or the ORDER BY names
      it. */
  lemma MaskExactly(info: IndexInfo, ncols: nat, i: nat)
    requires i < ncols <= 32 && ColumnsInRange(info, ncols)
    ensures i in MaskOf(info, ncols) <==>
              || 63 in info.colUsed || i in info.colUsed
              || (exists k :: 0 <= k < |info.constraints| && info.constraints[k].column == i)
              || (exists k :: 0 <= k < |info.orderBy| && info.orderBy[k].column == i)
  {
  }

  /** The ORDER BY is taken whole exactly when it has 1 to 32 terms, all on integer columns. */
  lemma OrderExactly(info: IndexInfo, cols: seq<Column>)
    ensures var o, p := info.orderBy, PlanOf(info, cols);
            var whole := 1 <= |o| <= 32 && forall k :: 0 <= k < |o| ==>
                           0 <= o[k].column < |cols| && cols[o[k].column].vtype == Int64;
            p.order == (if whole then o else []) && (Consumes(o, cols) <==> whole)
  {
  }
}
