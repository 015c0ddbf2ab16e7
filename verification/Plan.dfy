/** xBestIndex: which constraints, orderings and limits are pushed down, and under which argv index each
    one's value comes back to xFilter. */
module Plan {
  import opened Meta

  const MaxArgs: nat := 32

  datatype ConstraintOp =
    | EQ | LT | LE | GT | GE | ISNULL | ISNOTNULL | LIMIT | OFFSET
    | OTHER(code: nat)   // LIKE, MATCH, ... : never pushed

  datatype Constraint = Constraint(column: int, op: ConstraintOp, usable: bool)

  datatype OrderTerm = OrderTerm(column: int, desc: bool)

  /** What SQLite passes in; colUsed holds the bit numbers set in its 64-bit mask. */
  datatype IndexInfo = IndexInfo(constraints: seq<Constraint>, orderBy: seq<OrderTerm>, colUsed: set<nat>)

  /** What SQLite gets back per constraint.  It stops checking a constraint itself only when both fields
      say so: `omit` without an argv index is ignored. */
  datatype Usage = Usage(argvIndex: nat, omit: bool)

  datatype Term = Term(column: nat, op: ConstraintOp, arg: int)

  datatype Plan = Plan(
    mask: set<nat>, terms: seq<Term>, nargs: nat, order: seq<OrderTerm>,
    hasLimit: bool, hasOffset: bool, limitArg: int, offsetArg: int)

  predicate IsComparison(op: ConstraintOp) {
    op.EQ? || op.LT? || op.LE? || op.GT? || op.GE?
  }

  predicate IsNullTest(op: ConstraintOp) {
    op.ISNULL? || op.ISNOTNULL?
  }

  predicate IntColumn(cols: seq<Column>, c: int) {
    0 <= c < |cols| && cols[c].vtype == Int64
  }

  // ---- declarative plan ----

  /** Provably safe to push down: null tests on any column, comparisons on integer columns. */
  predicate Pushable(c: Constraint, cols: seq<Column>) {
    c.usable && 0 <= c.column < |cols| &&
    (IsNullTest(c.op) || (IsComparison(c.op) && IntColumn(cols, c.column)))
  }

  function Pushables(cs: seq<Constraint>, cols: seq<Column>, n: nat): (r: seq<nat>)
    requires n <= |cs|
    ensures forall k :: 0 <= k < |r| ==> r[k] < n && Pushable(cs[r[k]], cols)
    ensures forall j, k :: 0 <= j < k < |r| ==> r[j] < r[k]
    ensures forall i :: 0 <= i < n && Pushable(cs[i], cols) ==> i in r
  {
    if n == 0 then []
    else
      var before := Pushables(cs, cols, n - 1);
      if Pushable(cs[n - 1], cols) then before + [n - 1] else before
  }

  function First(s: seq<nat>, n: nat): seq<nat> {
    if |s| <= n then s else s[..n]
  }

  /** The constraints that become plan terms: the first 32 pushable ones. */
  function Taken(cs: seq<Constraint>, cols: seq<Column>): (r: seq<nat>)
    ensures |r| <= MaxArgs
    ensures forall k :: 0 <= k < |r| ==> r[k] < |cs| && Pushable(cs[r[k]], cols)
    ensures forall j, k :: 0 <= j < k < |r| ==> r[j] < r[k]
  {
    First(Pushables(cs, cols, |cs|), MaxArgs)
  }

  predicate Indexes(idx: seq<nat>, n: nat) {
    forall k :: 0 <= k < |idx| ==> idx[k] < n
  }

  /** For each argument the first k terms take, in order, the constraint it comes from. */
  function Sources(cs: seq<Constraint>, idx: seq<nat>, k: nat): (r: seq<nat>)
    requires k <= |idx| && Indexes(idx, |cs|)
    ensures |r| <= k
  {
    if k == 0 then []
    else Sources(cs, idx, k - 1) + (if IsComparison(cs[idx[k - 1]].op) then [idx[k - 1]] else [])
  }

  function TermAt(cs: seq<Constraint>, cols: seq<Column>, idx: seq<nat>, k: nat): Term
    requires k < |idx| && Indexes(idx, |cs|) && forall j :: 0 <= j < |idx| ==> Pushable(cs[idx[j]], cols)
  {
    var c := cs[idx[k]];
    assert Pushable(c, cols);
    Term(c.column, c.op, if IsComparison(c.op) then |Sources(cs, idx, k)| else -1)
  }

  function Terms(cs: seq<Constraint>, cols: seq<Column>, idx: seq<nat>): (r: seq<Term>)
    requires Indexes(idx, |cs|) && forall j :: 0 <= j < |idx| ==> Pushable(cs[idx[j]], cols)
    ensures |r| == |idx|
  {
    seq(|idx|, k requires 0 <= k < |idx| => TermAt(cs, cols, idx, k))
  }

  function Consumes(orderBy: seq<OrderTerm>, cols: seq<Column>): bool {
    0 < |orderBy| <= MaxArgs && forall i :: 0 <= i < |orderBy| ==> IntColumn(cols, orderBy[i].column)
  }

  /** LIMIT and OFFSET take the next argv slots; OFFSET only after a LIMIT. */
  datatype Limits = Limits(limitArg: int, offsetArg: int, sources: seq<nat>, usage: seq<Usage>)

  function ScanLimits(cs: seq<Constraint>, n: nat, start: Limits): (r: Limits)
    requires n <= |cs| == |start.usage|
    ensures |r.usage| == |cs|
  {
    if n == 0 then start
    else
      var b, c := ScanLimits(cs, n - 1, start), cs[n - 1];
      var slot := |b.sources|;
      var taken := b.(sources := b.sources + [n - 1], usage := b.usage[n - 1 := Usage(slot + 1, true)]);
      if !c.usable || c.column != -1 then b
      else if c.op.LIMIT? && b.limitArg < 0 then taken.(limitArg := slot)
      else if c.op.OFFSET? && b.limitArg >= 0 then taken.(offsetArg := slot)
      else b
  }

  /** The usage array after the constraint loop. */
  function TermUsage(cs: seq<Constraint>, cols: seq<Column>, idx: seq<nat>): (u: seq<Usage>)
    requires Indexes(idx, |cs|) && forall j :: 0 <= j < |idx| ==> Pushable(cs[idx[j]], cols)
    ensures |u| == |cs|
  {
    UsageUpTo(cs, cols, idx, |idx|)
  }

  function UsageUpTo(cs: seq<Constraint>, cols: seq<Column>, idx: seq<nat>, k: nat): (u: seq<Usage>)
    requires k <= |idx| && Indexes(idx, |cs|) && forall j :: 0 <= j < |idx| ==> Pushable(cs[idx[j]], cols)
    ensures |u| == |cs|
  {
    if k == 0 then seq(|cs|, _ => Usage(0, false))
    else UsageUpTo(cs, cols, idx, k - 1)[idx[k - 1] := Usage((TermAt(cs, cols, idx, k - 1).arg + 1) as nat, true)]
  }

  function AfterTerms(info: IndexInfo, cols: seq<Column>): Limits {
    var idx := Taken(info.constraints, cols);
    Limits(-1, -1, Sources(info.constraints, idx, |idx|), TermUsage(info.constraints, cols, idx))
  }

  function LimitsOf(info: IndexInfo, cols: seq<Column>): (r: Limits)
    ensures |r.usage| == |info.constraints|
  {
    ScanLimits(info.constraints, |info.constraints|, AfterTerms(info, cols))
  }

  // ---- projection mask ----

  const AllBits: set<nat> := set i: nat | i < 32

  /** Columns SQLite reads, and those of constraints and ORDER BY; bit 63 asks for everything. */
  function MaskOf(info: IndexInfo, ncols: nat): (m: set<nat>) {
    if 63 in info.colUsed then AllBits
    else
      (set i | i in info.colUsed && i < ncols) +
      (set k | 0 <= k < |info.constraints| && 0 <= info.constraints[k].column :: info.constraints[k].column as nat) +
      (set k | 0 <= k < |info.orderBy| && 0 <= info.orderBy[k].column :: info.orderBy[k].column as nat)
  }

  function PlanOf(info: IndexInfo, cols: seq<Column>): (p: Plan) {
    var cs, idx := info.constraints, Taken(info.constraints, cols);
    var l := LimitsOf(info, cols);
    Plan(MaskOf(info, |cols|), Terms(cs, cols, idx), |l.sources|,
         if Consumes(info.orderBy, cols) then info.orderBy else [],
         l.limitArg >= 0, l.offsetArg >= 0, l.limitArg, l.offsetArg)
  }

  // ---- the source's loops ----

  /** SQLite only names columns the table declared. */
  predicate ColumnsInRange(info: IndexInfo, ncols: nat) {
    && (forall i :: 0 <= i < |info.constraints| ==> info.constraints[i].column < ncols)
    && (forall i :: 0 <= i < |info.orderBy| ==> info.orderBy[i].column < ncols)
  }

  method CompileMask(info: IndexInfo, ncols: nat) returns (mask: set<nat>)
    requires ncols <= 32 && ColumnsInRange(info, ncols)
    ensures mask == MaskOf(info, ncols)
  {
    if 63 in info.colUsed { return AllBits; }
    mask := {};
    for i := 0 to ncols
      invariant mask == set k | k in info.colUsed && k < i
    {
      if i in info.colUsed { mask := mask + {i}; }
    }
    ghost var used := mask;
    for i := 0 to |info.constraints|
      invariant mask == used + set k | 0 <= k < i &&
                0 <= info.constraints[k].column :: info.constraints[k].column as nat
    {
      var c := info.constraints[i].column;
      if 0 <= c < 62 { mask := mask + {c as nat}; }
    }
    ghost var read := mask;
    for i := 0 to |info.orderBy|
      invariant mask == read + set k | 0 <= k < i && 0 <= info.orderBy[k].column :: info.orderBy[k].column as nat
    {
      var c := info.orderBy[i].column;
      if 0 <= c < 62 { mask := mask + {c as nat}; }
    }
  }

  /** The state of the constraint loop when it has taken the constraints idx. */
  ghost predicate Compiled(cs: seq<Constraint>, cols: seq<Column>, idx: seq<nat>,
                           terms: seq<Term>, usage: seq<Usage>, nargs: nat) {
    && Indexes(idx, |cs|) && (forall j :: 0 <= j < |idx| ==> Pushable(cs[idx[j]], cols))
    && terms == Terms(cs, cols, idx) && usage == TermUsage(cs, cols, idx)
    && nargs == |Sources(cs, idx, |idx|)|
  }

  lemma CompiledStep(cs: seq<Constraint>, cols: seq<Column>, idx: seq<nat>,
                     terms: seq<Term>, usage: seq<Usage>, nargs: nat, i: nat)
    requires Compiled(cs, cols, idx, terms, usage, nargs) && i < |cs| && Pushable(cs[i], cols)
    ensures var c := cs[i];
            var takes := IsComparison(c.op);
            Compiled(cs, cols, idx + [i], terms + [Term(c.column, c.op, if takes then nargs else -1)],
                     usage[i := Usage(if takes then nargs + 1 else 0, true)], if takes then nargs + 1 else nargs)
  {
    var more := idx + [i];
    forall j | 0 <= j < |more| ensures Pushable(cs[more[j]], cols) {}
    forall k | 0 <= k <= |idx| ensures Sources(cs, more, k) == Sources(cs, idx, k) { SourcesPrefix(cs, idx, i, k); }
    assert forall k :: 0 <= k < |idx| ==> more[k] == idx[k];
    UsagePrefix(cs, cols, idx, i, |idx|);
  }

  lemma SourcesPrefix(cs: seq<Constraint>, idx: seq<nat>, i: nat, k: nat)
    requires Indexes(idx, |cs|) && i < |cs| && k <= |idx|
    ensures Indexes(idx + [i], |cs|) && Sources(cs, idx + [i], k) == Sources(cs, idx, k)
  {
  }

  lemma UsagePrefix(cs: seq<Constraint>, cols: seq<Column>, idx: seq<nat>, i: nat, k: nat)
    requires Indexes(idx, |cs|) && i < |cs| && k <= |idx| && Indexes(idx + [i], |cs|)
    requires forall j :: 0 <= j < |idx| ==> Pushable(cs[idx[j]], cols)
    requires forall j :: 0 <= j < |idx + [i]| ==> Pushable(cs[(idx + [i])[j]], cols)
    ensures UsageUpTo(cs, cols, idx + [i], k) == UsageUpTo(cs, cols, idx, k)
  {
    if k > 0 {
      UsagePrefix(cs, cols, idx, i, k - 1);
      SourcesPrefix(cs, idx, i, k - 1);
    }
  }

  method CompileTerms(cs: seq<Constraint>, cols: seq<Column>)
    returns (terms: seq<Term>, usage: seq<Usage>, nargs: nat)
    ensures Compiled(cs, cols, Taken(cs, cols), terms, usage, nargs)
  {
    terms, usage, nargs := [], seq(|cs|, _ => Usage(0, false)), 0;
    ghost var idx := [];
    var i := 0;
    while i < |cs| && |terms| < MaxArgs
      invariant i <= |cs| && |idx| == |terms| <= MaxArgs && idx == Pushables(cs, cols, i)
      invariant Compiled(cs, cols, idx, terms, usage, nargs)
    {
      if Pushable(cs[i], cols) {
        terms, usage, nargs := TakeConstraint(cs, cols, i, terms, usage, nargs, idx);
        idx := idx + [i];
      }
      i := i + 1;
    }
    TakenIs(cs, cols, i);
  }

  method TakeConstraint(cs: seq<Constraint>, cols: seq<Column>, i: nat,
                        terms: seq<Term>, usage: seq<Usage>, nargs: nat, ghost idx: seq<nat>)
    returns (terms': seq<Term>, usage': seq<Usage>, nargs': nat)
    requires i < |cs| && Pushable(cs[i], cols) && Compiled(cs, cols, idx, terms, usage, nargs)
    ensures Compiled(cs, cols, idx + [i], terms', usage', nargs') && |terms'| == |terms| + 1
  {
    var c := cs[i];
    var arg: int := -1;
    nargs' := nargs;
    if IsComparison(c.op) {
      arg := nargs;
      nargs' := nargs + 1;
    }
    terms' := terms + [Term(c.column, c.op, arg)];
    usage' := usage[i := Usage((arg + 1) as nat, true)];
    CompiledStep(cs, cols, idx, terms, usage, nargs, i);
  }

  lemma TakenIs(cs: seq<Constraint>, cols: seq<Column>, i: nat)
    requires i <= |cs| && |Pushables(cs, cols, i)| <= MaxArgs
    requires i == |cs| || |Pushables(cs, cols, i)| == MaxArgs
    ensures Taken(cs, cols) == Pushables(cs, cols, i)
  {
    PushablesGrow(cs, cols, i, |cs|);
  }

  lemma PushablesGrow(cs: seq<Constraint>, cols: seq<Column>, i: nat, n: nat)
    requires i <= n <= |cs|
    ensures Pushables(cs, cols, i) <= Pushables(cs, cols, n)
  {
    if i < n { PushablesGrow(cs, cols, i, n - 1); }
  }

  method CompileOrder(orderBy: seq<OrderTerm>, cols: seq<Column>) returns (order: seq<OrderTerm>, consumed: bool)
    ensures consumed == Consumes(orderBy, cols)
    ensures order == if consumed then orderBy else []
  {
    order := [];
    var ok := true;
    var i := 0;
    while i < |orderBy| && ok
      decreases |orderBy| - i, if ok then 1 else 0
      invariant i <= |orderBy|
      invariant ok ==> order == orderBy[..i] && i <= MaxArgs && forall k :: 0 <= k < i ==>
                  IntColumn(cols, orderBy[k].column)
      invariant !ok ==> !Consumes(orderBy, cols)
    {
      var o := orderBy[i];
      if !IntColumn(cols, o.column) || |order| >= MaxArgs {
        ok := false;
      } else {
        order := order + [o];
        i := i + 1;
      }
    }
    consumed := ok && |order| > 0 && |order| == |orderBy|;
    if !consumed { order := []; }
  }

  method CompileLimits(cs: seq<Constraint>, nargs0: nat, usage0: seq<Usage>, ghost start: Limits)
    returns (limitArg: int, offsetArg: int, nargs: nat, usage: seq<Usage>)
    requires |usage0| == |cs| && start.usage == usage0 && nargs0 == |start.sources|
    requires start.limitArg == start.offsetArg == -1
    ensures var l := ScanLimits(cs, |cs|, start);
            limitArg == l.limitArg && offsetArg == l.offsetArg && nargs == |l.sources| && usage == l.usage
  {
    limitArg, offsetArg, nargs, usage := -1, -1, nargs0, usage0;
    for i := 0 to |cs|
      invariant var l := ScanLimits(cs, i, start);
                limitArg == l.limitArg && offsetArg == l.offsetArg && nargs == |l.sources| && usage == l.usage
    {
      var c := cs[i];
      if !c.usable || c.column != -1 { continue; }
      if c.op.LIMIT? && limitArg < 0 {
        limitArg := nargs;
        nargs := nargs + 1;
        usage := usage[i := Usage(limitArg + 1, true)];
      } else if c.op.OFFSET? && limitArg >= 0 {
        offsetArg := nargs;
        nargs := nargs + 1;
        usage := usage[i := Usage(offsetArg + 1, true)];
      }
    }
  }

  /** vms_plan_compile */
  method Compile(info: IndexInfo, cols: seq<Column>) returns (plan: Plan, usage: seq<Usage>, consumed: bool)
    requires |cols| <= 32 && ColumnsInRange(info, |cols|)
    ensures plan == PlanOf(info, cols) && usage == LimitsOf(info, cols).usage
    ensures consumed == Consumes(info.orderBy, cols)
  {
    var mask := CompileMask(info, |cols|);
    var terms, u, n := CompileTerms(info.constraints, cols);
    var order, c := CompileOrder(info.orderBy, cols);
    var limitArg, offsetArg, nargs, all := CompileLimits(info.constraints, n, u, AfterTerms(info, cols));
    plan := Plan(mask, terms, nargs, order, limitArg >= 0, offsetArg >= 0, limitArg, offsetArg);
    usage, consumed := all, c;
  }

  // ---- argv indexes ----

  /** The argv indexes in use are exactly 1..|sources|, each used once, by the constraint it names. */
  predicate Exact(u: seq<Usage>, sources: seq<nat>) {
    && (forall v :: 0 <= v < |sources| ==> sources[v] < |u| && u[sources[v]] == Usage(v + 1, true))
    && (forall i :: 0 <= i < |u| ==> u[i].argvIndex <= |sources|)
    && (forall i, v :: 0 <= i < |u| && 0 <= v < |sources| && u[i].argvIndex == v + 1 ==> sources[v] == i)
  }

  lemma ExactAssign(u: seq<Usage>, sources: seq<nat>, i: nat)
    requires Exact(u, sources) && i < |u| && u[i].argvIndex == 0
    ensures Exact(u[i := Usage(|sources| + 1, true)], sources + [i]) && Exact(u[i := Usage(0, true)], sources)
  {
  }

  predicate Ascending(idx: seq<nat>) {
    forall i, j :: 0 <= i < j < |idx| ==> idx[i] < idx[j]
  }

  predicate Chosen(cs: seq<Constraint>, cols: seq<Column>, idx: seq<nat>) {
    Indexes(idx, |cs|) && (forall j :: 0 <= j < |idx| ==> Pushable(cs[idx[j]], cols)) && Ascending(idx)
  }

  /** The term made from a constraint carries that constraint's argv index ... */
  lemma {:induction false} UsageTaken(cs: seq<Constraint>, cols: seq<Column>, idx: seq<nat>, k: nat, j: nat)
    requires j < k <= |idx| && Chosen(cs, cols, idx)
    ensures UsageUpTo(cs, cols, idx, k)[idx[j]] == Usage((TermAt(cs, cols, idx, j).arg + 1) as nat, true)
  {
    if j < k - 1 { UsageTaken(cs, cols, idx, k - 1, j); }
  }

  /** ... and the entries of the other constraints are untouched. */
  lemma {:induction false} UsageLeft(cs: seq<Constraint>, cols: seq<Column>, idx: seq<nat>, k: nat, i: nat)
    requires k <= |idx| && i < |cs| && Chosen(cs, cols, idx) && i !in idx[..k]
    ensures UsageUpTo(cs, cols, idx, k)[i] == Usage(0, false)
  {
    if k > 0 {
      assert idx[..k] == idx[..k - 1] + [idx[k - 1]];
      UsageLeft(cs, cols, idx, k - 1, i);
    }
  }

  lemma {:induction false} TermUsageExact(cs: seq<Constraint>, cols: seq<Column>, idx: seq<nat>, k: nat)
    requires k <= |idx| && Chosen(cs, cols, idx)
    ensures Exact(UsageUpTo(cs, cols, idx, k), Sources(cs, idx, k))
  {
    if k > 0 {
      TermUsageExact(cs, cols, idx, k - 1);
      UsageLeft(cs, cols, idx, k - 1, idx[k - 1]);
      ExactAssign(UsageUpTo(cs, cols, idx, k - 1), Sources(cs, idx, k - 1), idx[k - 1]);
    }
  }

  /** LIMIT and OFFSET extend the numbering and change no other entry. */
  predicate LimitFacts(cs: seq<Constraint>, l: Limits) {
    && (l.limitArg >= 0 ==>
          l.limitArg < |l.sources| && l.sources[l.limitArg] < |cs| && cs[l.sources[l.limitArg]].op.LIMIT?)
    && (l.offsetArg >= 0 ==> l.limitArg >= 0 && l.offsetArg < |l.sources| && l.sources[l.offsetArg] < |cs| &&
                             cs[l.sources[l.offsetArg]].op.OFFSET?)
  }

  lemma {:induction false} LimitValues(cs: seq<Constraint>, n: nat, start: Limits)
    requires n <= |cs| == |start.usage| && start.limitArg == start.offsetArg == -1
    ensures var l := ScanLimits(cs, n, start);
            && LimitFacts(cs, l) && start.sources <= l.sources
            && (forall i :: 0 <= i < |cs| && (cs[i].column != -1 || n <= i) ==> l.usage[i] == start.usage[i])
            && ((forall i :: 0 <= i < n ==> !cs[i].op.LIMIT?) ==> l == start)
  {
    if n > 0 { LimitValues(cs, n - 1, start); }
  }

  /** A slot not yet scanned is as it was. */
  lemma {:induction false} LimitUntouched(cs: seq<Constraint>, n: nat, start: Limits, i: nat)
    requires n <= i < |cs| == |start.usage|
    ensures ScanLimits(cs, n, start).usage[i] == start.usage[i]
  {
    if n > 0 { LimitUntouched(cs, n - 1, start, i); }
  }

  lemma LimitStepExact(cs: seq<Constraint>, n: nat, start: Limits)
    requires n < |cs| == |start.usage| && Exact(ScanLimits(cs, n, start).usage, ScanLimits(cs, n, start).sources)
    requires cs[n].column == -1 ==> start.usage[n] == Usage(0, false)
    ensures Exact(ScanLimits(cs, n + 1, start).usage, ScanLimits(cs, n + 1, start).sources)
  {
    if cs[n].column == -1 {
      LimitUntouched(cs, n, start, n);
      ExactAssign(ScanLimits(cs, n, start).usage, ScanLimits(cs, n, start).sources, n);
    }
  }

  predicate Unasked(cs: seq<Constraint>, usage: seq<Usage>) {
    |cs| == |usage| && forall i :: 0 <= i < |cs| && cs[i].column == -1 ==> usage[i] == Usage(0, false)
  }

  lemma {:induction false} LimitExact(cs: seq<Constraint>, n: nat, start: Limits)
    requires n <= |cs| && Unasked(cs, start.usage) && Exact(start.usage, start.sources)
    ensures Exact(ScanLimits(cs, n, start).usage, ScanLimits(cs, n, start).sources)
  {
    if n > 0 {
      LimitExact(cs, n - 1, start);
      LimitStepExact(cs, n - 1, start);
    }
  }

  predicate NoLimit(cs: seq<Constraint>) {
    forall i :: 0 <= i < |cs| ==> !cs[i].op.LIMIT?
  }

  /** argv values come back under the indexes 1..nargs, each used by exactly one constraint; the term
      made from a constraint reads that constraint's value; without LIMIT at most 32 are used. */
  lemma ArgvIndexesExact(info: IndexInfo, cols: seq<Column>)
    ensures var cs, idx, l := info.constraints, Taken(info.constraints, cols), LimitsOf(info, cols);
            && Exact(l.usage, l.sources) && LimitFacts(cs, l) && AfterTerms(info, cols).sources <= l.sources
            && (forall k :: 0 <= k < |idx| ==>
                  l.usage[idx[k]] == Usage((PlanOf(info, cols).terms[k].arg + 1) as nat, true))
            && (forall i :: 0 <= i < |cs| && cs[i].column != -1 && i !in idx ==> l.usage[i] == Usage(0, false))
            && (NoLimit(cs) ==> l == AfterTerms(info, cols) && |l.sources| <= MaxArgs)
  {
    var cs, idx := info.constraints, Taken(info.constraints, cols);
    var l := LimitsOf(info, cols);
    assert idx[..|idx|] == idx && Chosen(cs, cols, idx);
    var u := AfterTerms(info, cols).usage;
    forall k | 0 <= k < |idx| ensures u[idx[k]] == Usage((PlanOf(info, cols).terms[k].arg + 1) as nat, true) {
      UsageTaken(cs, cols, idx, |idx|, k);
    }
    forall i | 0 <= i < |cs| && i !in idx ensures u[i] == Usage(0, false) { UsageLeft(cs, cols, idx, |idx|, i); }
    assert Exact(l.usage, l.sources) by {
      TermUsageExact(cs, cols, idx, |idx|);
      LimitExact(cs, |cs|, AfterTerms(info, cols));
    }
    LimitValues(cs, |cs|, AfterTerms(info, cols));
  }
}
