/** vms_plan_build_sql: the statement a plan becomes, appended piece by piece to a bounded buffer. */
module PlanBuild {
  import opened Lists
  import opened Meta
  import opened Plan
  import opened Sql
  import opened PlanSql
  import opened PlanText
  import opened SqlTokens

  // ---- the query a plan stands for ----

  /** Columns are projected in table order; an empty or full mask means all of them. */
  predicate IsProjected(mask: set<nat>, i: nat) {
    mask == {} || mask == AllBits || i in mask
  }

  /** append_col_proj: text of ANSI types is cast, spatial columns go through their methods. */
  function ItemOf(c: Column, wkt: bool): (t: Tok)
    ensures IsItem(t) && t.name == c.name
  {
    if c.vtype == Spatial then Geo(c.name, wkt)
    else if (c.vtype == TextT || c.vtype == BigText) && Lower(c.typeName) in {"char", "varchar", "text", "xml"} then
      Cast(c.name, c.vtype == BigText)
    else Name(c.name)
  }

  /** Text of the four ANSI types is cast, to nvarchar(max) exactly when it is big; spatial columns go through the
      method asked for; everything else is read by name. */
  lemma ItemExactly(c: Column, wkt: bool)
    ensures var t := ItemOf(c, wkt);
            && (t.Geo? <==> c.vtype == Spatial) && (t.Geo? ==> t.wkt == wkt)
            && (t.Cast? <==> (c.vtype == TextT || c.vtype == BigText) &&
                             (AnyCase(c.typeName, "char") || AnyCase(c.typeName, "varchar") ||
                              AnyCase(c.typeName, "text") || AnyCase(c.typeName, "xml")))
            && (t.Cast? ==> t.max == (c.vtype == BigText))
  {
    SameNameMeans(c.typeName, "char");
    SameNameMeans(c.typeName, "varchar");
    SameNameMeans(c.typeName, "text");
    SameNameMeans(c.typeName, "xml");
    assert Lower("char") == "char" && Lower("varchar") == "varchar" && Lower("text") == "text" && Lower("xml") == "xml";
  }

  function ItemsFrom(mask: set<nat>, cols: seq<Column>, wkt: bool, i: nat): (r: List<Tok>)
    requires i <= |cols|
    ensures AllItems(r)
    ensures (exists k :: i <= k < |cols| && IsProjected(mask, k)) ==> r.Cons?
    decreases |cols| - i
  {
    if i == |cols| then Nil
    else if IsProjected(mask, i) then Cons(ItemOf(cols[i], wkt), ItemsFrom(mask, cols, wkt, i + 1))
    else ItemsFrom(mask, cols, wkt, i + 1)
  }

  predicate TermsOk(terms: seq<Term>, ncols: nat) {
    forall k :: 0 <= k < |terms| ==>
      terms[k].column < ncols && (IsComparison(terms[k].op) || IsNullTest(terms[k].op))
  }

  function CondOf(t: Term, cols: seq<Column>, n: nat): Cond
    requires t.column < |cols|
  {
    if t.op.ISNULL? then Null(cols[t.column].name)
    else if t.op.ISNOTNULL? then NotNull(cols[t.column].name)
    else Compare(cols[t.column].name, t.op, n)
  }

  function CondsFrom(terms: seq<Term>, cols: seq<Column>, i: nat, n: nat): (r: List<Cond>)
    requires i <= |terms| && TermsOk(terms, |cols|)
    ensures r.Nil? <==> i == |terms|
    decreases |terms| - i
  {
    if i == |terms| then Nil
    else
      var c := CondOf(terms[i], cols, n);
      Cons(c, CondsFrom(terms, cols, i + 1, n + Takes(c)))
  }

  lemma CondsNumbered(terms: seq<Term>, cols: seq<Column>, i: nat, n: nat)
    requires i <= |terms| && TermsOk(terms, |cols|)
    ensures Numbered(CondsFrom(terms, cols, i, n), n)
    decreases |terms| - i
  {
    if i < |terms| { CondsNumbered(terms, cols, i + 1, n + Takes(CondOf(terms[i], cols, n))); }
  }

  predicate KeysOk(order: seq<OrderTerm>, ncols: nat) {
    forall k :: 0 <= k < |order| ==> 0 <= order[k].column < ncols
  }

  function KeysFrom(order: seq<OrderTerm>, cols: seq<Column>, i: nat): (r: List<Key>)
    requires i <= |order| && KeysOk(order, |cols|)
    ensures r.Nil? <==> i == |order|
    decreases |order| - i
  {
    if i == |order| then Nil
    else Cons(Key(cols[order[i].column].name, order[i].desc), KeysFrom(order, cols, i + 1))
  }

  function PageOf(p: Plan, n: nat): Page {
    if p.order == [] then Whole
    else if p.hasOffset then Skip(n, n + 1)
    else if p.hasLimit then Fetch(n)
    else Whole
  }

  predicate PlanOk(p: Plan, ncols: nat) {
    TermsOk(p.terms, ncols) && KeysOk(p.order, ncols) && exists k :: 0 <= k < ncols && IsProjected(p.mask, k)
  }

  function QueryOf(p: Plan, schema: string, table: string, cols: seq<Column>, wkt: bool): (q: Query)
    requires PlanOk(p, |cols|)
    ensures WellFormed(q)
  {
    var conds := CondsFrom(p.terms, cols, 0, 0);
    CondsNumbered(p.terms, cols, 0, 0);
    Query(ItemsFrom(p.mask, cols, wkt, 0), schema, table, conds, KeysFrom(p.order, cols, 0),
          PageOf(p, Placeholders(conds)))
  }

  // ---- plain names ----

  predicate PlainNames(cols: seq<Column>) {
    forall i :: 0 <= i < |cols| ==> ']' !in cols[i].name
  }

  lemma ItemsFromPlain(mask: set<nat>, cols: seq<Column>, wkt: bool, i: nat)
    requires i <= |cols| && PlainNames(cols)
    ensures Plain(ItemsFrom(mask, cols, wkt, i))
    decreases |cols| - i
  {
    if i < |cols| { ItemsFromPlain(mask, cols, wkt, i + 1); }
  }

  lemma CondsFromPlain(terms: seq<Term>, cols: seq<Column>, i: nat, n: nat)
    requires i <= |terms| && TermsOk(terms, |cols|) && PlainNames(cols)
    ensures PlainConds(CondsFrom(terms, cols, i, n))
    decreases |terms| - i
  {
    if i < |terms| { CondsFromPlain(terms, cols, i + 1, n + Takes(CondOf(terms[i], cols, n))); }
  }

  lemma KeysFromPlain(order: seq<OrderTerm>, cols: seq<Column>, i: nat)
    requires i <= |order| && KeysOk(order, |cols|) && PlainNames(cols)
    ensures PlainKeys(KeysFrom(order, cols, i))
    decreases |order| - i
  {
    if i < |order| { KeysFromPlain(order, cols, i + 1); }
  }

  /** The statement of a plan reads back as its query whenever no column name has a closing bracket. */
  lemma PlainColumnsRead(p: Plan, schema: string, table: string, cols: seq<Column>, wkt: bool)
    requires PlanOk(p, |cols|) && IdentValid(schema, 128) && IdentValid(table, 128) && PlainNames(cols)
    ensures var q := QueryOf(p, schema, table, cols, wkt); ReadQuery(QueryText(q)) == Some(q)
  {
    ItemsFromPlain(p.mask, cols, wkt, 0);
    CondsFromPlain(p.terms, cols, 0, 0);
    KeysFromPlain(p.order, cols, 0);
    ReadPrint(QueryOf(p, schema, table, cols, wkt));
  }

  /** A limit without a consumed ORDER BY is appended as TOP at the end, which is no statement of the
      grammar. */
  predicate UsesTop(p: Plan) {
    p.hasLimit && p.order == []
  }

  // ---- the source's loops ----

  function ItemsLeft(items: List<Tok>, first: bool, after: List<Tok>): List<Tok> {
    if items.Nil? then after else if first then PrintItems(items, after) else Cons(Comma, PrintItems(items, after))
  }

  function CondsLeft(conds: List<Cond>, first: bool, after: List<Tok>): List<Tok> {
    if conds.Nil? then after else if first then PrintConds(conds, after) else Cons(AndKw, PrintConds(conds, after))
  }

  function KeysLeft(keys: List<Key>, first: bool, after: List<Tok>): List<Tok> {
    if keys.Nil? then after else if first then PrintKeys(keys, after) else Cons(Comma, PrintKeys(keys, after))
  }

  method AddItem(b: SqlBuffer, first: bool, item: Tok, ghost more: List<Tok>, ghost after: List<Tok>)
    requires b.Valid() && b.left == ItemsLeft(Cons(item, more), first, after)
    modifies b
    ensures b.Valid() && b.left == ItemsLeft(more, false, after)
  {
    if !first { b.Add(Comma); }
    b.Add(item);
  }

  method AddItems(b: SqlBuffer, mask: set<nat>, cols: seq<Column>, wkt: bool, ghost after: List<Tok>)
    requires b.Valid() && b.left == ItemsLeft(ItemsFrom(mask, cols, wkt, 0), true, after)
    modifies b
    ensures b.Valid() && b.left == after
  {
    var first := true;
    for i := 0 to |cols|
      invariant b.Valid() && b.left == ItemsLeft(ItemsFrom(mask, cols, wkt, i), first, after)
    {
      if IsProjected(mask, i) {
        AddItem(b, first, ItemOf(cols[i], wkt), ItemsFrom(mask, cols, wkt, i + 1), after);
        first := false;
      }
    }
  }

  method AddCond(b: SqlBuffer, t: Term, cols: seq<Column>, ghost n: nat, ghost rest: List<Tok>)
    requires b.Valid() && t.column < |cols| && b.left == PrintCond(CondOf(t, cols, n), rest)
    modifies b
    ensures b.Valid() && b.left == rest
  {
    b.Add(Name(cols[t.column].name));
    if t.op.ISNULL? {
      b.Add(IsNull);
    } else if t.op.ISNOTNULL? {
      b.Add(IsNotNull);
    } else {
      b.Add(Cmp(t.op));
      b.Add(Param);
    }
  }

  /** What is left of the WHERE clause from term i on, n placeholders before it. */
  ghost function TermsLeft(terms: seq<Term>, cols: seq<Column>, i: nat, n: nat, after: List<Tok>): List<Tok>
    requires i <= |terms| && TermsOk(terms, |cols|)
  {
    CondsLeft(CondsFrom(terms, cols, i, n), i == 0, after)
  }

  method AddTerm(b: SqlBuffer, terms: seq<Term>, cols: seq<Column>, i: nat, ghost n: nat, ghost after: List<Tok>)
    returns (ghost m: nat)
    requires b.Valid() && i < |terms| && TermsOk(terms, |cols|) && b.left == TermsLeft(terms, cols, i, n, after)
    modifies b
    ensures b.Valid() && b.left == TermsLeft(terms, cols, i + 1, m, after)
  {
    m := n + Takes(CondOf(terms[i], cols, n));
    if i > 0 { b.Add(AndKw); }
    AddCond(b, terms[i], cols, n, CondsLeft(CondsFrom(terms, cols, i + 1, m), false, after));
  }

  method AddConds(b: SqlBuffer, terms: seq<Term>, cols: seq<Column>, ghost after: List<Tok>)
    requires b.Valid() && TermsOk(terms, |cols|) && b.left == TermsLeft(terms, cols, 0, 0, after)
    modifies b
    ensures b.Valid() && b.left == after
  {
    ghost var n: nat := 0;
    for i := 0 to |terms|
      invariant b.Valid() && b.left == TermsLeft(terms, cols, i, n, after)
    {
      n := AddTerm(b, terms, cols, i, n, after);
    }
  }

  method AddKeys(b: SqlBuffer, order: seq<OrderTerm>, cols: seq<Column>, ghost after: List<Tok>)
    requires b.Valid() && KeysOk(order, |cols|) && b.left == KeysLeft(KeysFrom(order, cols, 0), true, after)
    modifies b
    ensures b.Valid() && b.left == after
  {
    for i := 0 to |order|
      invariant b.Valid() && b.left == KeysLeft(KeysFrom(order, cols, i), i == 0, after)
    {
      if i > 0 { b.Add(Comma); }
      b.Add(Name(cols[order[i].column].name));
      if order[i].desc { b.Add(DescKw); }
    }
  }

  method AddPage(b: SqlBuffer, p: Plan, ghost n: nat)
    requires b.Valid() && p.order != [] && b.left == PrintPage(PageOf(p, n))
    modifies b
    ensures b.Valid() && b.left == Nil
  {
    if p.hasOffset || p.hasLimit {
      b.Add(OffsetKw);
      b.Add(if p.hasOffset then Param else Num("0"));
      b.Add(RowsFetchNext);
      b.Add(Param);
      b.Add(RowsOnly);
    }
  }

  /** vms_plan_build_sql: with valid identifiers and room for it, the buffer holds the statement of the
      plan's query, to the character. */
  method BuildSql(p: Plan, schema: string, table: string, cols: seq<Column>, wkt: bool, cap: nat)
    returns (r: Option<string>)
    requires PlanOk(p, |cols|) && !UsesTop(p)
    ensures var text := QueryText(QueryOf(p, schema, table, cols, wkt));
            r == if IdentValid(schema, 128) && IdentValid(table, 128) && |text| < cap then Some(text) else None
  {
    if !IdentValid(schema, 128) || !IdentValid(table, 128) { return None; }
    ghost var q := QueryOf(p, schema, table, cols, wkt);
    ghost var page := PrintPage(q.page);
    ghost var order := PrintOrder(q.keys, page);
    ghost var clauses := PrintWhere(q.conds, order);
    var b := new SqlBuffer(cap, Print(q));
    b.Add(SelectKw);
    AddItems(b, p.mask, cols, wkt, PrintFrom(schema, table, clauses));
    b.Add(FromKw);
    b.Add(Name(schema));
    b.Add(Dot);
    b.Add(Name(table));
    if p.terms != [] {
      b.Add(WhereKw);
      AddConds(b, p.terms, cols, order);
    }
    if p.order != [] {
      b.Add(OrderByKw);
      AddKeys(b, p.order, cols, page);
      AddPage(b, p, Placeholders(q.conds));
    }
    r := b.Finish();
  }
}
