/** The SELECT statement as text: a query is read back from its characters. */
module PlanText {
  import opened Lists
  import opened Plan
  import opened Sql
  import opened SqlText
  import opened SqlTokens
  import opened PlanSql

  /** The query a text stands for. */
  ghost function ReadQuery(s: string): Option<Query> {
    match Tokenize(s) case None => None case Some(toks) => Parse(toks)
  }

  function QueryText(q: Query): string
    requires WellFormed(q)
  {
    Chars(Print(q))
  }

  // ---- queries whose names are plain ----

  predicate PlainConds(conds: List<Cond>) {
    conds.Nil? || (']' !in conds.head.name && PlainConds(conds.tail))
  }

  predicate PlainKeys(keys: List<Key>) {
    keys.Nil? || (']' !in keys.head.name && PlainKeys(keys.tail))
  }

  /** No name of the query has a closing bracket. */
  predicate PlainQuery(q: Query) {
    Plain(q.items) && ']' !in q.schema && ']' !in q.table && PlainConds(q.conds) && PlainKeys(q.keys)
  }

  lemma {:induction false} ItemsPlain(items: List<Tok>, rest: List<Tok>)
    requires items.Cons?
    ensures Plain(PrintItems(items, rest)) <==> Plain(items) && Plain(rest)
  {
    if items.tail.Cons? { ItemsPlain(items.tail, rest); }
  }

  lemma CondPlain(c: Cond, rest: List<Tok>)
    ensures Plain(PrintCond(c, rest)) <==> ']' !in c.name && Plain(rest)
  {
    if c.Compare? { assert Plain(Cons(Cmp(c.op), Cons(Param, rest))) <==> Plain(rest); }
  }

  lemma {:induction false} CondsPlain(conds: List<Cond>, rest: List<Tok>)
    requires conds.Cons?
    ensures Plain(PrintConds(conds, rest)) <==> PlainConds(conds) && Plain(rest)
  {
    if conds.tail.Nil? {
      CondPlain(conds.head, rest);
    } else {
      CondsPlain(conds.tail, rest);
      CondPlain(conds.head, Cons(AndKw, PrintConds(conds.tail, rest)));
    }
  }

  lemma KeyPlain(k: Key, rest: List<Tok>)
    ensures Plain(PrintKey(k, rest)) <==> ']' !in k.name && Plain(rest)
  {
    assert Plain(Cons(DescKw, rest)) <==> Plain(rest);
  }

  lemma {:induction false} KeysPlain(keys: List<Key>, rest: List<Tok>)
    requires keys.Cons?
    ensures Plain(PrintKeys(keys, rest)) <==> PlainKeys(keys) && Plain(rest)
  {
    if keys.tail.Nil? {
      KeyPlain(keys.head, rest);
    } else {
      KeysPlain(keys.tail, rest);
      KeyPlain(keys.head, Cons(Comma, PrintKeys(keys.tail, rest)));
    }
  }

  lemma FromPlain(schema: string, table: string, rest: List<Tok>)
    ensures Plain(PrintFrom(schema, table, rest)) <==> ']' !in schema && ']' !in table && Plain(rest)
  {
    assert Plain(Cons(Dot, Cons(Name(table), rest))) <==> ']' !in table && Plain(rest);
    assert Plain(Cons(Name(schema), Cons(Dot, Cons(Name(table), rest)))) <==>
             ']' !in schema && ']' !in table && Plain(rest);
  }

  lemma PagePlain(p: Page)
    ensures Plain(PrintPage(p))
  {
    var tail := Cons(RowsFetchNext, Cons(Param, Cons(RowsOnly, Nil)));
    assert Plain(Cons(Param, Cons(RowsOnly, Nil)));
    assert Plain(tail);
    assert Plain(Cons(Num("0"), tail)) && Plain(Cons(Param, tail));
  }

  lemma QueryPlain(q: Query)
    requires WellFormed(q)
    ensures Plain(Print(q)) <==> PlainQuery(q)
  {
    var page := PrintPage(q.page);
    var order := PrintOrder(q.keys, page);
    var where := PrintWhere(q.conds, order);
    PagePlain(q.page);
    if q.keys.Cons? { KeysPlain(q.keys, page); }
    if q.conds.Cons? { CondsPlain(q.conds, order); }
    FromPlain(q.schema, q.table, where);
    ItemsPlain(q.items, PrintFrom(q.schema, q.table, where));
  }

  // ---- the text keeps its words apart ----

  lemma {:induction false} ItemsTidy(items: List<Tok>, rest: List<Tok>)
    requires items.Cons? && AllItems(items) && Tidy(rest)
    ensures Tidy(PrintItems(items, rest))
  {
    if items.tail.Cons? {
      ItemsTidy(items.tail, rest);
      TidyCons(Comma, PrintItems(items.tail, rest));
    }
  }

  lemma CondTidy(c: Cond, rest: List<Tok>)
    requires Tidy(rest) && Free(rest) && (c.Compare? ==> IsComparison(c.op))
    ensures Tidy(PrintCond(c, rest))
  {
    match c
    case Compare(n, op, _) => TidyCons(Param, rest); TidyCons(Cmp(op), Cons(Param, rest));
    case Null(n) => TidyCons(IsNull, rest);
    case NotNull(n) => TidyCons(IsNotNull, rest);
  }

  lemma {:induction false} CondsTidy(conds: List<Cond>, n: nat, rest: List<Tok>)
    requires conds.Cons? && Numbered(conds, n) && Tidy(rest) && Free(rest)
    ensures Tidy(PrintConds(conds, rest))
  {
    if conds.tail.Nil? {
      CondTidy(conds.head, rest);
    } else {
      CondsTidy(conds.tail, n + Takes(conds.head), rest);
      TidyCons(AndKw, PrintConds(conds.tail, rest));
      CondTidy(conds.head, Cons(AndKw, PrintConds(conds.tail, rest)));
    }
  }

  lemma KeyTidy(k: Key, rest: List<Tok>)
    requires Tidy(rest) && Free(rest)
    ensures Tidy(PrintKey(k, rest))
  {
    TidyCons(DescKw, rest);
  }

  lemma {:induction false} KeysTidy(keys: List<Key>, rest: List<Tok>)
    requires keys.Cons? && Tidy(rest) && Free(rest)
    ensures Tidy(PrintKeys(keys, rest))
  {
    if keys.tail.Nil? {
      KeyTidy(keys.head, rest);
    } else {
      KeysTidy(keys.tail, rest);
      TidyCons(Comma, PrintKeys(keys.tail, rest));
      KeyTidy(keys.head, Cons(Comma, PrintKeys(keys.tail, rest)));
    }
  }

  lemma FromTidy(schema: string, table: string, rest: List<Tok>)
    requires Tidy(rest)
    ensures Tidy(PrintFrom(schema, table, rest))
  {
    TidyCons(Name(table), rest);
    TidyCons(Dot, Cons(Name(table), rest));
    TidyCons(Name(schema), Cons(Dot, Cons(Name(table), rest)));
  }

  lemma PageTidy(p: Page)
    ensures Tidy(PrintPage(p)) && Free(PrintPage(p))
  {
    var only := Cons(Param, Cons(RowsOnly, Nil));
    TidyCons(RowsOnly, Nil);
    TidyCons(Param, Cons(RowsOnly, Nil));
    TidyCons(RowsFetchNext, only);
    TidyCons(Param, Cons(RowsFetchNext, only));
    TidyCons(Num("0"), Cons(RowsFetchNext, only));
  }

  lemma QueryTidy(q: Query)
    requires WellFormed(q)
    ensures Tidy(Print(q))
  {
    var page := PrintPage(q.page);
    var order := PrintOrder(q.keys, page);
    var where := PrintWhere(q.conds, order);
    PageTidy(q.page);
    if q.keys.Cons? { KeysTidy(q.keys, page); TidyCons(OrderByKw, PrintKeys(q.keys, page)); }
    if q.conds.Cons? { CondsTidy(q.conds, 0, order); TidyCons(WhereKw, PrintConds(q.conds, order)); }
    FromTidy(q.schema, q.table, where);
    ItemsTidy(q.items, PrintFrom(q.schema, q.table, where));
  }

  // ---- printing undoes parsing ----

  lemma {:induction false} ItemsPrint(toks: List<Tok>)
    requires ParseItems(toks).Some?
    ensures var r := ParseItems(toks).value; r.0.Cons? && AllItems(r.0) && PrintItems(r.0, r.1) == toks
  {
    if toks.tail.Cons? && toks.tail.head == Comma { ItemsPrint(toks.tail.tail); }
  }

  lemma CondPrints(toks: List<Tok>, next: nat)
    requires ParseCond(toks, next).Some?
    ensures var r := ParseCond(toks, next).value; NumberedAt(r.0, next) && PrintCond(r.0, r.1) == toks
  {
  }

  lemma {:induction false} CondsPrint(toks: List<Tok>, next: nat)
    requires ParseConds(toks, next).Some?
    ensures var r := ParseConds(toks, next).value; r.0.Cons? && Numbered(r.0, next) && PrintConds(r.0, r.1) == toks
    decreases toks
  {
    CondPrints(toks, next);
    var c, rest := ParseCond(toks, next).value.0, ParseCond(toks, next).value.1;
    if rest.Cons? && rest.head == AndKw { CondsPrint(rest.tail, next + Takes(c)); }
  }

  lemma {:induction false} KeysPrint(toks: List<Tok>)
    requires ParseKeys(toks).Some?
    ensures var r := ParseKeys(toks).value; r.0.Cons? && PrintKeys(r.0, r.1) == toks
    decreases toks
  {
    var desc := toks.tail.Cons? && toks.tail.head == DescKw;
    var rest := if desc then toks.tail.tail else toks.tail;
    if rest.Cons? && rest.head == Comma { KeysPrint(rest.tail); }
  }

  lemma PagePrints(toks: List<Tok>, next: nat)
    requires ParsePage(toks, next).Some?
    ensures PrintPage(ParsePage(toks, next).value) == toks
  {
  }

  lemma ClausesPrint(items: List<Tok>, schema: string, table: string, toks: List<Tok>)
    requires ParseClauses(items, schema, table, toks).Some?
    ensures var q := ParseClauses(items, schema, table, toks).value;
            PrintWhere(q.conds, PrintOrder(q.keys, PrintPage(q.page))) == toks
  {
    var w := ParseWhere(toks).value;
    if toks.Cons? && toks.head == WhereKw { CondsPrint(toks.tail, 0); }
    var o := ParseOrder(w.1).value;
    if w.1.Cons? && w.1.head == OrderByKw { KeysPrint(w.1.tail); }
    PagePrints(o.1, Placeholders(w.0));
  }

  /** What is parsed is what would be printed. */
  lemma PrintParse(toks: List<Tok>)
    requires Parse(toks).Some?
    ensures Parse(toks).value.items.Cons? && Print(Parse(toks).value) == toks
  {
    ItemsPrint(toks.tail);
    match ParseItems(toks.tail).value.1
    case Cons(FromKw, Cons(Name(schema), Cons(Dot, Cons(Name(table), body)))) =>
      ClausesPrint(ParseItems(toks.tail).value.0, schema, table, body);
      assert ParseItems(toks.tail).value.1 == PrintFrom(schema, table, body);
  }

  /** A query is read back from its characters, placeholder numbers included, if and only if no name in it
      has a closing bracket. */
  lemma ReadPrint(q: Query)
    requires WellFormed(q)
    ensures ReadQuery(QueryText(q)) == Some(q) <==> PlainQuery(q)
  {
    QueryTidy(q);
    QueryPlain(q);
    TokenizeChars(Print(q));
    ParsePrint(q);
    if ReadQuery(QueryText(q)) == Some(q) { PrintParse(Tokenize(QueryText(q)).value); }
  }

  /** A column whose name has a closing bracket: the text stands for something else. */
  lemma BracketedNameIsLost(schema: string, table: string)
    ensures var q := Query(Cons(Name("a]"), Nil), schema, table, Nil, Nil, Whole); ReadQuery(QueryText(q)) != Some(q)
  {
    var q := Query(Cons(Name("a]"), Nil), schema, table, Nil, Nil, Whole);
    assert "a]"[1] == ']';
    ReadPrint(q);
  }

  // ---- placeholders in the text ----

  function PageTakes(p: Page): nat {
    match p case Whole => 0 case Fetch(_) => 1 case Skip(_, _) => 2
  }

  lemma {:induction false} ItemTokens(items: List<Tok>, rest: List<Tok>)
    requires items.Cons? && AllItems(items)
    ensures ParamTokens(PrintItems(items, rest)) == ParamTokens(rest)
  {
    if items.tail.Cons? { ItemTokens(items.tail, rest); }
  }

  lemma CondToken(c: Cond, rest: List<Tok>)
    ensures ParamTokens(PrintCond(c, rest)) == Takes(c) + ParamTokens(rest)
  {
    if c.Compare? { assert ParamTokens(Cons(Cmp(c.op), Cons(Param, rest))) == 1 + ParamTokens(rest); }
  }

  lemma {:induction false} CondTokens(conds: List<Cond>, rest: List<Tok>)
    requires conds.Cons?
    ensures ParamTokens(PrintConds(conds, rest)) == Placeholders(conds) + ParamTokens(rest)
  {
    if conds.tail.Nil? {
      CondToken(conds.head, rest);
    } else {
      CondTokens(conds.tail, rest);
      CondToken(conds.head, Cons(AndKw, PrintConds(conds.tail, rest)));
    }
  }

  lemma KeyToken(k: Key, rest: List<Tok>)
    ensures ParamTokens(PrintKey(k, rest)) == ParamTokens(rest)
  {
    assert ParamTokens(Cons(DescKw, rest)) == ParamTokens(rest);
  }

  lemma {:induction false} KeyTokens(keys: List<Key>, rest: List<Tok>)
    requires keys.Cons?
    ensures ParamTokens(PrintKeys(keys, rest)) == ParamTokens(rest)
  {
    if keys.tail.Nil? {
      KeyToken(keys.head, rest);
    } else {
      KeyTokens(keys.tail, rest);
      KeyToken(keys.head, Cons(Comma, PrintKeys(keys.tail, rest)));
    }
  }

  lemma PageTokens(p: Page)
    ensures ParamTokens(PrintPage(p)) == PageTakes(p)
  {
    var tail := Cons(RowsOnly, Nil);
    assert ParamTokens(tail) == 0;
    assert ParamTokens(Cons(RowsFetchNext, Cons(Param, tail))) == 1;
  }

  lemma FromTokens(schema: string, table: string, rest: List<Tok>)
    ensures ParamTokens(PrintFrom(schema, table, rest)) == ParamTokens(rest)
  {
    assert ParamTokens(Cons(Name(table), rest)) == ParamTokens(rest);
    assert ParamTokens(Cons(Name(schema), Cons(Dot, Cons(Name(table), rest)))) == ParamTokens(rest);
  }

  lemma QueryTokens(q: Query)
    requires WellFormed(q)
    ensures ParamTokens(Print(q)) == Placeholders(q.conds) + PageTakes(q.page)
  {
    var page := PrintPage(q.page);
    var order := PrintOrder(q.keys, page);
    var clauses := PrintWhere(q.conds, order);
    PageTokens(q.page);
    if q.keys.Cons? { KeyTokens(q.keys, page); }
    if q.conds.Cons? { CondTokens(q.conds, order); }
    FromTokens(q.schema, q.table, clauses);
    ItemTokens(q.items, PrintFrom(q.schema, q.table, clauses));
  }

  /** The question marks of the text outside brackets and literals are the placeholders of the query. */
  lemma QueryPlaceholders(q: Query)
    requires WellFormed(q) && PlainQuery(q)
    ensures PlaceholdersOf(QueryText(q)) == Placeholders(q.conds) + PageTakes(q.page)
  {
    QueryTidy(q);
    QueryPlain(q);
    QueryTokens(q);
    PlaceholdersAre(Print(q));
  }
}
