/** The remote SELECT statement: the query, its tokens as the builder appends them, and the parser that
    reads the query back from the tokens. */
module PlanSql {
  import opened Lists
  import opened Plan
  import opened Sql

  // ---- queries ----

  /** A condition of the WHERE clause; `param` is the number of its placeholder, counted from 0 in text
      order. */
  datatype Cond = Compare(name: string, op: ConstraintOp, param: nat) | Null(name: string) | NotNull(name: string)

  datatype Key = Key(name: string, desc: bool)

  datatype Page = Whole | Fetch(count: nat) | Skip(offset: nat, count: nat)

  datatype Query = Query(items: List<Tok>, schema: string, table: string, conds: List<Cond>, keys: List<Key>,
                         page: Page)

  predicate IsItem(t: Tok) {
    t.Name? || t.Cast? || t.Geo?
  }

  predicate AllItems(items: List<Tok>) {
    items.Nil? || (IsItem(items.head) && AllItems(items.tail))
  }

  function Takes(c: Cond): nat {
    if c.Compare? then 1 else 0
  }

  function Placeholders(conds: List<Cond>): nat {
    if conds.Nil? then 0 else Takes(conds.head) + Placeholders(conds.tail)
  }

  /** Comparisons, with their placeholders numbered in text order from n on. */
  predicate Numbered(conds: List<Cond>, n: nat) {
    conds.Nil? || (NumberedAt(conds.head, n) && Numbered(conds.tail, n + Takes(conds.head)))
  }

  predicate NumberedAt(c: Cond, n: nat) {
    c.Compare? ==> c.param == n && IsComparison(c.op)
  }

  predicate WellFormed(q: Query) {
    && q.items.Cons? && AllItems(q.items) && Numbered(q.conds, 0)
    && (q.page != Whole ==> q.keys.Cons?)
    && (q.page.Fetch? ==> q.page.count == Placeholders(q.conds))
    && (q.page.Skip? ==> q.page.offset == Placeholders(q.conds) && q.page.count == q.page.offset + 1)
  }

  // ---- printing, each clause in front of what follows it ----

  function PrintItems(items: List<Tok>, rest: List<Tok>): List<Tok>
    requires items.Cons?
  {
    Cons(items.head, if items.tail.Nil? then rest else Cons(Comma, PrintItems(items.tail, rest)))
  }

  function PrintCond(c: Cond, rest: List<Tok>): List<Tok> {
    match c
    case Compare(n, op, _) => Cons(Name(n), Cons(Cmp(op), Cons(Param, rest)))
    case Null(n) => Cons(Name(n), Cons(IsNull, rest))
    case NotNull(n) => Cons(Name(n), Cons(IsNotNull, rest))
  }

  function PrintConds(conds: List<Cond>, rest: List<Tok>): List<Tok>
    requires conds.Cons?
  {
    PrintCond(conds.head, if conds.tail.Nil? then rest else Cons(AndKw, PrintConds(conds.tail, rest)))
  }

  function PrintKey(k: Key, rest: List<Tok>): List<Tok> {
    Cons(Name(k.name), if k.desc then Cons(DescKw, rest) else rest)
  }

  function PrintKeys(keys: List<Key>, rest: List<Tok>): List<Tok>
    requires keys.Cons?
  {
    PrintKey(keys.head, if keys.tail.Nil? then rest else Cons(Comma, PrintKeys(keys.tail, rest)))
  }

  function PrintPage(p: Page): List<Tok> {
    match p
    case Whole => Nil
    case Fetch(_) => Cons(OffsetKw, Cons(Num("0"), Cons(RowsFetchNext, Cons(Param, Cons(RowsOnly, Nil)))))
    case Skip(_, _) => Cons(OffsetKw, Cons(Param, Cons(RowsFetchNext, Cons(Param, Cons(RowsOnly, Nil)))))
  }

  function PrintOrder(keys: List<Key>, rest: List<Tok>): List<Tok> {
    if keys.Nil? then rest else Cons(OrderByKw, PrintKeys(keys, rest))
  }

  function PrintWhere(conds: List<Cond>, rest: List<Tok>): List<Tok> {
    if conds.Nil? then rest else Cons(WhereKw, PrintConds(conds, rest))
  }

  function PrintFrom(schema: string, table: string, rest: List<Tok>): List<Tok> {
    Cons(FromKw, Cons(Name(schema), Cons(Dot, Cons(Name(table), rest))))
  }

  function Print(q: Query): List<Tok>
    requires q.items.Cons?
  {
    Cons(SelectKw, PrintItems(q.items, PrintFrom(q.schema, q.table,
      PrintWhere(q.conds, PrintOrder(q.keys, PrintPage(q.page))))))
  }

  // ---- parsing ----

  function ParseItems(toks: List<Tok>): Option<(List<Tok>, List<Tok>)> {
    if toks.Nil? || !IsItem(toks.head) then None
    else if toks.tail.Cons? && toks.tail.head == Comma then
      match ParseItems(toks.tail.tail)
      case None => None
      case Some((items, rest)) => Some((Cons(toks.head, items), rest))
    else Some((Cons(toks.head, Nil), toks.tail))
  }

  function ParseCond(toks: List<Tok>, next: nat): (r: Option<(Cond, List<Tok>)>)
    ensures r.Some? ==> r.value.1 < toks
  {
    match toks
    case Cons(Name(n), Cons(Cmp(op), Cons(Param, rest))) =>
      if IsComparison(op) then Some((Compare(n, op, next), rest)) else None
    case Cons(Name(n), Cons(IsNull, rest)) => Some((Null(n), rest))
    case Cons(Name(n), Cons(IsNotNull, rest)) => Some((NotNull(n), rest))
    case _ => None
  }

  /** Conditions joined by AND; `next` numbers the next placeholder. */
  function ParseConds(toks: List<Tok>, next: nat): Option<(List<Cond>, List<Tok>)>
    decreases toks
  {
    match ParseCond(toks, next)
    case None => None
    case Some((c, rest)) =>
      if rest.Cons? && rest.head == AndKw then
        match ParseConds(rest.tail, next + Takes(c))
        case None => None
        case Some((cs, r)) => Some((Cons(c, cs), r))
      else Some((Cons(c, Nil), rest))
  }

  function ParseKeys(toks: List<Tok>): Option<(List<Key>, List<Tok>)>
    decreases toks
  {
    if toks.Nil? || !toks.head.Name? then None
    else
      var desc := toks.tail.Cons? && toks.tail.head == DescKw;
      var rest := if desc then toks.tail.tail else toks.tail;
      if rest.Cons? && rest.head == Comma then
        match ParseKeys(rest.tail)
        case None => None
        case Some((ks, r)) => Some((Cons(Key(toks.head.name, desc), ks), r))
      else Some((Cons(Key(toks.head.name, desc), Nil), rest))
  }

  function ParsePage(toks: List<Tok>, next: nat): Option<Page> {
    if toks == Nil then Some(Whole)
    else if toks == PrintPage(Fetch(0)) then Some(Fetch(next))
    else if toks == PrintPage(Skip(0, 0)) then Some(Skip(next, next + 1))
    else None
  }

  function ParseWhere(toks: List<Tok>): Option<(List<Cond>, List<Tok>)> {
    if toks.Cons? && toks.head == WhereKw then ParseConds(toks.tail, 0) else Some((Nil, toks))
  }

  function ParseOrder(toks: List<Tok>): Option<(List<Key>, List<Tok>)> {
    if toks.Cons? && toks.head == OrderByKw then ParseKeys(toks.tail) else Some((Nil, toks))
  }

  function ParseClauses(items: List<Tok>, schema: string, table: string, toks: List<Tok>): Option<Query> {
    match ParseWhere(toks)
    case None => None
    case Some((conds, r)) =>
      match ParseOrder(r)
      case None => None
      case Some((keys, r2)) =>
        match ParsePage(r2, Placeholders(conds))
        case None => None
        case Some(page) => Some(Query(items, schema, table, conds, keys, page))
  }

  /** SELECT items FROM [schema].[table] [WHERE conds] [ORDER BY keys] [OFFSET .. FETCH ..] */
  function Parse(toks: List<Tok>): Option<Query> {
    if toks.Nil? || toks.head != SelectKw then None
    else
      match ParseItems(toks.tail)
      case None => None
      case Some((items, r)) =>
        match r
        case Cons(FromKw, Cons(Name(schema), Cons(Dot, Cons(Name(table), body)))) =>
          ParseClauses(items, schema, table, body)
        case _ => None
  }

  // ---- parsing undoes printing ----

  lemma {:induction false} ItemsParse(items: List<Tok>, rest: List<Tok>)
    requires items.Cons? && AllItems(items) && !StartsWith(rest, Comma)
    ensures ParseItems(PrintItems(items, rest)) == Some((items, rest))
  {
    if items.tail.Cons? { ItemsParse(items.tail, rest); }
  }

  lemma CondParses(c: Cond, next: nat, rest: List<Tok>)
    requires NumberedAt(c, next)
    ensures ParseCond(PrintCond(c, rest), next) == Some((c, rest))
  {
  }

  lemma {:induction false} CondsParse(conds: List<Cond>, next: nat, rest: List<Tok>)
    requires conds.Cons? && Numbered(conds, next) && !StartsWith(rest, AndKw)
    ensures ParseConds(PrintConds(conds, rest), next) == Some((conds, rest))
  {
    if conds.tail.Nil? {
      CondParses(conds.head, next, rest);
    } else {
      CondsParse(conds.tail, next + Takes(conds.head), rest);
      CondParses(conds.head, next, Cons(AndKw, PrintConds(conds.tail, rest)));
    }
  }

  lemma {:induction false} KeysParse(keys: List<Key>, rest: List<Tok>)
    requires keys.Cons? && !StartsWith(rest, Comma) && !StartsWith(rest, DescKw)
    ensures ParseKeys(PrintKeys(keys, rest)) == Some((keys, rest))
  {
    if keys.tail.Cons? { KeysParse(keys.tail, rest); }
  }

  /** Every well-formed query is read back from the text printed for it, placeholder numbers included. */
  lemma ParsePrint(q: Query)
    requires WellFormed(q)
    ensures Parse(Print(q)) == Some(q)
  {
    ClausesParse(q);
    ItemsParse(q.items, PrintFrom(q.schema, q.table, PrintWhere(q.conds, PrintOrder(q.keys, PrintPage(q.page)))));
  }

  lemma PageParses(p: Page, next: nat)
    requires p.Fetch? ==> p.count == next
    requires p.Skip? ==> p.offset == next && p.count == next + 1
    ensures ParsePage(PrintPage(p), next) == Some(p)
  {
  }

  lemma OrderParses(keys: List<Key>, p: Page)
    requires p != Whole ==> keys.Cons?
    ensures ParseOrder(PrintOrder(keys, PrintPage(p))) == Some((keys, PrintPage(p)))
  {
    if keys.Cons? { KeysParse(keys, PrintPage(p)); }
  }

  lemma WhereParses(conds: List<Cond>, rest: List<Tok>)
    requires Numbered(conds, 0) && !StartsWith(rest, AndKw) && !StartsWith(rest, WhereKw)
    ensures ParseWhere(PrintWhere(conds, rest)) == Some((conds, rest))
  {
    if conds.Cons? { CondsParse(conds, 0, rest); }
  }

  lemma ClausesParse(q: Query)
    requires WellFormed(q)
    ensures ParseClauses(q.items, q.schema, q.table, PrintWhere(q.conds, PrintOrder(q.keys, PrintPage(q.page)))) ==
              Some(q)
  {
    PageParses(q.page, Placeholders(q.conds));
    OrderParses(q.keys, q.page);
    WhereParses(q.conds, PrintOrder(q.keys, PrintPage(q.page)));
  }
}
