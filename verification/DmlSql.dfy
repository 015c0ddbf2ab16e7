/** INSERT, UPDATE and DELETE statements: their tokens as the builders append them, and the parser that
    reads them back. */
module DmlSql {
  import opened Lists
  import opened Plan
  import opened Sql

  /** [name] = literal, in SET and in WHERE. */
  datatype Pair = Pair(name: string, lit: Tok)

  datatype Statement =
    | Insert(schema: string, table: string, names: List<string>, values: List<Tok>)
    | Update(schema: string, table: string, sets: List<Pair>, keys: List<Pair>)
    | Delete(schema: string, table: string, keys: List<Pair>)

  predicate IsLit(t: Tok) {
    t.NullLit? || t.Num? || t.TextLit?
  }

  predicate AllLits(xs: List<Tok>) {
    xs.Nil? || (IsLit(xs.head) && AllLits(xs.tail))
  }

  predicate PairLits(ps: List<Pair>) {
    ps.Nil? || (IsLit(ps.head.lit) && PairLits(ps.tail))
  }

  predicate WellFormed(s: Statement) {
    match s
    case Insert(_, _, names, values) => names.Cons? && values.Cons? && AllLits(values)
    case Update(_, _, sets, keys) => sets.Cons? && keys.Cons? && PairLits(sets) && PairLits(keys)
    case Delete(_, _, keys) => keys.Cons? && PairLits(keys)
  }

  // ---- printing ----

  function PrintTable(schema: string, table: string, rest: List<Tok>): List<Tok> {
    Cons(Name(schema), Cons(Dot, Cons(Name(table), rest)))
  }

  function PrintNames(names: List<string>, rest: List<Tok>): List<Tok>
    requires names.Cons?
  {
    Cons(Name(names.head), if names.tail.Nil? then rest else Cons(Comma, PrintNames(names.tail, rest)))
  }

  function PrintLits(lits: List<Tok>, rest: List<Tok>): List<Tok>
    requires lits.Cons?
  {
    Cons(lits.head, if lits.tail.Nil? then rest else Cons(Comma, PrintLits(lits.tail, rest)))
  }

  function PrintPair(p: Pair, rest: List<Tok>): List<Tok> {
    Cons(Name(p.name), Cons(Cmp(EQ), Cons(p.lit, rest)))
  }

  /** Pairs with a comma or AND between them. */
  function PrintPairs(ps: List<Pair>, sep: Tok, rest: List<Tok>): List<Tok>
    requires ps.Cons?
  {
    PrintPair(ps.head, if ps.tail.Nil? then rest else Cons(sep, PrintPairs(ps.tail, sep, rest)))
  }

  function Print(s: Statement): List<Tok>
    requires WellFormed(s)
  {
    match s
    case Insert(schema, table, names, values) =>
      Cons(InsertInto, PrintTable(schema, table,
        Cons(OpenList, PrintNames(names, Cons(ValuesKw, PrintLits(values, Cons(CloseList, Nil)))))))
    case Update(schema, table, sets, keys) =>
      Cons(UpdateKw, PrintTable(schema, table,
        Cons(SetKw, PrintPairs(sets, Comma, Cons(WhereKw, PrintPairs(keys, AndKw, Nil))))))
    case Delete(schema, table, keys) =>
      Cons(DeleteFrom, PrintTable(schema, table, Cons(WhereKw, PrintPairs(keys, AndKw, Nil))))
  }

  // ---- parsing ----

  function ParseNames(toks: List<Tok>): Option<(List<string>, List<Tok>)> {
    if toks.Nil? || !toks.head.Name? then None
    else if toks.tail.Cons? && toks.tail.head == Comma then
      match ParseNames(toks.tail.tail)
      case None => None
      case Some((names, rest)) => Some((Cons(toks.head.name, names), rest))
    else Some((Cons(toks.head.name, Nil), toks.tail))
  }

  function ParseLits(toks: List<Tok>): Option<(List<Tok>, List<Tok>)> {
    if toks.Nil? || !IsLit(toks.head) then None
    else if toks.tail.Cons? && toks.tail.head == Comma then
      match ParseLits(toks.tail.tail)
      case None => None
      case Some((lits, rest)) => Some((Cons(toks.head, lits), rest))
    else Some((Cons(toks.head, Nil), toks.tail))
  }

  function ParsePairs(toks: List<Tok>, sep: Tok): Option<(List<Pair>, List<Tok>)>
    decreases toks
  {
    match toks
    case Cons(Name(n), Cons(Cmp(EQ), Cons(lit, rest))) =>
      if !IsLit(lit) then None
      else if rest.Cons? && rest.head == sep then
        match ParsePairs(rest.tail, sep)
        case None => None
        case Some((ps, r)) => Some((Cons(Pair(n, lit), ps), r))
      else Some((Cons(Pair(n, lit), Nil), rest))
    case _ => None
  }

  function ParseInsert(schema: string, table: string, toks: List<Tok>): Option<Statement> {
    match ParseNames(toks)
    case None => None
    case Some((names, r)) =>
      if r.Nil? || r.head != ValuesKw then None
      else
        match ParseLits(r.tail)
        case None => None
        case Some((values, r2)) =>
          if r2 == Cons(CloseList, Nil) then Some(Insert(schema, table, names, values)) else None
  }

  function ParseKeys(toks: List<Tok>): Option<List<Pair>> {
    match ParsePairs(toks, AndKw)
    case None => None
    case Some((keys, r)) => if r.Nil? then Some(keys) else None
  }

  function ParseUpdate(schema: string, table: string, toks: List<Tok>): Option<Statement> {
    match ParsePairs(toks, Comma)
    case None => None
    case Some((sets, r)) =>
      if r.Nil? || r.head != WhereKw then None
      else match ParseKeys(r.tail) case None => None case Some(keys) => Some(Update(schema, table, sets, keys))
  }

  function ParseDelete(schema: string, table: string, toks: List<Tok>): Option<Statement> {
    match ParseKeys(toks) case None => None case Some(keys) => Some(Delete(schema, table, keys))
  }

  function Parse(toks: List<Tok>): Option<Statement> {
    match toks
    case Cons(verb, Cons(Name(schema), Cons(Dot, Cons(Name(table), Cons(next, rest))))) =>
      if verb == InsertInto && next == OpenList then ParseInsert(schema, table, rest)
      else if verb == UpdateKw && next == SetKw then ParseUpdate(schema, table, rest)
      else if verb == DeleteFrom && next == WhereKw then ParseDelete(schema, table, rest)
      else None
    case _ => None
  }

  // ---- parsing undoes printing ----

  lemma {:induction false} NamesParse(names: List<string>, rest: List<Tok>)
    requires names.Cons? && !StartsWith(rest, Comma)
    ensures ParseNames(PrintNames(names, rest)) == Some((names, rest))
  {
    if names.tail.Cons? { NamesParse(names.tail, rest); }
  }

  lemma {:induction false} LitsParse(lits: List<Tok>, rest: List<Tok>)
    requires lits.Cons? && AllLits(lits) && !StartsWith(rest, Comma)
    ensures ParseLits(PrintLits(lits, rest)) == Some((lits, rest))
  {
    if lits.tail.Cons? { LitsParse(lits.tail, rest); }
  }

  lemma {:induction false} PairsParse(ps: List<Pair>, sep: Tok, rest: List<Tok>)
    requires ps.Cons? && PairLits(ps) && !StartsWith(rest, sep)
    ensures ParsePairs(PrintPairs(ps, sep, rest), sep) == Some((ps, rest))
  {
    if ps.tail.Cons? { PairsParse(ps.tail, sep, rest); }
  }

  lemma InsertParses(schema: string, table: string, names: List<string>, values: List<Tok>)
    requires names.Cons? && values.Cons? && AllLits(values)
    ensures ParseInsert(schema, table, PrintNames(names, Cons(ValuesKw, PrintLits(values, Cons(CloseList, Nil)))))
            == Some(Insert(schema, table, names, values))
  {
    LitsParse(values, Cons(CloseList, Nil));
    NamesParse(names, Cons(ValuesKw, PrintLits(values, Cons(CloseList, Nil))));
  }

  lemma UpdateParses(schema: string, table: string, sets: List<Pair>, keys: List<Pair>)
    requires sets.Cons? && keys.Cons? && PairLits(sets) && PairLits(keys)
    ensures ParseUpdate(schema, table, PrintPairs(sets, Comma, Cons(WhereKw, PrintPairs(keys, AndKw, Nil))))
            == Some(Update(schema, table, sets, keys))
  {
    PairsParse(keys, AndKw, Nil);
    PairsParse(sets, Comma, Cons(WhereKw, PrintPairs(keys, AndKw, Nil)));
  }

  /** Every well-formed statement is read back from the text printed for it. */
  lemma ParsePrint(s: Statement)
    requires WellFormed(s)
    ensures Parse(Print(s)) == Some(s)
  {
    match s
    case Insert(schema, table, names, values) => InsertParses(schema, table, names, values);
    case Update(schema, table, sets, keys) => UpdateParses(schema, table, sets, keys);
    case Delete(_, _, keys) => PairsParse(keys, AndKw, Nil);
  }
}
