/** INSERT, UPDATE and DELETE as text: a statement is read back from its characters. */
module DmlText {
  import opened Lists
  import opened Plan
  import opened Sql
  import opened SqlText
  import opened SqlTokens
  import opened DmlSql

  /** The statement a text stands for. */
  ghost function ReadStatement(s: string): Option<Statement> {
    match Tokenize(s) case None => None case Some(toks) => Parse(toks)
  }

  function StatementText(s: Statement): string
    requires WellFormed(s)
  {
    Chars(Print(s))
  }

  // ---- statements whose numbers are numbers and whose names are plain ----

  predicate SoundPairs(ps: List<Pair>) {
    ps.Nil? || (SoundTok(ps.head.lit) && SoundPairs(ps.tail))
  }

  predicate SoundStatement(s: Statement) {
    match s
    case Insert(_, _, _, values) => AllSound(values)
    case Update(_, _, sets, keys) => SoundPairs(sets) && SoundPairs(keys)
    case Delete(_, _, keys) => SoundPairs(keys)
  }

  predicate PlainNameList(names: List<string>) {
    names.Nil? || (']' !in names.head && PlainNameList(names.tail))
  }

  predicate PlainPairs(ps: List<Pair>) {
    ps.Nil? || (']' !in ps.head.name && PlainPairs(ps.tail))
  }

  /** No name of the statement has a closing bracket. */
  predicate PlainStatement(s: Statement) {
    && ']' !in s.schema && ']' !in s.table
    && match s
       case Insert(_, _, names, _) => PlainNameList(names)
       case Update(_, _, sets, keys) => PlainPairs(sets) && PlainPairs(keys)
       case Delete(_, _, keys) => PlainPairs(keys)
  }

  predicate NumericPairs(ps: List<Pair>) {
    ps.Nil? || (PlainTok(ps.head.lit) && NumericPairs(ps.tail))
  }

  /** Every number of the statement is one: no infinity, no NaN. */
  predicate NumericStatement(s: Statement) {
    match s
    case Insert(_, _, _, values) => Plain(values)
    case Update(_, _, sets, keys) => NumericPairs(sets) && NumericPairs(keys)
    case Delete(_, _, keys) => NumericPairs(keys)
  }

  /** What is said of the tokens of a text: its names are plain, and its numbers are numbers. */
  predicate Marks(toks: List<Tok>, names: bool, numbers: bool) {
    (PlainNamed(toks) <==> names) && (Plain(toks) <==> names && numbers)
  }

  lemma TableMarks(schema: string, table: string, rest: List<Tok>, names: bool, numbers: bool)
    requires Marks(rest, names, numbers)
    ensures Marks(PrintTable(schema, table, rest), ']' !in schema && ']' !in table && names, numbers)
  {
    assert Marks(Cons(Dot, Cons(Name(table), rest)), ']' !in table && names, numbers);
  }

  lemma {:induction false} NamesMarks(list: List<string>, rest: List<Tok>, names: bool, numbers: bool)
    requires list.Cons? && Marks(rest, names, numbers)
    ensures Marks(PrintNames(list, rest), PlainNameList(list) && names, numbers)
  {
    if list.tail.Cons? { NamesMarks(list.tail, rest, names, numbers); }
  }

  lemma {:induction false} LitsMarks(lits: List<Tok>, rest: List<Tok>, names: bool, numbers: bool)
    requires lits.Cons? && AllLits(lits) && Marks(rest, names, numbers)
    ensures Marks(PrintLits(lits, rest), names, Plain(lits) && numbers)
  {
    if lits.tail.Cons? { LitsMarks(lits.tail, rest, names, numbers); }
  }

  lemma PairMarks(p: Pair, rest: List<Tok>, names: bool, numbers: bool)
    requires IsLit(p.lit) && Marks(rest, names, numbers)
    ensures Marks(PrintPair(p, rest), ']' !in p.name && names, PlainTok(p.lit) && numbers)
  {
    assert Marks(Cons(p.lit, rest), names, PlainTok(p.lit) && numbers);
    assert Marks(Cons(Cmp(EQ), Cons(p.lit, rest)), names, PlainTok(p.lit) && numbers);
  }

  lemma {:induction false} PairsMarks(ps: List<Pair>, sep: Tok, rest: List<Tok>, names: bool, numbers: bool)
    requires ps.Cons? && PairLits(ps) && (sep == Comma || sep == AndKw) && Marks(rest, names, numbers)
    ensures Marks(PrintPairs(ps, sep, rest), PlainPairs(ps) && names, NumericPairs(ps) && numbers)
  {
    if ps.tail.Nil? {
      PairMarks(ps.head, rest, names, numbers);
    } else {
      PairsMarks(ps.tail, sep, rest, names, numbers);
      PairMarks(ps.head, Cons(sep, PrintPairs(ps.tail, sep, rest)), PlainPairs(ps.tail) && names,
                NumericPairs(ps.tail) && numbers);
    }
  }

  lemma InsertMarks(s: Statement)
    requires s.Insert? && WellFormed(s)
    ensures Marks(Print(s), PlainStatement(s), NumericStatement(s))
  {
    var close := Cons(CloseList, Nil);
    var values := Cons(ValuesKw, PrintLits(s.values, close));
    assert Marks(close, true, true);
    LitsMarks(s.values, close, true, true);
    NamesMarks(s.names, values, true, Plain(s.values));
    TableMarks(s.schema, s.table, Cons(OpenList, PrintNames(s.names, values)), PlainNameList(s.names), Plain(s.values));
  }

  lemma UpdateMarks(s: Statement)
    requires s.Update? && WellFormed(s)
    ensures Marks(Print(s), PlainStatement(s), NumericStatement(s))
  {
    var where := Cons(WhereKw, PrintPairs(s.keys, AndKw, Nil));
    PairsMarks(s.keys, AndKw, Nil, true, true);
    PairsMarks(s.sets, Comma, where, PlainPairs(s.keys), NumericPairs(s.keys));
    TableMarks(s.schema, s.table, Cons(SetKw, PrintPairs(s.sets, Comma, where)),
               PlainPairs(s.sets) && PlainPairs(s.keys), NumericPairs(s.sets) && NumericPairs(s.keys));
  }

  lemma StatementMarks(s: Statement)
    requires WellFormed(s)
    ensures Marks(Print(s), PlainStatement(s), NumericStatement(s))
  {
    match s
    case Insert(_, _, _, _) => InsertMarks(s);
    case Update(_, _, _, _) => UpdateMarks(s);
    case Delete(schema, table, keys) =>
      PairsMarks(keys, AndKw, Nil, true, true);
      TableMarks(schema, table, Cons(WhereKw, PrintPairs(keys, AndKw, Nil)), PlainPairs(keys), NumericPairs(keys));
  }

  // ---- the text keeps its words apart ----

  lemma TableTidy(schema: string, table: string, rest: List<Tok>)
    requires Tidy(rest)
    ensures Tidy(PrintTable(schema, table, rest))
  {
    TidyCons(Name(table), rest);
    TidyCons(Dot, Cons(Name(table), rest));
    TidyCons(Name(schema), Cons(Dot, Cons(Name(table), rest)));
  }

  lemma {:induction false} NamesTidy(names: List<string>, rest: List<Tok>)
    requires names.Cons? && Tidy(rest)
    ensures Tidy(PrintNames(names, rest))
  {
    if names.tail.Cons? {
      NamesTidy(names.tail, rest);
      TidyCons(Comma, PrintNames(names.tail, rest));
    }
  }

  lemma {:induction false} LitsTidy(lits: List<Tok>, rest: List<Tok>)
    requires lits.Cons? && AllLits(lits) && AllSound(lits) && Tidy(rest) && Free(rest)
    ensures Tidy(PrintLits(lits, rest))
  {
    if lits.tail.Cons? {
      LitsTidy(lits.tail, rest);
      TidyCons(Comma, PrintLits(lits.tail, rest));
    }
  }

  lemma PairTidy(p: Pair, rest: List<Tok>)
    requires IsLit(p.lit) && SoundTok(p.lit) && Tidy(rest) && Free(rest)
    ensures Tidy(PrintPair(p, rest))
  {
    TidyCons(p.lit, rest);
    TidyCons(Cmp(EQ), Cons(p.lit, rest));
  }

  lemma {:induction false} PairsTidy(ps: List<Pair>, sep: Tok, rest: List<Tok>)
    requires ps.Cons? && PairLits(ps) && SoundPairs(ps) && Tidy(rest) && Free(rest) && (sep == Comma || sep == AndKw)
    ensures Tidy(PrintPairs(ps, sep, rest))
  {
    if ps.tail.Nil? {
      PairTidy(ps.head, rest);
    } else {
      PairsTidy(ps.tail, sep, rest);
      TidyCons(sep, PrintPairs(ps.tail, sep, rest));
      PairTidy(ps.head, Cons(sep, PrintPairs(ps.tail, sep, rest)));
    }
  }

  lemma InsertTidy(s: Statement)
    requires s.Insert? && WellFormed(s) && SoundStatement(s)
    ensures Tidy(Print(s))
  {
    var close := Cons(CloseList, Nil);
    var values := Cons(ValuesKw, PrintLits(s.values, close));
    LitsTidy(s.values, close);
    TidyCons(ValuesKw, PrintLits(s.values, close));
    NamesTidy(s.names, values);
    TidyCons(OpenList, PrintNames(s.names, values));
    TableTidy(s.schema, s.table, Cons(OpenList, PrintNames(s.names, values)));
  }

  lemma UpdateTidy(s: Statement)
    requires s.Update? && WellFormed(s) && SoundStatement(s)
    ensures Tidy(Print(s))
  {
    var where := Cons(WhereKw, PrintPairs(s.keys, AndKw, Nil));
    PairsTidy(s.keys, AndKw, Nil);
    TidyCons(WhereKw, PrintPairs(s.keys, AndKw, Nil));
    PairsTidy(s.sets, Comma, where);
    TidyCons(SetKw, PrintPairs(s.sets, Comma, where));
    TableTidy(s.schema, s.table, Cons(SetKw, PrintPairs(s.sets, Comma, where)));
  }

  lemma StatementTidy(s: Statement)
    requires WellFormed(s) && SoundStatement(s)
    ensures Tidy(Print(s))
  {
    match s
    case Insert(_, _, _, _) => InsertTidy(s);
    case Update(_, _, _, _) => UpdateTidy(s);
    case Delete(schema, table, keys) =>
      PairsTidy(keys, AndKw, Nil);
      TidyCons(WhereKw, PrintPairs(keys, AndKw, Nil));
      TableTidy(schema, table, Cons(WhereKw, PrintPairs(keys, AndKw, Nil)));
  }

  // ---- printing undoes parsing ----

  lemma {:induction false} NamesPrint(toks: List<Tok>)
    requires ParseNames(toks).Some?
    ensures var r := ParseNames(toks).value; r.0.Cons? && PrintNames(r.0, r.1) == toks
  {
    if toks.tail.Cons? && toks.tail.head == Comma { NamesPrint(toks.tail.tail); }
  }

  lemma {:induction false} LitsPrint(toks: List<Tok>)
    requires ParseLits(toks).Some?
    ensures var r := ParseLits(toks).value; r.0.Cons? && AllLits(r.0) && PrintLits(r.0, r.1) == toks
  {
    if toks.tail.Cons? && toks.tail.head == Comma { LitsPrint(toks.tail.tail); }
  }

  lemma {:induction false} PairsPrint(toks: List<Tok>, sep: Tok)
    requires ParsePairs(toks, sep).Some?
    ensures var r := ParsePairs(toks, sep).value; r.0.Cons? && PairLits(r.0) && PrintPairs(r.0, sep, r.1) == toks
    decreases toks
  {
    var rest := toks.tail.tail.tail;
    if rest.Cons? && rest.head == sep { PairsPrint(rest.tail, sep); }
  }

  lemma InsertPrints(schema: string, table: string, toks: List<Tok>)
    requires ParseInsert(schema, table, toks).Some?
    ensures var s := ParseInsert(schema, table, toks).value;
            && WellFormed(s) && s.schema == schema && s.table == table
            && Print(s) == Cons(InsertInto, PrintTable(schema, table, Cons(OpenList, toks)))
  {
    NamesPrint(toks);
    LitsPrint(ParseNames(toks).value.1.tail);
  }

  lemma UpdatePrints(schema: string, table: string, toks: List<Tok>)
    requires ParseUpdate(schema, table, toks).Some?
    ensures var s := ParseUpdate(schema, table, toks).value;
            && WellFormed(s) && s.schema == schema && s.table == table
            && Print(s) == Cons(UpdateKw, PrintTable(schema, table, Cons(SetKw, toks)))
  {
    PairsPrint(toks, Comma);
    PairsPrint(ParsePairs(toks, Comma).value.1.tail, AndKw);
  }

  lemma DeletePrints(schema: string, table: string, toks: List<Tok>)
    requires ParseDelete(schema, table, toks).Some?
    ensures var s := ParseDelete(schema, table, toks).value;
            && WellFormed(s) && s.schema == schema && s.table == table
            && Print(s) == Cons(DeleteFrom, PrintTable(schema, table, Cons(WhereKw, toks)))
  {
    PairsPrint(toks, AndKw);
  }

  /** What is parsed is what would be printed. */
  lemma PrintParse(toks: List<Tok>)
    requires Parse(toks).Some?
    ensures WellFormed(Parse(toks).value) && Print(Parse(toks).value) == toks
  {
    match toks
    case Cons(verb, Cons(Name(schema), Cons(Dot, Cons(Name(table), Cons(next, rest))))) =>
      assert toks == Cons(verb, PrintTable(schema, table, Cons(next, rest)));
      if verb == InsertInto {
        InsertPrints(schema, table, rest);
      } else if verb == UpdateKw {
        UpdatePrints(schema, table, rest);
      } else {
        DeletePrints(schema, table, rest);
      }
  }

  /** A statement is read back from its characters, literals included, if and only if no name in it has a
      closing bracket and every number is one; with plain names and an infinity or a NaN among its literals
      its text is no statement. */
  lemma ReadPrint(s: Statement)
    requires WellFormed(s) && SoundStatement(s)
    ensures ReadStatement(StatementText(s)) == Some(s) <==> PlainStatement(s) && NumericStatement(s)
    ensures PlainStatement(s) && !NumericStatement(s) ==> ReadStatement(StatementText(s)) == None
  {
    StatementTidy(s);
    StatementMarks(s);
    TokenizeChars(Print(s));
    ParsePrint(s);
    if ReadStatement(StatementText(s)) == Some(s) { PrintParse(Tokenize(StatementText(s)).value); }
  }

  /** An infinity among the literals: the text is no statement. */
  lemma InfinityIsLost(schema: string, table: string)
    requires ']' !in schema && ']' !in table
    ensures ReadStatement(StatementText(Delete(schema, table, Cons(Pair("x", Num("inf")), Nil)))) == None
  {
    assert NotANumber("inf") by { assert "inf"[..2] == "in"; }
    assert !NumChar("inf"[1]);
    ReadPrint(Delete(schema, table, Cons(Pair("x", Num("inf")), Nil)));
  }
}
