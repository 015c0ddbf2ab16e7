/** Reading SQL text: characters become lexemes, lexemes become the pieces the builders append. */
module SqlText {
  import opened Lists
  import opened Plan
  import opened Sql
  import Decimal

  // ---- lexemes ----

  datatype Kw =
    | KSelect | KFrom | KWhere | KAnd | KOrder | KBy | KDesc | KIs | KNot | KNull | KOffset | KRows | KFetch | KNext
    | KOnly
    | KInsert | KInto | KValues | KUpdate | KSet | KDelete | KCast | KAs | KNvarchar | KMax | KStAsText | KStAsBinary

  datatype Sym = LParen | RParen | CommaSym | DotSym | Question | Lt | Le | Gt | Ge | Eq

  datatype Lexeme = Key(kw: Kw) | Quoted(name: string) | Str(text: string) | Number(digits: string) | S(sym: Sym)

  predicate Letter(c: char) {
    'a' <= c <= 'z' || 'A' <= c <= 'Z'
  }

  predicate NumChar(c: char) {
    Decimal.IsDigit(c) || c == '-' || c == '+' || c == '.' || c == 'e' || c == 'E'
  }

  predicate NumberText(t: string) {
    t != "" && (Decimal.IsDigit(t[0]) || t[0] == '-') && forall i :: 0 <= i < |t| ==> NumChar(t[i])
  }

  /** What "%.17g" writes for an infinity or a NaN: inf or nan, perhaps signed, perhaps with more behind. */
  predicate NotANumber(t: string) {
    var u := if t != "" && t[0] == '-' then t[1..] else t;
    |u| >= 2 && (u[..2] == "in" || u[..2] == "na")
  }

  function Keyword(w: string): Option<Kw> {
    match |w|
    case 2 => if w == "BY" then Some(KBy) else if w == "IS" then Some(KIs) else if w == "AS" then Some(KAs) else None
    case 3 =>
      if w == "AND" then Some(KAnd) else if w == "NOT" then Some(KNot) else if w == "SET" then Some(KSet)
      else if w == "max" then Some(KMax) else None
    case 4 =>
      if w == "FROM" then Some(KFrom) else if w == "DESC" then Some(KDesc) else if w == "NULL" then Some(KNull)
      else if w == "ROWS" then Some(KRows) else if w == "NEXT" then Some(KNext) else if w == "ONLY" then Some(KOnly)
      else if w == "INTO" then Some(KInto) else if w == "CAST" then Some(KCast) else None
    case 5 =>
      if w == "WHERE" then Some(KWhere) else if w == "ORDER" then Some(KOrder) else if w == "FETCH" then Some(KFetch)
      else None
    case 6 =>
      if w == "SELECT" then Some(KSelect) else if w == "OFFSET" then Some(KOffset)
      else if w == "INSERT" then Some(KInsert)
      else if w == "VALUES" then Some(KValues) else if w == "UPDATE" then Some(KUpdate)
      else if w == "DELETE" then Some(KDelete) else None
    case 8 => if w == "nvarchar" then Some(KNvarchar) else if w == "STAsText" then Some(KStAsText) else None
    case 10 => if w == "STAsBinary" then Some(KStAsBinary) else None
    case _ => None
  }

  // ---- characters to lexemes ----

  /** How many characters of s, from the first on, satisfy p. */
  function Run(s: string, p: char -> bool): (k: nat)
    ensures k <= |s| && (forall i :: 0 <= i < k ==> p(s[i])) && (k < |s| ==> !p(s[k]))
  {
    if s == "" || !p(s[0]) then 0 else 1 + Run(s[1..], p)
  }

  /** The inside of a literal or bracketed name and what follows its closing character; that character
      twice stands for itself. */
  function Body(s: string, close: char): (r: Option<(string, string)>)
    ensures r.Some? ==> |r.value.1| < |s|
  {
    if s == "" then None
    else if s[0] != close then
      match Body(s[1..], close) case None => None case Some((t, rest)) => Some(([s[0]] + t, rest))
    else if |s| > 1 && s[1] == close then
      match Body(s[2..], close) case None => None case Some((t, rest)) => Some(([close] + t, rest))
    else Some(("", s[1..]))
  }

  function ReadWord(s: string): Option<(Lexeme, string)> {
    var k := Run(s, Letter);
    match Keyword(s[..k]) case None => None case Some(kw) => Some((Key(kw), s[k..]))
  }

  function ReadSymbol(s: string): Option<(Lexeme, string)>
    requires s != ""
  {
    var eq := |s| > 1 && s[1] == '=';
    if s[0] == '(' then Some((S(LParen), s[1..]))
    else if s[0] == ')' then Some((S(RParen), s[1..]))
    else if s[0] == ',' then Some((S(CommaSym), s[1..]))
    else if s[0] == '.' then Some((S(DotSym), s[1..]))
    else if s[0] == '?' then Some((S(Question), s[1..]))
    else if s[0] == '=' then Some((S(Eq), s[1..]))
    else if s[0] == '<' then if eq then Some((S(Le), s[2..])) else Some((S(Lt), s[1..]))
    else if s[0] == '>' then if eq then Some((S(Ge), s[2..])) else Some((S(Gt), s[1..]))
    else None
  }

  /** The lexeme s begins with, and what follows it. */
  function ReadLexeme(s: string): Option<(Lexeme, string)> {
    if s == "" then None
    else if s[0] == 'N' && |s| > 1 && s[1] == '\'' then
      match Body(s[2..], '\'') case None => None case Some((t, rest)) => Some((Str(t), rest))
    else if Letter(s[0]) then ReadWord(s)
    else if s[0] == '[' then
      match Body(s[1..], ']') case None => None case Some((n, rest)) => Some((Quoted(n), rest))
    else if Decimal.IsDigit(s[0]) || s[0] == '-' then
      var k := Run(s, NumChar);
      Some((Number(s[..k]), s[k..]))
    else ReadSymbol(s)
  }

  type Reader = string -> Option<(Lexeme, string)>

  ghost predicate Shrinks(read: Reader) {
    forall s :: read(s).Some? ==> |read(s).value.1| < |s|
  }

  lemma LexemeShrinks()
    ensures Shrinks(ReadLexeme)
  {
    forall s | ReadLexeme(s).Some? ensures |ReadLexeme(s).value.1| < |s| {}
  }

  /** The lexemes of a text, with a reader for one of them; spaces separate and mean nothing else. */
  ghost function LexWith(read: Reader, s: string): Option<List<Lexeme>>
    requires Shrinks(read)
    decreases |s|
  {
    if s == "" then Some(Nil)
    else if s[0] == ' ' then LexWith(read, s[1..])
    else
      match read(s)
      case None => None
      case Some((x, rest)) => match LexWith(read, rest) case None => None case Some(more) => Some(Cons(x, more))
  }

  ghost function Lex(s: string): Option<List<Lexeme>> {
    LexemeShrinks();
    LexWith(ReadLexeme, s)
  }

  // ---- lexemes to tokens ----

  /** Behind IS. */
  function GroupIs(ls: List<Lexeme>): (out: Option<(Tok, List<Lexeme>)>)
    ensures out.Some? ==> out.value.1 < ls
  {
    match ls
    case Cons(Key(KNull), r) => Some((IsNull, r))
    case Cons(Key(KNot), Cons(Key(KNull), r)) => Some((IsNotNull, r))
    case _ => None
  }

  /** Behind ROWS. */
  function GroupRows(ls: List<Lexeme>): (out: Option<(Tok, List<Lexeme>)>)
    ensures out.Some? ==> out.value.1 < ls
  {
    match ls
    case Cons(Key(KOnly), r) => Some((RowsOnly, r))
    case Cons(Key(KFetch), Cons(Key(KNext), r)) => Some((RowsFetchNext, r))
    case _ => None
  }

  /** Behind "nvarchar(" of a cast of column n. */
  function GroupWidth(n: string, ls: List<Lexeme>): (out: Option<(Tok, List<Lexeme>)>)
    ensures out.Some? ==> out.value.1 < ls
  {
    match ls
    case Cons(w, Cons(S(RParen), Cons(S(RParen), r))) =>
      if w == Key(KMax) then Some((Cast(n, true), r)) else if w == Number("4000") then Some((Cast(n, false), r))
        else None
    case _ => None
  }

  /** Behind CAST. */
  function GroupCast(ls: List<Lexeme>): (out: Option<(Tok, List<Lexeme>)>)
    ensures out.Some? ==> out.value.1 < ls
  {
    match ls
    case Cons(S(LParen), Cons(Quoted(n), Cons(Key(KAs), Cons(Key(KNvarchar), Cons(S(LParen), r))))) => GroupWidth(n, r)
    case _ => None
  }

  /** Behind a bracketed name: a method call makes it a spatial projection. */
  function GroupName(n: string, ls: List<Lexeme>): (out: Option<(Tok, List<Lexeme>)>)
    ensures out.Some? ==> out.value.1 == ls || out.value.1 < ls
  {
    match ls
    case Cons(S(DotSym), Cons(Key(KStAsText), Cons(S(LParen), Cons(S(RParen), r)))) => Some((Geo(n, true), r))
    case Cons(S(DotSym), Cons(Key(KStAsBinary), Cons(S(LParen), Cons(S(RParen), r)))) => Some((Geo(n, false), r))
    case _ => Some((Name(n), ls))
  }

  /** Behind a closing parenthesis: VALUES ( makes it the end of a column list. */
  function GroupClose(ls: List<Lexeme>): (out: Option<(Tok, List<Lexeme>)>)
    ensures out.Some? ==> out.value.1 == ls || out.value.1 < ls
  {
    match ls
    case Cons(Key(KValues), Cons(S(LParen), r)) => Some((ValuesKw, r))
    case _ => Some((CloseList, ls))
  }

  function GroupWord(k: Kw, r: List<Lexeme>): (out: Option<(Tok, List<Lexeme>)>)
    ensures out.Some? ==> out.value.1 == r || out.value.1 < r
  {
    match k
    case KSelect => Some((SelectKw, r))
    case KFrom => Some((FromKw, r))
    case KWhere => Some((WhereKw, r))
    case KAnd => Some((AndKw, r))
    case KOrder => if r.Cons? && r.head == Key(KBy) then Some((OrderByKw, r.tail)) else None
    case KDesc => Some((DescKw, r))
    case KIs => GroupIs(r)
    case KOffset => Some((OffsetKw, r))
    case KRows => GroupRows(r)
    case KInsert => if r.Cons? && r.head == Key(KInto) then Some((InsertInto, r.tail)) else None
    case KUpdate => Some((UpdateKw, r))
    case KSet => Some((SetKw, r))
    case KDelete => if r.Cons? && r.head == Key(KFrom) then Some((DeleteFrom, r.tail)) else None
    case KNull => Some((NullLit, r))
    case KCast => GroupCast(r)
    case _ => None
  }

  function GroupSym(s: Sym, r: List<Lexeme>): Option<(Tok, List<Lexeme>)> {
    match s
    case LParen => Some((OpenList, r))
    case RParen => GroupClose(r)
    case CommaSym => Some((Comma, r))
    case DotSym => Some((Dot, r))
    case Question => Some((Param, r))
    case Lt => Some((Cmp(LT), r))
    case Le => Some((Cmp(LE), r))
    case Gt => Some((Cmp(GT), r))
    case Ge => Some((Cmp(GE), r))
    case Eq => Some((Cmp(EQ), r))
  }

  /** The token the lexemes begin with, and the lexemes behind it. */
  function GroupTok(ls: List<Lexeme>): (r: Option<(Tok, List<Lexeme>)>)
    ensures r.Some? ==> r.value.1 < ls
  {
    match ls
    case Nil => None
    case Cons(Key(k), r) => GroupWord(k, r)
    case Cons(Quoted(n), r) => GroupName(n, r)
    case Cons(Str(t), r) => Some((TextLit(t), r))
    case Cons(Number(d), r) => Some((Num(d), r))
    case Cons(S(s), r) => GroupSym(s, r)
  }

  function Group(ls: List<Lexeme>): Option<List<Tok>>
    decreases ls
  {
    if ls.Nil? then Some(Nil)
    else
      match GroupTok(ls)
      case None => None
      case Some((t, r)) =>
        match Group(r) case None => None case Some(more) => Some(Cons(t, more))
  }

  /** The tokens of a text. */
  ghost function Tokenize(s: string): Option<List<Tok>> {
    match Lex(s) case None => None case Some(ls) => Group(ls)
  }

  /** Placeholders: question marks outside brackets and literals. */
  function Questions(ls: List<Lexeme>): nat {
    if ls.Nil? then 0 else (if ls.head == S(Question) then 1 else 0) + Questions(ls.tail)
  }

  ghost function PlaceholdersOf(s: string): nat {
    match Lex(s) case None => 0 case Some(ls) => Questions(ls)
  }
}
