/** Lexemes and their characters: text made of lexemes and spaces is read back as those lexemes. */
module SqlRead {
  import opened Lists
  import opened Plan
  import opened Sql
  import opened SqlText
  import Decimal

  // ---- the text of a lexeme ----

  function KwText(k: Kw): string {
    match k
    case KSelect => "SELECT" case KFrom => "FROM" case KWhere => "WHERE" case KAnd => "AND" case KOrder => "ORDER"
    case KBy => "BY" case KDesc => "DESC" case KIs => "IS" case KNot => "NOT" case KNull => "NULL"
    case KOffset => "OFFSET" case KRows => "ROWS" case KFetch => "FETCH" case KNext => "NEXT" case KOnly => "ONLY"
    case KInsert => "INSERT" case KInto => "INTO" case KValues => "VALUES" case KUpdate => "UPDATE" case KSet => "SET"
    case KDelete => "DELETE" case KCast => "CAST" case KAs => "AS" case KNvarchar => "nvarchar" case KMax => "max"
    case KStAsText => "STAsText" case KStAsBinary => "STAsBinary"
  }

  function SymText(s: Sym): string {
    match s
    case LParen => "(" case RParen => ")" case CommaSym => "," case DotSym => "." case Question => "?"
    case Lt => "<" case Le => "<=" case Gt => ">" case Ge => ">=" case Eq => "="
  }

  function LexText(x: Lexeme): string {
    match x
    case Key(k) => KwText(k)
    case Quoted(n) => "[" + n + "]"
    case Str(t) => Literal(t)
    case Number(d) => d
    case S(sym) => SymText(sym)
  }

  /** What the builders write for numbers. */
  predicate Sound(x: Lexeme) {
    x.Number? ==> NumberText(x.digits) || NotANumber(x.digits)
  }

  /** Names are written as they are: a closing bracket in one is not doubled. */
  predicate CleanName(x: Lexeme) {
    x.Quoted? ==> ']' !in x.name
  }

  /** A lexeme that can be told from its characters. */
  predicate Clean(x: Lexeme) {
    CleanName(x) && (x.Number? ==> NumberText(x.digits))
  }

  /** The lexeme ends before a character c. */
  predicate EndsBefore(x: Lexeme, c: char) {
    match x
    case Key(_) => !Letter(c) && c != '\''
    case Quoted(_) => c != ']'
    case Str(_) => c != '\''
    case Number(_) => !NumChar(c)
    case S(sym) => (sym.Lt? || sym.Gt?) ==> c != '='
  }

  predicate Follows(x: Lexeme, rest: string) {
    rest == "" || EndsBefore(x, rest[0])
  }

  // ---- reading one lexeme back ----

  lemma {:induction false} RunOver(s: string, rest: string, p: char -> bool)
    requires (forall i :: 0 <= i < |s| ==> p(s[i])) && (rest == "" || !p(rest[0]))
    ensures Run(s + rest, p) == |s| && (s + rest)[..|s|] == s && (s + rest)[|s|..] == rest
  {
    if s == "" {
      assert s + rest == rest;
    } else {
      assert (s + rest)[1..] == s[1..] + rest;
      RunOver(s[1..], rest, p);
    }
  }

  lemma KwLetters(k: Kw)
    ensures KwText(k) != "" && forall i :: 0 <= i < |KwText(k)| ==> Letter(KwText(k)[i])
  {
  }

  lemma KwReads(k: Kw)
    ensures Keyword(KwText(k)) == Some(k)
  {
  }

  lemma KeyReads(k: Kw, rest: string)
    requires Follows(Key(k), rest)
    ensures ReadLexeme(KwText(k) + rest) == Some((Key(k), rest))
  {
    var w := KwText(k);
    KwReads(k);
    KwLetters(k);
    RunOver(w, rest, Letter);
    assert (w + rest)[0] == w[0] && |w| > 1 && (w + rest)[1] == w[1];
  }

  lemma {:induction false} BodyReads(t: string, close: char, rest: string)
    requires rest == "" || rest[0] != close
    ensures Body(Doubled(t, close) + ([close] + rest), close) == Some((t, rest))
  {
    var s := Doubled(t, close) + ([close] + rest);
    if t == "" {
      assert s == [close] + rest && s[1..] == rest;
    } else {
      var piece := if t[0] == close then [close, close] else [t[0]];
      Assoc(piece, Doubled(t[1..], close), [close] + rest);
      assert s[|piece|..] == Doubled(t[1..], close) + ([close] + rest);
      BodyReads(t[1..], close, rest);
      assert [t[0]] + t[1..] == t;
    }
  }

  lemma {:induction false} NothingDoubled(t: string, c: char)
    requires c !in t
    ensures Doubled(t, c) == t
  {
    if t != "" { NothingDoubled(t[1..], c); }
  }

  lemma StrReads(t: string, rest: string)
    requires Follows(Str(t), rest)
    ensures ReadLexeme(Literal(t) + rest) == Some((Str(t), rest))
  {
    var s := Literal(t) + rest;
    assert s[0] == 'N' && s[1] == '\'' && s[2..] == Doubled(t, '\'') + ("'" + rest);
    BodyReads(t, '\'', rest);
  }

  lemma QuotedReads(n: string, rest: string)
    requires ']' !in n && Follows(Quoted(n), rest)
    ensures ReadLexeme("[" + n + "]" + rest) == Some((Quoted(n), rest))
  {
    var s := "[" + n + "]" + rest;
    assert s[0] == '[' && s[1..] == n + ("]" + rest);
    NothingDoubled(n, ']');
    BodyReads(n, ']', rest);
  }

  lemma NumberReads(d: string, rest: string)
    requires NumberText(d) && Follows(Number(d), rest)
    ensures ReadLexeme(d + rest) == Some((Number(d), rest))
  {
    RunOver(d, rest, NumChar);
    assert (d + rest)[0] == d[0];
  }

  lemma SymReads(sym: Sym, rest: string)
    requires Follows(S(sym), rest)
    ensures ReadLexeme(SymText(sym) + rest) == Some((S(sym), rest))
  {
    var s := SymText(sym) + rest;
    assert s[0] == SymText(sym)[0] && s[|SymText(sym)|..] == rest;
    assert |SymText(sym)| == 1 && rest != "" ==> s[1] == rest[0];
    assert |SymText(sym)| == 2 ==> s[1] == '=';
  }

  lemma LexemeReads(x: Lexeme, rest: string)
    requires Clean(x) && Follows(x, rest)
    ensures ReadLexeme(LexText(x) + rest) == Some((x, rest))
  {
    match x
    case Key(k) => KeyReads(k, rest);
    case Quoted(n) => QuotedReads(n, rest);
    case Str(t) => StrReads(t, rest);
    case Number(d) => NumberReads(d, rest);
    case S(sym) => SymReads(sym, rest);
  }

  // ---- a name with a closing bracket is not read back ----

  lemma {:induction false} BodyIs(s: string, close: char)
    requires Body(s, close).Some?
    ensures s == Doubled(Body(s, close).value.0, close) + ([close] + Body(s, close).value.1)
  {
    if s[0] != close {
      BodyIs(s[1..], close);
    } else if |s| > 1 && s[1] == close {
      BodyIs(s[2..], close);
      assert s == [close, close] + s[2..];
    }
  }

  function Count(s: string, c: char): nat {
    if s == "" then 0 else (if s[0] == c then 1 else 0) + Count(s[1..], c)
  }

  lemma {:induction false} CountSum(a: string, b: string, c: char)
    ensures Count(a + b, c) == Count(a, c) + Count(b, c)
  {
    if a == "" {
      assert a + b == b;
    } else {
      assert (a + b)[1..] == a[1..] + b;
      CountSum(a[1..], b, c);
    }
  }

  lemma CountOne(d: char, c: char)
    ensures Count([d], c) == if d == c then 1 else 0
  {
    assert [d][1..] == "";
  }

  lemma {:induction false} DoubledCount(t: string, c: char)
    ensures |Doubled(t, c)| == |t| + Count(t, c) && Count(Doubled(t, c), c) == 2 * Count(t, c)
  {
    if t != "" {
      DoubledCount(t[1..], c);
      var piece := if t[0] == c then [c, c] else [t[0]];
      CountOne(c, c);
      CountOne(t[0], c);
      CountSum([c], [c], c);
      assert [c] + [c] == [c, c];
      CountSum(piece, Doubled(t[1..], c), c);
    }
  }

  lemma {:induction false} CountBounds(s: string, c: char)
    ensures Count(s, c) <= |s| && (Count(s, c) == |s| > 0 ==> s[0] == c) && (c in s ==> Count(s, c) > 0)
  {
    if s != "" { CountBounds(s[1..], c); }
  }

  lemma PrefixCount(a: string, b: string, x: string, y: string, c: char)
    requires a + b == x + y && |a| <= |x|
    ensures |x| - |a| <= |b| && Count(x, c) == Count(a, c) + Count(b[..|x| - |a|], c)
  {
    assert x == (a + b)[..|x|] == a + b[..|x| - |a|];
    CountSum(a, b[..|x| - |a|], c);
  }

  lemma CountLast(n: string, c: char)
    ensures Count(n + [c], c) == Count(n, c) + 1
  {
    CountSum(n, [c], c);
    CountOne(c, c);
  }

  /** Read as itself, a name with a closing character takes such characters from behind it. */
  lemma UncleanBody(n: string, close: char, rest: string, rest': string)
    requires close in n && n + [close] + rest == Doubled(n, close) + [close] + rest'
    ensures rest != "" && rest[0] == close
  {
    var d, k := Doubled(n, close), Count(n, close);
    DoubledCount(n, close);
    PrefixCount(n + [close], rest, d + [close], rest', close);
    CountLast(n, close);
    CountLast(d, close);
    CountBounds(rest[..k], close);
    CountBounds(n, close);
  }

  lemma UncleanMisread(n: string, rest: string)
    requires ']' in n && Follows(Quoted(n), rest)
    ensures var r := ReadLexeme(LexText(Quoted(n)) + rest); r.Some? ==> r.value.0 != Quoted(n)
  {
    var s := "[" + n + "]" + rest;
    assert s[0] == '[' && s[1..] == n + ("]" + rest);
    var b := Body(s[1..], ']');
    if b.Some? && b.value.0 == n {
      BodyIs(s[1..], ']');
      Assoc(n, "]", rest);
      Assoc(Doubled(n, ']'), "]", b.value.1);
      UncleanBody(n, ']', rest, b.value.1);
    }
  }

  // ---- an infinity is not read at all ----

  /** No keyword begins with these letters. */
  lemma NoKeyword(w: string)
    requires |w| >= 2 && (w[..2] == "in" || w[..2] == "na")
    ensures Keyword(w) == None
  {
    assert w[0] == w[..2][0] && w[1] == w[..2][1];
  }

  lemma WordFails(s: string)
    requires |s| >= 2 && (s[..2] == "in" || s[..2] == "na")
    ensures ReadLexeme(s) == None
  {
    assert s[0] == s[..2][0] && s[1] == s[..2][1];
    var k := Run(s, Letter);
    assert Letter(s[0]) && Letter(s[1]);
    assert k >= 2;
    assert s[..k][..2] == s[..2];
    NoKeyword(s[..k]);
  }

  lemma MinusReads(s: string)
    requires |s| >= 2 && (s[..2] == "in" || s[..2] == "na")
    ensures ReadLexeme("-" + s) == Some((Number("-"), s))
  {
    assert s[0] == s[..2][0];
    RunOver("-", s, NumChar);
    assert ("-" + s)[0] == '-';
  }

  /** The number fails at once, or behind its sign. */
  ghost predicate FailsOn(read: Reader, t: string, rest: string) {
    read(t + rest) == None ||
    (t != "" && t[0] == '-' && read(t + rest) == Some((Number("-"), t[1..] + rest)) && read(t[1..] + rest) == None)
  }

  lemma NotANumberFails(t: string, rest: string)
    requires NotANumber(t)
    ensures FailsOn(ReadLexeme, t, rest)
  {
    var u := if t[0] == '-' then t[1..] else t;
    assert (u + rest)[..2] == u[..2];
    WordFails(u + rest);
    if t[0] == '-' {
      assert t + rest == "-" + (u + rest);
      MinusReads(u + rest);
    }
  }

  // ---- lexemes and spaces ----

  datatype Piece = Space | L(x: Lexeme)

  datatype Pieces = Done | P(head: Piece, tail: Pieces)

  function PieceText(p: Piece): string {
    if p.Space? then " " else LexText(p.x)
  }

  function PiecesText(ps: Pieces): string {
    if ps.Done? then "" else PieceText(ps.head) + PiecesText(ps.tail)
  }

  function Lexemes(ps: Pieces): List<Lexeme> {
    if ps.Done? then Nil else if ps.head.Space? then Lexemes(ps.tail) else Cons(ps.head.x, Lexemes(ps.tail))
  }

  /** The piece is no letter, digit, sign or point. */
  predicate Breaks(p: Piece) {
    p.Space? || p.x.Quoted? || (p.x.S? && p.x.sym != DotSym)
  }

  /** The lexeme ends where the piece begins. */
  predicate Meets(x: Lexeme, p: Piece) {
    match x
    case Key(_) => p.Space? || p.x.Quoted? || p.x.S?
    case Number(_) => Breaks(p)
    case S(sym) => (sym.Lt? || sym.Gt?) ==> p.Space?
    case _ => true
  }

  /** Every lexeme ends where what follows it begins. */
  predicate Apart(ps: Pieces) {
    ps.Done? ||
    ((ps.head.L? ==> Sound(ps.head.x) && (ps.tail.P? ==> Meets(ps.head.x, ps.tail.head))) && Apart(ps.tail))
  }

  predicate Every(ls: List<Lexeme>, p: Lexeme -> bool) {
    ls.Nil? || (p(ls.head) && Every(ls.tail, p))
  }

  lemma PieceNotEmpty(p: Piece)
    requires p.L? ==> Sound(p.x)
    ensures PieceText(p) != "" && (p.L? ==> PieceText(p)[0] != ' ')
  {
  }

  lemma MeetsBefore(x: Lexeme, p: Piece)
    requires Meets(x, p) && (p.L? ==> Sound(p.x))
    ensures PieceText(p) != "" && EndsBefore(x, PieceText(p)[0])
  {
    PieceNotEmpty(p);
    if p.L? && p.x.Key? { KwLetters(p.x.kw); }
  }

  lemma PiecesFollow(x: Lexeme, ps: Pieces)
    requires Apart(ps) && (ps.P? ==> Meets(x, ps.head))
    ensures Follows(x, PiecesText(ps))
  {
    if ps.P? {
      MeetsBefore(x, ps.head);
      assert PiecesText(ps)[0] == PieceText(ps.head)[0];
    }
  }

  /** A reader of lexemes reads exactly the clean ones back, and fails on an infinity. */
  ghost predicate Reads(read: Reader) {
    && (forall x, rest :: Clean(x) && Follows(x, rest) ==> read(LexText(x) + rest) == Some((x, rest)))
    && (forall x, rest :: !CleanName(x) && Follows(x, rest) ==>
          (read(LexText(x) + rest).Some? ==> read(LexText(x) + rest).value.0 != x))
    && (forall t, rest :: NotANumber(t) ==> FailsOn(read, t, rest))
  }

  lemma ReaderReads()
    ensures Shrinks(ReadLexeme) && Reads(ReadLexeme)
  {
    LexemeShrinks();
    forall x, rest | Clean(x) && Follows(x, rest) ensures ReadLexeme(LexText(x) + rest) == Some((x, rest)) {
      LexemeReads(x, rest);
    }
    forall t, rest | NotANumber(t) ensures FailsOn(ReadLexeme, t, rest) { NotANumberFails(t, rest); }
    forall x, rest | !CleanName(x) && Follows(x, rest)
      ensures ReadLexeme(LexText(x) + rest).Some? ==> ReadLexeme(LexText(x) + rest).value.0 != x
    {
      UncleanMisread(x.name, rest);
    }
  }

  lemma LexSpace(read: Reader, s: string)
    requires Shrinks(read)
    ensures LexWith(read, " " + s) == LexWith(read, s)
  {
    assert (" " + s)[1..] == s;
  }

  lemma LexFails(read: Reader, t: string, rest: string)
    requires Shrinks(read) && Reads(read) && NotANumber(t)
    ensures LexWith(read, t + rest) == None
  {
    assert FailsOn(read, t, rest);
    assert (t + rest)[0] == t[0] && (t[0] == '-' ==> (t[1..] + rest)[0] == t[1..][0]);
    var u := if t[0] == '-' then t[1..] else t;
    assert u[0] == u[..2][0];
  }

  lemma LexOne(read: Reader, x: Lexeme, rest: string, more: List<Lexeme>)
    requires Shrinks(read) && Reads(read) && Sound(x) && Follows(x, rest)
    ensures LexWith(read, LexText(x) + rest) == Some(Cons(x, more)) <==> Clean(x) && LexWith(read, rest) == Some(more)
  {
    PieceNotEmpty(L(x));
    assert (LexText(x) + rest)[0] == LexText(x)[0];
    if x.Number? && !Clean(x) { LexFails(read, x.digits, rest); }
  }

  lemma LexNone(read: Reader, x: Lexeme, rest: string)
    requires Shrinks(read) && Reads(read) && Sound(x) && CleanName(x) && Follows(x, rest)
    ensures Clean(x) && LexWith(read, rest) != None ==> LexWith(read, LexText(x) + rest) != None
    ensures !Clean(x) || LexWith(read, rest) == None ==> LexWith(read, LexText(x) + rest) == None
  {
    PieceNotEmpty(L(x));
    assert (LexText(x) + rest)[0] == LexText(x)[0];
    if x.Number? && !Clean(x) { LexFails(read, x.digits, rest); }
  }

  lemma {:induction false} PiecesLex(read: Reader, ps: Pieces)
    requires Shrinks(read) && Reads(read) && Apart(ps)
    ensures LexWith(read, PiecesText(ps)) == Some(Lexemes(ps)) <==> Every(Lexemes(ps), Clean)
  {
    if ps.P? {
      PiecesLex(read, ps.tail);
      if ps.head.Space? {
        LexSpace(read, PiecesText(ps.tail));
      } else {
        PiecesFollow(ps.head.x, ps.tail);
        LexOne(read, ps.head.x, PiecesText(ps.tail), Lexemes(ps.tail));
      }
    }
  }

  /** With clean names, text with an infinity or a NaN in it is not read at all. */
  lemma {:induction false} PiecesFail(read: Reader, ps: Pieces)
    requires Shrinks(read) && Reads(read) && Apart(ps) && Every(Lexemes(ps), CleanName)
    ensures LexWith(read, PiecesText(ps)) == None <==> !Every(Lexemes(ps), Clean)
  {
    if ps.P? {
      PiecesFail(read, ps.tail);
      if ps.head.Space? {
        LexSpace(read, PiecesText(ps.tail));
      } else {
        PiecesFollow(ps.head.x, ps.tail);
        LexNone(read, ps.head.x, PiecesText(ps.tail));
      }
    }
  }
}
