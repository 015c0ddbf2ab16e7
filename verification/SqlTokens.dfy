/** The pieces the builders append, down to the characters: the text of a token list is read back as that
    list. */
module SqlTokens {
  import opened Lists
  import opened Plan
  import opened Sql
  import opened SqlText
  import opened SqlRead

  // ---- the pieces of the builders' tokens ----

  function CmpSym(op: ConstraintOp): Sym {
    match op case LT => Lt case LE => Le case GT => Gt case GE => Ge case _ => Eq
  }

  function Phrase(a: Kw, rest: Pieces): Pieces {
    P(Space, P(L(Key(a)), rest))
  }

  /** The pieces of a token in front of others. */
  function PiecesOf(t: Tok, rest: Pieces): Pieces {
    var more := P(Space, rest);
    match t
    case SelectKw => P(L(Key(KSelect)), more)
    case FromKw => Phrase(KFrom, more)
    case WhereKw => Phrase(KWhere, more)
    case AndKw => Phrase(KAnd, more)
    case OrderByKw => var by' := Phrase(KBy, more); Phrase(KOrder, by')
    case DescKw => Phrase(KDesc, rest)
    case Comma => P(L(S(CommaSym)), more)
    case Dot => P(L(S(DotSym)), rest)
    case Name(n) => P(L(Quoted(n)), rest)
    case Cast(n, max) =>
      var width := if max then Key(KMax) else Number("4000");
      var close := P(L(S(RParen)), P(L(S(RParen)), rest));
      var type' := P(L(S(LParen)), P(L(width), close));
      var as' := Phrase(KNvarchar, type');
      P(L(Key(KCast)), P(L(S(LParen)), P(L(Quoted(n)), Phrase(KAs, as'))))
    case Geo(n, wkt) =>
      var method' := Key(if wkt then KStAsText else KStAsBinary);
      var call := P(L(S(LParen)), P(L(S(RParen)), rest));
      P(L(Quoted(n)), P(L(S(DotSym)), P(L(method'), call)))
    case Cmp(op) => P(Space, P(L(S(CmpSym(op))), more))
    case Param => P(L(S(Question)), rest)
    case IsNull => var null' := Phrase(KNull, rest); Phrase(KIs, null')
    case IsNotNull => var null' := Phrase(KNull, rest); var not := Phrase(KNot, null'); Phrase(KIs, not)
    case OffsetKw => Phrase(KOffset, more)
    case RowsFetchNext => var next := Phrase(KNext, more); var fetch := Phrase(KFetch, next); Phrase(KRows, fetch)
    case RowsOnly => var only := Phrase(KOnly, rest); Phrase(KRows, only)
    case InsertInto => var into := Phrase(KInto, more); P(L(Key(KInsert)), into)
    case OpenList => P(Space, P(L(S(LParen)), rest))
    case ValuesKw => var open := P(Space, P(L(S(LParen)), rest)); P(L(S(RParen)), Phrase(KValues, open))
    case CloseList => P(L(S(RParen)), rest)
    case UpdateKw => P(L(Key(KUpdate)), more)
    case SetKw => Phrase(KSet, more)
    case DeleteFrom => var from := Phrase(KFrom, more); P(L(Key(KDelete)), from)
    case NullLit => P(L(Key(KNull)), rest)
    case Num(d) => P(L(Number(d)), rest)
    case TextLit(s) => P(L(Str(s)), rest)
  }

  function AllPieces(toks: List<Tok>): Pieces {
    if toks.Nil? then Done else PiecesOf(toks.head, AllPieces(toks.tail))
  }

  /** One more piece in front. */
  lemma OnePiece(p: Piece, ps: Pieces, s: string, r: string)
    requires PiecesText(ps) == s + r
    ensures PiecesText(P(p, ps)) == PieceText(p) + s + r
  {
    Assoc(PieceText(p), s, r);
  }

  /** A space and a word in front. */
  lemma OneWord(k: Kw, ps: Pieces, s: string, r: string)
    requires PiecesText(ps) == s + r
    ensures PiecesText(Phrase(k, ps)) == " " + (KwText(k) + s) + r
  {
    OnePiece(L(Key(k)), ps, s, r);
    OnePiece(Space, P(L(Key(k)), ps), KwText(k) + s, r);
  }

  lemma OneSpace(rest: Pieces)
    ensures PiecesText(P(Space, rest)) == " " + PiecesText(rest) && PiecesText(rest) == "" + PiecesText(rest)
  {
    assert "" + PiecesText(rest) == PiecesText(rest);
  }

  lemma FramedText(k: Kw, rest: Pieces)
    ensures PiecesText(Phrase(k, P(Space, rest))) == " " + (KwText(k) + " ") + PiecesText(rest)
  {
    OneSpace(rest);
    OneWord(k, P(Space, rest), " ", PiecesText(rest));
  }

  lemma FramedLiteral(t: Tok, k: Kw)
    requires (t.FromKw? && k.KFrom?) || (t.WhereKw? && k.KWhere?) || (t.AndKw? && k.KAnd?) ||
             (t.OffsetKw? && k.KOffset?)
             || (t.SetKw? && k.KSet?)
    ensures " " + (KwText(k) + " ") == Text(t)
  {
  }

  /** Tokens of one word between spaces. */
  lemma WordText(t: Tok, k: Kw, rest: Pieces)
    requires (t.FromKw? && k.KFrom?) || (t.WhereKw? && k.KWhere?) || (t.AndKw? && k.KAnd?) ||
             (t.OffsetKw? && k.KOffset?)
             || (t.SetKw? && k.KSet?)
    ensures PiecesText(PiecesOf(t, rest)) == Text(t) + PiecesText(rest)
  {
    FramedText(k, rest);
    FramedLiteral(t, k);
  }

  lemma VerbText(t: Tok, rest: Pieces)
    requires t.SelectKw? || t.UpdateKw? || t.DescKw?
    ensures PiecesText(PiecesOf(t, rest)) == Text(t) + PiecesText(rest)
  {
    OneSpace(rest);
    match t
    case SelectKw =>
      OnePiece(L(Key(KSelect)), P(Space, rest), " ", PiecesText(rest));
      assert "SELECT" + " " == "SELECT ";
    case UpdateKw =>
      OnePiece(L(Key(KUpdate)), P(Space, rest), " ", PiecesText(rest));
      assert "UPDATE" + " " == "UPDATE ";
    case DescKw =>
      OneWord(KDesc, rest, "", PiecesText(rest));
      assert " " + ("DESC" + "") == " DESC";
  }

  lemma OrderByText(rest: Pieces)
    ensures PiecesText(PiecesOf(OrderByKw, rest)) == Text(OrderByKw) + PiecesText(rest)
  {
    FramedText(KBy, rest);
    assert " " + ("BY" + " ") == " BY ";
    OneWord(KOrder, Phrase(KBy, P(Space, rest)), " BY ", PiecesText(rest));
    assert " " + ("ORDER" + " BY ") == " ORDER BY ";
  }

  lemma NullText(rest: Pieces)
    ensures PiecesText(Phrase(KNull, rest)) == " NULL" + PiecesText(rest)
  {
    OneSpace(rest);
    OneWord(KNull, rest, "", PiecesText(rest));
    assert " " + ("NULL" + "") == " NULL";
  }

  lemma IsNullText(rest: Pieces)
    ensures PiecesText(PiecesOf(IsNull, rest)) == Text(IsNull) + PiecesText(rest)
  {
    NullText(rest);
    OneWord(KIs, Phrase(KNull, rest), " NULL", PiecesText(rest));
    assert " " + ("IS" + " NULL") == " IS NULL";
  }

  lemma NotNullText(rest: Pieces)
    ensures PiecesText(Phrase(KNot, Phrase(KNull, rest))) == " NOT NULL" + PiecesText(rest)
  {
    NullText(rest);
    OneWord(KNot, Phrase(KNull, rest), " NULL", PiecesText(rest));
    assert " " + ("NOT" + " NULL") == " NOT NULL";
  }

  lemma IsNotNullText(rest: Pieces)
    ensures PiecesText(PiecesOf(IsNotNull, rest)) == Text(IsNotNull) + PiecesText(rest)
  {
    NotNullText(rest);
    OneWord(KIs, Phrase(KNot, Phrase(KNull, rest)), " NOT NULL", PiecesText(rest));
    assert " " + ("IS" + " NOT NULL") == " IS NOT NULL";
  }

  lemma RowsOnlyText(rest: Pieces)
    ensures PiecesText(PiecesOf(RowsOnly, rest)) == Text(RowsOnly) + PiecesText(rest)
  {
    var r := PiecesText(rest);
    OneSpace(rest);
    OneWord(KOnly, rest, "", r);
    OneWord(KRows, Phrase(KOnly, rest), " " + ("ONLY" + ""), r);
    assert " " + ("ROWS" + (" " + ("ONLY" + ""))) == " ROWS ONLY";
  }

  lemma NextText(rest: Pieces)
    ensures PiecesText(Phrase(KNext, P(Space, rest))) == " NEXT " + PiecesText(rest)
  {
    FramedText(KNext, rest);
    assert " " + ("NEXT" + " ") == " NEXT ";
  }

  lemma FetchLiteral()
    ensures " " + (KwText(KFetch) + " NEXT ") == " FETCH NEXT "
  {
  }

  lemma RowsLiteral()
    ensures " " + (KwText(KRows) + " FETCH NEXT ") == Text(RowsFetchNext)
  {
  }

  lemma FetchNextText(rest: Pieces)
    ensures PiecesText(Phrase(KFetch, Phrase(KNext, P(Space, rest)))) == " FETCH NEXT " + PiecesText(rest)
  {
    NextText(rest);
    OneWord(KFetch, Phrase(KNext, P(Space, rest)), " NEXT ", PiecesText(rest));
    FetchLiteral();
  }

  lemma RowsFetchText(rest: Pieces)
    ensures PiecesText(PiecesOf(RowsFetchNext, rest)) == Text(RowsFetchNext) + PiecesText(rest)
  {
    FetchNextText(rest);
    OneWord(KRows, Phrase(KFetch, Phrase(KNext, P(Space, rest))), " FETCH NEXT ", PiecesText(rest));
    RowsLiteral();
  }

  lemma InsertText(rest: Pieces)
    ensures PiecesText(PiecesOf(InsertInto, rest)) == Text(InsertInto) + PiecesText(rest)
  {
    FramedText(KInto, rest);
    OnePiece(L(Key(KInsert)), Phrase(KInto, P(Space, rest)), " " + ("INTO" + " "), PiecesText(rest));
    assert "INSERT" + (" " + ("INTO" + " ")) == "INSERT INTO ";
  }

  lemma DeleteText(rest: Pieces)
    ensures PiecesText(PiecesOf(DeleteFrom, rest)) == Text(DeleteFrom) + PiecesText(rest)
  {
    FramedText(KFrom, rest);
    OnePiece(L(Key(KDelete)), Phrase(KFrom, P(Space, rest)), " " + ("FROM" + " "), PiecesText(rest));
    assert "DELETE" + (" " + ("FROM" + " ")) == "DELETE FROM ";
  }

  lemma OpenText(rest: Pieces)
    ensures PiecesText(PiecesOf(OpenList, rest)) == Text(OpenList) + PiecesText(rest)
  {
    assert PiecesText(P(L(S(LParen)), rest)) == "(" + PiecesText(rest);
    OnePiece(Space, P(L(S(LParen)), rest), "(", PiecesText(rest));
    assert " " + "(" == " (";
  }

  lemma ValuesText(rest: Pieces)
    ensures PiecesText(PiecesOf(ValuesKw, rest)) == Text(ValuesKw) + PiecesText(rest)
  {
    var open := P(Space, P(L(S(LParen)), rest));
    OpenText(rest);
    OneWord(KValues, open, " (", PiecesText(rest));
    OnePiece(L(S(RParen)), Phrase(KValues, open), " " + ("VALUES" + " ("), PiecesText(rest));
    assert ")" + (" " + ("VALUES" + " (")) == ") VALUES (";
  }

  lemma CloseText(rest: Pieces)
    ensures PiecesText(P(L(S(RParen)), P(L(S(RParen)), rest))) == "))" + PiecesText(rest)
    ensures PiecesText(P(L(S(LParen)), P(L(S(RParen)), rest))) == "()" + PiecesText(rest)
  {
    var r, one := PiecesText(rest), P(L(S(RParen)), rest);
    assert PiecesText(one) == ")" + r;
    OnePiece(L(S(RParen)), one, ")", r);
    OnePiece(L(S(LParen)), one, ")", r);
    assert ")" + ")" == "))" && "(" + ")" == "()";
  }

  lemma WidthLiteral(max: bool)
    ensures "(" + (LexText(if max then Key(KMax) else Number("4000")) + "))") == if max then "(max))" else "(4000))"
  {
  }

  lemma TypeText(max: bool, rest: Pieces)
    ensures var width := if max then Key(KMax) else Number("4000");
            var close := P(L(S(RParen)), P(L(S(RParen)), rest));
            PiecesText(P(L(S(LParen)), P(L(width), close))) == (if max then "(max))" else "(4000))") + PiecesText(rest)
  {
    var width := if max then Key(KMax) else Number("4000");
    var close := P(L(S(RParen)), P(L(S(RParen)), rest));
    CloseText(rest);
    OnePiece(L(width), close, "))", PiecesText(rest));
    OnePiece(L(S(LParen)), P(L(width), close), LexText(width) + "))", PiecesText(rest));
    WidthLiteral(max);
  }

  /** From AS on. */
  lemma AsText(max: bool, rest: Pieces)
    ensures var width := if max then Key(KMax) else Number("4000");
            var type' := P(L(S(LParen)), P(L(width), P(L(S(RParen)), P(L(S(RParen)), rest))));
            var w := if max then "(max))" else "(4000))";
            PiecesText(Phrase(KAs, Phrase(KNvarchar, type'))) ==
              " " + ("AS" + (" " + ("nvarchar" + w))) + PiecesText(rest)
  {
    var r, w := PiecesText(rest), if max then "(max))" else "(4000))";
    var width := if max then Key(KMax) else Number("4000");
    var type' := P(L(S(LParen)), P(L(width), P(L(S(RParen)), P(L(S(RParen)), rest))));
    TypeText(max, rest);
    OneWord(KNvarchar, type', w, r);
    OneWord(KAs, Phrase(KNvarchar, type'), " " + ("nvarchar" + w), r);
  }

  lemma CallText(n: string, ps: Pieces, tail: string, r: string)
    requires PiecesText(ps) == tail + r
    ensures PiecesText(P(L(Key(KCast)), P(L(S(LParen)), P(L(Quoted(n)), ps)))) ==
              "CAST" + ("(" + ("[" + n + "]" + tail)) + r
  {
    var inner := P(L(Quoted(n)), ps);
    OnePiece(L(Quoted(n)), ps, tail, r);
    OnePiece(L(S(LParen)), inner, "[" + n + "]" + tail, r);
    OnePiece(L(Key(KCast)), P(L(S(LParen)), inner), "(" + ("[" + n + "]" + tail), r);
  }

  lemma CastText(n: string, max: bool, rest: Pieces)
    ensures PiecesText(PiecesOf(Cast(n, max), rest)) == Text(Cast(n, max)) + PiecesText(rest)
  {
    var tail := " " + ("AS" + (" " + ("nvarchar" + (if max then "(max))" else "(4000))"))));
    var width := if max then Key(KMax) else Number("4000");
    var type' := P(L(S(LParen)), P(L(width), P(L(S(RParen)), P(L(S(RParen)), rest))));
    AsText(max, rest);
    CallText(n, Phrase(KAs, Phrase(KNvarchar, type')), tail, PiecesText(rest));
    CastLiteral(n, max, tail);
  }

  lemma CastLiteral(n: string, max: bool, tail: string)
    requires tail == " " + ("AS" + (" " + ("nvarchar" + (if max then "(max))" else "(4000))"))))
    ensures "CAST" + ("(" + ("[" + n + "]" + tail)) == Text(Cast(n, max))
  {
    assert tail == if max then " AS nvarchar(max))" else " AS nvarchar(4000))";
    assert "CAST" + ("(" + ("[" + n + "]" + tail)) == "CAST([" + n + "]" + tail;
  }

  lemma GeoLiteral(wkt: bool)
    ensures "." + (KwText(if wkt then KStAsText else KStAsBinary) + "()") ==
            if wkt then ".STAsText()" else ".STAsBinary()"
  {
  }

  lemma GeoText(n: string, wkt: bool, rest: Pieces)
    ensures PiecesText(PiecesOf(Geo(n, wkt), rest)) == Text(Geo(n, wkt)) + PiecesText(rest)
  {
    var r, call := PiecesText(rest), P(L(S(LParen)), P(L(S(RParen)), rest));
    var method' := Key(if wkt then KStAsText else KStAsBinary);
    CloseText(rest);
    OnePiece(L(method'), call, "()", r);
    OnePiece(L(S(DotSym)), P(L(method'), call), LexText(method') + "()", r);
    var tail := if wkt then ".STAsText()" else ".STAsBinary()";
    GeoLiteral(wkt);
    OnePiece(L(Quoted(n)), P(L(S(DotSym)), P(L(method'), call)), tail, r);
  }

  lemma SmallText(t: Tok, rest: Pieces)
    requires t.Comma? || t.Dot? || t.Name? || t.Param? || t.CloseList? || t.NullLit? || t.Num? || t.TextLit?
    ensures PiecesText(PiecesOf(t, rest)) == Text(t) + PiecesText(rest)
  {
    if t.Comma? {
      OneSpace(rest);
      OnePiece(L(S(CommaSym)), P(Space, rest), " ", PiecesText(rest));
      assert "," + " " == ", ";
    }
  }

  lemma CmpText(op: ConstraintOp, rest: Pieces)
    ensures PiecesText(PiecesOf(Cmp(op), rest)) == Text(Cmp(op)) + PiecesText(rest)
  {
    var r, sym := PiecesText(rest), SymText(CmpSym(op));
    OneSpace(rest);
    OnePiece(L(S(CmpSym(op))), P(Space, rest), " ", r);
    OnePiece(Space, P(L(S(CmpSym(op))), P(Space, rest)), sym + " ", r);
    assert " " + (sym + " ") == Text(Cmp(op));
  }

  /** The pieces of a token are its characters. */
  lemma PiecesAre(t: Tok, rest: Pieces)
    ensures PiecesText(PiecesOf(t, rest)) == Text(t) + PiecesText(rest)
  {
    match t
    case Cast(n, max) => CastText(n, max, rest);
    case Geo(n, wkt) => GeoText(n, wkt, rest);
    case Cmp(op) => CmpText(op, rest);
    case OrderByKw => OrderByText(rest);
    case SelectKw => VerbText(t, rest);
    case UpdateKw => VerbText(t, rest);
    case DescKw => VerbText(t, rest);
    case FromKw => WordText(t, KFrom, rest);
    case WhereKw => WordText(t, KWhere, rest);
    case AndKw => WordText(t, KAnd, rest);
    case OffsetKw => WordText(t, KOffset, rest);
    case SetKw => WordText(t, KSet, rest);
    case IsNull => IsNullText(rest);
    case IsNotNull => IsNotNullText(rest);
    case RowsOnly => RowsOnlyText(rest);
    case RowsFetchNext => RowsFetchText(rest);
    case InsertInto => InsertText(rest);
    case DeleteFrom => DeleteText(rest);
    case OpenList => OpenText(rest);
    case ValuesKw => ValuesText(rest);
    case _ => SmallText(t, rest);
  }

  lemma {:induction false} AllPiecesAre(toks: List<Tok>)
    ensures PiecesText(AllPieces(toks)) == Chars(toks)
  {
    if toks.Cons? {
      AllPiecesAre(toks.tail);
      PiecesAre(toks.head, AllPieces(toks.tail));
    }
  }

  // ---- the pieces of a token list are apart ----

  /** The token ends in a word or number. */
  predicate Sticky(t: Tok) {
    t.DescKw? || t.IsNull? || t.IsNotNull? || t.RowsOnly? || t.NullLit? || t.Num?
  }

  /** The token begins with neither a letter nor a character of a number. */
  predicate Loose(t: Tok) {
    !(t.SelectKw? || t.InsertInto? || t.UpdateKw? || t.DeleteFrom? || t.NullLit? || t.TextLit? || t.Num? || t.Cast? ||
      t.Dot?)
  }

  /** No word or number runs into the next one. */
  predicate Spaced(toks: List<Tok>) {
    toks.Nil? || ((Sticky(toks.head) && toks.tail.Cons? ==> Loose(toks.tail.head)) && Spaced(toks.tail))
  }

  /** Numbers are as the builders write them, and a comparison is one of the five. */
  predicate SoundTok(t: Tok) {
    (t.Num? ==> NumberText(t.digits) || NotANumber(t.digits)) && (t.Cmp? ==> IsComparison(t.op))
  }

  predicate AllSound(toks: List<Tok>) {
    toks.Nil? || (SoundTok(toks.head) && AllSound(toks.tail))
  }

  /** Words stand apart and numbers are numbers. */
  predicate Tidy(toks: List<Tok>) {
    Spaced(toks) && AllSound(toks)
  }

  /** Begins with nothing that a word or number before it could run into. */
  predicate Free(toks: List<Tok>) {
    toks.Nil? || Loose(toks.head)
  }

  lemma TidyCons(t: Tok, rest: List<Tok>)
    requires Tidy(rest) && SoundTok(t) && (Sticky(t) ==> Free(rest))
    ensures Tidy(Cons(t, rest))
  {
  }

  /** Names without a closing bracket. */
  predicate PlainName(t: Tok) {
    t.Name? || t.Cast? || t.Geo? ==> ']' !in t.name
  }

  /** ... and numbers that are numbers. */
  predicate PlainTok(t: Tok) {
    PlainName(t) && (t.Num? ==> NumberText(t.digits))
  }

  predicate PlainNamed(toks: List<Tok>) {
    toks.Nil? || (PlainName(toks.head) && PlainNamed(toks.tail))
  }

  predicate Plain(toks: List<Tok>) {
    toks.Nil? || (PlainTok(toks.head) && Plain(toks.tail))
  }

  /** The token may stand before the piece. */
  predicate Boundary(t: Tok, p: Piece) {
    Sticky(t) ==> Breaks(p)
  }

  lemma FirstOfTok(t: Tok, rest: Pieces)
    ensures PiecesOf(t, rest).P? && (Loose(t) ==> Breaks(PiecesOf(t, rest).head))
  {
  }

  lemma PhraseApart(k: Kw, rest: Pieces)
    requires Apart(rest) && (rest.P? ==> Meets(Key(k), rest.head))
    ensures Apart(Phrase(k, rest)) && Phrase(k, rest).head == Space
  {
    assert Apart(P(L(Key(k)), rest));
  }

  lemma NullApart(t: Tok, rest: Pieces)
    requires (t.IsNull? || t.IsNotNull?) && Apart(rest) && (rest.P? ==> Breaks(rest.head))
    ensures Apart(PiecesOf(t, rest))
  {
    PhraseApart(KNull, rest);
    PhraseApart(KNot, Phrase(KNull, rest));
  }

  lemma RowsApart(t: Tok, rest: Pieces)
    requires t.RowsFetchNext? || t.RowsOnly?
    requires Apart(rest) && (rest.P? ==> Boundary(t, rest.head))
    ensures Apart(PiecesOf(t, rest))
  {
    if t.RowsOnly? {
      PhraseApart(KOnly, rest);
      PhraseApart(KRows, Phrase(KOnly, rest));
    } else {
      var next := Phrase(KNext, P(Space, rest));
      PhraseApart(KNext, P(Space, rest));
      PhraseApart(KFetch, next);
      PhraseApart(KRows, Phrase(KFetch, next));
    }
  }

  lemma LongApart(t: Tok, rest: Pieces)
    requires t.OrderByKw? || t.InsertInto? || t.DeleteFrom?
    requires Apart(rest)
    ensures Apart(PiecesOf(t, rest))
  {
    var more := P(Space, rest);
    match t
    case OrderByKw => PhraseApart(KBy, more);
    case InsertInto => PhraseApart(KInto, more);
    case DeleteFrom => PhraseApart(KFrom, more);
  }

  lemma WordApart(t: Tok, rest: Pieces)
    requires t.DescKw? || t.FromKw? || t.WhereKw? || t.AndKw? || t.OffsetKw? || t.SetKw?
    requires Apart(rest) && (rest.P? ==> Boundary(t, rest.head))
    ensures Apart(PiecesOf(t, rest))
  {
    match t
    case DescKw => PhraseApart(KDesc, rest);
    case FromKw => PhraseApart(KFrom, P(Space, rest));
    case WhereKw => PhraseApart(KWhere, P(Space, rest));
    case AndKw => PhraseApart(KAnd, P(Space, rest));
    case OffsetKw => PhraseApart(KOffset, P(Space, rest));
    case SetKw => PhraseApart(KSet, P(Space, rest));
  }

  lemma CastApart(n: string, max: bool, rest: Pieces)
    requires Apart(rest)
    ensures Apart(PiecesOf(Cast(n, max), rest))
  {
    var width := if max then Key(KMax) else Number("4000");
    var close := P(L(S(RParen)), P(L(S(RParen)), rest));
    assert Apart(close) && Sound(width) && Apart(P(L(width), close));
    var type' := P(L(S(LParen)), P(L(width), close));
    PhraseApart(KNvarchar, type');
    PhraseApart(KAs, Phrase(KNvarchar, type'));
    assert Apart(P(L(Quoted(n)), Phrase(KAs, Phrase(KNvarchar, type'))));
  }

  lemma GeoApart(n: string, wkt: bool, rest: Pieces)
    requires Apart(rest)
    ensures Apart(PiecesOf(Geo(n, wkt), rest))
  {
    var method' := Key(if wkt then KStAsText else KStAsBinary);
    var call := P(L(S(LParen)), P(L(S(RParen)), rest));
    assert Apart(call) && Apart(P(L(method'), call));
    assert Apart(P(L(S(DotSym)), P(L(method'), call)));
  }

  lemma TokApart(t: Tok, rest: Pieces)
    requires SoundTok(t) && Apart(rest) && (rest.P? ==> Boundary(t, rest.head))
    ensures Apart(PiecesOf(t, rest))
  {
    match t
    case Cast(n, max) => CastApart(n, max, rest);
    case Geo(n, wkt) => GeoApart(n, wkt, rest);
    case ValuesKw => PhraseApart(KValues, P(Space, P(L(S(LParen)), rest)));
    case IsNull => NullApart(t, rest);
    case IsNotNull => NullApart(t, rest);
    case RowsFetchNext => RowsApart(t, rest);
    case RowsOnly => RowsApart(t, rest);
    case OrderByKw => LongApart(t, rest);
    case InsertInto => LongApart(t, rest);
    case DeleteFrom => LongApart(t, rest);
    case Cmp(op) => assert Apart(P(L(S(CmpSym(op))), P(Space, rest)));
    case DescKw => WordApart(t, rest);
    case FromKw => WordApart(t, rest);
    case WhereKw => WordApart(t, rest);
    case AndKw => WordApart(t, rest);
    case OffsetKw => WordApart(t, rest);
    case SetKw => WordApart(t, rest);
    case _ =>
  }

  lemma {:induction false} ToksApart(toks: List<Tok>)
    requires Tidy(toks)
    ensures Apart(AllPieces(toks))
  {
    if toks.Cons? {
      ToksApart(toks.tail);
      if toks.tail.Cons? { FirstOfTok(toks.tail.head, AllPieces(toks.tail.tail)); }
      TokApart(toks.head, AllPieces(toks.tail));
    }
  }

  // ---- lexemes back to tokens ----

  /** The lexemes of a token in front of others. */
  function Before(t: Tok, ls: List<Lexeme>): List<Lexeme> {
    match t
    case SelectKw => Cons(Key(KSelect), ls)
    case FromKw => Cons(Key(KFrom), ls)
    case WhereKw => Cons(Key(KWhere), ls)
    case AndKw => Cons(Key(KAnd), ls)
    case OrderByKw => Cons(Key(KOrder), Cons(Key(KBy), ls))
    case DescKw => Cons(Key(KDesc), ls)
    case Comma => Cons(S(CommaSym), ls)
    case Dot => Cons(S(DotSym), ls)
    case Name(n) => Cons(Quoted(n), ls)
    case Cast(n, max) =>
      var close := Cons(S(RParen), Cons(S(RParen), ls));
      var type' := Cons(S(LParen), Cons(if max then Key(KMax) else Number("4000"), close));
      var as' := Cons(Key(KAs), Cons(Key(KNvarchar), type'));
      Cons(Key(KCast), Cons(S(LParen), Cons(Quoted(n), as')))
    case Geo(n, wkt) =>
      var call := Cons(S(LParen), Cons(S(RParen), ls));
      Cons(Quoted(n), Cons(S(DotSym), Cons(Key(if wkt then KStAsText else KStAsBinary), call)))
    case Cmp(op) => Cons(S(CmpSym(op)), ls)
    case Param => Cons(S(Question), ls)
    case IsNull => Cons(Key(KIs), Cons(Key(KNull), ls))
    case IsNotNull => Cons(Key(KIs), Cons(Key(KNot), Cons(Key(KNull), ls)))
    case OffsetKw => Cons(Key(KOffset), ls)
    case RowsFetchNext => Cons(Key(KRows), Cons(Key(KFetch), Cons(Key(KNext), ls)))
    case RowsOnly => Cons(Key(KRows), Cons(Key(KOnly), ls))
    case InsertInto => Cons(Key(KInsert), Cons(Key(KInto), ls))
    case OpenList => Cons(S(LParen), ls)
    case ValuesKw => Cons(S(RParen), Cons(Key(KValues), Cons(S(LParen), ls)))
    case CloseList => Cons(S(RParen), ls)
    case UpdateKw => Cons(Key(KUpdate), ls)
    case SetKw => Cons(Key(KSet), ls)
    case DeleteFrom => Cons(Key(KDelete), Cons(Key(KFrom), ls))
    case NullLit => Cons(Key(KNull), ls)
    case Num(d) => Cons(Number(d), ls)
    case TextLit(s) => Cons(Str(s), ls)
  }

  lemma PhraseLexemes(k: Kw, rest: Pieces)
    ensures Lexemes(Phrase(k, rest)) == Cons(Key(k), Lexemes(rest))
  {
    assert Lexemes(P(L(Key(k)), rest)) == Cons(Key(k), Lexemes(rest));
  }

  lemma SpaceLexemes(rest: Pieces)
    ensures Lexemes(P(Space, rest)) == Lexemes(rest)
  {
  }

  lemma CastLexemes(n: string, max: bool, rest: Pieces)
    ensures Lexemes(PiecesOf(Cast(n, max), rest)) == Before(Cast(n, max), Lexemes(rest))
  {
    var width := if max then Key(KMax) else Number("4000");
    var close := P(L(S(RParen)), P(L(S(RParen)), rest));
    var type' := P(L(S(LParen)), P(L(width), close));
    assert Lexemes(type') == Cons(S(LParen), Cons(width, Lexemes(close)));
    PhraseLexemes(KNvarchar, type');
    PhraseLexemes(KAs, Phrase(KNvarchar, type'));
    var name := P(L(Quoted(n)), Phrase(KAs, Phrase(KNvarchar, type')));
    assert Lexemes(P(L(S(LParen)), name)) == Cons(S(LParen), Lexemes(name));
  }

  lemma GeoLexemes(n: string, wkt: bool, rest: Pieces)
    ensures Lexemes(PiecesOf(Geo(n, wkt), rest)) == Before(Geo(n, wkt), Lexemes(rest))
  {
    var call := P(L(S(LParen)), P(L(S(RParen)), rest));
    var method' := Key(if wkt then KStAsText else KStAsBinary);
    assert Lexemes(P(L(method'), call)) == Cons(method', Lexemes(call));
  }

  lemma PhrasesLexemes(t: Tok, rest: Pieces)
    requires t.OrderByKw? || t.IsNull? || t.IsNotNull? || t.RowsFetchNext? || t.RowsOnly? || t.InsertInto? ||
             t.DeleteFrom?
    ensures Lexemes(PiecesOf(t, rest)) == Before(t, Lexemes(rest))
  {
    var more := P(Space, rest);
    SpaceLexemes(rest);
    match t
    case OrderByKw => PhraseLexemes(KBy, more); PhraseLexemes(KOrder, Phrase(KBy, more));
    case IsNull => PhraseLexemes(KNull, rest); PhraseLexemes(KIs, Phrase(KNull, rest));
    case IsNotNull =>
      PhraseLexemes(KNull, rest);
      PhraseLexemes(KNot, Phrase(KNull, rest));
      PhraseLexemes(KIs, Phrase(KNot, Phrase(KNull, rest)));
    case RowsFetchNext =>
      PhraseLexemes(KNext, more);
      PhraseLexemes(KFetch, Phrase(KNext, more));
      PhraseLexemes(KRows, Phrase(KFetch, Phrase(KNext, more)));
    case RowsOnly => PhraseLexemes(KOnly, rest); PhraseLexemes(KRows, Phrase(KOnly, rest));
    case InsertInto => PhraseLexemes(KInto, more);
    case DeleteFrom => PhraseLexemes(KFrom, more);
  }

  lemma WordLexemes(t: Tok, rest: Pieces)
    requires t.FromKw? || t.WhereKw? || t.AndKw? || t.OffsetKw? || t.SetKw? || t.DescKw? || t.ValuesKw?
    ensures Lexemes(PiecesOf(t, rest)) == Before(t, Lexemes(rest))
  {
    var more := P(Space, rest);
    SpaceLexemes(rest);
    match t
    case FromKw => PhraseLexemes(KFrom, more);
    case WhereKw => PhraseLexemes(KWhere, more);
    case AndKw => PhraseLexemes(KAnd, more);
    case OffsetKw => PhraseLexemes(KOffset, more);
    case SetKw => PhraseLexemes(KSet, more);
    case DescKw => PhraseLexemes(KDesc, rest);
    case ValuesKw => PhraseLexemes(KValues, P(Space, P(L(S(LParen)), rest)));
  }

  lemma TokLexemes(t: Tok, rest: Pieces)
    ensures Lexemes(PiecesOf(t, rest)) == Before(t, Lexemes(rest))
  {
    match t
    case Cast(n, max) => CastLexemes(n, max, rest);
    case Geo(n, wkt) => GeoLexemes(n, wkt, rest);
    case OrderByKw => PhrasesLexemes(t, rest);
    case IsNull => PhrasesLexemes(t, rest);
    case IsNotNull => PhrasesLexemes(t, rest);
    case RowsFetchNext => PhrasesLexemes(t, rest);
    case RowsOnly => PhrasesLexemes(t, rest);
    case InsertInto => PhrasesLexemes(t, rest);
    case DeleteFrom => PhrasesLexemes(t, rest);
    case FromKw => WordLexemes(t, rest);
    case WhereKw => WordLexemes(t, rest);
    case AndKw => WordLexemes(t, rest);
    case OffsetKw => WordLexemes(t, rest);
    case SetKw => WordLexemes(t, rest);
    case DescKw => WordLexemes(t, rest);
    case ValuesKw => WordLexemes(t, rest);
    case _ => SpaceLexemes(rest);
  }

  function AllLexemes(toks: List<Tok>): List<Lexeme> {
    if toks.Nil? then Nil else Before(toks.head, AllLexemes(toks.tail))
  }

  lemma {:induction false} LexemesAre(toks: List<Tok>)
    ensures Lexemes(AllPieces(toks)) == AllLexemes(toks)
  {
    if toks.Cons? {
      LexemesAre(toks.tail);
      TokLexemes(toks.head, AllPieces(toks.tail));
    }
  }

  /** The property holds of words, symbols and the width of a cast. */
  ghost predicate Neutral(p: Lexeme -> bool) {
    (forall k :: p(Key(k))) && (forall s :: p(S(s))) && p(Number("4000"))
  }

  /** The property holds of the name or literal in the token. */
  predicate Inside(t: Tok, p: Lexeme -> bool) {
    match t
    case Name(n) => p(Quoted(n))
    case Cast(n, _) => p(Quoted(n))
    case Geo(n, _) => p(Quoted(n))
    case Num(d) => p(Number(d))
    case TextLit(s) => p(Str(s))
    case _ => true
  }

  lemma CastEvery(t: Tok, ls: List<Lexeme>, p: Lexeme -> bool)
    requires Neutral(p) && (t.Cast? || t.Geo?)
    ensures Every(Before(t, ls), p) <==> Inside(t, p) && Every(ls, p)
  {
    if t.Geo? {
      var call := Cons(S(LParen), Cons(S(RParen), ls));
      assert Every(call, p) <==> Every(ls, p);
      assert Every(Cons(S(DotSym), Cons(Key(if t.wkt then KStAsText else KStAsBinary), call)), p) <==> Every(ls, p);
    } else {
      var close := Cons(S(RParen), Cons(S(RParen), ls));
      assert Every(close, p) <==> Every(ls, p);
      var type' := Cons(S(LParen), Cons(if t.max then Key(KMax) else Number("4000"), close));
      assert Every(type', p) <==> Every(ls, p);
      var as' := Cons(Key(KAs), Cons(Key(KNvarchar), type'));
      assert Every(as', p) <==> Every(ls, p);
      assert Every(Cons(S(LParen), Cons(Quoted(t.name), as')), p) <==> Inside(t, p) && Every(ls, p);
    }
  }

  lemma TokEvery(t: Tok, ls: List<Lexeme>, p: Lexeme -> bool)
    requires Neutral(p)
    ensures Every(Before(t, ls), p) <==> Inside(t, p) && Every(ls, p)
  {
    match t
    case Cast(_, _) => CastEvery(t, ls, p);
    case Geo(_, _) => CastEvery(t, ls, p);
    case IsNotNull => assert Every(Cons(Key(KNot), Cons(Key(KNull), ls)), p) <==> Every(ls, p);
    case RowsFetchNext => assert Every(Cons(Key(KFetch), Cons(Key(KNext), ls)), p) <==> Every(ls, p);
    case ValuesKw => assert Every(Cons(Key(KValues), Cons(S(LParen), ls)), p) <==> Every(ls, p);
    case _ =>
  }

  predicate AllInside(toks: List<Tok>, p: Lexeme -> bool) {
    toks.Nil? || (Inside(toks.head, p) && AllInside(toks.tail, p))
  }

  lemma {:induction false} ToksEvery(toks: List<Tok>, p: Lexeme -> bool)
    requires Neutral(p)
    ensures Every(AllLexemes(toks), p) <==> AllInside(toks, p)
  {
    if toks.Cons? {
      ToksEvery(toks.tail, p);
      TokEvery(toks.head, AllLexemes(toks.tail), p);
    }
  }

  lemma {:induction false} PlainIs(toks: List<Tok>)
    ensures AllInside(toks, Clean) <==> Plain(toks)
    ensures AllInside(toks, CleanName) <==> PlainNamed(toks)
  {
    if toks.Cons? { PlainIs(toks.tail); }
  }

  /** The characters of a token list are read as its lexemes, if and only if it is plain; with plain names
      and a number that is none they are not read at all. */
  lemma CharsLex(toks: List<Tok>)
    requires Tidy(toks)
    ensures Lex(Chars(toks)) == Some(AllLexemes(toks)) <==> Plain(toks)
    ensures PlainNamed(toks) && !Plain(toks) ==> Lex(Chars(toks)) == None
  {
    ReaderReads();
    ToksApart(toks);
    AllPiecesAre(toks);
    LexemesAre(toks);
    assert NumberText("4000");
    ToksEvery(toks, Clean);
    ToksEvery(toks, CleanName);
    PlainIs(toks);
    PiecesLex(ReadLexeme, AllPieces(toks));
    if PlainNamed(toks) { PiecesFail(ReadLexeme, AllPieces(toks)); }
  }

  predicate StartsKey(ls: List<Lexeme>, k: Kw) {
    ls.Cons? && ls.head == Key(k)
  }

  /** What follows lets a token end: a name is not the object of a method call, a parenthesis not the end
      of a column list. */
  predicate Closed(ls: List<Lexeme>) {
    && !StartsKey(ls, KValues)
    && (ls.Cons? && ls.head == S(DotSym) ==> !StartsKey(ls.tail, KStAsText) && !StartsKey(ls.tail, KStAsBinary))
  }

  lemma ToksClosed(toks: List<Tok>)
    ensures Closed(AllLexemes(toks))
  {
    if toks.Cons? && toks.head == Dot && toks.tail.Cons? {
      var ls := Before(toks.tail.head, AllLexemes(toks.tail.tail));
      assert ls.Cons? && !StartsKey(ls, KStAsText) && !StartsKey(ls, KStAsBinary);
    }
  }

  lemma CastGroups(n: string, max: bool, ls: List<Lexeme>)
    ensures GroupTok(Before(Cast(n, max), ls)) == Some((Cast(n, max), ls))
  {
    var width := if max then Key(KMax) else Number("4000");
    assert GroupWidth(n, Cons(width, Cons(S(RParen), Cons(S(RParen), ls)))) == Some((Cast(n, max), ls));
  }

  lemma GeoGroups(n: string, wkt: bool, ls: List<Lexeme>)
    ensures GroupTok(Before(Geo(n, wkt), ls)) == Some((Geo(n, wkt), ls))
  {
  }

  /** Tokens of several words. */
  predicate Phrased(t: Tok) {
    t.OrderByKw? || t.IsNull? || t.IsNotNull? || t.RowsFetchNext? || t.RowsOnly? || t.InsertInto? || t.DeleteFrom?
  }

  lemma RowsGroup(t: Tok, ls: List<Lexeme>)
    requires t.RowsFetchNext? || t.RowsOnly? || t.IsNull? || t.IsNotNull?
    ensures GroupTok(Before(t, ls)) == Some((t, ls))
  {
  }

  lemma PhraseGroups(t: Tok, ls: List<Lexeme>)
    requires Phrased(t)
    ensures GroupTok(Before(t, ls)) == Some((t, ls))
  {
    if t.RowsFetchNext? || t.RowsOnly? || t.IsNull? || t.IsNotNull? { RowsGroup(t, ls); }
  }

  /** Tokens of one word. */
  predicate Worded(t: Tok) {
    || t.SelectKw? || t.FromKw? || t.WhereKw? || t.AndKw? || t.DescKw? || t.OffsetKw?
    || t.UpdateKw? || t.SetKw? || t.NullLit?
  }

  lemma WordGroups(t: Tok, ls: List<Lexeme>)
    requires Worded(t)
    ensures GroupTok(Before(t, ls)) == Some((t, ls))
  {
  }

  /** A token is found again in its lexemes. */
  lemma TokGroups(t: Tok, ls: List<Lexeme>)
    requires SoundTok(t) && Closed(ls)
    ensures GroupTok(Before(t, ls)) == Some((t, ls))
  {
    if Phrased(t) {
      PhraseGroups(t, ls);
    } else if Worded(t) {
      WordGroups(t, ls);
    } else {
      match t
      case Cast(n, max) => CastGroups(n, max, ls);
      case Geo(n, wkt) => GeoGroups(n, wkt, ls);
      case _ =>
    }
  }

  lemma {:induction false} ToksGroup(toks: List<Tok>)
    requires AllSound(toks)
    ensures Group(AllLexemes(toks)) == Some(toks)
  {
    if toks.Cons? {
      ToksGroup(toks.tail);
      ToksClosed(toks.tail);
      TokGroups(toks.head, AllLexemes(toks.tail));
    }
  }

  lemma GroupedWidth(n: string, w: List<Lexeme>)
    requires GroupWidth(n, w).Some?
    ensures var t, ls := GroupWidth(n, w).value.0, GroupWidth(n, w).value.1;
            var width := if t.max then Key(KMax) else Number("4000");
            t.Cast? && t.name == n && w == Cons(width, Cons(S(RParen), Cons(S(RParen), ls)))
  {
    match w
    case Cons(x, Cons(S(RParen), Cons(S(RParen), ls))) => assert w == Cons(x, Cons(S(RParen), Cons(S(RParen), ls)));
  }

  lemma GroupedCast(r: List<Lexeme>)
    requires GroupCast(r).Some?
    ensures Cons(Key(KCast), r) == Before(GroupCast(r).value.0, GroupCast(r).value.1)
  {
    match r
    case Cons(S(LParen), Cons(Quoted(n), Cons(Key(KAs), Cons(Key(KNvarchar), Cons(S(LParen), w))))) =>
      GroupedWidth(n, w);
      assert r == Cons(S(LParen), Cons(Quoted(n), Cons(Key(KAs), Cons(Key(KNvarchar), Cons(S(LParen), w)))));
  }

  lemma GroupedWord(k: Kw, r: List<Lexeme>)
    requires GroupWord(k, r).Some?
    ensures Cons(Key(k), r) == Before(GroupWord(k, r).value.0, GroupWord(k, r).value.1)
  {
    if k == KCast { GroupedCast(r); }
  }

  lemma GroupedName(n: string, r: List<Lexeme>)
    ensures Cons(Quoted(n), r) == Before(GroupName(n, r).value.0, GroupName(n, r).value.1)
  {
    match r
    case Cons(S(DotSym), Cons(Key(k), Cons(S(LParen), Cons(S(RParen), ls)))) =>
      assert r == Cons(S(DotSym), Cons(Key(k), Cons(S(LParen), Cons(S(RParen), ls))));
    case _ =>
  }

  /** A token stands for the lexemes it was made of. */
  lemma Grouped(ls: List<Lexeme>)
    requires GroupTok(ls).Some?
    ensures ls == Before(GroupTok(ls).value.0, GroupTok(ls).value.1)
  {
    match ls.head
    case Key(k) => GroupedWord(k, ls.tail);
    case Quoted(n) => GroupedName(n, ls.tail);
    case _ =>
  }

  lemma {:induction false} AllGrouped(ls: List<Lexeme>)
    requires Group(ls).Some?
    ensures ls == AllLexemes(Group(ls).value)
    decreases ls
  {
    if ls.Cons? {
      Grouped(ls);
      AllGrouped(GroupTok(ls).value.1);
    }
  }

  /** The characters of a token list are read as that list, if and only if no name in it has a closing
      bracket and every number is one; with plain names and a number that is none they are no text of the
      grammar. */
  lemma TokenizeChars(toks: List<Tok>)
    requires Tidy(toks)
    ensures Tokenize(Chars(toks)) == Some(toks) <==> Plain(toks)
    ensures PlainNamed(toks) && !Plain(toks) ==> Tokenize(Chars(toks)) == None
  {
    CharsLex(toks);
    ToksGroup(toks);
    if Tokenize(Chars(toks)) == Some(toks) { AllGrouped(Lex(Chars(toks)).value); }
  }

  // ---- counting placeholders ----

  function ParamTokens(toks: List<Tok>): nat {
    if toks.Nil? then 0 else (if toks.head == Param then 1 else 0) + ParamTokens(toks.tail)
  }

  lemma CastQuestions(t: Tok, ls: List<Lexeme>)
    requires t.Cast? || t.Geo?
    ensures Questions(Before(t, ls)) == Questions(ls)
  {
    var call := Cons(S(LParen), Cons(S(RParen), ls));
    assert Questions(call) == Questions(ls);
    if t.Geo? {
      var method' := Cons(Key(if t.wkt then KStAsText else KStAsBinary), call);
      assert Questions(Cons(S(DotSym), method')) == Questions(ls);
    } else {
      var close := Cons(S(RParen), Cons(S(RParen), ls));
      var type' := Cons(S(LParen), Cons(if t.max then Key(KMax) else Number("4000"), close));
      assert Questions(type') == Questions(close) == Questions(ls);
      var as' := Cons(Key(KAs), Cons(Key(KNvarchar), type'));
      assert Questions(as') == Questions(ls);
      assert Questions(Cons(S(LParen), Cons(Quoted(t.name), as'))) == Questions(ls);
    }
  }

  lemma PhraseQuestions(t: Tok, ls: List<Lexeme>)
    requires Phrased(t) || t.ValuesKw?
    ensures Questions(Before(t, ls)) == Questions(ls)
  {
    match t
    case ValuesKw => assert Questions(Cons(Key(KValues), Cons(S(LParen), ls))) == Questions(ls);
    case RowsFetchNext => assert Questions(Cons(Key(KFetch), Cons(Key(KNext), ls))) == Questions(ls);
    case IsNotNull => assert Questions(Cons(Key(KNot), Cons(Key(KNull), ls))) == Questions(ls);
    case _ =>
  }

  lemma TokQuestions(t: Tok, ls: List<Lexeme>)
    ensures Questions(Before(t, ls)) == (if t == Param then 1 else 0) + Questions(ls)
  {
    if t.Cast? || t.Geo? {
      CastQuestions(t, ls);
    } else if Phrased(t) || t.ValuesKw? {
      PhraseQuestions(t, ls);
    }
  }

  lemma {:induction false} LexemeQuestions(toks: List<Tok>)
    ensures Questions(AllLexemes(toks)) == ParamTokens(toks)
  {
    if toks.Cons? {
      LexemeQuestions(toks.tail);
      TokQuestions(toks.head, AllLexemes(toks.tail));
    }
  }

  /** The question marks of the text outside brackets and literals are the placeholders appended. */
  lemma PlaceholdersAre(toks: List<Tok>)
    requires Tidy(toks) && Plain(toks)
    ensures PlaceholdersOf(Chars(toks)) == ParamTokens(toks)
  {
    CharsLex(toks);
    LexemeQuestions(toks);
  }
}
