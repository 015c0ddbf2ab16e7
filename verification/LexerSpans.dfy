/** Which characters a token spans, said of the characters alone. */
module LexerSpans {
  import opened Lists
  import opened Lexer

  /** The text is that of the characters from a to b, lowered, the first 63 of them. */
  predicate Spelled(text: string, s: string, a: nat, b: nat, cc: CharClass) {
    a <= b <= |s| && |text| == (if b - a <= 63 then b - a else 63) &&
    forall k :: 0 <= k < |text| ==> text[k] == cc.lower(s[a + k])
  }

  /** Everything from i to e satisfies p, and e is as far as that goes. */
  predicate Longest(s: string, i: nat, e: nat, p: char -> bool) {
    i <= e <= |s| && (forall k :: i <= k < e ==> p(s[k])) && (e == |s| || !p(s[e]))
  }

  /** Between its quotes a string has quotes only in pairs. */
  predicate Pairs(s: string, a: nat, b: nat)
    decreases b - a
  {
    a <= b <= |s| &&
    (a == b || (if s[a] != '\'' then Pairs(s, a + 1, b) else a + 1 < b && s[a + 1] == '\'' && Pairs(s, a + 2, b)))
  }

  /** A string whose first quote is at i ends before e: at a quote that is not one of a pair. */
  predicate IsString(s: string, i: nat, e: nat) {
    i + 1 < e <= |s| && s[i] == '\'' && Pairs(s, i + 1, e - 1) && s[e - 1] == '\'' && (e == |s| || s[e] != '\'')
  }

  lemma {:induction false} StringEndExactly(s: string, i: nat, e: nat)
    requires i <= |s|
    ensures StringEnd(s, i) == Some(e) <==>
              i < e <= |s| && Pairs(s, i, e - 1) && s[e - 1] == '\'' && (e == |s| || s[e] != '\'')
    decreases |s| - i
  {
    if i < |s| {
      if s[i] != '\'' {
        StringEndExactly(s, i + 1, e);
      } else if i + 1 < |s| && s[i + 1] == '\'' {
        StringEndExactly(s, i + 2, e);
      }
    }
  }

  lemma {:induction false} LongestIs(s: string, i: nat, e: nat, p: char -> bool)
    requires i <= |s|
    ensures RunEnd(s, i, p) == e <==> Longest(s, i, e, p)
    decreases |s| - i
  {
    if i < |s| && p(s[i]) { LongestIs(s, i + 1, e, p); }
  }

  // ---- the kinds of token ----

  predicate IsBracketed(s: string, t: Token, cc: CharClass) {
    && t.kind == Word && t.start + 2 <= t.end <= |s| && s[t.start] == '[' && s[t.end - 1] == ']'
    && (forall k :: t.start < k < t.end - 1 ==> s[k] != ']') && Spelled(t.text, s, t.start + 1, t.end - 1, cc)
  }

  predicate IsQuoted(s: string, t: Token) {
    && t.kind == Quoted && t.text == "" && t.start < |s|
    && (IsString(s, t.start, t.end) || (s[t.start] == 'N' && IsString(s, t.start + 1, t.end)))
  }

  predicate BeginsOther(s: string, i: nat) {
    i < |s| && s[i] != '[' && s[i] != '\'' && !(s[i] == 'N' && i + 1 < |s| && s[i + 1] == '\'')
  }

  predicate IsNumber(s: string, t: Token, cc: CharClass) {
    && t.kind == Number && t.text == "" && BeginsOther(s, t.start) && cc.digit(s[t.start])
    && Longest(s, t.start, t.end, c => cc.alpha(c) || cc.digit(c) || c == '.')
  }

  predicate InWord(c: char, cc: CharClass) {
    cc.alpha(c) || cc.digit(c) || c in {'_', '#', '@', '$'}
  }

  predicate IsWord(s: string, t: Token, cc: CharClass) {
    && t.kind == Word && BeginsOther(s, t.start) && !cc.digit(s[t.start])
    && (cc.alpha(s[t.start]) || s[t.start] in {'_', '#', '@'})
    && Longest(s, t.start, t.end, c => InWord(c, cc)) && Spelled(t.text, s, t.start, t.end, cc)
  }

  predicate BeginsSign(s: string, i: nat, cc: CharClass) {
    BeginsOther(s, i) && !cc.digit(s[i]) && !cc.alpha(s[i]) && s[i] !in {'_', '#', '@'}
  }

  predicate IsPair(s: string, t: Token, cc: CharClass) {
    && t.kind == Op2 && BeginsSign(s, t.start, cc) && t.end == t.start + 2 <= |s|
    && t.text == s[t.start..t.end] && t.text in {"<=", "<>", ">=", "!="}
  }

  predicate IsSign(s: string, t: Token, cc: CharClass) {
    && t.kind == Punct && BeginsSign(s, t.start, cc) && t.end == t.start + 1 && t.text == [s[t.start]]
    && s[t.start] in {'(', ')', ',', ';', '.', '*', '+', '-', '/', '%', '=', '<', '>'}
    && !(t.end < |s| && s[t.start..t.end + 1] in {"<=", "<>", ">=", "!="})
  }

  /** The token is spanned by its characters, one of six ways. */
  predicate Spans(s: string, t: Token, cc: CharClass) {
    || IsBracketed(s, t, cc) || IsQuoted(s, t) || IsNumber(s, t, cc) || IsWord(s, t, cc) || IsPair(s, t, cc)
    || IsSign(s, t, cc)
  }

  lemma TwoChars(s: string, i: nat)
    requires i + 2 <= |s|
    ensures IsOp2(s[i], s[i + 1]) <==> s[i..i + 2] in {"<=", "<>", ">=", "!="}
  {
    assert s[i..i + 2] == [s[i], s[i + 1]];
    assert "<=" == ['<', '='] && "<>" == ['<', '>'] && ">=" == ['>', '='] && "!=" == ['!', '='];
  }

  lemma BracketSpans(s: string, i: nat, t: Token, cc: CharClass)
    requires i < |s| && s[i] == '['
    ensures TokenAt(s, i, cc) == Got(t) <==> t.start == i && IsBracketed(s, t, cc)
  {
    var e := RunEnd(s, i + 1, c => c != ']');
    if t.start == i && IsBracketed(s, t, cc) {
      LongestIs(s, i + 1, t.end - 1, c => c != ']');
      assert t.text == WordText(s, i + 1, e, cc);
    }
  }

  lemma StringSpans(s: string, i: nat, t: Token, cc: CharClass)
    requires i < |s| && OpensString(s, i)
    ensures TokenAt(s, i, cc) == Got(t) <==> t.start == i && IsQuoted(s, t)
  {
    StringEndExactly(s, if s[i] == 'N' then i + 2 else i + 1, t.end);
  }

  lemma NumberSpans(s: string, i: nat, t: Token, cc: CharClass)
    requires BeginsOther(s, i) && cc.digit(s[i])
    ensures TokenAt(s, i, cc) == Got(t) <==> t.start == i && IsNumber(s, t, cc)
  {
    SameRun(s, i, c => Alnum(c, cc) || c == '.', c => cc.alpha(c) || cc.digit(c) || c == '.');
    LongestIs(s, i, t.end, c => cc.alpha(c) || cc.digit(c) || c == '.');
  }

  lemma WordSpans(s: string, i: nat, t: Token, cc: CharClass)
    requires BeginsOther(s, i) && !cc.digit(s[i]) && WordStart(s[i], cc)
    ensures TokenAt(s, i, cc) == Got(t) <==> t.start == i && IsWord(s, t, cc)
  {
    SameRun(s, i, c => WordChar(c, cc), c => InWord(c, cc));
    LongestIs(s, i, t.end, c => InWord(c, cc));
    if t.start == i && IsWord(s, t, cc) { assert t.text == WordText(s, i, t.end, cc); }
  }

  lemma {:induction false} SameRun(s: string, i: nat, p: char -> bool, q: char -> bool)
    requires i <= |s| && forall k :: i <= k < |s| ==> p(s[k]) == q(s[k])
    ensures RunEnd(s, i, p) == RunEnd(s, i, q)
    decreases |s| - i
  {
    if i < |s| { SameRun(s, i + 1, p, q); }
  }

  lemma SignSpans(s: string, i: nat, t: Token, cc: CharClass)
    requires BeginsSign(s, i, cc)
    ensures TokenAt(s, i, cc) == Got(t) <==> t.start == i && (IsPair(s, t, cc) || IsSign(s, t, cc))
  {
    if i + 1 < |s| { TwoChars(s, i); }
    assert s[i] in PunctChars <==> s[i] in {'(', ')', ',', ';', '.', '*', '+', '-', '/', '%', '=', '<', '>'};
  }

  /** The token at a position is the one its characters span, and there is none exactly when they span none. */
  lemma TokenSpans(s: string, i: nat, t: Token, cc: CharClass)
    requires i < |s|
    ensures TokenAt(s, i, cc) == Got(t) <==> t.start == i && Spans(s, t, cc)
  {
    if s[i] == '[' {
      BracketSpans(s, i, t, cc);
    } else if OpensString(s, i) {
      StringSpans(s, i, t, cc);
    } else if cc.digit(s[i]) {
      NumberSpans(s, i, t, cc);
    } else if WordStart(s[i], cc) {
      WordSpans(s, i, t, cc);
    } else {
      SignSpans(s, i, t, cc);
    }
  }

  // ---- the next token ----

  /** A gap ends at j: neither whitespace nor a comment begins there. */
  predicate GapEnds(s: string, j: nat, cc: CharClass) {
    j <= |s| && (j == |s| || !cc.space(s[j])) && !At(s, j, '-', '-') && !At(s, j, '/', '*')
  }

  /** A block comment begins at j and is never closed. */
  predicate Unfinished(s: string, j: nat) {
    At(s, j, '/', '*') && forall k :: j + 2 <= k < |s| ==> !At(s, k, '*', '/')
  }

  lemma {:induction false} GapIsLongest(s: string, i: nat, cc: CharClass)
    requires i <= |s|
    ensures SkipGap(s, i, cc).Some? ==> GapEnds(s, SkipGap(s, i, cc).value, cc)
    ensures SkipGap(s, i, cc).None? ==> exists j :: i <= j <= |s| && IsGap(s, i, j, cc) && Unfinished(s, j)
    decreases |s| - i
  {
    match GapFrom(s, i, cc)
    case Over(a) =>
    case Behind(e) =>
      GapIsLongest(s, e, cc);
      if SkipGap(s, e, cc).None? {
        var j :| e <= j <= |s| && IsGap(s, e, j, cc) && Unfinished(s, j);
        GapBehind(s, i, j, cc);
      }
    case Unclosed =>
      var a := RunEnd(s, i, cc.space);
      SpacesGap(s, i, a, a, cc);
      assert Unfinished(s, a);
  }

  /** The next token: behind the longest run of whitespace and closed comments, the one the characters there span;
      the end if there are no more characters; and a failure exactly for a comment never closed or characters that
      span no token. */
  lemma NextExactly(s: string, i: nat, cc: CharClass)
    requires i <= |s|
    ensures var r := NextToken(s, i, cc);
            && (r.Got? ==> IsGap(s, i, r.tok.start, cc) && GapEnds(s, r.tok.start, cc) && Spans(s, r.tok, cc))
            && (r.End? ==> r.at == |s| && IsGap(s, i, |s|, cc))
            && (r.Fail? ==> exists j :: i <= j <= |s| && IsGap(s, i, j, cc) &&
                              (Unfinished(s, j) || (j < |s| && GapEnds(s, j, cc) && SpansNone(s, j, cc))))
  {
    GapIsLongest(s, i, cc);
    var g, r := SkipGap(s, i, cc), NextToken(s, i, cc);
    if g.Some? {
      SkipsOnlyGap(s, i, cc);
      var j := g.value;
      if r.Got? {
        TokenSpans(s, j, r.tok, cc);
      } else if j < |s| {
        forall t: Token | t.start == j ensures !Spans(s, t, cc) { TokenSpans(s, j, t, cc); }
        assert SpansNone(s, j, cc);
      }
    }
  }

  ghost predicate SpansNone(s: string, j: nat, cc: CharClass) {
    forall t: Token :: t.start == j ==> !Spans(s, t, cc)
  }
}
