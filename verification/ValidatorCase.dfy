/** What an accepted query looks like in its characters, and that the case of its letters decides nothing. */
module ValidatorCase {
  import opened Lists
  import opened Lexer
  import opened LexerSpans
  import opened Validator

  // ---- the tokens cover the text ----

  /** The tokens lie one behind the other from i on, each spanned by its characters, with nothing between them, before
      the first and behind the last but whitespace and closed comments. */
  ghost predicate Covers(query: string, ts: seq<Token>, i: nat, cc: CharClass)
    decreases |ts|
  {
    if ts == [] then IsGap(query, i, |query|, cc)
    else IsGap(query, i, ts[0].start, cc) && Spans(query, ts[0], cc) && Covers(query, ts[1..], ts[0].end, cc)
  }

  lemma {:induction false} TokensCover(query: string, i: nat, cc: CharClass)
    requires i <= |query|
    ensures Advances(ScannerOf(query, cc), |query|)
    ensures var ts := Tokens(ScannerOf(query, cc), |query|, i); ts.Some? ==> Covers(query, ts.value, i, cc)
    decreases |query| - i
  {
    ScannerAdvances(query, cc);
    var next, n := ScannerOf(query, cc), |query|;
    NextExactly(query, i, cc);
    var ts := Tokens(next, n, i);
    if ts.Some? && next(i).Got? {
      var t := next(i).tok;
      TokensCover(query, t.end, cc);
      assert ts.value[1..] == Tokens(next, n, t.end).value;
    }
  }

  // ---- words, whatever their case ----

  /** The characters of a word token, without its brackets, spell the keyword, letter by letter in any case. */
  predicate Writes(query: string, t: Token, kw: string, cc: CharClass) {
    t.kind == Word && t.start < t.end <= |query| &&
    var a, b := if query[t.start] == '[' then t.start + 1 else t.start,
                if query[t.start] == '[' then t.end - 1 else t.end;
    a <= b && b - a == |kw| && forall k :: 0 <= k < |kw| ==> cc.lower(query[a + k]) == cc.lower(kw[k])
  }

  /** A word token is taken for a keyword exactly when its characters spell it. */
  lemma WordIsWritten(query: string, t: Token, kw: string, cc: CharClass)
    requires Spans(query, t, cc) && |kw| < 63
    ensures WordIs(t, kw, cc) <==> Writes(query, t, kw, cc)
  {
    if t.kind == Word {
      var a, b := if query[t.start] == '[' then t.start + 1 else t.start,
                  if query[t.start] == '[' then t.end - 1 else t.end;
      assert Spelled(t.text, query, a, b, cc);
      if b - a == |kw| {
        assert t.text == Lowered(kw, cc) <==> forall k :: 0 <= k < |kw| ==> t.text[k] == cc.lower(kw[k]);
      }
    }
  }

  lemma ShortKeywords(k: nat)
    requires k < |Forbidden|
    ensures 3 <= |Forbidden[k]| < 63
  {
    if k < 22 { FirstShort(k); } else { SecondShort(k); }
  }

  lemma FirstShort(k: nat)
    requires k < 22
    ensures 3 <= |Forbidden[k]| < 63
  {
  }

  lemma SecondShort(k: nat)
    requires 22 <= k < |Forbidden|
    ensures 3 <= |Forbidden[k]| < 63
  {
  }

  /** The words no query may hold behind its first token. */
  predicate Banned(kw: string) {
    kw in Forbidden || kw == "into"
  }

  lemma {:induction false} CoversAt(query: string, ts: seq<Token>, i: nat, k: nat, cc: CharClass)
    requires Covers(query, ts, i, cc) && k < |ts|
    ensures Spans(query, ts[k], cc)
    decreases |ts|
  {
    if k > 0 {
      CoversAt(query, ts[1..], ts[0].end, k - 1, cc);
      assert ts[1..][k - 1] == ts[k];
    }
  }

  ghost function AllTokens(query: string, cc: CharClass): Option<seq<Token>> {
    ScannerAdvances(query, cc);
    Tokens(ScannerOf(query, cc), |query|, 0)
  }

  /** The token is this one sign. */
  predicate SignIs(query: string, t: Token, c: char) {
    t.kind == Punct && t.start < |query| && query[t.start] == c
  }

  function Count(query: string, ts: seq<Token>, c: char): nat {
    if ts == [] then 0
    else Count(query, ts[..|ts| - 1], c) + (if SignIs(query, ts[|ts| - 1], c) then 1 else 0)
  }

  /** What the contract says of the tokens, read off the characters: at least two; the first an opening parenthesis or
      SELECT or WITH in any case; no later one a banned word in any case; a semicolon only last; and parentheses that
      never close before they open and all close. */
  ghost predicate TextOk(query: string, ts: seq<Token>, cc: CharClass) {
    && |ts| >= 2
    && (SignIs(query, ts[0], '(') || Writes(query, ts[0], "select", cc) || Writes(query, ts[0], "with", cc))
    && (forall k, kw :: 1 <= k < |ts| && Banned(kw) ==> !Writes(query, ts[k], kw, cc))
    && (forall k :: 0 <= k < |ts| - 1 ==> !SignIs(query, ts[k], ';'))
    && (forall k :: 0 <= k <= |ts| ==> Count(query, ts[..k], ')') <= Count(query, ts[..k], '('))
    && Count(query, ts, ')') == Count(query, ts, '(')
  }

  ghost predicate AllSpan(query: string, ts: seq<Token>, cc: CharClass) {
    forall k :: 0 <= k < |ts| ==> Spans(query, ts[k], cc)
  }

  lemma SignIsPunct(query: string, t: Token, c: char, cc: CharClass)
    requires Spans(query, t, cc)
    ensures IsPunct(t, c) <==> SignIs(query, t, c)
  {
  }

  lemma {:induction false} DepthCounts(query: string, ts: seq<Token>, cc: CharClass)
    requires AllSpan(query, ts, cc)
    ensures Depth(ts) == Count(query, ts, '(') - Count(query, ts, ')')
  {
    if ts != [] {
      var n := |ts| - 1;
      DepthCounts(query, ts[..n], cc);
      SignIsPunct(query, ts[n], '(', cc);
      SignIsPunct(query, ts[n], ')', cc);
    }
  }

  lemma DepthsCount(query: string, ts: seq<Token>, cc: CharClass)
    requires AllSpan(query, ts, cc)
    ensures NeverNegative(ts) && Depth(ts) == 0 <==>
              && (forall k :: 0 <= k <= |ts| ==> Count(query, ts[..k], ')') <= Count(query, ts[..k], '('))
              && Count(query, ts, ')') == Count(query, ts, '(')
  {
    forall k | 0 <= k <= |ts| ensures Depth(ts[..k]) == Count(query, ts[..k], '(') - Count(query, ts[..k], ')') {
      DepthCounts(query, ts[..k], cc);
    }
    assert ts[..|ts|] == ts;
  }

  lemma ForbiddenIsBanned(query: string, t: Token, cc: CharClass)
    requires Spans(query, t, cc)
    ensures IsForbidden(t, cc) <==> exists kw :: Banned(kw) && Writes(query, t, kw, cc)
  {
    if IsForbidden(t, cc) {
      if k :| 0 <= k < |Forbidden| && WordIs(t, Forbidden[k], cc) {
        ShortKeywords(k);
        WordIsWritten(query, t, Forbidden[k], cc);
        assert Banned(Forbidden[k]);
      } else {
        WordIsWritten(query, t, "into", cc);
        assert Banned("into");
      }
    }
    if kw :| Banned(kw) && Writes(query, t, kw, cc) {
      if kw in Forbidden {
        var k :| 0 <= k < |Forbidden| && Forbidden[k] == kw;
        ShortKeywords(k);
      }
      WordIsWritten(query, t, kw, cc);
    }
  }

  lemma TokensOk(query: string, ts: seq<Token>, cc: CharClass)
    requires AllSpan(query, ts, cc)
    ensures AcceptsTokens(ts, cc) <==> TextOk(query, ts, cc)
  {
    DepthsCount(query, ts, cc);
    forall k | 0 <= k < |ts|
      ensures IsForbidden(ts[k], cc) <==> exists kw :: Banned(kw) && Writes(query, ts[k], kw, cc)
      ensures IsPunct(ts[k], ';') <==> SignIs(query, ts[k], ';')
    {
      ForbiddenIsBanned(query, ts[k], cc);
      SignIsPunct(query, ts[k], ';', cc);
    }
    if ts != [] {
      SignIsPunct(query, ts[0], '(', cc);
      WordIsWritten(query, ts[0], "select", cc);
      WordIsWritten(query, ts[0], "with", cc);
    }
  }

  /** The queries accepted, by their characters: 1 to 32768 of them, covered by tokens, and these as they should be. */
  lemma AcceptedExactly(query: string, cc: CharClass)
    ensures Accepts(query, cc) <==>
              0 < |query| <= 32768 && AllTokens(query, cc).Some? && TextOk(query, AllTokens(query, cc).value, cc)
    ensures AllTokens(query, cc).Some? ==> Covers(query, AllTokens(query, cc).value, 0, cc)
  {
    TokensCover(query, 0, cc);
    if AllTokens(query, cc).Some? {
      var ts := AllTokens(query, cc).value;
      forall k | 0 <= k < |ts| ensures Spans(query, ts[k], cc) { CoversAt(query, ts, 0, k, cc); }
      TokensOk(query, ts, cc);
    }
  }

  /** The keywords the header of the lexer names, src/vms_lexer.h:48-52. */
  const HeaderWords: seq<string> := [
    "insert", "update", "delete", "merge", "exec", "execute", "create", "alter", "drop", "truncate", "grant", "deny",
    "revoke", "openrowset", "openquery", "openjson", "openxml", "bulk", "set", "use", "begin", "commit", "rollback",
    "save", "tran", "transaction", "cursor", "declare", "print", "raiserror", "throw", "waitfor", "kill", "shutdown",
    "reconfigure"]

  lemma FirstHeaderWords(k: nat)
    requires k < 18
    ensures Banned(HeaderWords[k])
  {
    assert HeaderWords[k] == Forbidden[k];
  }

  lemma LaterHeaderWords(k: nat)
    requires 18 <= k < |HeaderWords|
    ensures Banned(HeaderWords[k])
  {
    assert HeaderWords[k] == Forbidden[k];
  }

  /** All of them are banned, and so is INTO. */
  lemma HeaderWordsBanned()
    ensures Banned("into") && forall k :: 0 <= k < |HeaderWords| ==> Banned(HeaderWords[k])
  {
    forall k | 0 <= k < |HeaderWords| ensures Banned(HeaderWords[k]) {
      if k < 18 { FirstHeaderWords(k); } else { LaterHeaderWords(k); }
    }
  }

  // ---- queries that differ only in case ----

  const Marks: set<char> :=
    {'[', ']', '\'', '-', '/', '*', '\n', '_', '#', '@', '$', '<', '>', '=', '!', '(', ')', ',', ';', '.', '+', '%'}

  /** What is asked of the character classes: lowering twice is lowering once, it keeps whitespace, letters and digits
      what they are and touches no sign; a quote belongs to no class, and N is a letter. */
  ghost predicate Sane(cc: CharClass) {
    && (forall c :: cc.lower(cc.lower(c)) == cc.lower(c))
    && (forall c :: cc.space(cc.lower(c)) == cc.space(c) && cc.alpha(cc.lower(c)) == cc.alpha(c) &&
                    cc.digit(cc.lower(c)) == cc.digit(c))
    && (forall c :: (c in Marks || cc.lower(c) in Marks) ==> cc.lower(c) == c)
    && !cc.alpha('\'') && !cc.digit('\'') && !cc.space('\'')
    && cc.alpha('N') && !cc.digit('N') && !cc.space('N')
  }

  ghost predicate Recased(a: string, b: string, cc: CharClass) {
    |a| == |b| && forall i :: 0 <= i < |a| ==> cc.lower(a[i]) == cc.lower(b[i])
  }

  /** Position by position such texts have the same signs and the same classes. */
  lemma SameClass(a: string, b: string, cc: CharClass)
    requires Sane(cc) && Recased(a, b, cc)
    ensures forall i :: 0 <= i < |a| && (a[i] in Marks || b[i] in Marks) ==> a[i] == b[i]
    ensures forall i :: 0 <= i < |a| ==> cc.space(a[i]) == cc.space(b[i])
    ensures forall i :: 0 <= i < |a| ==> cc.alpha(a[i]) == cc.alpha(b[i])
    ensures forall i :: 0 <= i < |a| ==> cc.digit(a[i]) == cc.digit(b[i])
  {
    forall i | 0 <= i < |a|
      ensures cc.space(a[i]) == cc.space(b[i]) && cc.alpha(a[i]) == cc.alpha(b[i]) && cc.digit(a[i]) == cc.digit(b[i])
    {
      assert cc.lower(a[i]) == cc.lower(b[i]);
      assert cc.space(cc.lower(a[i])) == cc.space(a[i]) && cc.space(cc.lower(b[i])) == cc.space(b[i]);
      assert cc.alpha(cc.lower(a[i])) == cc.alpha(a[i]) && cc.alpha(cc.lower(b[i])) == cc.alpha(b[i]);
      assert cc.digit(cc.lower(a[i])) == cc.digit(a[i]) && cc.digit(cc.lower(b[i])) == cc.digit(b[i]);
    }
  }

  /** The predicate does not see the difference. */
  ghost predicate Blind(a: string, b: string, p: char -> bool) {
    |a| == |b| && forall i :: 0 <= i < |a| ==> p(a[i]) == p(b[i])
  }

  lemma {:induction false} SameRunEnd(a: string, b: string, i: nat, p: char -> bool)
    requires Blind(a, b, p) && i <= |a|
    ensures RunEnd(a, i, p) == RunEnd(b, i, p)
    decreases |a| - i
  {
    if i < |a| { SameRunEnd(a, b, i + 1, p); }
  }

  /** The same two signs. */
  ghost predicate SameSigns(a: string, b: string) {
    |a| == |b| && forall i :: 0 <= i < |a| && (a[i] in Marks || b[i] in Marks) ==> a[i] == b[i]
  }

  lemma {:induction false} SameBlockEnd(a: string, b: string, i: nat)
    requires SameSigns(a, b) && i <= |a|
    ensures BlockEnd(a, i) == BlockEnd(b, i)
    decreases |a| - i
  {
    if i + 1 < |a| { SameBlockEnd(a, b, i + 1); }
  }

  lemma {:induction false} SameStringEnd(a: string, b: string, i: nat)
    requires SameSigns(a, b) && i <= |a|
    ensures StringEnd(a, i) == StringEnd(b, i)
    decreases |a| - i
  {
    if i < |a| {
      SameStringEnd(a, b, i + 1);
      if i + 1 < |a| { SameStringEnd(a, b, i + 2); }
    }
  }

  lemma SameAt(a: string, b: string, i: nat, x: char, y: char)
    requires SameSigns(a, b) && x in Marks && y in Marks
    ensures At(a, i, x, y) <==> At(b, i, x, y)
  {
  }

  lemma SameLineEnd(a: string, b: string, i: nat)
    requires SameSigns(a, b) && i <= |a|
    ensures LineEnd(a, i) == LineEnd(b, i)
  {
    SameRunEnd(a, b, i, c => c != '\n');
  }

  lemma SameGapFrom(a: string, b: string, i: nat, cc: CharClass)
    requires SameSigns(a, b) && Blind(a, b, cc.space) && i <= |a|
    ensures GapFrom(a, i, cc) == GapFrom(b, i, cc)
  {
    SameRunEnd(a, b, i, cc.space);
    var e := RunEnd(a, i, cc.space);
    SameAt(a, b, e, '-', '-');
    SameAt(a, b, e, '/', '*');
    if e + 1 < |a| {
      SameBlockEnd(a, b, e + 2);
      SameLineEnd(a, b, e + 2);
    }
  }

  lemma {:induction false} SameGap(a: string, b: string, i: nat, cc: CharClass)
    requires SameSigns(a, b) && Blind(a, b, cc.space) && i <= |a|
    ensures SkipGap(a, i, cc) == SkipGap(b, i, cc)
    decreases |a| - i
  {
    SameGapFrom(a, b, i, cc);
    if GapFrom(a, i, cc).Behind? { SameGap(a, b, GapFrom(a, i, cc).end, cc); }
  }

  lemma SameWordText(a: string, b: string, i: nat, e: nat, cc: CharClass)
    requires Recased(a, b, cc) && i <= e <= |a|
    ensures WordText(a, i, e, cc) == WordText(b, i, e, cc)
  {
  }

  /** One text has N before a quote at i where the other has another case of it. */
  predicate Prefix(a: string, b: string, i: nat) {
    OpensString(a, i) && i + 1 < |a| && a[i] == 'N' && !OpensString(b, i)
  }

  lemma SameToken(a: string, b: string, i: nat, cc: CharClass)
    requires Sane(cc) && Recased(a, b, cc) && i < |a| && !Prefix(a, b, i) && !Prefix(b, a, i)
    ensures TokenAt(a, i, cc) == TokenAt(b, i, cc)
  {
    SameClass(a, b, cc);
    assert SameSigns(a, b);
    if a[i] == '[' {
      SameRunEnd(a, b, i + 1, c => c != ']');
      SameWordText(a, b, i + 1, RunEnd(a, i + 1, c => c != ']'), cc);
    } else if OpensString(a, i) || OpensString(b, i) {
      SameStringAt(a, b, i, cc);
    } else {
      assert SameClasses(a, b, cc);
      SameOther(a, b, i, cc);
    }
  }

  lemma SameStringAt(a: string, b: string, i: nat, cc: CharClass)
    requires SameSigns(a, b) && i < |a| && a[i] != '[' && !Prefix(a, b, i) && !Prefix(b, a, i)
    requires OpensString(a, i) || OpensString(b, i)
    ensures TokenAt(a, i, cc) == TokenAt(b, i, cc)
  {
    assert OpensString(a, i) && OpensString(b, i) && (a[i] == 'N' <==> b[i] == 'N');
    SameStringEnd(a, b, i + 1);
    if i + 1 < |a| { SameStringEnd(a, b, i + 2); }
  }

  lemma SameWord(a: string, b: string, i: nat, cc: CharClass)
    requires Recased(a, b, cc) && Blind(a, b, c => WordChar(c, cc)) && i < |a|
    ensures var e := RunEnd(a, i, c => WordChar(c, cc));
            e == RunEnd(b, i, c => WordChar(c, cc)) && WordText(a, i, e, cc) == WordText(b, i, e, cc)
  {
    SameRunEnd(a, b, i, c => WordChar(c, cc));
    SameWordText(a, b, i, RunEnd(a, i, c => WordChar(c, cc)), cc);
  }

  lemma SameNumber(a: string, b: string, i: nat, cc: CharClass)
    requires Blind(a, b, c => Alnum(c, cc) || c == '.') && i < |a|
    ensures RunEnd(a, i, c => Alnum(c, cc) || c == '.') == RunEnd(b, i, c => Alnum(c, cc) || c == '.')
  {
    SameRunEnd(a, b, i, c => Alnum(c, cc) || c == '.');
  }

  predicate Sign(c: char) {
    c in Marks
  }

  lemma SameSignToken(a: string, b: string, i: nat)
    requires SameSigns(a, b) && i < |a|
    ensures a[i] in PunctChars <==> b[i] in PunctChars
    ensures a[i] in PunctChars ==> a[i] == b[i]
    ensures i + 1 < |a| ==> (IsOp2(a[i], a[i + 1]) <==> IsOp2(b[i], b[i + 1]))
    ensures i + 1 < |a| && IsOp2(a[i], a[i + 1]) ==> a[i..i + 2] == b[i..i + 2]
  {
    assert forall c :: c in PunctChars ==> Sign(c);
    assert a[i] in PunctChars ==> Sign(a[i]);
    assert b[i] in PunctChars ==> Sign(b[i]);
  }

  ghost predicate SameClasses(a: string, b: string, cc: CharClass) {
    |a| == |b| && forall i :: 0 <= i < |a| ==> cc.alpha(a[i]) == cc.alpha(b[i]) && cc.digit(a[i]) == cc.digit(b[i])
  }

  lemma BlindClasses(a: string, b: string, cc: CharClass)
    requires SameSigns(a, b) && SameClasses(a, b, cc)
    ensures Blind(a, b, c => WordChar(c, cc)) && Blind(a, b, c => Alnum(c, cc) || c == '.')
    ensures forall i :: 0 <= i < |a| ==> (WordStart(a[i], cc) <==> WordStart(b[i], cc))
  {
  }

  lemma SameOther(a: string, b: string, i: nat, cc: CharClass)
    requires Recased(a, b, cc) && SameSigns(a, b) && SameClasses(a, b, cc) && i < |a| && a[i] != '['
    requires !OpensString(a, i) && !OpensString(b, i)
    ensures TokenAt(a, i, cc) == TokenAt(b, i, cc)
  {
    BlindClasses(a, b, cc);
    SameNumber(a, b, i, cc);
    SameWord(a, b, i, cc);
    SameSignToken(a, b, i);
  }

  // ---- token lists alike ----

  predicate Same(t: Token, u: Token) {
    t.kind == u.kind && t.text == u.text
  }

  /** A word of one character before a string. */
  predicate ShortWord(t: Token) {
    t.kind == Word && |t.text| == 1
  }

  /** The same tokens, but that a string may have a one-letter word before it in one of the lists. */
  predicate Alike(a: seq<Token>, b: seq<Token>)
    decreases |a| + |b|
  {
    if a == [] || b == [] then a == b
    else
      || (Same(a[0], b[0]) && Alike(a[1..], b[1..]))
      || (|a| >= 2 && ShortWord(a[0]) && a[1].kind == Quoted && b[0].kind == Quoted && Alike(a[2..], b[1..]))
      || (|b| >= 2 && ShortWord(b[0]) && b[1].kind == Quoted && a[0].kind == Quoted && Alike(a[1..], b[2..]))
  }

  ghost predicate AlikeIfAny(a: Option<seq<Token>>, b: Option<seq<Token>>) {
    (a.None? <==> b.None?) && (a.Some? ==> Alike(a.value, b.value))
  }

  ghost function From(query: string, i: nat, cc: CharClass): Option<seq<Token>>
    requires i <= |query|
  {
    ScannerAdvances(query, cc);
    Tokens(ScannerOf(query, cc), |query|, i)
  }

  lemma FromStep(query: string, i: nat, cc: CharClass)
    requires i <= |query|
    ensures match NextToken(query, i, cc)
            case Fail => From(query, i, cc) == None
            case End(_) => From(query, i, cc) == Some([])
            case Got(t) =>
              && i < t.end <= |query|
              && From(query, i, cc) ==
                 match From(query, t.end, cc) case None => None case Some(more) => Some([t] + more)
  {
    ScannerAdvances(query, cc);
    TokenAdvances(query, i, cc);
  }

  /** A string with the prefix N, and the other text's one-letter word and string. */
  lemma PrefixTokens(a: string, b: string, i: nat, cc: CharClass)
    requires Sane(cc) && Recased(a, b, cc) && i < |a| && Prefix(a, b, i)
    ensures var r := StringEnd(a, i + 2);
            && TokenAt(a, i, cc) == (if r.None? then Fail else Got(Token(Quoted, i, r.value, "")))
            && TokenAt(b, i, cc) == Got(Token(Word, i, i + 1, [cc.lower(b[i])]))
            && NextToken(b, i + 1, cc) == (if r.None? then Fail else Got(Token(Quoted, i + 1, r.value, "")))
  {
    SameClass(a, b, cc);
    assert SameSigns(a, b) && b[i + 1] == '\'';
    SameStringEnd(a, b, i + 2);
    assert b[i] !in Marks by { assert a[i] !in Marks; }
    LetterToken(b, i, cc);
    QuoteNext(b, i + 1, cc);
  }

  lemma LetterToken(b: string, i: nat, cc: CharClass)
    requires i + 1 < |b| && cc.alpha(b[i]) && !cc.digit(b[i]) && b[i] !in Marks && !OpensString(b, i)
    requires b[i + 1] == '\'' && !WordChar('\'', cc)
    ensures TokenAt(b, i, cc) == Got(Token(Word, i, i + 1, [cc.lower(b[i])]))
  {
    OneChar(b, i, cc);
    assert WordText(b, i, i + 1, cc) == [cc.lower(b[i])];
  }

  lemma QuoteNext(b: string, i: nat, cc: CharClass)
    requires i < |b| && b[i] == '\'' && !cc.space('\'')
    ensures var r := StringEnd(b, i + 1);
            NextToken(b, i, cc) == if r.None? then Fail else Got(Token(Quoted, i, r.value, ""))
  {
    assert RunEnd(b, i, cc.space) == i && GapFrom(b, i, cc) == Over(i);
  }

  lemma OneChar(b: string, i: nat, cc: CharClass)
    requires i + 1 < |b| && WordChar(b[i], cc) && !WordChar(b[i + 1], cc)
    ensures RunEnd(b, i, c => WordChar(c, cc)) == i + 1
  {
    assert RunEnd(b, i + 1, c => WordChar(c, cc)) == i + 1;
  }

  lemma AlikeOn(t: Token, u: Token, a: Option<seq<Token>>, b: Option<seq<Token>>)
    requires AlikeIfAny(a, b) && Same(t, u)
    ensures AlikeIfAny(match a case None => None case Some(more) => Some([t] + more),
                       match b case None => None case Some(more) => Some([u] + more))
  {
    if a.Some? {
      assert ([t] + a.value)[1..] == a.value && ([u] + b.value)[1..] == b.value;
    }
  }

  lemma AlikeShort(w: Token, t: Token, u: Token, a: seq<Token>, b: seq<Token>)
    requires Alike(a, b) && ShortWord(w) && t.kind == Quoted && u.kind == Quoted
    ensures Alike([t] + a, [w] + ([u] + b)) && Alike([w] + ([u] + b), [t] + a)
  {
    AlikeBack(a, b);
    assert ([t] + a)[1..] == a && ([w] + ([u] + b))[2..] == b && ([w] + ([u] + b))[1] == u;
  }

  lemma {:induction false} AlikeBack(a: seq<Token>, b: seq<Token>)
    requires Alike(a, b)
    ensures Alike(b, a)
    decreases |a| + |b|
  {
    if a != [] && b != [] {
      if Same(a[0], b[0]) && Alike(a[1..], b[1..]) {
        AlikeBack(a[1..], b[1..]);
      } else if |a| >= 2 && ShortWord(a[0]) && a[1].kind == Quoted && b[0].kind == Quoted && Alike(a[2..], b[1..]) {
        AlikeBack(a[2..], b[1..]);
      } else {
        AlikeBack(a[1..], b[2..]);
      }
    }
  }

  lemma {:induction false} RecasedTokens(a: string, b: string, i: nat, cc: CharClass)
    requires Sane(cc) && Recased(a, b, cc) && i <= |a|
    ensures AlikeIfAny(From(a, i, cc), From(b, i, cc))
    decreases |a| - i
  {
    SameClass(a, b, cc);
    SameGap(a, b, i, cc);
    FromStep(a, i, cc);
    FromStep(b, i, cc);
    var g := SkipGap(a, i, cc);
    if g.Some? && g.value < |a| {
      var j := g.value;
      if Prefix(a, b, j) {
        RecasedPrefix(a, b, i, j, cc);
      } else if Prefix(b, a, j) {
        RecasedBack(a, b, cc);
        RecasedPrefix(b, a, i, j, cc);
        if From(a, i, cc).Some? { AlikeBack(From(b, i, cc).value, From(a, i, cc).value); }
      } else {
        SameToken(a, b, j, cc);
        if TokenAt(a, j, cc).Got? {
          var t := TokenAt(a, j, cc).tok;
          RecasedTokens(a, b, t.end, cc);
          AlikeOn(t, t, From(a, t.end, cc), From(b, t.end, cc));
        }
      }
    }
  }

  lemma RecasedBack(a: string, b: string, cc: CharClass)
    requires Recased(a, b, cc)
    ensures Recased(b, a, cc)
  {
  }

  function Before(t: Token, more: Option<seq<Token>>): Option<seq<Token>> {
    match more case None => None case Some(ts) => Some([t] + ts)
  }

  lemma QuotedFrom(a: string, i: nat, j: nat, r: Option<nat>, cc: CharClass)
    requires i <= j < |a| && NextToken(a, i, cc) == if r.None? then Fail else Got(Token(Quoted, j, r.value, ""))
    ensures if r.None? then From(a, i, cc) == None
            else i < r.value <= |a| && From(a, i, cc) == Before(Token(Quoted, j, r.value, ""), From(a, r.value, cc))
  {
    FromStep(a, i, cc);
  }

  lemma WordFrom(b: string, i: nat, w: Token, cc: CharClass)
    requires i <= |b| && NextToken(b, i, cc) == Got(w)
    ensures i < w.end <= |b| && From(b, i, cc) == Before(w, From(b, w.end, cc))
  {
    FromStep(b, i, cc);
  }

  lemma PrefixNext(a: string, b: string, i: nat, j: nat, cc: CharClass)
    requires Sane(cc) && Recased(a, b, cc) && i <= j < |a|
    requires SkipGap(a, i, cc) == Some(j) && SkipGap(b, i, cc) == Some(j)
    requires Prefix(a, b, j)
    ensures var r := StringEnd(a, j + 2);
            && NextToken(a, i, cc) == (if r.None? then Fail else Got(Token(Quoted, j, r.value, "")))
            && NextToken(b, i, cc) == Got(Token(Word, j, j + 1, [cc.lower(b[j])]))
            && NextToken(b, j + 1, cc) == (if r.None? then Fail else Got(Token(Quoted, j + 1, r.value, "")))
  {
    PrefixTokens(a, b, j, cc);
  }

  lemma PrefixFrom(a: string, b: string, i: nat, j: nat, r: Option<nat>, w: Token, cc: CharClass)
    requires i <= j < |a| == |b| && w.end == j + 1
    requires NextToken(a, i, cc) == if r.None? then Fail else Got(Token(Quoted, j, r.value, ""))
    requires NextToken(b, i, cc) == Got(w)
    requires NextToken(b, j + 1, cc) == if r.None? then Fail else Got(Token(Quoted, j + 1, r.value, ""))
    ensures if r.None? then From(a, i, cc) == None && From(b, i, cc) == None
            else
              && i < r.value <= |a| && From(a, i, cc) == Before(Token(Quoted, j, r.value, ""), From(a, r.value, cc))
              && From(b, i, cc) == Before(w, Before(Token(Quoted, j + 1, r.value, ""), From(b, r.value, cc)))
  {
    QuotedFrom(a, i, j, r, cc);
    WordFrom(b, i, w, cc);
    QuotedFrom(b, j + 1, j + 1, r, cc);
  }

  lemma {:induction false} RecasedPrefix(a: string, b: string, i: nat, j: nat, cc: CharClass)
    requires Sane(cc) && Recased(a, b, cc) && i <= j < |a|
    requires SkipGap(a, i, cc) == Some(j) && SkipGap(b, i, cc) == Some(j)
    requires Prefix(a, b, j)
    ensures AlikeIfAny(From(a, i, cc), From(b, i, cc))
    decreases |a| - i, 0
  {
    PrefixNext(a, b, i, j, cc);
    var r := StringEnd(a, j + 2);
    PrefixFrom(a, b, i, j, r, Token(Word, j, j + 1, [cc.lower(b[j])]), cc);
    if r.Some? {
      RecasedTokens(a, b, r.value, cc);
      var x, y := From(a, r.value, cc), From(b, r.value, cc);
      if x.Some? {
        AlikeShort(Token(Word, j, j + 1, [cc.lower(b[j])]), Token(Quoted, j, r.value, ""),
                   Token(Quoted, j + 1, r.value, ""), x.value, y.value);
      }
    }
  }

  // ---- the verdict on lists alike ----

  /** The rest of the tokens is acceptable behind a first one, d parentheses open. */
  predicate RestOk(ts: seq<Token>, d: int, cc: CharClass) {
    if ts == [] then d == 0
    else
      && !IsForbidden(ts[0], cc) && (IsPunct(ts[0], ';') ==> |ts| == 1) && d + Delta(ts[0]) >= 0
      && RestOk(ts[1..], d + Delta(ts[0]), cc)
  }

  lemma {:induction false} DepthFront(t: Token, ts: seq<Token>)
    ensures Depth([t] + ts) == Delta(t) + Depth(ts)
  {
    if ts == [] {
      assert [t] + ts == [t] && [t][..0] == [];
      assert Depth([t]) == Depth([]) + Delta(t);
    } else {
      var n := |ts| - 1;
      assert ([t] + ts)[..n + 1] == [t] + ts[..n];
      DepthFront(t, ts[..n]);
    }
  }

  /** The same said of all of them at once. */
  predicate RestAtOnce(ts: seq<Token>, d: int, cc: CharClass) {
    && (forall k :: 0 <= k < |ts| ==> !IsForbidden(ts[k], cc))
    && (forall k :: 0 <= k < |ts| && IsPunct(ts[k], ';') ==> k == |ts| - 1)
    && Above(ts, d) && d + Depth(ts) == 0
  }

  lemma DepthAt(ts: seq<Token>, k: nat)
    requires k < |ts|
    ensures Depth(ts[..k + 1]) == Delta(ts[0]) + Depth(ts[1..][..k])
  {
    DepthFront(ts[0], ts[1..][..k]);
    assert ts[..k + 1] == [ts[0]] + ts[1..][..k];
  }

  /** Never below -d at any point. */
  predicate Above(ts: seq<Token>, d: int) {
    forall k :: 0 <= k <= |ts| ==> d + Depth(ts[..k]) >= 0
  }

  lemma DepthsFront(ts: seq<Token>, d: int)
    requires ts != []
    ensures Above(ts, d) <==> d >= 0 && Above(ts[1..], d + Delta(ts[0]))
    ensures Depth(ts) == Delta(ts[0]) + Depth(ts[1..])
  {
    assert ts[..0] == [] && ts[..|ts|] == ts && ts[1..][..|ts| - 1] == ts[1..];
    DepthAt(ts, |ts| - 1);
    if Above(ts, d) {
      assert d + Depth(ts[..0]) >= 0;
      forall k | 0 <= k < |ts| ensures d + Delta(ts[0]) + Depth(ts[1..][..k]) >= 0 {
        DepthAt(ts, k);
        assert d + Depth(ts[..k + 1]) >= 0;
      }
    }
    if d >= 0 && Above(ts[1..], d + Delta(ts[0])) {
      forall k | 0 <= k <= |ts| ensures d + Depth(ts[..k]) >= 0 {
        if k > 0 { DepthAt(ts, k - 1); }
      }
    }
  }

  lemma {:induction false} RestIs(ts: seq<Token>, d: int, cc: CharClass)
    requires d >= 0
    ensures RestOk(ts, d, cc) <==> RestAtOnce(ts, d, cc)
  {
    if ts == [] {
      assert ts[..0] == [];
    } else {
      DepthsFront(ts, d);
      var d' := d + Delta(ts[0]);
      assert RestAtOnce(ts, d, cc) <==>
               !IsForbidden(ts[0], cc) && (IsPunct(ts[0], ';') ==> |ts| == 1) && d' >= 0 &&
               RestAtOnce(ts[1..], d', cc) by {
        RestFront(ts, d, cc);
      }
      if d' >= 0 { RestIs(ts[1..], d', cc); }
    }
  }

  lemma RestFront(ts: seq<Token>, d: int, cc: CharClass)
    requires d >= 0 && ts != []
    ensures var d' := d + Delta(ts[0]);
            RestAtOnce(ts, d, cc) <==>
              !IsForbidden(ts[0], cc) && (IsPunct(ts[0], ';') ==> |ts| == 1) && d' >= 0 && RestAtOnce(ts[1..], d', cc)
  {
    DepthsFront(ts, d);
    var d', more := d + Delta(ts[0]), ts[1..];
    assert more[..0] == [];
    assert forall k :: 0 <= k < |more| ==> more[k] == ts[k + 1];
    if RestAtOnce(ts, d, cc) {
      forall k | 0 <= k < |more| ensures !IsForbidden(more[k], cc) { assert !IsForbidden(ts[k + 1], cc); }
      forall k | 0 <= k < |more| && IsPunct(more[k], ';') ensures k == |more| - 1 { assert IsPunct(ts[k + 1], ';'); }
      assert d' + Depth(more[..0]) >= 0;
    }
    if !IsForbidden(ts[0], cc) && (IsPunct(ts[0], ';') ==> |ts| == 1) && RestAtOnce(more, d', cc) {
      forall k | 0 <= k < |ts| ensures !IsForbidden(ts[k], cc) { if k > 0 { assert !IsForbidden(more[k - 1], cc); } }
      forall k | 0 <= k < |ts| && IsPunct(ts[k], ';') ensures k == |ts| - 1 {
        if k > 0 { assert IsPunct(more[k - 1], ';'); }
      }
    }
  }

  lemma ShortAllowed(t: Token, cc: CharClass)
    requires ShortWord(t)
    ensures !IsForbidden(t, cc) && Delta(t) == 0 && !FirstOk(t, cc)
  {
    forall k | 0 <= k < |Forbidden| ensures !WordIs(t, Forbidden[k], cc) {
      ShortKeywords(k);
      assert |Lowered(Forbidden[k], cc)| == |Forbidden[k]|;
    }
    assert |Lowered("into", cc)| == 4 && |Lowered("select", cc)| == 6 && |Lowered("with", cc)| == 4;
  }

  lemma QuotedAllowed(t: Token, cc: CharClass)
    requires t.kind == Quoted
    ensures !IsForbidden(t, cc) && Delta(t) == 0 && !FirstOk(t, cc) && !IsPunct(t, ';')
  {
  }

  lemma RestShort(a: seq<Token>, d: int, cc: CharClass)
    requires |a| >= 2 && ShortWord(a[0]) && a[1].kind == Quoted && d >= 0
    ensures RestOk(a, d, cc) <==> RestOk(a[2..], d, cc)
  {
    ShortAllowed(a[0], cc);
    QuotedAllowed(a[1], cc);
    assert a[1..][0] == a[1] && a[1..][1..] == a[2..];
    assert RestOk(a[1..], d, cc) <==> RestOk(a[2..], d, cc);
  }

  lemma {:induction false} AlikeRest(a: seq<Token>, b: seq<Token>, d: int, cc: CharClass)
    requires Alike(a, b) && d >= 0
    ensures RestOk(a, d, cc) <==> RestOk(b, d, cc)
    decreases |a| + |b|
  {
    if a != [] && b != [] {
      if Same(a[0], b[0]) && Alike(a[1..], b[1..]) {
        AlikeSizes(a[1..], b[1..]);
        assert IsForbidden(a[0], cc) <==> IsForbidden(b[0], cc) by { SameForbidden(a[0], b[0], cc); }
        if d + Delta(a[0]) >= 0 { AlikeRest(a[1..], b[1..], d + Delta(a[0]), cc); }
      } else if |a| >= 2 && ShortWord(a[0]) && a[1].kind == Quoted && b[0].kind == Quoted && Alike(a[2..], b[1..]) {
        RestShort(a, d, cc);
        QuotedAllowed(b[0], cc);
        AlikeRest(a[2..], b[1..], d, cc);
      } else {
        RestShort(b, d, cc);
        QuotedAllowed(a[0], cc);
        AlikeRest(a[1..], b[2..], d, cc);
      }
    }
  }

  lemma SameForbidden(t: Token, u: Token, cc: CharClass)
    requires Same(t, u)
    ensures IsForbidden(t, cc) <==> IsForbidden(u, cc)
  {
    forall kw ensures WordIs(t, kw, cc) <==> WordIs(u, kw, cc) {}
  }

  lemma AlikeSizes(a: seq<Token>, b: seq<Token>)
    requires Alike(a, b)
    ensures a == [] <==> b == []
  {
  }

  lemma AcceptsFront(ts: seq<Token>, cc: CharClass)
    ensures AcceptsTokens(ts, cc) <==>
              |ts| >= 2 && FirstOk(ts[0], cc) && Delta(ts[0]) >= 0 && RestOk(ts[1..], Delta(ts[0]), cc)
  {
    if |ts| >= 2 && FirstOk(ts[0], cc) {
      var d, more := Delta(ts[0]), ts[1..];
      assert !IsPunct(ts[0], ';') && d >= 0;
      RestIs(more, d, cc);
      DepthsFront(ts, 0);
      NoneForbidden(ts, cc);
      LastSemicolon(ts);
    }
  }

  lemma NoneForbidden(ts: seq<Token>, cc: CharClass)
    requires ts != []
    ensures (forall k :: 1 <= k < |ts| ==> !IsForbidden(ts[k], cc)) <==>
              forall k :: 0 <= k < |ts[1..]| ==> !IsForbidden(ts[1..][k], cc)
  {
    if forall k :: 0 <= k < |ts[1..]| ==> !IsForbidden(ts[1..][k], cc) {
      forall k | 1 <= k < |ts| ensures !IsForbidden(ts[k], cc) { assert !IsForbidden(ts[1..][k - 1], cc); }
    }
  }

  predicate SemicolonLast(ts: seq<Token>) {
    forall k :: 0 <= k < |ts| && IsPunct(ts[k], ';') ==> k == |ts| - 1
  }

  lemma LastSemicolon(ts: seq<Token>)
    requires ts != [] && !IsPunct(ts[0], ';')
    ensures SemicolonLast(ts) <==> SemicolonLast(ts[1..])
  {
    if SemicolonLast(ts[1..]) {
      forall k | 0 <= k < |ts| && IsPunct(ts[k], ';') ensures k == |ts| - 1 { assert IsPunct(ts[1..][k - 1], ';'); }
    }
    if SemicolonLast(ts) {
      forall k | 0 <= k < |ts[1..]| && IsPunct(ts[1..][k], ';') ensures k == |ts[1..]| - 1 {
        assert IsPunct(ts[k + 1], ';');
      }
    }
  }

  lemma AlikeVerdict(a: seq<Token>, b: seq<Token>, cc: CharClass)
    requires Alike(a, b)
    ensures AcceptsTokens(a, cc) <==> AcceptsTokens(b, cc)
  {
    AcceptsFront(a, cc);
    AcceptsFront(b, cc);
    if a != [] && b != [] {
      if Same(a[0], b[0]) && Alike(a[1..], b[1..]) {
        AlikeSizes(a[1..], b[1..]);
        if Delta(a[0]) >= 0 { AlikeRest(a[1..], b[1..], Delta(a[0]), cc); }
      } else {
        forall t | ShortWord(t) ensures !FirstOk(t, cc) { ShortAllowed(t, cc); }
        forall t: Token | t.kind == Quoted ensures !FirstOk(t, cc) { QuotedAllowed(t, cc); }
      }
    }
  }

  /** Queries that differ only in the case of their letters get the same verdict. */
  lemma CaseDecidesNothing(a: string, b: string, cc: CharClass)
    requires Sane(cc) && Recased(a, b, cc)
    ensures Accepts(a, cc) <==> Accepts(b, cc)
  {
    RecasedTokens(a, b, 0, cc);
    if From(a, 0, cc).Some? { AlikeVerdict(From(a, 0, cc).value, From(b, 0, cc).value, cc); }
  }
}
