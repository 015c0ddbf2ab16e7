/** vms_tsql_validate_query: one pass over the tokens, against a statement about all of them. */
module Validator {
  import opened Lists
  import opened Lexer

  const MaxChars: nat := 32768

  const Forbidden: seq<string> := [
    "insert", "update", "delete", "merge", "exec", "execute", "create", "alter", "drop", "truncate", "grant", "deny",
    "revoke", "openrowset", "openquery", "openjson", "openxml", "bulk", "set", "use", "begin", "commit", "rollback",
    "save", "tran", "transaction", "cursor", "declare", "print", "raiserror", "throw", "waitfor", "kill", "shutdown",
    "reconfigure", "revert", "grant", "readtext", "writetext", "updatetext", "checkpoint", "dbcc", "backup", "restore"]

  function Lowered(s: string, cc: CharClass): string {
    seq(|s|, i requires 0 <= i < |s| => cc.lower(s[i]))
  }

  /** word_is */
  predicate WordIs(t: Token, kw: string, cc: CharClass) {
    t.kind == Word && t.text == Lowered(kw, cc)
  }

  // ---- the declarative contract ----

  predicate FirstOk(t: Token, cc: CharClass) {
    IsPunct(t, '(') || WordIs(t, "select", cc) || WordIs(t, "with", cc)
  }

  predicate IsForbidden(t: Token, cc: CharClass) {
    (exists k :: 0 <= k < |Forbidden| && WordIs(t, Forbidden[k], cc)) || WordIs(t, "into", cc)
  }

  function Delta(t: Token): int {
    if IsPunct(t, '(') then 1 else if IsPunct(t, ')') then -1 else 0
  }

  /** Opening minus closing parentheses. */
  function Depth(ts: seq<Token>): int {
    if ts == [] then 0 else Depth(ts[..|ts| - 1]) + Delta(ts[|ts| - 1])
  }

  predicate NeverNegative(ts: seq<Token>) {
    forall k :: 0 <= k <= |ts| ==> Depth(ts[..k]) >= 0
  }

  predicate AcceptsTokens(ts: seq<Token>, cc: CharClass) {
    && |ts| >= 2 && FirstOk(ts[0], cc)
    && (forall k :: 1 <= k < |ts| ==> !IsForbidden(ts[k], cc))
    && (forall k :: 0 <= k < |ts| && IsPunct(ts[k], ';') ==> k == |ts| - 1)
    && NeverNegative(ts) && Depth(ts) == 0
  }

  // ---- all tokens of a text ----

  type Scanner = nat -> Lexed

  /** Every token lies behind the position it was asked for at. */
  ghost predicate Advances(next: Scanner, n: nat) {
    forall i: nat :: i <= n && next(i).Got? ==> i < next(i).tok.end <= n
  }

  /** The tokens from position i to the end; None if some piece of the text is no token. */
  ghost function Tokens(next: Scanner, n: nat, i: nat): Option<seq<Token>>
    requires Advances(next, n) && i <= n
    decreases n - i
  {
    match next(i)
    case Fail => None
    case End(_) => Some([])
    case Got(t) => match Tokens(next, n, t.end) case None => None case Some(more) => Some([t] + more)
  }

  function ScannerOf(query: string, cc: CharClass): Scanner {
    (i: nat) => NextToken(query, i, cc)
  }

  lemma ScannerAdvances(query: string, cc: CharClass)
    ensures Advances(ScannerOf(query, cc), |query|)
  {
    forall i: nat | i <= |query|
      ensures NextToken(query, i, cc).Got? ==> i < NextToken(query, i, cc).tok.end <= |query|
    {
      TokenAdvances(query, i, cc);
    }
  }

  /** The contract: at most 32768 characters, the whole text tokenizes, and the tokens are acceptable. */
  ghost predicate Accepts(query: string, cc: CharClass) {
    ScannerAdvances(query, cc);
    var ts := Tokens(ScannerOf(query, cc), |query|, 0);
    0 < |query| <= MaxChars && ts.Some? && AcceptsTokens(ts.value, cc)
  }

  // ---- the pass ----

  /** All tokens, when those before position i are known. */
  ghost function Total(next: Scanner, n: nat, got: seq<Token>, i: nat): Option<seq<Token>>
    requires Advances(next, n) && i <= n
  {
    match Tokens(next, n, i) case None => None case Some(more) => Some(got + more)
  }

  lemma TotalStep(next: Scanner, n: nat, got: seq<Token>, i: nat)
    requires Advances(next, n) && i <= n
    ensures next(i).Fail? ==> Total(next, n, got, i) == None
    ensures next(i).End? ==> Total(next, n, got, i) == Some(got)
    ensures next(i).Got? ==> Total(next, n, got, i) == Total(next, n, got + [next(i).tok], next(i).tok.end)
  {
    assert got + [] == got;
    if next(i).Got? {
      var t, more := next(i).tok, Tokens(next, n, next(i).tok.end);
      assert more.Some? ==> got + ([t] + more.value) == got + [t] + more.value;
    }
  }

  /** What the pass has established of the tokens read so far. */
  predicate GoodSoFar(got: seq<Token>, cc: CharClass) {
    && got != [] && FirstOk(got[0], cc) && NeverNegative(got)
    && (forall k :: 1 <= k < |got| ==> !IsForbidden(got[k], cc))
    && (forall k :: 0 <= k < |got| ==> !IsPunct(got[k], ';'))
  }

  lemma DepthOn(got: seq<Token>, t: Token)
    ensures Depth(got + [t]) == Depth(got) + Delta(t)
    ensures NeverNegative(got) && Depth(got) + Delta(t) >= 0 ==> NeverNegative(got + [t])
  {
    var more := got + [t];
    assert more[..|got|] == got;
    if NeverNegative(got) && Depth(got) + Delta(t) >= 0 {
      forall k | 0 <= k <= |more| ensures Depth(more[..k]) >= 0 {
        if k <= |got| { assert more[..k] == got[..k]; } else { assert more[..k] == more; }
      }
    }
  }

  /** Tokens that begin with a violation are not acceptable, whatever follows. */
  lemma Rejected(got: seq<Token>, t: Token, more: seq<Token>, cc: CharClass)
    requires GoodSoFar(got, cc)
    requires IsForbidden(t, cc) || Depth(got) + Delta(t) < 0 || (IsPunct(t, ';') && more != [])
    ensures !AcceptsTokens(got + [t] + more, cc)
  {
    var ts := got + [t] + more;
    assert ts[|got|] == t && ts[..|got| + 1] == got + [t];
    DepthOn(got, t);
  }

  /** The same for the whole text, of which at least t follows what was read. */
  lemma TotalRejected(next: Scanner, n: nat, got: seq<Token>, t: Token, i: nat, cc: CharClass)
    requires Advances(next, n) && i <= n && GoodSoFar(got, cc)
    requires IsForbidden(t, cc) || Depth(got) + Delta(t) < 0 || (IsPunct(t, ';') && !next(i).End?)
    ensures var all := Total(next, n, got + [t], i); all.Some? ==> !AcceptsTokens(all.value, cc)
  {
    var more := Tokens(next, n, i);
    if more.Some? { Rejected(got, t, more.value, cc); }
  }

  method Keyword(t: Token, cc: CharClass) returns (bad: bool)
    ensures bad <==> IsForbidden(t, cc)
  {
    if t.kind != Word { return false; }
    for k := 0 to |Forbidden|
      invariant forall j :: 0 <= j < k ==> !WordIs(t, Forbidden[j], cc)
    {
      if WordIs(t, Forbidden[k], cc) { return true; }
    }
    bad := WordIs(t, "into", cc);
  }

  ghost predicate Verdict(ok: bool, all: Option<seq<Token>>, cc: CharClass) {
    ok <==> all.Some? && AcceptsTokens(all.value, cc)
  }

  /** The rest of the pass, behind the first token. */
  method Rest(lx: LexerState, ghost next: Scanner, ghost first: Token) returns (ok: bool)
    requires Advances(next, |lx.src|) && lx.pos <= |lx.src| && FirstOk(first, lx.cc)
    requires forall i {:trigger NextToken(lx.src, i, lx.cc)} :: next(i) == NextToken(lx.src, i, lx.cc)
    requires lx.depth == Delta(first)
    modifies lx
    ensures Verdict(ok, Total(next, |lx.src|, [first], old(lx.pos)), lx.cc)
  {
    ghost var got, all, n := [first], Total(next, |lx.src|, [first], lx.pos), |lx.src|;
    FirstIsGood(first, lx.cc);
    var words := 1;
    while true
      invariant lx.pos <= n && GoodSoFar(got, lx.cc) && words == |got| && lx.depth == Depth(got)
      invariant all == Total(next, n, got, lx.pos)
      decreases n - lx.pos
    {
      ghost var at := lx.pos;
      TotalStep(next, n, got, at);
      var r := lx.Next(next);
      if r.Fail? {
        if next(at).Got? { TotalRejected(next, n, got, next(at).tok, next(at).tok.end, lx.cc); }
        return false;
      }
      if r.End? { return lx.depth == 0 && words >= 2; }
      words := words + 1;
      var bad := Keyword(r.tok, lx.cc);
      if bad {
        TotalRejected(next, n, got, r.tok, lx.pos, lx.cc);
        return false;
      }
      DepthOn(got, r.tok);
      if IsPunct(r.tok, ';') {
        ok := Trailing(lx, next, got, r.tok);
        return ok;
      }
      got := got + [r.tok];
    }
  }

  lemma FirstIsGood(first: Token, cc: CharClass)
    requires FirstOk(first, cc) && Delta(first) >= 0
    ensures GoodSoFar([first], cc) && Depth([first]) == Delta(first)
  {
    assert Depth([]) == 0;
    DepthOn([], first);
    assert [] + [first] == [first];
  }

  /** Behind a semicolon only the end may follow. */
  method Trailing(lx: LexerState, ghost next: Scanner, ghost got: seq<Token>, ghost semi: Token) returns (ok: bool)
    requires Advances(next, |lx.src|) && lx.pos <= |lx.src| && GoodSoFar(got, lx.cc) && lx.depth == Depth(got)
    requires forall i {:trigger NextToken(lx.src, i, lx.cc)} :: next(i) == NextToken(lx.src, i, lx.cc)
    requires IsPunct(semi, ';') && !IsForbidden(semi, lx.cc)
    modifies lx
    ensures Verdict(ok, Total(next, |lx.src|, got + [semi], old(lx.pos)), lx.cc)
  {
    ghost var at, n := lx.pos, |lx.src|;
    TotalStep(next, n, got + [semi], at);
    DepthOn(got, semi);
    var r := lx.Next(next);
    if !r.End? {
      if next(at).Got? { TotalRejected(next, n, got, semi, at, lx.cc); }
      return false;
    }
    ok := lx.depth == 0;
  }

  /** vms_tsql_validate_query accepts exactly the queries that meet the contract. */
  method Validate(query: string, cc: CharClass) returns (ok: bool)
    ensures ok <==> Accepts(query, cc)
  {
    if query == "" { return false; }
    if |query| > MaxChars { return false; }
    ghost var next, n := ScannerOf(query, cc), |query|;
    ScannerAdvances(query, cc);
    TotalStep(next, n, [], 0);
    assert Tokens(next, n, 0) == Total(next, n, [], 0) by { FromNothing(next, n); }
    var lx := new LexerState(query, cc);
    var r := lx.Next(next);
    if !r.Got? || !FirstOk(r.tok, cc) {
      if next(0).Got? { FirstDecides(next, n, next(0).tok, cc); }
      return false;
    }
    assert [] + [r.tok] == [r.tok];
    ok := Rest(lx, next, r.tok);
  }

  lemma FromNothing(next: Scanner, n: nat)
    requires Advances(next, n)
    ensures Tokens(next, n, 0) == Total(next, n, [], 0)
  {
    var ts := Tokens(next, n, 0);
    if ts.Some? { assert [] + ts.value == ts.value; }
  }

  lemma FirstDecides(next: Scanner, n: nat, t: Token, cc: CharClass)
    requires Advances(next, n) && t.end <= n && !FirstOk(t, cc)
    ensures var all := Total(next, n, [] + [t], t.end); all.Some? ==> !AcceptsTokens(all.value, cc)
  {
    var more := Tokens(next, n, t.end);
    if more.Some? { assert ([] + [t] + more.value)[0] == t; }
  }

  // ---- what the list does not hold ----

  /** Lower-casing leaves small letters and the underscore alone. */
  predicate KeepsLower(cc: CharClass) {
    forall c :: 'a' <= c <= 'z' || c == '_' ==> cc.lower(c) == c
  }

  predicate Begins(text: string, prefix: string) {
    |prefix| <= |text| && text[..|prefix|] == prefix
  }

  predicate OrdinaryStart(kw: string) {
    |kw| > 1 && 'a' <= kw[0] < 'x' && 'a' <= kw[1] <= 'z' && (kw[0] == 's' ==> kw[1] != 'p')
  }

  lemma FirstHalf(k: nat)
    requires k < 22
    ensures OrdinaryStart(Forbidden[k])
  {
  }

  lemma SecondHalf(k: nat)
    requires 22 <= k < |Forbidden|
    ensures OrdinaryStart(Forbidden[k])
  {
  }

  /** Words beginning with xp_ or sp_ are not forbidden. */
  lemma ProcedureNamesPass(t: Token, cc: CharClass)
    requires KeepsLower(cc) && t.kind == Word && (Begins(t.text, "xp_") || Begins(t.text, "sp_"))
    ensures !IsForbidden(t, cc)
  {
    assert t.text[..3][0] == t.text[0] && t.text[..3][1] == t.text[1];
    forall k | 0 <= k < |Forbidden| ensures !WordIs(t, Forbidden[k], cc) {
      if k < 22 { FirstHalf(k); } else { SecondHalf(k); }
      assert Lowered(Forbidden[k], cc)[0] == Forbidden[k][0] && Lowered(Forbidden[k], cc)[1] == Forbidden[k][1];
    }
    assert Lowered("into", cc)[0] == 'i';
  }

  /** A bracketed name is taken for the keyword it spells: [select] may begin a query. */
  lemma BracketedSelectBegins(rest: string, cc: CharClass)
    requires KeepsLower(cc) && !cc.space('[')
    ensures var r := NextToken("[select]" + rest, 0, cc); r.Got? && FirstOk(r.tok, cc)
  {
    var s := "[select]" + rest;
    assert s[0] == '[' && RunEnd(s, 0, cc.space) == 0 && GapFrom(s, 0, cc) == Over(0);
    assert s[1..8] == "select]";
    assert s[1] == 's' && s[2] == 'e' && s[3] == 'l' && s[4] == 'e' && s[5] == 'c' && s[6] == 't' && s[7] == ']';
    assert RunEnd(s, 1, c => c != ']') == 7;
    assert WordText(s, 1, 7, cc) == Lowered("select", cc);
  }
}
