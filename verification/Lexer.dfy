/** vms_lexer: tokens of a query text, as functions of the position and as the loops that find them. */
module Lexer {
  import opened Lists

  /** iswspace, iswalpha, iswdigit and towlower. */
  datatype CharClass = CharClass(space: char -> bool, alpha: char -> bool, digit: char -> bool, lower: char -> char)

  datatype Kind = Word | Number | Quoted | Punct | Op2

  /** `text` is the lowered word or the raw operator; strings and numbers have none. */
  datatype Token = Token(kind: Kind, start: nat, end: nat, text: string)

  datatype Lexed = Fail | End(at: nat) | Got(tok: Token)

  predicate Alnum(c: char, cc: CharClass) {
    cc.alpha(c) || cc.digit(c)
  }

  predicate WordStart(c: char, cc: CharClass) {
    cc.alpha(c) || c == '_' || c == '#' || c == '@'
  }

  predicate WordChar(c: char, cc: CharClass) {
    Alnum(c, cc) || c == '_' || c == '#' || c == '@' || c == '$'
  }

  /** The end of the run of characters satisfying p that begins at i. */
  function RunEnd(s: string, i: nat, p: char -> bool): (j: nat)
    requires i <= |s|
    ensures i <= j <= |s| && (forall k :: i <= k < j ==> p(s[k])) && (j < |s| ==> !p(s[j]))
    decreases |s| - i
  {
    if i < |s| && p(s[i]) then RunEnd(s, i + 1, p) else i
  }

  method WalkRun(s: string, i: nat, p: char -> bool) returns (j: nat)
    requires i <= |s|
    ensures j == RunEnd(s, i, p)
  {
    j := i;
    while j < |s| && p(s[j])
      invariant i <= j <= |s| && RunEnd(s, i, p) == RunEnd(s, j, p)
    {
      j := j + 1;
    }
  }

  // ---- gaps ----

  predicate At(s: string, i: nat, a: char, b: char) {
    i + 1 < |s| && s[i] == a && s[i + 1] == b
  }

  /** Behind the first closing of a block comment at or after i. */
  function BlockEnd(s: string, i: nat): (e: Option<nat>)
    requires i <= |s|
    ensures e.Some? ==> i + 2 <= e.value <= |s| && At(s, e.value - 2, '*', '/')
    ensures e.Some? ==> forall k :: i <= k < e.value - 2 ==> !At(s, k, '*', '/')
    ensures e.None? ==> forall k :: i <= k ==> !At(s, k, '*', '/')
    decreases |s| - i
  {
    if i + 1 >= |s| then None else if At(s, i, '*', '/') then Some(i + 2) else BlockEnd(s, i + 1)
  }

  function LineEnd(s: string, i: nat): (e: nat)
    requires i <= |s|
    ensures i <= e <= |s|
  {
    RunEnd(s, i, c => c != '\n')
  }

  /** Whitespace and at most one comment: the gap is over, goes on behind the comment, or the comment
      is not closed. */
  datatype GapStep = Over(at: nat) | Behind(end: nat) | Unclosed

  function GapFrom(s: string, i: nat, cc: CharClass): (g: GapStep)
    requires i <= |s|
    ensures g.Over? ==> i <= g.at <= |s|
    ensures g.Behind? ==> i < g.end <= |s|
  {
    var a := RunEnd(s, i, cc.space);
    if At(s, a, '-', '-') then Behind(LineEnd(s, a + 2))
    else if At(s, a, '/', '*') then
      match BlockEnd(s, a + 2)
      case None => Unclosed
      case Some(e) => Behind(e)
    else Over(a)
  }

  /** Where the next token begins; None for a comment that is not closed. */
  function SkipGap(s: string, i: nat, cc: CharClass): (j: Option<nat>)
    requires i <= |s|
    ensures j.Some? ==> i <= j.value <= |s|
    decreases |s| - i
  {
    match GapFrom(s, i, cc)
    case Over(a) => Some(a)
    case Behind(e) => SkipGap(s, e, cc)
    case Unclosed => None
  }

  method WalkBlock(s: string, start: nat) returns (e: Option<nat>)
    requires start <= |s|
    ensures e == BlockEnd(s, start)
  {
    var i := start;
    while i + 1 < |s| && !(s[i] == '*' && s[i + 1] == '/')
      invariant start <= i <= |s| && BlockEnd(s, start) == BlockEnd(s, i)
    {
      i := i + 1;
    }
    e := if i + 1 >= |s| then None else Some(i + 2);
  }

  method WalkGapFrom(s: string, i: nat, cc: CharClass) returns (g: GapStep)
    requires i <= |s|
    ensures g == GapFrom(s, i, cc)
  {
    var a := WalkRun(s, i, cc.space);
    if At(s, a, '-', '-') {
      var e := WalkRun(s, a + 2, c => c != '\n');
      return Behind(e);
    }
    if At(s, a, '/', '*') {
      var e := WalkBlock(s, a + 2);
      return if e.None? then Unclosed else Behind(e.value);
    }
    g := Over(a);
  }

  method WalkGap(s: string, start: nat, cc: CharClass) returns (j: Option<nat>)
    requires start <= |s|
    ensures j == SkipGap(s, start, cc)
  {
    var i := start;
    while true
      invariant start <= i <= |s| && SkipGap(s, start, cc) == SkipGap(s, i, cc)
      decreases |s| - i
    {
      var g := WalkGapFrom(s, i, cc);
      match g
      case Over(a) => return Some(a);
      case Behind(e) => i := e;
      case Unclosed => return None;
    }
  }

  // ---- tokens ----

  /** Behind the closing quote of a string whose text begins at i; two quotes are one character. */
  function StringEnd(s: string, i: nat): (e: Option<nat>)
    requires i <= |s|
    ensures e.Some? ==> i < e.value <= |s|
    decreases |s| - i
  {
    if i >= |s| then None
    else if s[i] != '\'' then StringEnd(s, i + 1)
    else if i + 1 < |s| && s[i + 1] == '\'' then StringEnd(s, i + 2)
    else Some(i + 1)
  }

  method WalkString(s: string, start: nat) returns (e: Option<nat>)
    requires start <= |s|
    ensures e == StringEnd(s, start)
  {
    var i := start;
    while true
      invariant start <= i <= |s| && StringEnd(s, start) == StringEnd(s, i)
      decreases |s| - i
    {
      if i >= |s| { return None; }
      if s[i] == '\'' {
        if i + 1 < |s| && s[i + 1] == '\'' {
          i := i + 2;
          continue;
        }
        return Some(i + 1);
      }
      i := i + 1;
    }
  }

  /** At most 63 characters, lowered. */
  function WordText(s: string, a: nat, b: nat, cc: CharClass): (t: string)
    requires a <= b <= |s|
    ensures |t| == if b - a < 63 then b - a else 63
  {
    seq(if b - a < 63 then b - a else 63, k requires 0 <= k < b - a => cc.lower(s[a + k]))
  }

  method CopyWord(s: string, a: nat, b: nat, cc: CharClass) returns (t: string)
    requires a <= b <= |s|
    ensures t == WordText(s, a, b, cc)
    ensures |t| == (if b - a < 63 then b - a else 63) && forall k :: 0 <= k < |t| ==> t[k] == cc.lower(s[a + k])
  {
    t := "";
    var j := a;
    while j < b && |t| < 63
      invariant a <= j <= b && |t| == j - a <= 63 && forall k :: 0 <= k < |t| ==> t[k] == cc.lower(s[a + k])
    {
      t := t + [cc.lower(s[j])];
      j := j + 1;
    }
  }

  predicate IsOp2(a: char, b: char) {
    (a == '<' && (b == '=' || b == '>')) || (a == '>' && b == '=') || (a == '!' && b == '=')
  }

  const PunctChars: string := "(),;.*+-/%=<>"

  predicate OpensString(s: string, i: nat) {
    i < |s| && (s[i] == '\'' || At(s, i, 'N', '\''))
  }

  function Bracketed(s: string, i: nat, cc: CharClass): Lexed
    requires i < |s|
  {
    var e := RunEnd(s, i + 1, c => c != ']');
    if e >= |s| then Fail else Got(Token(Word, i, e + 1, WordText(s, i + 1, e, cc)))
  }

  function StringAt(s: string, i: nat): Lexed
    requires OpensString(s, i)
  {
    match StringEnd(s, if s[i] == 'N' then i + 2 else i + 1)
    case None => Fail
    case Some(e) => Got(Token(Quoted, i, e, ""))
  }

  /** The token that begins at i. */
  function TokenAt(s: string, i: nat, cc: CharClass): (r: Lexed)
    requires i < |s|
    ensures r.Fail? || (r.Got? && r.tok.start == i && i < r.tok.end <= |s|)
  {
    if s[i] == '[' then Bracketed(s, i, cc)
    else if OpensString(s, i) then StringAt(s, i)
    else if cc.digit(s[i]) then Got(Token(Number, i, RunEnd(s, i, c => Alnum(c, cc) || c == '.'), ""))
    else if WordStart(s[i], cc) then
      var e := RunEnd(s, i, c => WordChar(c, cc));
      Got(Token(Word, i, e, WordText(s, i, e, cc)))
    else if i + 1 < |s| && IsOp2(s[i], s[i + 1]) then Got(Token(Op2, i, i + 2, s[i..i + 2]))
    else if s[i] in PunctChars then Got(Token(Punct, i, i + 1, [s[i]]))
    else Fail
  }

  /** The next token at or after i, parentheses not counted. */
  function NextToken(s: string, i: nat, cc: CharClass): (r: Lexed) {
    if i > |s| then Fail
    else
      match SkipGap(s, i, cc)
      case None => Fail
      case Some(j) => if j == |s| then End(j) else TokenAt(s, j, cc)
  }

  method ScanToken(s: string, i: nat, cc: CharClass) returns (r: Lexed)
    requires i < |s|
    ensures r == TokenAt(s, i, cc)
  {
    if s[i] == '[' {
      var e := WalkRun(s, i + 1, c => c != ']');
      if e >= |s| { return Fail; }
      var t := CopyWord(s, i + 1, e, cc);
      return Got(Token(Word, i, e + 1, t));
    }
    if s[i] == '\'' || (s[i] == 'N' && i + 1 < |s| && s[i + 1] == '\'') {
      var e := WalkString(s, if s[i] == 'N' then i + 2 else i + 1);
      return if e.None? then Fail else Got(Token(Quoted, i, e.value, ""));
    }
    if cc.digit(s[i]) {
      var e := WalkRun(s, i, c => Alnum(c, cc) || c == '.');
      return Got(Token(Number, i, e, ""));
    }
    if WordStart(s[i], cc) {
      var e := WalkRun(s, i, c => WordChar(c, cc));
      var t := CopyWord(s, i, e, cc);
      return Got(Token(Word, i, e, t));
    }
    if i + 1 < |s| && IsOp2(s[i], s[i + 1]) { return Got(Token(Op2, i, i + 2, s[i..i + 2])); }
    if s[i] in PunctChars { return Got(Token(Punct, i, i + 1, [s[i]])); }
    r := Fail;
  }

  // ---- the lexer object ----

  predicate IsPunct(t: Token, c: char) {
    t.kind == Punct && t.text == [c]
  }

  class LexerState {
    const src: string
    const cc: CharClass
    var pos: nat
    var depth: nat

    constructor (src: string, cc: CharClass)
      ensures this.src == src && this.cc == cc && pos == 0 && depth == 0
    {
      this.src, this.cc, pos, depth := src, cc, 0, 0;
    }

    /** vms_lexer_next: the next token; fails on what is no token and on a closing parenthesis too many.
        `next` is the token function of this text. */
    method Next(ghost next: nat -> Lexed) returns (r: Lexed)
      requires pos <= |src| && forall i {:trigger NextToken(src, i, cc)} :: next(i) == NextToken(src, i, cc)
      modifies this
      ensures pos <= |src|
      ensures var n := next(old(pos));
              if n.Got? && IsPunct(n.tok, ')') && old(depth) == 0 then r == Fail
              else && r == n && (r.Got? ==> pos == r.tok.end)
                   && (!r.Fail? ==> depth == old(depth) + Opens(r) - Closes(r))
    {
      assert next(pos) == NextToken(src, pos, cc);
      var j := WalkGap(src, pos, cc);
      if j.None? { return Fail; }
      pos := j.value;
      if pos >= |src| { return End(pos); }
      r := ScanToken(src, pos, cc);
      if r.Fail? { return; }
      if IsPunct(r.tok, '(') { depth := depth + 1; }
      if IsPunct(r.tok, ')') {
        if depth == 0 { return Fail; }
        depth := depth - 1;
      }
      pos := r.tok.end;
    }
  }

  function Opens(r: Lexed): nat {
    if r.Got? && IsPunct(r.tok, '(') then 1 else 0
  }

  function Closes(r: Lexed): nat {
    if r.Got? && IsPunct(r.tok, ')') then 1 else 0
  }

  // ---- what lies between tokens ----

  /** A line comment up to its line's end, or a block comment up to its first closing. */
  predicate IsComment(s: string, i: nat, e: nat) {
    i + 2 <= e <= |s| &&
    ((At(s, i, '-', '-') && (forall k :: i + 2 <= k < e ==> s[k] != '\n') && (e == |s| || s[e] == '\n'))
     || (At(s, i, '/', '*') && i + 4 <= e && At(s, e - 2, '*', '/') && forall k :: i + 2 <= k < e - 2 ==>
         !At(s, k, '*', '/')))
  }

  /** Only whitespace and closed comments. */
  ghost predicate IsGap(s: string, i: nat, j: nat, cc: CharClass)
    decreases j - i
  {
    i <= j <= |s| &&
    (i == j || (cc.space(s[i]) && IsGap(s, i + 1, j, cc)) ||
     exists e :: i < e <= j && IsComment(s, i, e) && IsGap(s, e, j, cc))
  }

  lemma {:induction false} SpacesGap(s: string, i: nat, a: nat, j: nat, cc: CharClass)
    requires i <= a <= j <= |s| && (forall k :: i <= k < a ==> cc.space(s[k])) && IsGap(s, a, j, cc)
    ensures IsGap(s, i, j, cc)
    decreases a - i
  {
    if i < a { SpacesGap(s, i + 1, a, j, cc); }
  }

  lemma CommentBehind(s: string, i: nat, cc: CharClass)
    requires i <= |s| && GapFrom(s, i, cc).Behind?
    ensures IsComment(s, RunEnd(s, i, cc.space), GapFrom(s, i, cc).end)
  {
  }

  lemma GapBehind(s: string, i: nat, j: nat, cc: CharClass)
    requires i <= |s| && GapFrom(s, i, cc).Behind? && IsGap(s, GapFrom(s, i, cc).end, j, cc)
    ensures IsGap(s, i, j, cc)
  {
    var a, e := RunEnd(s, i, cc.space), GapFrom(s, i, cc).end;
    CommentBehind(s, i, cc);
    assert IsGap(s, a, j, cc);
    SpacesGap(s, i, a, j, cc);
  }

  lemma GapOver(s: string, i: nat, cc: CharClass)
    requires i <= |s| && GapFrom(s, i, cc).Over?
    ensures IsGap(s, i, GapFrom(s, i, cc).at, cc)
  {
    var a := GapFrom(s, i, cc).at;
    SpacesGap(s, i, a, a, cc);
  }

  lemma {:induction false} SkipsOnlyGap(s: string, i: nat, cc: CharClass)
    requires i <= |s| && SkipGap(s, i, cc).Some?
    ensures IsGap(s, i, SkipGap(s, i, cc).value, cc)
    decreases |s| - i
  {
    match GapFrom(s, i, cc)
    case Over(a) => GapOver(s, i, cc);
    case Behind(e) =>
      SkipsOnlyGap(s, e, cc);
      GapBehind(s, i, SkipGap(s, i, cc).value, cc);
  }

  /** Every token strictly advances, and what is skipped before it, or before the end, is only whitespace
      and closed comments. */
  lemma TokenAdvances(s: string, i: nat, cc: CharClass)
    requires i <= |s|
    ensures var r := NextToken(s, i, cc);
            && (r.End? ==> r.at == |s| && IsGap(s, i, |s|, cc))
            && (r.Got? ==> i <= r.tok.start < r.tok.end <= |s| && IsGap(s, i, r.tok.start, cc))
  {
    if SkipGap(s, i, cc).Some? { SkipsOnlyGap(s, i, cc); }
  }
}
