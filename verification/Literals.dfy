/** Text literals: what the write path prints, the lexer reads as one string token. */
module Literals {
  import opened Lists
  import opened Lexer
  import opened Sql

  /** The text of a literal's inside: two quotes are one. */
  function Undoubled(d: string): string {
    if d == "" then ""
    else if d[0] == '\'' && |d| > 1 then "'" + Undoubled(d[2..])
    else [d[0]] + Undoubled(d[1..])
  }

  /** The loop of sb_add_value over the characters of a text value. */
  method PrintLiteral(s: string) returns (r: string)
    ensures r == Literal(s)
  {
    r := "N'";
    for k := 0 to |s|
      invariant r + Doubled(s[k..], '\'') + "'" == Literal(s)
    {
      assert s[k..][1..] == s[k + 1..];
      ghost var piece := if s[k] == '\'' then "''" else [s[k]];
      assert r + (piece + Doubled(s[k + 1..], '\'')) + "'" == r + piece + Doubled(s[k + 1..], '\'') + "'";
      if s[k] == '\'' {
        r := r + "''";
      } else {
        r := r + [s[k]];
      }
    }
    assert r + "" + "'" == r + "'";
    r := r + "'";
  }

  lemma {:induction false} UndoubleDoubled(s: string)
    ensures Undoubled(Doubled(s, '\'')) == s
  {
    if s != "" {
      UndoubleDoubled(s[1..]);
      var piece := if s[0] == '\'' then "''" else [s[0]];
      assert (piece + Doubled(s[1..], '\''))[|piece|..] == Doubled(s[1..], '\'');
      assert s == [s[0]] + s[1..];
    }
  }

  /** From inside the literal the string ends exactly at its own closing quote. */
  lemma {:induction false} StringEndsThere(t: string, p: nat, s: string, rest: string)
    requires p <= |t| && t[p..] == Doubled(s, '\'') + ("'" + rest) && (rest == "" || rest[0] != '\'')
    ensures StringEnd(t, p) == Some(p + |Doubled(s, '\'')| + 1)
    decreases s
  {
    var tail := t[p..];
    if s == "" {
      assert tail == "'" + rest;
      assert t[p] == tail[0] && (p + 1 < |t| ==> t[p + 1] == tail[1] && tail[1] == rest[0]);
    } else {
      var piece := if s[0] == '\'' then "''" else [s[0]];
      assert tail == piece + (Doubled(s[1..], '\'') + ("'" + rest));
      assert t[p + |piece|..] == tail[|piece|..];
      assert t[p] == tail[0] && (s[0] == '\'' ==> t[p + 1] == tail[1]);
      StringEndsThere(t, p + |piece|, s[1..], rest);
    }
  }

  lemma StringTokenAt(t: string, i: nat, e: nat, cc: CharClass)
    requires At(t, i, 'N', '\'') && StringEnd(t, i + 2) == Some(e) && !cc.space('N')
    ensures NextToken(t, i, cc) == Got(Token(Quoted, i, e, ""))
  {
    assert RunEnd(t, i, cc.space) == i;
    assert GapFrom(t, i, cc) == Over(i);
  }

  lemma LiteralSpan(pre: string, d: string, rest: string)
    ensures var t, i, e := pre + ("N'" + d + "'" + rest), |pre|, |pre| + |d| + 3;
            && At(t, i, 'N', '\'') && e <= |t| && t[i + 2..] == d + ("'" + rest)
            && t[i..e] == "N'" + d + "'" && t[i + 2..e - 1] == d
  {
  }

  /** Wherever a literal stands, followed by anything but a quote, the lexer reads one string token that
      spans exactly the literal, and undoubling its inside gives the text back. */
  lemma LiteralIsOneToken(pre: string, s: string, rest: string, cc: CharClass)
    requires (rest == "" || rest[0] != '\'') && !cc.space('N')
    ensures var t, i, e := pre + (Literal(s) + rest), |pre|, |pre| + |Literal(s)|;
            && NextToken(t, i, cc) == Got(Token(Quoted, i, e, ""))
            && t[i..e] == Literal(s) && Undoubled(t[i + 2..e - 1]) == s
  {
    var t, i := pre + (Literal(s) + rest), |pre|;
    LiteralSpan(pre, Doubled(s, '\''), rest);
    StringEndsThere(t, i + 2, s, rest);
    StringTokenAt(t, i, i + |Literal(s)|, cc);
    UndoubleDoubled(s);
  }

  /** Different texts have different literals. */
  lemma LiteralInjective(a: string, b: string)
    requires Literal(a) == Literal(b)
    ensures a == b
  {
    assert Literal(a)[2..|Literal(a)| - 1] == Doubled(a, '\'') && Literal(b)[2..|Literal(b)| - 1] == Doubled(b, '\'');
    UndoubleDoubled(a);
    UndoubleDoubled(b);
  }
}
