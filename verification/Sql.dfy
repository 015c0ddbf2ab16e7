/** Remote SQL text: the pieces the builders append, their characters, and the bounded buffer. */
module Sql {
  import opened Lists
  import opened Plan
  import Decimal

  /** One appended piece of text; `Text` gives its characters. */
  datatype Tok =
    | SelectKw | FromKw | WhereKw | AndKw | OrderByKw | DescKw | Comma | Dot
    | Name(name: string) | Cast(name: string, max: bool) | Geo(name: string, wkt: bool)
    | Cmp(op: ConstraintOp) | Param | IsNull | IsNotNull
    | OffsetKw | RowsFetchNext | RowsOnly
    | InsertInto | OpenList | ValuesKw | CloseList | UpdateKw | SetKw | DeleteFrom
    | NullLit | Num(digits: string) | TextLit(s: string)

  function Text(t: Tok): string {
    match t
    case SelectKw => "SELECT "
    case FromKw => " FROM "
    case WhereKw => " WHERE "
    case AndKw => " AND "
    case OrderByKw => " ORDER BY "
    case DescKw => " DESC"
    case Comma => ", "
    case Dot => "."
    case Name(n) => "[" + n + "]"
    case Cast(n, max) => "CAST([" + n + "]" + (if max then " AS nvarchar(max))" else " AS nvarchar(4000))")
    case Geo(n, wkt) => "[" + n + "]" + (if wkt then ".STAsText()" else ".STAsBinary()")
    case Cmp(op) => (match op case LT => " < " case LE => " <= " case GT => " > " case GE => " >= " case _ => " = ")
    case Param => "?"
    case IsNull => " IS NULL"
    case IsNotNull => " IS NOT NULL"
    case OffsetKw => " OFFSET "
    case RowsFetchNext => " ROWS FETCH NEXT "
    case RowsOnly => " ROWS ONLY"
    case InsertInto => "INSERT INTO "
    case OpenList => " ("
    case ValuesKw => ") VALUES ("
    case CloseList => ")"
    case UpdateKw => "UPDATE "
    case SetKw => " SET "
    case DeleteFrom => "DELETE FROM "
    case NullLit => "NULL"
    case Num(digits) => digits
    case TextLit(s) => Literal(s)
  }

  /** "%lld" */
  function PrintInt(n: int): (s: string)
    ensures |s| > 0
  {
    if n < 0 then "-" + Decimal.Print(-n) else Decimal.Print(n)
  }

  /** A text literal: N'...' with every quote doubled. */
  function Literal(s: string): string {
    "N'" + Doubled(s, '\'') + "'"
  }

  function Doubled(s: string, c: char): string {
    if s == "" then "" else (if s[0] == c then [c, c] else [s[0]]) + Doubled(s[1..], c)
  }

  predicate StartsWith(toks: List<Tok>, t: Tok) {
    toks.Cons? && toks.head == t
  }

  /** The characters of the statement. */
  function Chars(toks: List<Tok>): string {
    if toks.Nil? then "" else Text(toks.head) + Chars(toks.tail)
  }

  // ---- the bounded buffer ----

  /** A character buffer being filled with a planned text: `left` is what is still to be appended. */
  class SqlBuffer {
    const cap: nat
    var text: string
    var ok: bool
    ghost const whole: List<Tok>
    ghost var left: List<Tok>

    ghost predicate Valid()
      reads this
    {
      && (ok ==> text + Chars(left) == Chars(whole) && |text| < cap)
      && (!ok ==> |Chars(whole)| >= cap)
    }

    constructor (cap: nat, ghost plan: List<Tok>)
      ensures Valid() && left == whole == plan && this.cap == cap
    {
      this.cap, whole, left := cap, plan, plan;
      text, ok := "", cap > 0;
      new;
      assert "" + Chars(plan) == Chars(plan);
    }

    /** append_w, sb_add: after a failed append the builder gives up; here nothing is appended any more. */
    method Add(t: Tok)
      requires Valid() && left.Cons? && left.head == t
      modifies this
      ensures Valid() && left == old(left).tail
    {
      if ok {
        Assoc(text, Text(t), Chars(left.tail));
        if |text| + |Text(t)| + 1 > cap {
          ok := false;
        } else {
          text := text + Text(t);
        }
      }
      left := left.tail;
    }

    /** The result: the whole text, exactly when it and its terminator fit. */
    method Finish() returns (r: Option<string>)
      requires Valid() && left == Nil
      ensures r == if |Chars(whole)| < cap then Some(Chars(whole)) else None
    {
      assert text + "" == text;
      r := if ok then Some(text) else None;
    }
  }
}
