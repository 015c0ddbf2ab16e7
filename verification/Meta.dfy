/** Column metadata shared by the planner, the write path and the cache. */
module Meta {

  const MaxKeyParts: nat := 16

  datatype ColType = Int64 | Float64 | TextT | BigText | BlobT | DecimalT | DateTime | Guid | Spatial | Unsupported

  datatype Column = Column(
    name: string, typeName: string, vtype: ColType,
    nullable: bool, identity: bool, computed: bool,
    maxLength: nat, precision: nat, scale: nat)

  /** A double, as its 64 bits. */
  type Double = b: nat | b < 0x1_0000_0000_0000_0000

  /** Neither an infinity nor a NaN: the exponent bits are not all set. */
  predicate Finite(b: Double) {
    b / 0x10_0000_0000_0000 % 0x800 != 0x7FF
  }

  /** A value as SQLite holds it. */
  datatype Value = NullV | IntV(n: int) | RealV(r: Double) | TextV(s: string) | BlobV(bytes: seq<nat>)

  function LowerChar(c: char): char {
    if 'A' <= c <= 'Z' then c - 'A' + 'a' else c
  }

  function Lower(s: string): (r: string)
    ensures |r| == |s|
  {
    seq(|s|, i requires 0 <= i < |s| => LowerChar(s[i]))
  }

  /** _stricmp(a, b) == 0 */
  predicate SameName(a: string, b: string) {
    Lower(a) == Lower(b)
  }

  /** The same letter in either case, or the same character. */
  predicate SameLetter(a: char, b: char) {
    || a == b || ('A' <= a <= 'Z' && 'a' <= b <= 'z' && a - 'A' == b - 'a')
    || ('a' <= a <= 'z' && 'A' <= b <= 'Z' && a - 'a' == b - 'A')
  }

  /** Letter by letter the same, case aside. */
  predicate AnyCase(a: string, b: string) {
    |a| == |b| && forall i :: 0 <= i < |a| ==> SameLetter(a[i], b[i])
  }

  lemma SameNameMeans(a: string, b: string)
    ensures SameName(a, b) <==> AnyCase(a, b)
  {
    if SameName(a, b) {
      forall i | 0 <= i < |a| ensures SameLetter(a[i], b[i]) { assert Lower(a)[i] == Lower(b)[i]; }
    }
  }

  /** No two columns of a table share a name, case aside. */
  predicate DistinctNames(cols: seq<Column>) {
    forall i, j :: 0 <= i < j < |cols| ==> !SameName(cols[i].name, cols[j].name)
  }

  /** The first column of that name, or -1. */
  function FindColumn(cols: seq<Column>, name: string): (j: int)
    ensures -1 <= j < |cols|
    ensures j >= 0 ==> SameName(cols[j].name, name)
    ensures forall k :: 0 <= k < |cols| && SameName(cols[k].name, name) ==> 0 <= j <= k
  {
    FindFrom(cols, name, 0)
  }

  function FindFrom(cols: seq<Column>, name: string, i: nat): (j: int)
    requires i <= |cols|
    ensures j == -1 || i <= j < |cols|
    ensures j >= 0 ==> SameName(cols[j].name, name)
    ensures forall k :: i <= k < |cols| && SameName(cols[k].name, name) ==> i <= j <= k
    decreases |cols| - i
  {
    if i == |cols| then -1
    else if SameName(cols[i].name, name) then i
    else FindFrom(cols, name, i + 1)
  }

  lemma FindOwnName(cols: seq<Column>, i: nat)
    requires i < |cols| && DistinctNames(cols)
    ensures FindColumn(cols, cols[i].name) == i
  {
  }

  /** A row's value of the column of that name. */
  function CellNamed(cols: seq<Column>, row: seq<Value>, name: string): Value
    requires |row| == |cols|
  {
    var j := FindColumn(cols, name);
    if j < 0 then NullV else row[j]
  }

  predicate IdentChar(c: char) {
    'a' <= c <= 'z' || 'A' <= c <= 'Z' || '0' <= c <= '9' || c in {'_', '#', '@', '$'}
  }

  /** vms_meta_ident_valid: 1 to max characters from [A-Za-z0-9_#@$]. */
  predicate IdentValid(name: string, max: nat) {
    0 < |name| <= max && forall i :: 0 <= i < |name| ==> IdentChar(name[i])
  }
}
