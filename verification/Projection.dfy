/** Which columns the remote statement returns, and how xColumn finds them again. */
module Projection {
  import opened Lists
  import opened Meta
  import opened Plan
  import opened Sql
  import opened PlanSql
  import opened PlanBuild

  /** The row the server returns for the SELECT list. */
  function ServerRow(items: List<Tok>, cols: seq<Column>, row: seq<Value>): (r: seq<Value>)
    requires |row| == |cols| && AllItems(items)
  {
    if items.Nil? then []
    else [CellNamed(cols, row, items.head.name)] + ServerRow(items.tail, cols, row)
  }

  /** The place of column v among the projected ones. */
  function Rank(mask: set<nat>, v: nat): (r: nat)
    ensures r <= v
  {
    if v == 0 then 0 else Rank(mask, v - 1) + (if IsProjected(mask, v - 1) then 1 else 0)
  }

  function MapEntry(mask: set<nat>, v: nat): int {
    if IsProjected(mask, v) then Rank(mask, v) else -1
  }

  // ---- the source's loops ----

  /** The column map of a cursor. */
  method BuildColMap(mask: set<nat>, ncols: nat) returns (map': array<int>)
    ensures fresh(map') && map'.Length == ncols
    ensures forall v :: 0 <= v < ncols ==> map'[v] == MapEntry(mask, v)
  {
    map' := new int[ncols];
    var proj := 0;
    for v := 0 to ncols
      invariant proj == Rank(mask, v)
      invariant forall k :: 0 <= k < v ==> map'[k] == MapEntry(mask, k)
    {
      if IsProjected(mask, v) {
        map'[v] := proj;
        proj := proj + 1;
      } else {
        map'[v] := -1;
      }
    }
  }

  predicate IsKeyColumn(cols: seq<Column>, keys: seq<string>, j: nat) {
    j < |cols| && exists k :: 0 <= k < |keys| && SameName(cols[j].name, keys[k])
  }

  function KeyMask(mask: set<nat>, cols: seq<Column>, keys: seq<string>): set<nat> {
    mask + set j | 0 <= j < |cols| && IsKeyColumn(cols, keys, j)
  }

  /** xBestIndex on a writable table adds the columns of the stable key. */
  method AddKeyColumns(mask: set<nat>, cols: seq<Column>, keys: seq<string>) returns (m: set<nat>)
    requires |cols| <= 32
    ensures m == KeyMask(mask, cols, keys)
  {
    m := mask;
    for k := 0 to |keys|
      invariant m == mask + set j | 0 <= j < |cols| && IsKeyColumn(cols, keys[..k], j)
    {
      ghost var before := m;
      for j := 0 to |cols|
        invariant m == before + set i | 0 <= i < j && SameName(cols[i].name, keys[k])
      {
        if SameName(cols[j].name, keys[k]) && j < 62 { m := m + {j}; }
      }
      KeysGrow(cols, keys, k);
    }
    assert keys[..|keys|] == keys;
  }

  lemma KeysGrow(cols: seq<Column>, keys: seq<string>, k: nat)
    requires k < |keys|
    ensures forall j: nat :: IsKeyColumn(cols, keys[..k + 1], j) <==>
                        IsKeyColumn(cols, keys[..k], j) || (j < |cols| && SameName(cols[j].name, keys[k]))
  {
    forall j: nat | j < |cols|
      ensures IsKeyColumn(cols, keys[..k + 1], j) <==>
                IsKeyColumn(cols, keys[..k], j) || SameName(cols[j].name, keys[k])
    {
      assert keys[..k + 1][k] == keys[k];
      assert forall i :: 0 <= i < k ==> keys[..k + 1][i] == keys[..k][i];
    }
  }

  // ---- reading through the map ----

  /** What xColumn answers for column v. */
  function ReadColumn(mask: set<nat>, cols: seq<Column>, wkt: bool, row: seq<Value>, v: nat): Value
    requires |row| == |cols|
  {
    var got := ServerRow(ItemsFrom(mask, cols, wkt, 0), cols, row);
    var at := MapEntry(mask, v);
    if v < |cols| && 0 <= at < |got| then got[at] else NullV
  }

  /** The map sends the projected columns one to one to the places of the server's row, in table order, and the others
      to -1; these read as NULL. */
  lemma MapExactly(mask: set<nat>, cols: seq<Column>, wkt: bool, row: seq<Value>, u: nat, v: nat)
    requires u < v < |cols| == |row|
    ensures MapEntry(mask, v) >= 0 <==> IsProjected(mask, v)
    ensures IsProjected(mask, u) && IsProjected(mask, v) ==> MapEntry(mask, u) < MapEntry(mask, v)
    ensures !IsProjected(mask, v) ==> ReadColumn(mask, cols, wkt, row, v) == NullV
  {
    RankGrows(mask, u, v);
  }

  lemma {:induction false} RankGrows(mask: set<nat>, u: nat, v: nat)
    requires u < v
    ensures Rank(mask, u) + (if IsProjected(mask, u) then 1 else 0) <= Rank(mask, v)
  {
    if u < v - 1 { RankGrows(mask, u, v - 1); }
  }

  /** The server's row from column i on has column v's own cell at v's place. */
  predicate CellAt(mask: set<nat>, cols: seq<Column>, wkt: bool, row: seq<Value>, i: nat, v: nat)
    requires i <= |cols| == |row|
  {
    var got := ServerRow(ItemsFrom(mask, cols, wkt, i), cols, row);
    var k := Rank(mask, v) - Rank(mask, i);
    v < |row| && 0 <= k < |got| && got[k] == row[v]
  }

  lemma {:induction false} RankFrom(mask: set<nat>, cols: seq<Column>, wkt: bool, row: seq<Value>, i: nat, v: nat)
    requires i <= v < |cols| == |row| && IsProjected(mask, v) && DistinctNames(cols)
    ensures CellAt(mask, cols, wkt, row, i, v)
    decreases v - i
  {
    if i == v {
      FindOwnName(cols, v);
    } else {
      RankFrom(mask, cols, wkt, row, i + 1, v);
      CellBefore(mask, cols, wkt, row, i, v);
    }
  }

  lemma CellBefore(mask: set<nat>, cols: seq<Column>, wkt: bool, row: seq<Value>, i: nat, v: nat)
    requires i < v < |cols| == |row| && CellAt(mask, cols, wkt, row, i + 1, v)
    ensures CellAt(mask, cols, wkt, row, i, v)
  {
    RowGrows(mask, cols, wkt, row, i);
    Behind(ServerRow(ItemsFrom(mask, cols, wkt, i), cols, row), ServerRow(ItemsFrom(mask, cols, wkt, i + 1), cols, row),
           IsProjected(mask, i), Rank(mask, v) - Rank(mask, i + 1));
  }

  lemma Behind(got: seq<Value>, more: seq<Value>, longer: bool, k: nat)
    requires k < |more| && if longer then |got| == |more| + 1 && got[1..] == more else got == more
    ensures var j := k + (if longer then 1 else 0); j < |got| && got[j] == more[k]
  {
  }

  /** The server's row from a column on is its cell, if it is projected, and the row from the next one on. */
  lemma RowGrows(mask: set<nat>, cols: seq<Column>, wkt: bool, row: seq<Value>, i: nat)
    requires i < |cols| == |row|
    ensures var got, more := ServerRow(ItemsFrom(mask, cols, wkt, i), cols, row),
                             ServerRow(ItemsFrom(mask, cols, wkt, i + 1), cols, row);
            if IsProjected(mask, i) then |got| == |more| + 1 && got[1..] == more else got == more
    ensures Rank(mask, i + 1) == Rank(mask, i) + (if IsProjected(mask, i) then 1 else 0)
  {
  }

  /** The columns SQLite or the write path may read. */
  predicate Needed(info: IndexInfo, cols: seq<Column>, keys: seq<string>, v: nat) {
    v < |cols| &&
    (v in info.colUsed || 63 in info.colUsed || IsKeyColumn(cols, keys, v)
     || (exists k :: 0 <= k < |info.constraints| && info.constraints[k].column == v)
     || (exists k :: 0 <= k < |info.orderBy| && info.orderBy[k].column == v))
  }

  lemma NeededProjected(info: IndexInfo, cols: seq<Column>, keys: seq<string>, v: nat)
    requires |cols| <= 32 && Needed(info, cols, keys, v)
    ensures IsProjected(KeyMask(MaskOf(info, |cols|), cols, keys), v)
  {
  }

  /** Every needed column is projected, and reading it through the map gives the table's own value. */
  lemma ProjectionFaithful(info: IndexInfo, cols: seq<Column>, keys: seq<string>, wkt: bool, row: seq<Value>, v: nat)
    requires |cols| <= 32 && DistinctNames(cols) && |row| == |cols| && Needed(info, cols, keys, v)
    ensures var mask := KeyMask(MaskOf(info, |cols|), cols, keys);
            IsProjected(mask, v) && ReadColumn(mask, cols, wkt, row, v) == row[v]
  {
    NeededProjected(info, cols, keys, v);
    RankFrom(KeyMask(MaskOf(info, |cols|), cols, keys), cols, wkt, row, 0, v);
  }
}
