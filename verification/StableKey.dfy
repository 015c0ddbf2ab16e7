/** vms_meta_stable_key: the streaming fold over a table's unique indexes, against a declarative choice. */
module StableKey {
  import opened Lists
  import opened Meta

  datatype Part = Part(name: string, vtype: ColType)

  datatype Key = Key(indexName: string, primary: bool, parts: seq<Part>)

  /** One row of the catalog query: one column of one unique index. */
  datatype IndexRow = IndexRow(id: int, primary: bool, suitable: bool, ordinal: int, part: Part, indexName: string)

  const NoKey: Key := Key("", false, [])

  /** Stores a part at its ordinal; parts not yet seen are blank. */
  function Place(parts: seq<Part>, ordinal: int, p: Part): (r: seq<Part>)
    requires 1 <= ordinal
    ensures |r| == (if ordinal > |parts| then ordinal else |parts|) && r[ordinal - 1] == p
    ensures forall i :: 0 <= i < |parts| && i != ordinal - 1 ==> r[i] == parts[i]
    decreases ordinal - |parts|
  {
    if ordinal <= |parts| then parts[ordinal - 1 := p]
    else if ordinal == |parts| + 1 then parts + [p]
    else Place(parts + [Part("", Int64)], ordinal, p)
  }

  /** The accumulator's value. */
  datatype Fold = Fold(best: Option<Key>, current: Key, id: int, suitable: bool)

  const Start: Fold := Fold(None, NoKey, 0, false)

  function Finished(s: Fold): Fold {
    if s.id == 0 then s
    else if s.suitable && s.current.parts != [] && (s.best.None? || (s.current.primary && !s.best.value.primary)) then
      Fold(Some(s.current), NoKey, 0, false)
    else Fold(s.best, NoKey, 0, false)
  }

  function Taken(s: Fold, r: IndexRow): Fold {
    var s1 := if r.id != s.id then Fold(Finished(s).best, Key(r.indexName, r.primary, []), r.id, r.suitable) else s;
    if !s1.suitable then s1
    else if r.ordinal < 1 || r.ordinal > MaxKeyParts then s1.(suitable := false)
    else s1.(current := s1.current.(parts := Place(s1.current.parts, r.ordinal, r.part)))
  }

  function RunFrom(s: Fold, rows: seq<IndexRow>): Fold {
    if rows == [] then s else Taken(RunFrom(s, rows[..|rows| - 1]), rows[|rows| - 1])
  }

  // ---- the source's accumulator ----

  class KeyCtx {
    var best: Key
    var current: Key
    var currentIndexId: int
    var currentSuitable: bool
    var haveBest: bool

    function State(): Fold
      reads this
    {
      Fold(if haveBest then Some(best) else None, current, currentIndexId, currentSuitable)
    }

    constructor ()
      ensures State() == Start
    {
      best, current, currentIndexId, currentSuitable, haveBest := NoKey, NoKey, 0, false, false;
    }

    /** key_finish_current */
    method FinishCurrent()
      modifies this
      ensures State() == Finished(old(State()))
    {
      if currentIndexId == 0 { return; }
      if currentSuitable && |current.parts| > 0 {
        var better := false;
        if !haveBest {
          better := true;
        } else if current.primary && !best.primary {
          better := true;
        }
        if better { best, haveBest := current, true; }
      }
      currentIndexId, currentSuitable, current := 0, false, NoKey;
    }

    /** key_row */
    method Row(r: IndexRow)
      modifies this
      ensures State() == Taken(old(State()), r)
    {
      if r.id != currentIndexId {
        FinishCurrent();
        currentIndexId, currentSuitable := r.id, r.suitable;
        current := Key(r.indexName, r.primary, []);
      }
      if !currentSuitable { return; }
      if r.ordinal < 1 || r.ordinal > MaxKeyParts {
        currentSuitable := false;
        return;
      }
      current := current.(parts := Place(current.parts, r.ordinal, r.part));
    }
  }

  // ---- groups ----

  datatype Group = Group(id: int, primary: bool, suitable: bool, indexName: string, parts: seq<(int, Part)>)

  function RowsOf(g: Group): (r: seq<IndexRow>)
    ensures |r| == |g.parts|
  {
    seq(|g.parts|, i requires 0 <= i < |g.parts| =>
      IndexRow(g.id, g.primary, g.suitable, g.parts[i].0, g.parts[i].1, g.indexName))
  }

  /** The rows of all groups, in order. */
  function Flat(gs: seq<Group>): seq<IndexRow> {
    if gs == [] then [] else Flat(gs[..|gs| - 1]) + RowsOf(gs[|gs| - 1])
  }

  /** The rows come grouped by index: every index has rows, and its id is positive and not repeated. */
  predicate Grouped(gs: seq<Group>) {
    && (forall i :: 0 <= i < |gs| ==> gs[i].id >= 1 && gs[i].parts != [])
    && (forall i :: 0 < i < |gs| ==> gs[i - 1].id != gs[i].id)
  }

  predicate Qualifies(g: Group) {
    g.suitable && forall i :: 0 <= i < |g.parts| ==> 1 <= g.parts[i].0 <= 16
  }

  /** The parts of the first n rows, each at its ordinal. */
  function Placed(ps: seq<(int, Part)>, n: nat): (r: seq<Part>)
    requires n <= |ps| && forall i :: 0 <= i < n ==> 1 <= ps[i].0
    ensures n > 0 ==> r != []
  {
    if n == 0 then [] else Place(Placed(ps, n - 1), ps[n - 1].0, ps[n - 1].1)
  }

  function KeyOf(g: Group): Key
    requires Qualifies(g)
  {
    Key(g.indexName, g.primary, Placed(g.parts, |g.parts|))
  }

  /** Ascending ordinals: the key is as wide as the last ordinal, and every part is at its own. */
  lemma {:induction false} PartsInOrder(ps: seq<(int, Part)>, n: nat)
    requires n <= |ps| && (forall i :: 0 <= i < n ==> 1 <= ps[i].0)
    requires forall i, j :: 0 <= i < j < n ==> ps[i].0 < ps[j].0
    ensures |Placed(ps, n)| == (if n == 0 then 0 else ps[n - 1].0)
    ensures forall i :: 0 <= i < n ==> ps[i].0 <= |Placed(ps, n)| && Placed(ps, n)[ps[i].0 - 1] == ps[i].1
  {
    if n > 0 {
      PartsInOrder(ps, n - 1);
      if n > 1 { assert ps[n - 2].0 < ps[n - 1].0; }
      forall i | 0 <= i < n - 1 ensures Placed(ps, n)[ps[i].0 - 1] == ps[i].1 {
        assert ps[i].0 < ps[n - 1].0;
      }
    }
  }

  // ---- the fold sees groups ----

  lemma {:induction false} RunAppend(s: Fold, a: seq<IndexRow>, b: seq<IndexRow>)
    ensures RunFrom(s, a + b) == RunFrom(RunFrom(s, a), b)
  {
    if b == [] {
      assert a + b == a;
    } else {
      assert (a + b)[..|a + b| - 1] == a + b[..|b| - 1];
      RunAppend(s, a, b[..|b| - 1]);
    }
  }

  predicate GoodSoFar(g: Group, n: nat)
    requires n <= |g.parts|
  {
    g.suitable && forall i :: 0 <= i < n ==> 1 <= g.parts[i].0 <= MaxKeyParts
  }

  /** After the first n rows of a group that starts a new index. */
  lemma {:induction false} GroupRows(s: Fold, g: Group, n: nat)
    requires s.id != g.id && 0 < n <= |g.parts|
    ensures var r := RunFrom(s, RowsOf(g)[..n]);
            && r.id == g.id && r.best == Finished(s).best && (r.suitable <==> GoodSoFar(g, n))
            && (r.suitable ==> r.current == Key(g.indexName, g.primary, Placed(g.parts, n)))
  {
    var rows := RowsOf(g)[..n];
    assert rows[..n - 1] == RowsOf(g)[..n - 1] && rows[n - 1] == RowsOf(g)[n - 1];
    if n > 1 {
      GroupRows(s, g, n - 1);
    } else {
      assert rows[..n - 1] == [] && RunFrom(s, rows[..n - 1]) == s;
    }
  }

  /** The group of the best key so far, or -1. */
  function BestAt(gs: seq<Group>): (b: int)
    ensures -1 <= b < |gs| && (b >= 0 ==> Qualifies(gs[b]))
  {
    if gs == [] then -1
    else
      var b, n := BestAt(gs[..|gs| - 1]), |gs| - 1;
      if Qualifies(gs[n]) && (b < 0 || (gs[n].primary && !gs[b].primary)) then n else b
  }

  function Best(gs: seq<Group>): Option<Key> {
    if BestAt(gs) < 0 then None else Some(KeyOf(gs[BestAt(gs)]))
  }

  lemma BestStep(gs: seq<Group>)
    requires gs != []
    ensures var b, g := Best(gs[..|gs| - 1]), gs[|gs| - 1];
            Best(gs) == if Qualifies(g) && (b.None? || (g.primary && !b.value.primary)) then Some(KeyOf(g)) else b
  {
  }

  lemma FoldGroup(s: Fold, g: Group)
    requires s.id != g.id && g.id != 0 && g.parts != []
    ensures var r, b := RunFrom(s, RowsOf(g)), Finished(s).best;
            && r.id == g.id
            && Finished(r).best == if Qualifies(g) && (b.None? || (g.primary && !b.value.primary)) then Some(KeyOf(g))
                 else b
  {
    GroupRows(s, g, |g.parts|);
    assert RowsOf(g)[..|g.parts|] == RowsOf(g);
  }

  lemma {:induction false} FoldGroups(gs: seq<Group>)
    requires Grouped(gs)
    ensures var r := RunFrom(Start, Flat(gs));
            Finished(r).best == Best(gs) && r.id == if gs == [] then 0 else gs[|gs| - 1].id
  {
    if gs != [] {
      var before, g := gs[..|gs| - 1], gs[|gs| - 1];
      FoldGroups(before);
      RunAppend(Start, Flat(before), RowsOf(g));
      var s := RunFrom(Start, Flat(before));
      assert s.id != g.id;
      FoldGroup(s, g);
      BestStep(gs);
    }
  }

  // ---- the declarative choice ----

  /** Group i is the choice: the first qualifying primary key, or without one the first qualifying
      unique index. */
  predicate IsChoice(gs: seq<Group>, i: nat) {
    && i < |gs| && Qualifies(gs[i])
    && (forall j :: 0 <= j < i && Qualifies(gs[j]) ==> gs[i].primary && !gs[j].primary)
    && (!gs[i].primary ==> forall j :: 0 <= j < |gs| && Qualifies(gs[j]) ==> !gs[j].primary)
  }

  lemma {:induction false} BestIsChoice(gs: seq<Group>)
    ensures BestAt(gs) < 0 ==> forall i :: 0 <= i < |gs| ==> !Qualifies(gs[i])
    ensures BestAt(gs) >= 0 ==> IsChoice(gs, BestAt(gs))
  {
    if gs != [] { BestIsChoice(gs[..|gs| - 1]); }
  }

  lemma ChoiceUnique(gs: seq<Group>, i: nat, j: nat)
    requires IsChoice(gs, i) && IsChoice(gs, j)
    ensures i == j
  {
  }

  /** The row callback over all rows, then the last group. */
  method FoldRows(rows: seq<IndexRow>) returns (key: Option<Key>)
    ensures key == Finished(RunFrom(Start, rows)).best
  {
    var k := new KeyCtx();
    for i := 0 to |rows|
      invariant k.State() == RunFrom(Start, rows[..i])
    {
      assert rows[..i + 1][..i] == rows[..i];
      k.Row(rows[i]);
    }
    assert rows[..|rows|] == rows;
    k.FinishCurrent();
    key := if k.haveBest then Some(k.best) else None;
  }

  /** The fold's result is the choice. */
  lemma BestIsTheChoice(gs: seq<Group>)
    ensures Best(gs).None? <==> forall i :: 0 <= i < |gs| ==> !Qualifies(gs[i])
    ensures forall i: nat :: IsChoice(gs, i) ==> Best(gs) == Some(KeyOf(gs[i]))
  {
    BestIsChoice(gs);
    forall i: nat | IsChoice(gs, i) ensures i == BestAt(gs) { ChoiceUnique(gs, i, BestAt(gs)); }
  }

  /** A group holds an INCLUDE column, whose key ordinal is 0. */
  predicate HasInclude(g: Group) {
    exists i :: 0 <= i < |g.parts| && g.parts[i].0 == 0
  }

  /** An index with an INCLUDE column is never chosen, whatever the other indexes are. */
  lemma IncludeNeverChosen(gs: seq<Group>, i: nat)
    requires i < |gs| && HasInclude(gs[i])
    ensures !Qualifies(gs[i]) && !IsChoice(gs, i) && BestAt(gs) != i
  {
    var k :| 0 <= k < |gs[i].parts| && gs[i].parts[k].0 == 0;
  }

  /** A suitable unique index on one column that also includes another: the table has no stable key. */
  lemma IncludeLosesTheKey()
    ensures var g := Group(1, true, true, "pk", [(0, Part("b", TextT)), (1, Part("a", Int64))]);
            Grouped([g]) && Finished(RunFrom(Start, Flat([g]))).best == None
  {
    var g := Group(1, true, true, "pk", [(0, Part("b", TextT)), (1, Part("a", Int64))]);
    assert g.parts[0].0 == 0 && HasInclude([g][0]);
    IncludeNeverChosen([g], 0);
    FoldGroups([g]);
  }

  /** vms_meta_stable_key over the rows of any grouped answer: the primary key if it qualifies, else the
      first qualifying unique index, and nothing exactly when no group qualifies. */
  method Choose(rows: seq<IndexRow>, ghost gs: seq<Group>) returns (key: Option<Key>)
    requires Grouped(gs) && rows == Flat(gs)
    ensures key.None? <==> forall i :: 0 <= i < |gs| ==> !Qualifies(gs[i])
    ensures forall i: nat :: IsChoice(gs, i) ==> key == Some(KeyOf(gs[i]))
  {
    key := FoldRows(rows);
    FoldGroups(gs);
    BestIsTheChoice(gs);
  }
}
