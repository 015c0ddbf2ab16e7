/** Runs of a writable table: xBestIndex and xUpdate make write contexts, xRowid fills the table's one
    stash, and xUpdate writes the row the stash names. */
module StashRuns {
  import opened Lists
  import opened Meta
  import opened DmlSql
  import opened DmlText
  import opened Dml
  import opened DmlEffect
  import opened KeyStash

  // ---- the table's write state and its calls ----

  /** `dml` and `txn` say whether the autocommit context and a context of a pinned connection exist. */
  datatype Vtab = Vtab(have: bool, text: seq<string>, partCol: seq<int>, dml: bool, txn: bool)

  /** How making a context ends: it can be used, it was not made, or its BEGIN failed. */
  datatype Reply = Ready | InitFails | BeginFails

  /** `row` is what the scan stands on, `shown` the columns it reads; `rowid` is argv[0] of xUpdate. */
  datatype Call =
    | BestIndex(pinned: bool, reply: Reply)
    | RowId(row: Option<Row>, shown: set<nat>)
    | DeleteRow(pinned: bool, reply: Reply, rowid: int)
    | UpdateRow(pinned: bool, reply: Reply, rowid: int, values: Texts)
    | InsertRow(pinned: bool, reply: Reply, values: Texts, defaults: Row)

  /** The table, the number formats and the server's equality. */
  datatype Site = Site(d: Context, f: Formats, same: Same)

  function Untouched(): Vtab {
    Vtab(false, seq(MaxKeyParts, _ => ""), seq(MaxKeyParts, _ => 0), false, false)
  }

  predicate Fit(v: Vtab) {
    |v.text| == |v.partCol| == MaxKeyParts
  }

  predicate KeyFits(d: Context) {
    0 < |d.key| <= MaxKeyParts
  }

  predicate CallOk(c: Call, d: Context) {
    match c
    case RowId(row, _) => row.Some? ==> |row.value| == |d.cols|
    case UpdateRow(_, _, _, values) => |values| == |d.cols|
    case InsertRow(_, _, values, defaults) => |values| == |d.cols| && |defaults| == |d.cols|
    case _ => true
  }

  function BoundMap(partCol: seq<int>, d: Context): (r: seq<int>)
    ensures |r| == |partCol|
  {
    seq(|partCol|, k requires 0 <= k < |partCol| => if k < |d.key| then KeyPartCol(d, k) else partCol[k])
  }

  /** vtab_dml_ctx: the part map is filled with the autocommit context, and only then. */
  function MakeContext(v: Vtab, d: Context, pinned: bool, reply: Reply): (r: (Vtab, bool))
    ensures Fit(v) ==> Fit(r.0)
    ensures r.0.have == v.have && r.0.text == v.text
  {
    if pinned then (v.(txn := reply != InitFails), reply == Ready)
    else if v.dml then (v, true)
    else if reply == Ready then (v.(dml := true, partCol := BoundMap(v.partCol, d)), true)
    else (v, false)
  }

  function Keys(v: Vtab, d: Context): (r: Texts)
    requires Fit(v)
    ensures |r| == |d.cols|
  {
    KeyTexts(v.have, v.text, v.partCol, |d.cols|)
  }

  /** xUpdate passes no mask: every column is present. */
  function Everywhere(d: Context): (r: seq<bool>)
    ensures |r| == |d.cols|
  {
    seq(|d.cols|, _ => true)
  }

  /** The text sent for a statement: none if there is none or it does not fit. */
  function Sendable(s: Option<Statement>): Option<string>
    requires s.Some? ==> WellFormed(s.value)
  {
    if s.Some? && |StatementText(s.value)| < 4096 then Some(StatementText(s.value)) else None
  }

  /** The statement of a write, on a table state whose context is made. */
  function StatementOf(v: Vtab, c: Call, d: Context, f: Formats): (s: Option<Statement>)
    requires Fit(v) && KeyFits(d) && CallOk(c, d)
    ensures s.Some? ==> WellFormed(s.value)
  {
    match c
    case DeleteRow(_, _, _) => DeleteOf(d, Keys(v, d), f)
    case UpdateRow(_, _, _, values) => UpdateOf(d, Everywhere(d), values, Keys(v, d), f)
    case InsertRow(_, _, values, _) => InsertOf(d, Everywhere(d), values, f)
    case _ => None
  }

  /** One call: the new state and the text sent, if any. */
  function Step(v: Vtab, c: Call, d: Context, f: Formats): (r: (Vtab, Option<string>))
    requires Fit(v) && KeyFits(d) && CallOk(c, d)
    ensures Fit(r.0)
  {
    if c.RowId? then
      if c.row.None? || !(v.dml || v.txn) then (v.(have := false), None)
      else
        var kept := Keeping(v.text, d, c.row.value, c.shown, f, 0);
        (v.(have := kept.0, text := kept.1), None)
    else
      var m := MakeContext(v, d, c.pinned, c.reply);
      (m.0, if m.1 then Sendable(StatementOf(m.0, c, d, f)) else None)
  }

  // ---- the calls on the object ----

  class VirtualTable {
    var have: bool
    var text: seq<string>
    var partCol: seq<int>
    var dml: bool
    var txn: bool

    function State(): Vtab
      reads this
    {
      Vtab(have, text, partCol, dml, txn)
    }

    constructor ()
      ensures State() == Untouched()
    {
      have, text, partCol := false, seq(MaxKeyParts, _ => ""), seq(MaxKeyParts, _ => 0);
      dml, txn := false, false;
    }

    /** The loop over the key parts and the columns. */
    method MapParts(d: Context)
      requires Fit(State()) && KeyFits(d)
      modifies this`partCol
      ensures partCol == BoundMap(old(partCol), d)
    {
      for k := 0 to |d.key|
        invariant |partCol| == MaxKeyParts
        invariant forall j :: 0 <= j < MaxKeyParts ==> partCol[j] == if j < k then KeyPartCol(d, j) else old(partCol)[j]
      {
        var col := -1;
        var j := 0;
        while j < |d.cols| && col < 0
          invariant j <= |d.cols| && -1 <= col < |d.cols|
          invariant col < 0 ==> FindFrom(d.cols, d.key[k], j) == FindColumn(d.cols, d.key[k])
          invariant col >= 0 ==> col == FindColumn(d.cols, d.key[k])
        {
          if SameName(d.cols[j].name, d.key[k]) { col := j; }
          j := j + 1;
        }
        partCol := partCol[k := col];
      }
    }

    method Context(d: Context, pinned: bool, reply: Reply) returns (usable: bool)
      requires Fit(State()) && KeyFits(d)
      modifies this`partCol, this`dml, this`txn
      ensures (State(), usable) == MakeContext(old(State()), d, pinned, reply)
    {
      if pinned {
        txn := reply != InitFails;
        return reply == Ready;
      }
      if dml { return true; }
      if reply != Ready { return false; }
      dml := true;
      MapParts(d);
      usable := true;
    }

    /** xRowid */
    method Keep(d: Context, row: Option<Row>, shown: set<nat>, f: Formats)
      requires Fit(State()) && KeyFits(d) && (row.Some? ==> |row.value| == |d.cols|) && DistinctNames(d.cols)
      modifies this`have, this`text
      ensures State() == Step(old(State()), RowId(row, shown), d, f).0
    {
      have := false;
      if row.None? || !(dml || txn) { return; }
      have := true;
      for k := 0 to |d.key|
        invariant Fit(State()) && have
        invariant Keeping(text, d, row.value, shown, f, k) == Keeping(old(text), d, row.value, shown, f, 0)
      {
        var mapped := ShownColumn(d, shown, k);
        if mapped < 0 || KeyText(row.value[mapped], f).None? {
          have := false;
          return;
        }
        text := text[k := KeyText(row.value[mapped], f).value];
      }
    }

    /** upd_key_stash_get */
    method Get(col: nat) returns (t: Option<string>)
      requires Fit(State())
      ensures t == Stashed(have, text, partCol, col)
    {
      if !have { return None; }
      for part := 0 to MaxKeyParts
        invariant FirstPart(partCol, col, part) == FirstPart(partCol, col, 0)
      {
        if partCol[part] == col { return Some(text[part]); }
      }
      t := None;
    }

    method AllKeys(d: Context) returns (keys: Texts)
      requires Fit(State())
      ensures keys == Keys(State(), d)
    {
      keys := [];
      for col := 0 to |d.cols|
        invariant keys == Keys(State(), d)[..col]
      {
        var t := Get(col);
        keys := keys + [t];
      }
    }

    /** xUpdate and the context of xBestIndex: the statement goes by the stash, not by argv[0]. */
    method Send(d: Context, c: Call, f: Formats) returns (sent: Option<string>)
      requires Fit(State()) && KeyFits(d) && CallOk(c, d) && !c.RowId?
      modifies this`partCol, this`dml, this`txn
      ensures (State(), sent) == Step(old(State()), c, d, f)
    {
      var usable := Context(d, c.pinned, c.reply);
      if !usable { return None; }
      match c
      case BestIndex(_, _) => sent := None;
      case DeleteRow(_, _, _) =>
        var keys := AllKeys(d);
        sent := BuildDelete(d, keys, f);
      case UpdateRow(_, _, _, values) =>
        var keys := AllKeys(d);
        sent := BuildUpdate(d, Everywhere(d), values, keys, f);
      case InsertRow(_, _, values, _) =>
        sent := BuildInsert(d, Everywhere(d), values, f);
    }

    /** A run of calls: the texts sent, call by call. */
    method Drive(d: Context, run: seq<Call>, f: Formats) returns (sent: seq<Option<string>>)
      requires State() == Untouched() && KeyFits(d) && RunOk(run, d) && DistinctNames(d.cols)
      modifies this
      ensures (State(), sent) == Run(run, d, f)
    {
      sent := [];
      for i := 0 to |run|
        invariant (State(), sent) == Run(run[..i], d, f)
      {
        assert run[..i + 1][..i] == run[..i];
        var out := None;
        if run[i].RowId? {
          Keep(d, run[i].row, run[i].shown, f);
        } else {
          out := Send(d, run[i], f);
        }
        sent := sent + [out];
      }
      assert run[..|run|] == run;
    }
  }

  /** The loop of xRowid over the columns the scan reads. */
  method ShownColumn(d: Context, shown: set<nat>, k: nat) returns (mapped: int)
    requires k < |d.key| && DistinctNames(d.cols)
    ensures mapped == if KeyPartCol(d, k) >= 0 && KeyPartCol(d, k) in shown then KeyPartCol(d, k) else -1
  {
    for j := 0 to |d.cols|
      invariant forall i :: 0 <= i < j && i in shown ==> !SameName(d.cols[i].name, d.key[k])
    {
      if j in shown && SameName(d.cols[j].name, d.key[k]) { return j; }
    }
    mapped := -1;
  }

  // ---- runs ----

  predicate RunOk(run: seq<Call>, d: Context) {
    forall i :: 0 <= i < |run| ==> CallOk(run[i], d)
  }

  function Run(run: seq<Call>, d: Context, f: Formats): (r: (Vtab, seq<Option<string>>))
    requires KeyFits(d) && RunOk(run, d)
    ensures Fit(r.0) && |r.1| == |run|
  {
    if run == [] then (Untouched(), [])
    else
      var before := Run(run[..|run| - 1], d, f);
      var after := Step(before.0, run[|run| - 1], d, f);
      (after.0, before.1 + [after.1])
  }
}
