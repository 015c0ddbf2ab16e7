/** Which row a write hits: the one the last xRowid stood on. */
module StashOutcome {
  import opened Lists
  import opened Meta
  import opened DmlSql
  import opened DmlText
  import opened Dml
  import opened DmlEffect
  import opened KeyStash
  import opened StashRuns

  /** A writable table: a stable key over distinct columns, names that can be printed, sane formats. */
  ghost predicate SiteOk(s: Site) {
    && KeyFits(s.d) && DistinctNames(s.d.cols) && DistinctParts(s.d) && PlainTable(s.d)
    && (forall k :: 0 <= k < |s.d.key| ==> KeyPartCol(s.d, k) >= 0)
    && ValidFormats(s.f) && Equivalence(s.same)
  }

  // ---- the table behind a run ----

  function DefaultsOf(c: Call, d: Context): (r: Row)
    requires CallOk(c, d)
    ensures |r| == |d.cols|
  {
    if c.InsertRow? then c.defaults else seq(|d.cols|, _ => NullV)
  }

  ghost function Served(sent: Option<string>, c: Call, s: Site, t: Table): (r: Table)
    requires Shaped(t, s.d.cols) && CallOk(c, s.d)
    ensures Shaped(r, s.d.cols)
  {
    if sent.None? then t else Execute(sent.value, s.d, t, DefaultsOf(c, s.d), s.f, s.same)
  }

  /** The rows after one call in state v. */
  ghost function After(v: Vtab, c: Call, s: Site, t: Table): (r: Table)
    requires Fit(v) && KeyFits(s.d) && CallOk(c, s.d) && Shaped(t, s.d.cols)
    ensures Shaped(r, s.d.cols)
  {
    Served(Step(v, c, s.d, s.f).1, c, s, t)
  }

  ghost function RowsAfter(run: seq<Call>, s: Site, t: Table): (r: Table)
    requires KeyFits(s.d) && RunOk(run, s.d) && Shaped(t, s.d.cols)
    ensures Shaped(r, s.d.cols)
  {
    if run == [] then t
    else
      var n := |run| - 1;
      After(Run(run[..n], s.d, s.f).0, run[n], s, RowsAfter(run[..n], s, t))
  }

  // ---- what the stash holds ----

  function LastRowId(run: seq<Call>): (i: int)
    ensures -1 <= i < |run| && (i >= 0 ==> run[i].RowId?)
    ensures forall j :: i < j < |run| ==> !run[j].RowId?
  {
    if run == [] then -1 else if run[|run| - 1].RowId? then |run| - 1 else LastRowId(run[..|run| - 1])
  }

  /** The row whose key the stash holds: that of the last xRowid, if a context existed then and every key
      column could be kept. */
  function StashedRow(run: seq<Call>, d: Context, f: Formats): (r: Option<Row>)
    requires KeyFits(d) && RunOk(run, d)
    ensures r.Some? ==> |r.value| == |d.cols|
  {
    var i := LastRowId(run);
    if i < 0 || run[i].row.None? then None
    else
      var v := Run(run[..i], d, f).0;
      if (v.dml || v.txn) && forall k :: 0 <= k < |d.key| ==> Stashable(d, run[i].row.value, run[i].shown, f, k)
      then run[i].row else None
  }

  lemma StashStays(run: seq<Call>, d: Context, f: Formats)
    requires KeyFits(d) && RunOk(run, d) && run != [] && !run[|run| - 1].RowId?
    ensures StashedRow(run, d, f) == StashedRow(run[..|run| - 1], d, f)
  {
    var i := LastRowId(run);
    if i >= 0 { assert run[..|run| - 1][..i] == run[..i]; }
  }

  predicate Holds(v: Vtab, row: Row, d: Context, f: Formats)
    requires Fit(v) && |d.key| <= MaxKeyParts && |row| == |d.cols|
  {
    v.have && forall k :: 0 <= k < |d.key| ==>
      KeyPartCol(d, k) >= 0 && Some(v.text[k]) == KeyText(row[KeyPartCol(d, k)], f)
  }

  /** After every run the stash holds the key of the stashed row, and is empty if there is none. */
  lemma {:induction false} StashIsLast(run: seq<Call>, d: Context, f: Formats)
    requires KeyFits(d) && RunOk(run, d)
    ensures var v, row := Run(run, d, f).0, StashedRow(run, d, f);
            if row.Some? then Holds(v, row.value, d, f) else !v.have
  {
    if run != [] {
      var n := |run| - 1;
      if run[n].RowId? {
        var v := Run(run[..n], d, f).0;
        if run[n].row.Some? { KeepingMeans(v.text, d, run[n].row.value, run[n].shown, f, 0); }
      } else {
        StashIsLast(run[..n], d, f);
        StashStays(run, d, f);
      }
    }
  }

  /** The part map is that of the key once the autocommit context exists, and all zero before. */
  predicate MapFits(v: Vtab, d: Context)
    requires Fit(v)
  {
    if v.dml then Bound(d, v.partCol) else forall k :: 0 <= k < MaxKeyParts ==> v.partCol[k] == 0
  }

  lemma ContextMap(v: Vtab, d: Context, pinned: bool, reply: Reply)
    requires Fit(v) && KeyFits(d) && MapFits(v, d)
    ensures MapFits(MakeContext(v, d, pinned, reply).0, d)
  {
  }

  lemma MapStep(v: Vtab, c: Call, d: Context, f: Formats)
    requires Fit(v) && KeyFits(d) && CallOk(c, d) && MapFits(v, d)
    ensures MapFits(Step(v, c, d, f).0, d)
  {
    if !c.RowId? { ContextMap(v, d, c.pinned, c.reply); }
  }

  lemma {:induction false} MapIs(run: seq<Call>, d: Context, f: Formats)
    requires KeyFits(d) && RunOk(run, d)
    ensures MapFits(Run(run, d, f).0, d)
  {
    if run != [] {
      MapIs(run[..|run| - 1], d, f);
      MapStep(Run(run[..|run| - 1], d, f).0, run[|run| - 1], d, f);
    }
  }

  // ---- which contexts there are ----

  /** A call that leaves an autocommit context, if there was none. */
  predicate Opens(c: Call) {
    !c.RowId? && !c.pinned && c.reply == Ready
  }

  predicate UnderPin(c: Call) {
    !c.RowId? && c.pinned
  }

  ghost predicate Opened(run: seq<Call>) {
    exists k :: 0 <= k < |run| && Opens(run[k])
  }

  /** Call k is the last one under a pin, and made its context. */
  predicate LastUnderPin(run: seq<Call>, k: nat) {
    k < |run| && UnderPin(run[k]) && run[k].reply != InitFails && forall j :: k < j < |run| ==> !UnderPin(run[j])
  }

  ghost predicate PinMade(run: seq<Call>) {
    exists k: nat :: LastUnderPin(run, k)
  }

  lemma OpenedStep(run: seq<Call>)
    requires run != []
    ensures Opened(run) <==> Opened(run[..|run| - 1]) || Opens(run[|run| - 1])
  {
    var n := |run| - 1;
    if Opened(run[..n]) {
      var k :| 0 <= k < n && Opens(run[..n][k]);
      assert Opens(run[k]);
    }
    if k :| 0 <= k < n && Opens(run[k]) { assert Opens(run[..n][k]); }
  }

  lemma PinStep(run: seq<Call>)
    requires run != []
    ensures PinMade(run) <==>
              if UnderPin(run[|run| - 1]) then run[|run| - 1].reply != InitFails else PinMade(run[..|run| - 1])
  {
    var n := |run| - 1;
    if UnderPin(run[n]) && run[n].reply != InitFails { assert LastUnderPin(run, n); }
    if !UnderPin(run[n]) {
      if k: nat :| LastUnderPin(run[..n], k) { assert LastUnderPin(run, k); }
      if k: nat :| LastUnderPin(run, k) { assert LastUnderPin(run[..n], k); }
    }
  }

  /** After every run the autocommit context exists exactly if some call could make it, and that of a pin exactly if
      the last call under a pin made it. */
  lemma {:induction false} ContextsAre(run: seq<Call>, d: Context, f: Formats)
    requires KeyFits(d) && RunOk(run, d)
    ensures var v := Run(run, d, f).0;
            (v.dml <==> Opened(run)) && (v.txn <==> PinMade(run))
  {
    if run != [] {
      ContextsAre(run[..|run| - 1], d, f);
      OpenedStep(run);
      PinStep(run);
    }
  }

  /** After every run a write has a context to use exactly if its own was made ready, or it is no write under a pin and
      an autocommit context was made before. */
  lemma UsableExactly(run: seq<Call>, c: Call, d: Context, f: Formats)
    requires KeyFits(d) && RunOk(run, d) && !c.RowId?
    ensures MakeContext(Run(run, d, f).0, d, c.pinned, c.reply).1 <==> c.reply == Ready || (!c.pinned && Opened(run))
  {
    ContextsAre(run, d, f);
  }

  // ---- which row the next write names ----

  /** The stash can be asked for the key: the map is filled, or the key is the first column alone. */
  predicate Mapped(v: Vtab, d: Context)
    requires KeyFits(d)
  {
    v.dml || (|d.key| == 1 && KeyPartCol(d, 0) == 0)
  }

  ghost predicate SameTexts(d: Context, a: Texts, b: Texts) {
    |a| == |b| == |d.cols| && forall k :: 0 <= k < |d.key| && KeyPartCol(d, k) >= 0 ==>
      a[KeyPartCol(d, k)] == b[KeyPartCol(d, k)]
  }

  /** Asked for the key, the stash answers with the stashed row's, or not at all. */
  lemma KeysAre(v: Vtab, row: Row, s: Site)
    requires SiteOk(s) && Fit(v) && |row| == |s.d.cols| && Holds(v, row, s.d, s.f)
    requires MapFits(v, s.d)
    ensures if Mapped(v, s.d) then SameTexts(s.d, Keys(v, s.d), RowTexts(s.d, row, s.f))
              else NullPart(s.d, Keys(v, s.d))
  {
    if !v.dml { UnboundMapNamesColumnZero(s.d, v.have, v.text, v.partCol); }
    if Mapped(v, s.d) {
      forall k | 0 <= k < |s.d.key|
        ensures Keys(v, s.d)[KeyPartCol(s.d, k)] == RowTexts(s.d, row, s.f)[KeyPartCol(s.d, k)]
      {
        assert IsKeyCol(s.d, KeyPartCol(s.d, k));
        StashIsRowTexts(s.d, row, v.text, v.partCol, s.f, KeyPartCol(s.d, k));
      }
    }
  }

  lemma EmptyNamesNone(v: Vtab, s: Site)
    requires SiteOk(s) && Fit(v) && !v.have
    ensures NullPart(s.d, Keys(v, s.d))
  {
    assert Keys(v, s.d)[KeyPartCol(s.d, 0)] == None;
  }

  lemma SameTextsEqual(d: Context, a: Texts, b: Texts, row: Row, f: Formats, same: Same)
    requires SameTexts(d, a, b) && |row| == |d.cols|
    ensures KeyEquals(d, a, row, f, same) <==> KeyEquals(d, b, row, f, same)
  {
    forall k | 0 <= k < |d.key| ensures PartEquals(d, a, row, k, f, same) <==> PartEquals(d, b, row, k, f, same) {}
  }

  lemma {:induction false} SameTextsPrint(d: Context, a: Texts, b: Texts, f: Formats, k: nat)
    requires SameTexts(d, a, b) && k <= |d.key|
    ensures KeysFrom(d, a, f, k) == KeysFrom(d, b, f, k) && KeysOk(d, a, f, k) == KeysOk(d, b, f, k)
    decreases |d.key| - k
  {
    if k < |d.key| { SameTextsPrint(d, a, b, f, k + 1); }
  }

  /** The statement of a write with the key of a row. */
  function StatementFor(row: Row, c: Call, d: Context, f: Formats): (s: Option<Statement>)
    requires |row| == |d.cols| && KeyFits(d) && CallOk(c, d)
    ensures s.Some? ==> WellFormed(s.value)
  {
    match c
    case DeleteRow(_, _, _) => DeleteOf(d, RowTexts(d, row, f), f)
    case UpdateRow(_, _, _, values) => UpdateOf(d, Everywhere(d), values, RowTexts(d, row, f), f)
    case _ => None
  }

  /** The floats among the values and the key are finite. */
  predicate FiniteCall(keys: Texts, c: Call, d: Context, f: Formats)
    requires |keys| == |d.cols| && CallOk(c, d)
  {
    FiniteKeys(d, keys, f) && (c.UpdateRow? ==> FiniteSets(d, Everywhere(d), c.values, f))
  }

  /** What decides: the context can be used, a row is stashed and the stash can be asked for its key, and
      the statement with that key can be sent and read. */
  function WritesFor(run: seq<Call>, c: Call, d: Context, f: Formats): (row: Option<Row>)
    requires KeyFits(d) && RunOk(run, d) && CallOk(c, d) && (c.DeleteRow? || c.UpdateRow?)
    ensures row.Some? ==> |row.value| == |d.cols|
  {
    var m, row := MakeContext(Run(run, d, f).0, d, c.pinned, c.reply), StashedRow(run, d, f);
    if && m.1 && Mapped(m.0, d) && row.Some?
       && Sendable(StatementFor(row.value, c, d, f)).Some? && FiniteCall(RowTexts(d, row.value, f), c, d, f)
    then row else None
  }

  /** The write is for the row at p. */
  ghost predicate Hits(run: seq<Call>, c: Call, s: Site, t: Table, p: nat)
    requires KeyFits(s.d) && RunOk(run, s.d) && CallOk(c, s.d) && (c.DeleteRow? || c.UpdateRow?) &&
             Shaped(t, s.d.cols) && p < |t|
  {
    var row := WritesFor(run, c, s.d, s.f);
    row.Some? && Names(s.d, row.value, t[p], s.f, s.same)
  }

  /** What a write sends: the statement with the stashed row's key, or nothing, or one with a NULL in its
      key, or one with an infinity or a NaN that the server cannot read. */
  lemma WriteIs(run: seq<Call>, c: Call, s: Site)
    requires SiteOk(s) && RunOk(run, s.d) && CallOk(c, s.d) && (c.DeleteRow? || c.UpdateRow?)
    ensures var v, row := Run(run, s.d, s.f).0, WritesFor(run, c, s.d, s.f);
            var keys := KeysFor(v, c, s.d);
            && (row.Some? ==>
                  SameTexts(s.d, keys, RowTexts(s.d, row.value, s.f)) && Step(v, c, s.d, s.f).1.Some? &&
                    FiniteCall(keys, c, s.d, s.f))
            && (row.None? ==> Step(v, c, s.d, s.f).1.None? || NullPart(s.d, keys) || !FiniteCall(keys, c, s.d, s.f))
  {
    var v := Run(run, s.d, s.f).0;
    var m, row := MakeContext(v, s.d, c.pinned, c.reply), StashedRow(run, s.d, s.f);
    StashIsLast(run, s.d, s.f);
    MapIs(run, s.d, s.f);
    ContextMap(v, s.d, c.pinned, c.reply);
    if row.None? {
      EmptyNamesNone(m.0, s);
    } else {
      KeysAre(m.0, row.value, s);
      if Mapped(m.0, s.d) { StashedAgrees(v, row.value, c, s); }
    }
  }

  lemma SameFinite(d: Context, a: Texts, b: Texts, f: Formats)
    requires SameTexts(d, a, b)
    ensures FiniteKeys(d, a, f) <==> FiniteKeys(d, b, f)
  {
  }

  lemma StashedAgrees(v: Vtab, row: Row, c: Call, s: Site)
    requires SiteOk(s) && Fit(v) && CallOk(c, s.d) && |row| == |s.d.cols| && (c.DeleteRow? || c.UpdateRow?)
    requires SameTexts(s.d, KeysFor(v, c, s.d), RowTexts(s.d, row, s.f))
    ensures var m := MakeContext(v, s.d, c.pinned, c.reply);
            Step(v, c, s.d, s.f).1 == if m.1 then Sendable(StatementFor(row, c, s.d, s.f)) else None
    ensures FiniteCall(KeysFor(v, c, s.d), c, s.d, s.f) <==> FiniteCall(RowTexts(s.d, row, s.f), c, s.d, s.f)
  {
    StatementsAgree(MakeContext(v, s.d, c.pinned, c.reply).0, row, c, s);
    SameFinite(s.d, KeysFor(v, c, s.d), RowTexts(s.d, row, s.f), s.f);
  }

  lemma StatementsAgree(v: Vtab, row: Row, c: Call, s: Site)
    requires SiteOk(s) && Fit(v) && CallOk(c, s.d) && |row| == |s.d.cols| && (c.DeleteRow? || c.UpdateRow?)
    requires SameTexts(s.d, Keys(v, s.d), RowTexts(s.d, row, s.f))
    ensures StatementOf(v, c, s.d, s.f) == StatementFor(row, c, s.d, s.f)
  {
    SameTextsPrint(s.d, Keys(v, s.d), RowTexts(s.d, row, s.f), s.f, 0);
  }

  // ---- DELETE ----

  function Without(t: Table, p: nat): Table
    requires p < |t|
  {
    t[..p] + t[p + 1..]
  }

  lemma WithoutOther(d: Context, t: Table, p: nat, q: nat, same: Same)
    requires Unique(d, t, same) && Equivalence(same) && p < |t| && q < |t| && p != q
    requires forall k :: 0 <= k < |d.key| ==> KeyPartCol(d, k) >= 0
    ensures Without(t, p) != Without(t, q)
  {
    var i, j := if p < q then p else q, if p < q then q else p;
    assert !SameKey(d, t[i], t[i + 1], same);
    assert t[i] != t[i + 1];
    assert Without(t, i)[i] == t[i + 1] && Without(t, j)[i] == t[i];
  }

  /** The keys a write finds in the stash. */
  function KeysFor(v: Vtab, c: Call, d: Context): (r: Texts)
    requires Fit(v) && (c.DeleteRow? || c.UpdateRow?)
    ensures |r| == |d.cols|
  {
    Keys(MakeContext(v, d, c.pinned, c.reply).0, d)
  }

  lemma DeleteServed(v: Vtab, c: Call, s: Site, t: Table)
    requires SiteOk(s) && Fit(v) && CallOk(c, s.d) && c.DeleteRow? && Shaped(t, s.d.cols) &&
             Step(v, c, s.d, s.f).1.Some?
    ensures var keys := KeysFor(v, c, s.d);
            var st := DeleteOf(s.d, keys, s.f);
            && st.Some?
            && After(v, c, s, t) == (if FiniteKeys(s.d, keys, s.f) then ExecDelete(st.value, s.d.cols, t, s.f, s.same)
                                     else t)
  {
    DeleteReads(s.d, KeysFor(v, c, s.d), s.f);
  }

  lemma DeleteEffect(v: Vtab, c: Call, s: Site, t: Table)
    requires SiteOk(s) && Fit(v) && CallOk(c, s.d) && c.DeleteRow? && Unique(s.d, t, s.same) &&
             Step(v, c, s.d, s.f).1.Some?
    ensures var t', keys := After(v, c, s, t), KeysFor(v, c, s.d);
            && (FiniteKeys(s.d, keys, s.f) ==>
                  forall p :: 0 <= p < |t| && KeyEquals(s.d, keys, t[p], s.f, s.same) ==> t' == Without(t, p))
            && ((forall p :: 0 <= p < |t| ==> !KeyEquals(s.d, keys, t[p], s.f, s.same)) ==> t' == t)
            && (NullPart(s.d, keys) || !FiniteKeys(s.d, keys, s.f) ==> t' == t)
  {
    DeleteServed(v, c, s, t);
    if FiniteKeys(s.d, KeysFor(v, c, s.d), s.f) { DeleteHitsTheRow(s.d, KeysFor(v, c, s.d), s.f, s.same, t); }
  }

  /** DELETE takes away exactly the row it hits, whatever row was meant ... */
  lemma DeleteHit(run: seq<Call>, c: Call, s: Site, t: Table, p: nat)
    requires SiteOk(s) && RunOk(run, s.d) && CallOk(c, s.d) && c.DeleteRow? && Unique(s.d, t, s.same)
    requires p < |t| && Hits(run, c, s, t, p)
    ensures After(Run(run, s.d, s.f).0, c, s, t) == Without(t, p)
  {
    var v, row := Run(run, s.d, s.f).0, WritesFor(run, c, s.d, s.f).value;
    WriteIs(run, c, s);
    DeleteEffect(v, c, s, t);
    SameTextsEqual(s.d, KeysFor(v, c, s.d), RowTexts(s.d, row, s.f), t[p], s.f, s.same);
  }

  /** ... and nothing if it hits none. */
  lemma DeleteMiss(run: seq<Call>, c: Call, s: Site, t: Table)
    requires SiteOk(s) && RunOk(run, s.d) && CallOk(c, s.d) && c.DeleteRow? && Unique(s.d, t, s.same)
    requires forall p :: 0 <= p < |t| ==> !Hits(run, c, s, t, p)
    ensures After(Run(run, s.d, s.f).0, c, s, t) == t
  {
    var v, row := Run(run, s.d, s.f).0, WritesFor(run, c, s.d, s.f);
    WriteIs(run, c, s);
    if Step(v, c, s.d, s.f).1.Some? {
      DeleteEffect(v, c, s, t);
      if row.Some? {
        forall p | 0 <= p < |t| ensures !KeyEquals(s.d, KeysFor(v, c, s.d), t[p], s.f, s.same) {
          assert !Hits(run, c, s, t, p);
          SameTextsEqual(s.d, KeysFor(v, c, s.d), RowTexts(s.d, row.value, s.f), t[p], s.f, s.same);
        }
      }
    }
  }

  /** A DELETE meant for the row at p takes that row away, and no other, if and only if it hits it: the
      context can be used, the last xRowid kept the key of that row, the stash can be asked for it, the
      text fits, and the floats of the key are finite. */
  lemma DeleteHitsExactly(run: seq<Call>, c: Call, s: Site, t: Table, p: nat)
    requires SiteOk(s) && RunOk(run, s.d) && CallOk(c, s.d) && c.DeleteRow? && Unique(s.d, t, s.same) && p < |t|
    ensures After(Run(run, s.d, s.f).0, c, s, t) == Without(t, p) <==> Hits(run, c, s, t, p)
  {
    if q :| 0 <= q < |t| && Hits(run, c, s, t, q) {
      DeleteHit(run, c, s, t, q);
      if q != p { WithoutOther(s.d, t, p, q, s.same); }
      if Hits(run, c, s, t, p) { DeleteHit(run, c, s, t, p); }
    } else {
      DeleteMiss(run, c, s, t);
    }
  }

  // ---- UPDATE ----

  /** The row with all its values, but those of columns the server keeps and of the key. */
  function Changed(d: Context, row: Row, values: Texts, f: Formats): (r: Row)
    requires |row| == |values| == |d.cols|
    ensures |r| == |d.cols|
  {
    seq(|d.cols|, c requires 0 <= c < |d.cols| && |row| == |values| == |d.cols| =>
      if ServerKept(d.cols[c]) || InKey(d, c) then row[c] else ValueOf(values[c], d.cols[c].vtype, f))
  }

  lemma UpdateServed(v: Vtab, c: Call, s: Site, t: Table)
    requires SiteOk(s) && Fit(v) && CallOk(c, s.d) && c.UpdateRow? && Shaped(t, s.d.cols) &&
             Step(v, c, s.d, s.f).1.Some?
    ensures var st := UpdateOf(s.d, Everywhere(s.d), c.values, KeysFor(v, c, s.d), s.f);
            && st.Some?
            && After(v, c, s, t) == (if FiniteCall(KeysFor(v, c, s.d), c, s.d, s.f)
                                     then ExecUpdate(st.value, s.d.cols, t, s.f, s.same) else t)
  {
    UpdateReads(s.d, Everywhere(s.d), c.values, KeysFor(v, c, s.d), s.f);
  }

  lemma UpdatesRow(keys: Texts, values: Texts, s: Site, t: Table, i: nat)
    requires SiteOk(s) && |keys| == |s.d.cols| && |values| == |s.d.cols| && Unique(s.d, t, s.same) && i < |t|
    requires UpdateOf(s.d, Everywhere(s.d), values, keys, s.f).Some?
    requires FiniteKeys(s.d, keys, s.f) && FiniteSets(s.d, Everywhere(s.d), values, s.f)
    ensures var t' := ExecUpdate(UpdateOf(s.d, Everywhere(s.d), values, keys, s.f).value, s.d.cols, t, s.f, s.same);
            && t'[i] == (if KeyEquals(s.d, keys, t[i], s.f, s.same) then Changed(s.d, t[i], values, s.f) else t[i])
            && (NullPart(s.d, keys) ==> t'[i] == t[i])
  {
    UpdateHitsTheRow(s.d, Everywhere(s.d), values, keys, s.f, s.same, t, i);
  }

  lemma UpdateEffect(v: Vtab, c: Call, s: Site, t: Table, i: nat)
    requires SiteOk(s) && Fit(v) && CallOk(c, s.d) && c.UpdateRow? && Unique(s.d, t, s.same) &&
             Step(v, c, s.d, s.f).1.Some? && i < |t|
    ensures var t', keys := After(v, c, s, t), KeysFor(v, c, s.d);
            && |t'| == |t|
            && (FiniteCall(keys, c, s.d, s.f) ==>
                  t'[i] == if KeyEquals(s.d, keys, t[i], s.f, s.same) then Changed(s.d, t[i], c.values, s.f) else t[i])
            && (NullPart(s.d, keys) || !FiniteCall(keys, c, s.d, s.f) ==> t'[i] == t[i])
  {
    UpdateServed(v, c, s, t);
    if FiniteCall(KeysFor(v, c, s.d), c, s.d, s.f) { UpdatesRow(KeysFor(v, c, s.d), c.values, s, t, i); }
  }

  lemma UpdatedRow(run: seq<Call>, c: Call, s: Site, t: Table, i: nat)
    requires SiteOk(s) && RunOk(run, s.d) && CallOk(c, s.d) && c.UpdateRow? && Unique(s.d, t, s.same) && i < |t|
    ensures var t' := After(Run(run, s.d, s.f).0, c, s, t);
            |t'| == |t| && t'[i] == if Hits(run, c, s, t, i) then Changed(s.d, t[i], c.values, s.f) else t[i]
  {
    var v, row := Run(run, s.d, s.f).0, WritesFor(run, c, s.d, s.f);
    WriteIs(run, c, s);
    if Step(v, c, s.d, s.f).1.Some? {
      UpdateEffect(v, c, s, t, i);
      if row.Some? { SameTextsEqual(s.d, KeysFor(v, c, s.d), RowTexts(s.d, row.value, s.f), t[i], s.f, s.same); }
    }
  }

  lemma SameSize(v: Vtab, c: Call, s: Site, t: Table)
    requires SiteOk(s) && Fit(v) && CallOk(c, s.d) && c.UpdateRow? && Shaped(t, s.d.cols)
    ensures |After(v, c, s, t)| == |t|
  {
    if Step(v, c, s.d, s.f).1.Some? { UpdateServed(v, c, s, t); }
  }

  lemma OneHit(run: seq<Call>, c: Call, s: Site, t: Table, p: nat, q: nat)
    requires SiteOk(s) && RunOk(run, s.d) && CallOk(c, s.d) && (c.DeleteRow? || c.UpdateRow?) && Unique(s.d, t, s.same)
    requires p < |t| && q < |t| && Hits(run, c, s, t, p) && Hits(run, c, s, t, q)
    ensures p == q
  {
    var keys := RowTexts(s.d, WritesFor(run, c, s.d, s.f).value, s.f);
    if p < q {
      OneMatch(s.d, keys, t, p, q, s.f, s.same);
    } else if q < p {
      OneMatch(s.d, keys, t, q, p, s.f, s.same);
    }
  }

  /** UPDATE changes exactly the row it hits, as asked, and nothing if it hits none, whatever row was
      meant; it hits at most one. */
  lemma UpdateOutcome(run: seq<Call>, c: Call, s: Site, t: Table)
    requires SiteOk(s) && RunOk(run, s.d) && CallOk(c, s.d) && c.UpdateRow? && Unique(s.d, t, s.same)
    ensures var t' := After(Run(run, s.d, s.f).0, c, s, t);
            && (forall p :: 0 <= p < |t| && Hits(run, c, s, t, p) ==> t' == t[p := Changed(s.d, t[p], c.values, s.f)])
            && ((forall p :: 0 <= p < |t| ==> !Hits(run, c, s, t, p)) ==> t' == t)
  {
    var t' := After(Run(run, s.d, s.f).0, c, s, t);
    forall i | 0 <= i < |t|
      ensures |t'| == |t| && t'[i] == if Hits(run, c, s, t, i) then Changed(s.d, t[i], c.values, s.f) else t[i]
    {
      UpdatedRow(run, c, s, t, i);
    }
    SameSize(Run(run, s.d, s.f).0, c, s, t);
    forall p | 0 <= p < |t| && Hits(run, c, s, t, p) ensures t' == t[p := Changed(s.d, t[p], c.values, s.f)] {
      forall i | 0 <= i < |t| && i != p ensures !Hits(run, c, s, t, i) {
        if Hits(run, c, s, t, i) { OneHit(run, c, s, t, p, i); }
      }
    }
  }

  // ---- INSERT ----

  /** The row of all values, but defaults for columns the server keeps and for key columns without a text. */
  function NewRow(d: Context, values: Texts, defaults: Row, f: Formats): (r: Row)
    requires |values| == |d.cols| && |defaults| == |d.cols|
    ensures |r| == |d.cols|
  {
    seq(|d.cols|, c requires 0 <= c < |d.cols| && |values| == |d.cols| && |defaults| == |d.cols| =>
      if ServerKept(d.cols[c]) || (InKey(d, c) && (values[c] == None || values[c] == Some(""))) then defaults[c]
      else ValueOf(values[c], d.cols[c].vtype, f))
  }

  lemma NewRowInserted(d: Context, values: Texts, defaults: Row, f: Formats)
    requires |values| == |d.cols| && |defaults| == |d.cols| && DistinctNames(d.cols) && ValidFormats(f)
    requires InsertOf(d, Everywhere(d), values, f).Some? && FiniteValues(d, Everywhere(d), values, f)
    ensures InsertedRow(InsertOf(d, Everywhere(d), values, f).value, d.cols, defaults, f) ==
            NewRow(d, values, defaults, f)
  {
    var s := InsertOf(d, Everywhere(d), values, f).value;
    forall c | 0 <= c < |d.cols| ensures InsertedRow(s, d.cols, defaults, f)[c] == NewRow(d, values, defaults, f)[c] {
      InsertFillsColumns(d, Everywhere(d), values, f, defaults, c);
    }
  }

  /** INSERT adds the row of its values at the end, and nothing else changes; without a usable context, a
      text that fits and finite floats, nothing does. */
  lemma InsertOutcome(v: Vtab, c: Call, s: Site, t: Table)
    requires SiteOk(s) && Fit(v) && CallOk(c, s.d) && c.InsertRow? && Shaped(t, s.d.cols)
    ensures var st, t' := InsertOf(s.d, Everywhere(s.d), c.values, s.f), After(v, c, s, t);
            if MakeContext(v, s.d, c.pinned, c.reply).1 && Sendable(st).Some? &&
               FiniteValues(s.d, Everywhere(s.d), c.values, s.f)
            then t' == t + [NewRow(s.d, c.values, c.defaults, s.f)]
            else t' == t
  {
    InsertReads(s.d, Everywhere(s.d), c.values, s.f);
    if InsertOf(s.d, Everywhere(s.d), c.values, s.f).Some? && FiniteValues(s.d, Everywhere(s.d), c.values, s.f) {
      NewRowInserted(s.d, c.values, c.defaults, s.f);
    }
  }
}
