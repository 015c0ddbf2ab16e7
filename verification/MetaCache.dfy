/** The metadata cache: a store of payloads keyed by "schema.table", against a plain map from schema and
    table to columns. */
module MetaCache {
  import opened Bytes
  import opened Lists
  import opened Meta
  import opened Payload
  import opened Fingerprint

  /** vms_meta_fingerprint; 0 when there are too many columns. */
  function FingerprintOf(cols: seq<Column>): Hash
    requires AllStorable(cols)
  {
    if |cols| > MaxColumns then 0 else HashOf(PayloadOf(cols))
  }

  /** A row of the store. */
  datatype Entry = Entry(fp: nat, payload: seq<Byte>)

  type Store = map<string, Entry>

  datatype Verdict = Miss | Corrupt | Stale | Fresh | Drift

  datatype Found = Found(verdict: Verdict, cols: seq<Column>)

  function KeyOf(schema: string, table: string): string {
    schema + "." + table
  }

  /** What a lookup says about an entry that was found intact. */
  function Compared(stored: nat, live: nat): Verdict {
    if live == 0 then Stale else if live == stored then Fresh else Drift
  }

  // ---- the source's store ----

  function PutIn(s: Store, schema: string, table: string, cols: seq<Column>, fp: nat): Store
    requires AllStorable(cols)
  {
    if |cols| > MaxColumns then s else s[KeyOf(schema, table) := Entry(fp, PayloadOf(cols))]
  }

  function LookUp(s: Store, schema: string, table: string, live: nat): Found {
    var key := KeyOf(schema, table);
    if key !in s || s[key].payload == [] then Found(Miss, [])
    else
      var e := s[key];
      if |e.payload| < 12 || HashOf(e.payload) != e.fp then Found(Corrupt, [])
      else match ReadPayload(e.payload)
        case None => Found(Corrupt, [])
        case Some(cols) => Found(Compared(e.fp, live), cols)
  }

  function DropFrom(s: Store, schema: string, table: string): Store {
    s - {KeyOf(schema, table)}
  }

  class Cache {
    var rows: Store

    constructor ()
      ensures rows == map[]
    {
      rows := map[];
    }

    /** vms_meta_cache_put */
    method Put(schema: string, table: string, cols: seq<Column>, fp: nat) returns (ok: bool)
      requires AllStorable(cols)
      modifies this
      ensures rows == PutIn(old(rows), schema, table, cols, fp) && (ok <==> |cols| <= MaxColumns)
    {
      var sz := Size(cols);
      if sz <= 0 { return false; }
      var buf := new Byte[sz];
      var n := Write(buf, cols);
      rows := rows[KeyOf(schema, table) := Entry(fp, buf[..])];
      ok := true;
    }

    /** vms_meta_cache_get */
    method Get(schema: string, table: string, live: nat) returns (r: Found)
      ensures r == LookUp(rows, schema, table, live)
    {
      var key := KeyOf(schema, table);
      if key !in rows || |rows[key].payload| <= 0 { return Found(Miss, []); }
      var copy, stored := rows[key].payload, rows[key].fp;
      var intact := ShadowCheck(copy, stored);
      if !intact { return Found(Corrupt, []); }
      var cols := Read(copy);
      if cols.None? { return Found(Corrupt, []); }
      r := Found(if live == 0 then Stale else if live == stored then Fresh else Drift, cols.value);
    }

    /** vms_meta_cache_drop */
    method Drop(schema: string, table: string)
      modifies this
      ensures rows == DropFrom(old(rows), schema, table)
    {
      rows := rows - {KeyOf(schema, table)};
    }
  }

  // ---- the plain map ----

  type Tables = map<(string, string), (seq<Column>, nat)>

  /** The columns that survive a stored entry. */
  predicate Cacheable(cols: seq<Column>) {
    cols != [] && AllReadable(cols, 0)
  }

  function MapPut(t: Tables, schema: string, table: string, cols: seq<Column>, fp: nat): Tables {
    if |cols| > MaxColumns then t else t[(schema, table) := (cols, fp)]
  }

  function MapGet(t: Tables, schema: string, table: string, live: nat): Found
    requires forall k :: k in t ==> AllStorable(t[k].0)
  {
    if (schema, table) !in t then Found(Miss, [])
    else
      var (cols, fp) := t[(schema, table)];
      if FingerprintOf(cols) != fp || !Cacheable(cols) then Found(Corrupt, [])
      else Found(Compared(fp, live), cols)
  }

  // ---- the store refines the map ----

  predicate Ident(s: string) {
    IdentValid(s, 128)
  }

  lemma NoDot(s: string)
    requires Ident(s)
    ensures '.' !in s
  {
  }

  /** Distinct tables have distinct keys. */
  lemma KeyInjective(s1: string, t1: string, s2: string, t2: string)
    requires Ident(s1) && Ident(s2) && KeyOf(s1, t1) == KeyOf(s2, t2)
    ensures s1 == s2 && t1 == t2
  {
    NoDot(s1);
    NoDot(s2);
    var k := KeyOf(s1, t1);
    assert k[|s1|] == '.' && k[|s2|] == '.';
    assert forall i :: 0 <= i < |s1| ==> k[i] == s1[i];
    assert forall i :: 0 <= i < |s2| ==> k[i] == s2[i];
    assert |s1| == |s2|;
    assert s1 == k[..|s1|] && s2 == k[..|s2|] && t1 == k[|s1| + 1..] && t2 == k[|s2| + 1..];
  }

  ghost predicate GoodTables(t: Tables) {
    forall k :: k in t ==> Ident(k.0) && Ident(k.1) && AllStorable(t[k].0) && |t[k].0| <= MaxColumns
  }

  predicate Holds(s: Store, t: Tables, k: (string, string))
    requires k in t && AllStorable(t[k].0) && |t[k].0| <= MaxColumns
  {
    var key := KeyOf(k.0, k.1);
    key in s && s[key] == Entry(t[k].1, PayloadOf(t[k].0))
  }

  /** The store holds exactly the entries of the map, as payloads. */
  ghost predicate Represents(s: Store, t: Tables) {
    && GoodTables(t) && (forall k :: k in t ==> Holds(s, t, k)) && NothingElse(s, t)
  }

  ghost predicate NothingElse(s: Store, t: Tables) {
    forall key :: key in s ==> exists k :: k in t && key == KeyOf(k.0, k.1)
  }

  lemma PutAddsNothingElse(s: Store, t: Tables, schema: string, table: string, cols: seq<Column>, fp: nat)
    requires NothingElse(s, t) && AllStorable(cols)
    ensures NothingElse(PutIn(s, schema, table, cols, fp), MapPut(t, schema, table, cols, fp))
  {
    var s', t' := PutIn(s, schema, table, cols, fp), MapPut(t, schema, table, cols, fp);
    forall key | key in s' ensures exists k :: k in t' && key == KeyOf(k.0, k.1) {
      if key in s {
        var k :| k in t && key == KeyOf(k.0, k.1);
        assert k in t';
      } else {
        assert (schema, table) in t';
      }
    }
  }

  lemma PutHolds(s: Store, t: Tables, schema: string, table: string, cols: seq<Column>, fp: nat, k: (string, string))
    requires GoodTables(t) && Ident(schema) && Ident(table) && AllStorable(cols) &&
             k in MapPut(t, schema, table, cols, fp)
    requires k in t ==> Holds(s, t, k)
    ensures GoodTables(MapPut(t, schema, table, cols, fp))
    ensures Holds(PutIn(s, schema, table, cols, fp), MapPut(t, schema, table, cols, fp), k)
  {
    if k != (schema, table) && KeyOf(k.0, k.1) == KeyOf(schema, table) { KeyInjective(k.0, k.1, schema, table); }
  }

  lemma PutRefines(s: Store, t: Tables, schema: string, table: string, cols: seq<Column>, fp: nat)
    requires Represents(s, t) && Ident(schema) && Ident(table) && AllStorable(cols)
    ensures Represents(PutIn(s, schema, table, cols, fp), MapPut(t, schema, table, cols, fp))
  {
    PutAddsNothingElse(s, t, schema, table, cols, fp);
    var s', t' := PutIn(s, schema, table, cols, fp), MapPut(t, schema, table, cols, fp);
    assert GoodTables(t');
    forall k | k in t' ensures Holds(s', t', k) { PutHolds(s, t, schema, table, cols, fp, k); }
  }

  lemma DropRefines(s: Store, t: Tables, schema: string, table: string)
    requires Represents(s, t) && Ident(schema) && Ident(table)
    ensures Represents(DropFrom(s, schema, table), t - {(schema, table)})
  {
    var s', t' := DropFrom(s, schema, table), t - {(schema, table)};
    forall k | k in t' ensures Holds(s', t', k) {
      assert Holds(s, t, k);
      if KeyOf(k.0, k.1) == KeyOf(schema, table) { KeyInjective(k.0, k.1, schema, table); }
    }
    forall key | key in s' ensures exists k :: k in t' && key == KeyOf(k.0, k.1) {
      var k :| k in t && key == KeyOf(k.0, k.1);
      assert k in t';
    }
  }

  lemma GetRefines(s: Store, t: Tables, schema: string, table: string, live: nat)
    requires Represents(s, t) && Ident(schema) && Ident(table)
    ensures LookUp(s, schema, table, live) == MapGet(t, schema, table, live)
  {
    if (schema, table) in t {
      assert Holds(s, t, (schema, table));
      PayloadRoundTrip(t[(schema, table)].0);
    } else if KeyOf(schema, table) in s {
      var k :| k in t && KeyOf(schema, table) == KeyOf(k.0, k.1);
      KeyInjective(schema, table, k.0, k.1);
    }
  }

  // ---- runs ----

  datatype Op =
    | Put(schema: string, table: string, cols: seq<Column>, fp: nat)
    | Get(schema: string, table: string, live: nat)
    | Drop(schema: string, table: string)

  ghost predicate Allowed(op: Op) {
    Ident(op.schema) && Ident(op.table) && (op.Put? ==> AllStorable(op.cols))
  }

  ghost predicate AllAllowed(ops: seq<Op>) {
    forall i :: 0 <= i < |ops| ==> Allowed(ops[i])
  }

  ghost function StoreAfter(ops: seq<Op>): Store
    requires AllAllowed(ops)
  {
    if ops == [] then map[]
    else
      var s, op := StoreAfter(ops[..|ops| - 1]), ops[|ops| - 1];
      match op
      case Put(schema, table, cols, fp) => assert Allowed(op); PutIn(s, schema, table, cols, fp)
      case Get(_, _, _) => s
      case Drop(schema, table) => DropFrom(s, schema, table)
  }

  ghost function TablesAfter(ops: seq<Op>): Tables {
    if ops == [] then map[]
    else
      var t := TablesAfter(ops[..|ops| - 1]);
      match ops[|ops| - 1]
      case Put(schema, table, cols, fp) => MapPut(t, schema, table, cols, fp)
      case Get(_, _, _) => t
      case Drop(schema, table) => t - {(schema, table)}
  }

  /** After every sequence of operations the store represents the map, so every lookup answers as the
      map does. */
  lemma {:induction false} CacheIsMap(ops: seq<Op>)
    requires AllAllowed(ops)
    ensures Represents(StoreAfter(ops), TablesAfter(ops))
  {
    if ops != [] {
      var before, op := ops[..|ops| - 1], ops[|ops| - 1];
      CacheIsMap(before);
      assert Allowed(op);
      match op
      case Put(schema, table, cols, fp) => PutRefines(StoreAfter(before), TablesAfter(before), schema, table, cols, fp);
      case Get(_, _, _) =>
      case Drop(schema, table) => DropRefines(StoreAfter(before), TablesAfter(before), schema, table);
    }
  }

  /** What a lookup says, after every sequence of operations: a miss exactly for a table that is not stored, corrupt
      exactly for one whose fingerprint is not that of its columns or whose columns cannot be read back, and for the
      others stale, fresh or drifted by the live fingerprint, with the columns stored. */
  lemma LookupExactly(ops: seq<Op>, schema: string, table: string, live: nat)
    requires AllAllowed(ops) && Ident(schema) && Ident(table)
    ensures GoodTables(TablesAfter(ops))
    ensures var t, r := TablesAfter(ops), LookUp(StoreAfter(ops), schema, table, live);
            && (r.verdict == Miss <==> (schema, table) !in t)
            && ((schema, table) in t ==>
                  var (cols, fp) := t[(schema, table)];
                  && (r.verdict == Corrupt <==> FingerprintOf(cols) != fp || !Cacheable(cols))
                  && (r.verdict == Stale ==> live == 0) && (r.verdict == Fresh ==> live == fp != 0)
                  && (r.verdict == Drift ==> live != fp && live != 0)
                  && (r.verdict in {Stale, Fresh, Drift} ==> r.cols == cols))
  {
    LookupsAgree(ops, schema, table, live);
  }

  lemma LookupsAgree(ops: seq<Op>, schema: string, table: string, live: nat)
    requires AllAllowed(ops) && Ident(schema) && Ident(table)
    ensures GoodTables(TablesAfter(ops)) && LookUp(StoreAfter(ops), schema, table, live) ==
              MapGet(TablesAfter(ops), schema, table, live)
  {
    CacheIsMap(ops);
    GetRefines(StoreAfter(ops), TablesAfter(ops), schema, table, live);
  }

  /** An entry put with its own fingerprint is found with its columns, and never reported corrupt, exactly
      when there are columns and each can be read back; it is stale without a live fingerprint, fresh when that is its
      own, and has drifted otherwise. */
  lemma OwnFingerprintNotCorrupt(ops: seq<Op>, schema: string, table: string, cols: seq<Column>, live: nat)
    requires AllAllowed(ops) && Ident(schema) && Ident(table) && AllStorable(cols) && |cols| <= MaxColumns
    ensures var s := PutIn(StoreAfter(ops), schema, table, cols, FingerprintOf(cols));
            var r := LookUp(s, schema, table, live);
            && (!Cacheable(cols) ==> r == Found(Corrupt, []))
            && (Cacheable(cols) ==>
                  && r.cols == cols && (r.verdict == Stale <==> live == 0)
                  && (r.verdict == Fresh <==> live != 0 && live == FingerprintOf(cols))
                  && (r.verdict == Drift <==> live != 0 && live != FingerprintOf(cols)))
  {
    PayloadRoundTrip(cols);
  }

  /** A live table with more columns than a payload holds has no fingerprint: no entry is fresh or drifted. */
  lemma TooWideIsStale(ops: seq<Op>, schema: string, table: string, liveCols: seq<Column>)
    requires AllAllowed(ops) && Ident(schema) && Ident(table) && AllStorable(liveCols) && |liveCols| > 512
    ensures LookUp(StoreAfter(ops), schema, table, FingerprintOf(liveCols)).verdict in {Miss, Corrupt, Stale}
  {
    LookupsAgree(ops, schema, table, FingerprintOf(liveCols));
  }

  /** DRIFT against the fingerprint of the live columns means the stored columns differ from them. */
  lemma DriftMeansDifferent(ops: seq<Op>, schema: string, table: string, liveCols: seq<Column>)
    requires AllAllowed(ops) && Ident(schema) && Ident(table) && AllStorable(liveCols)
    requires LookUp(StoreAfter(ops), schema, table, FingerprintOf(liveCols)).verdict == Drift
    ensures LookUp(StoreAfter(ops), schema, table, FingerprintOf(liveCols)).cols != liveCols
  {
    LookupsAgree(ops, schema, table, FingerprintOf(liveCols));
  }
}
