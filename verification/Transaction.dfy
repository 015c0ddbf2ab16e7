/** The explicit-transaction layer: SQLite's transaction callbacks drive one pinned connection.

    `Step` is the layer as a function from one world to the next; class `Environment` is the same
    layer in the form the source has, callbacks that update fields, proved against `Step`. */
module Transaction {
  import opened Lists
  import opened Server
  import Decimal

  /** A pinned connection.  `handle` is its address, which the allocator may hand out again after a
      close; `serial` is its identity. */
  datatype Connection = Connection(serial: nat, handle: nat, pinned: bool, active: bool, quarantined: bool)

  /** One command as it went over the wire, with the reply it got. */
  datatype Sent = Sent(serial: nat, command: Command, reply: Reply, open: bool)

  /** The server carried the command out, whatever the client was told. */
  predicate CarriedOut(a: Reply) {
    a.Succeeded? || a.took
  }

  predicate TimedOut(a: Reply) {
    a.Failed? && Classify(a.sqlstate) == Timeout
  }

  /** The connection was lost, or never there. */
  predicate Lost(a: Reply) {
    a.Failed? && Classify(a.sqlstate) in {Transport, Connect}
  }

  /** Failures after which nothing is known: the connection is lost, or an active transaction's COMMIT failed for
      any reason but a timeout. */
  predicate Unknown(a: Reply, commit: bool, active: bool) {
    Lost(a) || (a.Failed? && !TimedOut(a) && commit && active)
  }

  datatype World = World(
    txn: Option<Connection>,      // env->txn_cn
    contexts: map<string, nat>,   // per table, the handle its transaction write context was made for
    connections: nat,                  // connections opened so far
    retired: seq<Connection>,     // closed transaction connections, as they were when closed
    session: Session,
    log: seq<Sent>
  )

  /** Everything the outside decides during one callback. */
  datatype Script = Script(
    opens: bool, handle: nat,     // vms_conn_open, and the address it returned
    pins: bool,                   // the connection attributes and primer of the pin were accepted
    catalog: Reply, count: Reply, begin: Reply, stmt: Reply, state: Reply, state2: Reply, end: Reply)

  datatype Rc = RcOk | RcBusy | RcError

  datatype TxnResult = TxnOk | TxnBusy | TxnUnknown

  /** SQLite's callbacks; xRelease, xSavepoint and xRollbackTo carry the nesting level. */
  datatype Event =
    | XBegin(s: Script)
    | XBestIndex(table: string, s: Script)
    | XUpdate(table: string, write: string, s: Script)
    | XSavepoint(level: nat, s: Script)
    | XRelease(level: nat)
    | XRollbackTo(level: nat, s: Script)
    | XSync(s: Script)
    | XCommit(s: Script)
    | XRollback(s: Script)

  function MarkName(level: nat): (name: string) {
    "vms_sv_" + Decimal.Print(level)
  }

  lemma MarkNameInjective(m: nat, n: nat)
    requires MarkName(m) == MarkName(n)
    ensures m == n
  {
    assert Decimal.Print(m) == MarkName(m)[7..] == MarkName(n)[7..] == Decimal.Print(n);
    Decimal.PrintInjective(m, n);
  }

  // ---- jobs on the pinned connection ----

  function Send(w: World, c: Command, r: Reply): (o: (World, Reply))
    requires w.txn.Some?
    ensures o.1 == Answer(w.session, c, r)
  {
    var a := Answer(w.session, c, r);
    (w.(session := Execute(w.session, c, a),
        log := w.log + [Sent(w.txn.value.serial, c, a, Open(w.session))]),
     a)
  }

  function Activate(w: World): (r: World)
    requires w.txn.Some?
  {
    w.(txn := Some(w.txn.value.(active := true)))
  }

  /** txn_pin_shared: the pinned connection, opened and primed on first use. */
  function PinShared(w: World, s: Script): (o: (World, bool)) {
    if w.txn.Some? then (w, true)
    else if !s.opens then (w, false)
    else
      var cn := Connection(w.connections, s.handle, false, false, false);
      var w1 := w.(connections := w.connections + 1);
      if !s.pins then (w1.(retired := w.retired + [cn]), false)
      else (Send(w1.(txn := Some(cn.(pinned := true)), session := Fresh(w.session)), Primer, Succeeded).0, true)
  }

  /** job_txn_begin_lazy */
  function BeginLazy(w: World, s: Script): (o: (World, bool))
    requires w.txn.Some?
  {
    if w.txn.value.active then (w, true)
    else if !w.txn.value.pinned then (w, false)
    else
      var tc := w.session.nesting;
      var (w1, a) := Send(w, TranCount, s.count);
      if a.Failed? then (w1, false)
      else if tc > 0 then (Activate(w1), true)
      else
        var (w2, b) := Send(w1, BeginTran, s.begin);
        if b.Succeeded? then (Activate(w2), true) else (w2, false)
  }

  /** job_txn_doomed; an unanswered query counts as not doomed. */
  function QueryDoomed(w: World, r: Reply): (o: (World, bool))
    requires w.txn.Some?
  {
    if !w.txn.value.active then (w, false)
    else
      var d := w.session.doomed;
      var (w1, a) := Send(w, XactState, r);
      (w1, a.Succeeded? && d)
  }

  /** job_txn_finalize */
  function Finalize(w: World, commit: bool, r: Reply): (o: (World, TxnResult))
    requires w.txn.Some?
  {
    var cn := w.txn.value;
    var (w1, a) := Send(w, EndTran(commit), r);
    if a.Succeeded? then (w1.(txn := Some(cn.(active := false, pinned := false))), TxnOk)
    else
      var cls := Classify(a.sqlstate);
      if cls == Transport || cls == Connect then
        (w1.(txn := Some(cn.(active := false, quarantined := true))), TxnUnknown)
      else if cls == Timeout then (w1, TxnBusy)
      else if commit && cn.active then
        (w1.(txn := Some(cn.(active := false, quarantined := true))), TxnUnknown)
      else (w1.(txn := Some(cn.(active := false))), TxnBusy)
  }

  /** txn_unpin */
  function Unpin(w: World): (r: World)
    requires w.txn.Some?
  {
    w.(txn := None, retired := w.retired + [w.txn.value], session := Close(w.session))
  }

  /** vtab_dml_ctx inside a transaction: a context made for the same handle is reused as it is, and only
      a new one passes through the lazy BEGIN. */
  function WriteContext(w: World, table: string, s: Script): (o: (World, bool))
    requires w.txn.Some?
  {
    var h := w.txn.value.handle;
    if table in w.contexts && w.contexts[table] == h then (w, true)
    else
      var (w1, a) := Send(w, Catalog, s.catalog);
      if a.Failed? then (w1.(contexts := w.contexts - {table}), false)
      else BeginLazy(w1.(contexts := w.contexts[table := h]), s)
  }

  // ---- callbacks ----

  /** One callback.  Outside a transaction SQLite does not call xUpdate; that step is idle. */
  function Step(w: World, e: Event): (o: (World, Rc)) {
    match e
    case XBegin(s) =>
      var (w1, ok) := PinShared(w, s);
      (w1, if ok then RcOk else RcError)
    case XBestIndex(table, s) =>
      // a writable table looks up its key, through its write context; a failure is ignored
      (if w.txn.None? then w else WriteContext(w, table, s).0, RcOk)
    case XUpdate(table, write, s) =>
      if w.txn.None? then (w, RcError)
      else
        var (w1, ok) := WriteContext(w, table, s);
        if !ok then (w1, RcError)
        else
          var (w2, a) := Send(w1, Dml(write), s.stmt);
          (w2, if a.Succeeded? then RcOk else RcError)
    case XSavepoint(n, s) =>
      var (w1, ok) := PinShared(w, s);
      if !ok then (w1, RcError)
      else
        var (w2, ok2) := BeginLazy(w1, s);
        if !ok2 then (w2, RcError)
        else
          var (w3, a) := Send(w2, SaveTran(MarkName(n)), s.stmt);
          (w3, if a.Succeeded? then RcOk else RcError)
    case XRelease(_) => (w, RcOk)
    case XRollbackTo(n, s) =>
      if w.txn.None? then (w, RcOk)
      else
        var (w1, a) := Send(w, RollbackTran(MarkName(n)), s.stmt);
        (w1, if a.Succeeded? then RcOk else RcError)
    case XSync(s) =>
      if w.txn.None? then (w, RcOk)
      else if !w.txn.value.active then (w, RcError)
      else
        var (w1, doomed) := QueryDoomed(w, s.state);
        if !doomed then (w1, RcOk) else (QueryDoomed(w1, s.state2).0, RcError)
    case XCommit(s) =>
      if w.txn.None? then (w, RcOk)
      else
        var (w1, res) := Finalize(w, true, s.end);
        (Unpin(w1), ResultCode(res))
    case XRollback(s) =>
      if w.txn.None? then (w, RcOk)
      else
        var (w1, res) := Finalize(w, false, s.end);
        (Unpin(w1), ResultCode(res))
  }

  function ResultCode(r: TxnResult): Rc {
    match r
    case TxnOk => RcOk
    case TxnBusy => RcBusy
    case TxnUnknown => RcError
  }
}
