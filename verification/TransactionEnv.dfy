/** The transaction layer in the source's own form: callbacks and worker jobs that update the fields of
    the shared environment, each proved against `Transaction.Step`. */
module TransactionEnv {
  import opened Lists
  import opened Server
  import opened Transaction
  import opened TransactionRuns
  import opened TransactionOutcome

  class Environment {
    var txn: Option<Connection>
    var contexts: map<string, nat>
    var connections: nat
    var retired: seq<Connection>
    var session: Session
    var log: seq<Sent>

    ghost function State(): World
      reads this
    {
      World(txn, contexts, connections, retired, session, log)
    }

    constructor (rows: Rows)
      ensures State() == World(None, map[], 0, [], Session(rows, false, 0, rows, [], false), [])
    {
      txn, contexts, connections, retired := None, map[], 0, [];
      session, log := Session(rows, false, 0, rows, [], false), [];
    }

    /** One ODBC call on the pinned connection's worker. */
    method SendCommand(c: Command, r: Reply) returns (a: Reply)
      requires txn.Some?
      modifies this
      ensures (State(), a) == Send(old(State()), c, r)
    {
      a := Answer(session, c, r);
      log := log + [Sent(txn.value.serial, c, a, Open(session))];
      session := Execute(session, c, a);
    }

    method Pin(s: Script) returns (ok: bool)
      modifies this
      ensures (State(), ok) == PinShared(old(State()), s)
    {
      if txn.Some? { return true; }
      if !s.opens { return false; }
      var cn := Connection(connections, s.handle, false, false, false);
      connections := connections + 1;
      if !s.pins {
        retired := retired + [cn];
        return false;
      }
      txn := Some(cn.(pinned := true));
      session := Fresh(session);
      var a := SendCommand(Primer, Succeeded);
      ok := true;
    }

    method StartLazily(s: Script) returns (ok: bool)
      requires txn.Some?
      modifies this
      ensures (State(), ok) == BeginLazy(old(State()), s)
      ensures txn.Some?
    {
      if txn.value.active { return true; }
      if !txn.value.pinned { return false; }
      var count := session.nesting;
      var a := SendCommand(TranCount, s.count);
      if a.Failed? { return false; }
      if count == 0 {
        var b := SendCommand(BeginTran, s.begin);
        if b.Failed? { return false; }
      }
      txn := Some(txn.value.(active := true));
      ok := true;
    }

    method Doomed(r: Reply) returns (doomed: bool)
      requires txn.Some?
      modifies this
      ensures (State(), doomed) == QueryDoomed(old(State()), r)
      ensures txn.Some?
    {
      doomed := false;
      if txn.value.active {
        var state := session.doomed;
        var a := SendCommand(XactState, r);
        doomed := a.Succeeded? && state;
      }
    }

    method EndTransaction(commit: bool, r: Reply) returns (res: TxnResult)
      requires txn.Some?
      modifies this
      ensures (State(), res) == Finalize(old(State()), commit, r)
      ensures var a := Answer(old(session), EndTran(commit), r);
              && (res == TxnOk <==> a.Succeeded?) && (res == TxnUnknown <==> Unknown(a, commit, old(txn).value.active))
              && (txn.value.pinned <==> res != TxnOk && old(txn).value.pinned)
              && (txn.value.quarantined <==> res == TxnUnknown || old(txn).value.quarantined)
      ensures txn.Some?
    {
      var wasActive := txn.value.active;
      txn := Some(txn.value.(active := false));
      var a := SendCommand(EndTran(commit), r);
      if a.Failed? {
        var cls := Classify(a.sqlstate);
        if cls == Transport || cls == Connect {
          txn := Some(txn.value.(quarantined := true));
          return TxnUnknown;
        }
        if cls == Timeout {
          if wasActive { txn := Some(txn.value.(active := true)); }
          return TxnBusy;
        }
        if commit && wasActive {
          txn := Some(txn.value.(quarantined := true));
          return TxnUnknown;
        }
        return TxnBusy;
      }
      txn := Some(txn.value.(pinned := false));
      res := TxnOk;
    }

    method Retire()
      requires txn.Some?
      modifies this
      ensures State() == Unpin(old(State()))
    {
      retired := retired + [txn.value];
      txn := None;
      session := Close(session);
    }

    method Begin(s: Script) returns (rc: Rc)
      modifies this
      ensures (State(), rc) == Step(old(State()), XBegin(s))
    {
      var ok := Pin(s);
      rc := if ok then RcOk else RcError;
    }

    /** vtab_dml_ctx inside a transaction. */
    method Context(table: string, s: Script) returns (ok: bool)
      requires txn.Some?
      modifies this
      ensures (State(), ok) == WriteContext(old(State()), table, s)
      ensures txn.Some?
    {
      var handle := txn.value.handle;
      if table in contexts && contexts[table] == handle { return true; }
      var a := SendCommand(Catalog, s.catalog);
      if a.Failed? {
        contexts := contexts - {table};
        return false;
      }
      contexts := contexts[table := handle];
      ok := StartLazily(s);
    }

    method BestIndex(table: string, s: Script) returns (rc: Rc)
      modifies this
      ensures (State(), rc) == Step(old(State()), XBestIndex(table, s))
    {
      if txn.Some? { var ok := Context(table, s); }
      rc := RcOk;
    }

    method Update(table: string, write: string, s: Script) returns (rc: Rc)
      modifies this
      ensures (State(), rc) == Step(old(State()), XUpdate(table, write, s))
    {
      if txn.None? { return RcError; }
      var ok := Context(table, s);
      if !ok { return RcError; }
      var b := SendCommand(Dml(write), s.stmt);
      rc := if b.Succeeded? then RcOk else RcError;
    }

    method Savepoint(level: nat, s: Script) returns (rc: Rc)
      modifies this
      ensures (State(), rc) == Step(old(State()), XSavepoint(level, s))
    {
      var ok := Pin(s);
      if !ok { return RcError; }
      ok := StartLazily(s);
      if !ok { return RcError; }
      var a := SendCommand(SaveTran(MarkName(level)), s.stmt);
      rc := if a.Succeeded? then RcOk else RcError;
    }

    method RollbackTo(level: nat, s: Script) returns (rc: Rc)
      modifies this
      ensures (State(), rc) == Step(old(State()), XRollbackTo(level, s))
    {
      if txn.None? { return RcOk; }
      var a := SendCommand(RollbackTran(MarkName(level)), s.stmt);
      rc := if a.Succeeded? then RcOk else RcError;
    }

    method Sync(s: Script) returns (rc: Rc)
      modifies this
      ensures (State(), rc) == Step(old(State()), XSync(s))
    {
      if txn.None? { return RcOk; }
      if !txn.value.active { return RcError; }
      var doomed := Doomed(s.state);
      if doomed {
        doomed := Doomed(s.state2);
        return RcError;
      }
      rc := RcOk;
    }

    method Commit(s: Script) returns (rc: Rc)
      modifies this
      ensures (State(), rc) == Step(old(State()), XCommit(s))
      ensures txn.None? && (old(txn).None? ==> rc == RcOk)
      ensures old(txn).Some? ==>
                var a := Answer(old(session), EndTran(true), s.end);
                && (rc == RcOk <==> a.Succeeded?) && (rc == RcError <==> Unknown(a, true, old(txn).value.active))
    {
      if txn.None? { return RcOk; }
      var res := EndTransaction(true, s.end);
      Retire();
      rc := ResultCode(res);
    }

    method Rollback(s: Script) returns (rc: Rc)
      modifies this
      ensures (State(), rc) == Step(old(State()), XRollback(s))
      ensures txn.None? && (old(txn).None? ==> rc == RcOk)
      ensures old(txn).Some? ==>
                var a := Answer(old(session), EndTran(false), s.end);
                && (rc == RcOk <==> a.Succeeded?) && (rc == RcError <==> Unknown(a, false, old(txn).value.active))
    {
      if txn.None? { return RcOk; }
      var res := EndTransaction(false, s.end);
      Retire();
      rc := ResultCode(res);
    }

    /** Whichever callback SQLite makes. */
    method Callback(e: Event) returns (rc: Rc)
      modifies this
      ensures (State(), rc) == Step(old(State()), e)
    {
      match e
      case XBegin(s) => rc := Begin(s);
      case XBestIndex(table, s) => rc := BestIndex(table, s);
      case XUpdate(table, write, s) => rc := Update(table, write, s);
      case XSavepoint(n, s) => rc := Savepoint(n, s);
      case XRelease(_) => rc := RcOk;
      case XRollbackTo(n, s) => rc := RollbackTo(n, s);
      case XSync(s) => rc := Sync(s);
      case XCommit(s) => rc := Commit(s);
      case XRollback(s) => rc := Rollback(s);
    }
  }

  /** The result codes of a run. */
  function Codes(rows: Rows, es: seq<Event>): seq<Rc> {
    if es == [] then [] else Codes(rows, es[..|es| - 1]) + [Step(Run(rows, es[..|es| - 1]).0, es[|es| - 1]).1]
  }

  lemma CodesOn(rows: Rows, es: seq<Event>, e: Event)
    ensures Codes(rows, es + [e]) == Codes(rows, es) + [Step(Run(rows, es).0, e).1]
  {
    assert (es + [e])[..|es|] == es;
  }

  /** One more callback. */
  method Advance(env: Environment, e: Event, ghost rows: Rows, ghost es: seq<Event>) returns (rc: Rc)
    requires env.State() == Run(rows, es).0
    modifies env
    ensures env.State() == Run(rows, es + [e]).0 && Codes(rows, es + [e]) == Codes(rows, es) + [rc]
  {
    RunOn(rows, es, e);
    CodesOn(rows, es, e);
    rc := env.Callback(e);
  }

  /** SQLite's whole run of callbacks on one environment: the fields end as the run says, so everything
      proved of runs holds of them; single finalization is restated on the fields. */
  method Drive(rows: Rows, es: seq<Event>) returns (env: Environment, rcs: seq<Rc>)
    ensures fresh(env) && env.State() == Run(rows, es).0 && rcs == Codes(rows, es)
    ensures LogOrdered(env.log) && env.session.nesting <= 1
    ensures env.txn.Some? && env.txn.value.active ==> env.txn.value.pinned
  {
    env := new Environment(rows);
    rcs := [];
    for i := 0 to |es|
      invariant fresh(env) && env.State() == Run(rows, es[..i]).0 && rcs == Codes(rows, es[..i])
    {
      var rc := Advance(env, es[i], rows, es[..i]);
      assert es[..i + 1] == es[..i] + [es[i]];
      rcs := rcs + [rc];
    }
    assert es[..|es|] == es;
    SingleFinalization(rows, es);
  }
}
