/** What every transaction callback keeps: the wire discipline. */
module TransactionRuns {
  import opened Lists
  import opened Server
  import opened Transaction

  // ---- wire discipline ----

  /** On one connection nothing follows SQLEndTran, and no BEGIN follows a BEGIN that took effect. */
  predicate LogOrdered(log: seq<Sent>) {
    forall i, j :: 0 <= i < j < |log| && log[i].serial == log[j].serial ==>
      !log[i].command.EndTran? &&
      (log[i].command.BeginTran? && CarriedOut(log[i].reply) ==> !log[j].command.BeginTran?)
  }

  predicate LogInv(w: World) {
    && LogOrdered(w.log)
    && (forall i :: 0 <= i < |w.log| ==> w.log[i].serial < w.connections)
    && (w.txn.Some? ==> forall i :: 0 <= i < |w.log| && w.log[i].serial == w.txn.value.serial ==>
          !w.log[i].command.EndTran? &&
          (w.log[i].command.BeginTran? && CarriedOut(w.log[i].reply) ==> w.session.nesting == 1 || !w.session.alive))
  }

  predicate SessionInv(s: Session) {
    && s.nesting <= 1
    && (s.nesting == 0 ==> s.working == s.committed && s.marks == [] && !s.doomed)
    && (!s.alive ==> s.nesting == 0)
  }

  predicate Inv(w: World) {
    && LogInv(w)
    && SessionInv(w.session)
    && (w.txn.None? ==> !w.session.alive)
    && (w.txn.Some? ==>
          var cn := w.txn.value;
          cn.pinned && !cn.quarantined && cn.serial < w.connections &&
          (cn.active ==> w.session.nesting == 1 || !w.session.alive))
  }

  lemma SendInv(w: World, c: Command, r: Reply)
    requires Inv(w) && w.txn.Some? && !c.EndTran?
    requires c.BeginTran? ==> w.session.alive && w.session.nesting == 0
    ensures Inv(Send(w, c, r).0)
  {
    var w' := Send(w, c, r).0;
    forall i, j | 0 <= i < j < |w'.log| && w'.log[i].serial == w'.log[j].serial
      ensures !w'.log[i].command.EndTran? &&
              (w'.log[i].command.BeginTran? && CarriedOut(w'.log[i].reply) ==> !w'.log[j].command.BeginTran?)
    {
      assert w'.log[i] == w.log[i];
    }
  }

  lemma PinInv(w: World, s: Script)
    requires Inv(w)
    ensures Inv(PinShared(w, s).0)
  {
    if w.txn.None? && s.opens && s.pins {
      var cn := Connection(w.connections, s.handle, true, false, false);
      SendInv(w.(connections := w.connections + 1, txn := Some(cn), session := Fresh(w.session)), Primer, Succeeded);
    }
  }

  lemma BeginLazyInv(w: World, s: Script)
    requires Inv(w) && w.txn.Some?
    ensures var (w', ok) := BeginLazy(w, s); Inv(w') && w'.txn.Some? && (ok ==> w'.txn.value.active)
  {
    if !w.txn.value.active {
      SendInv(w, TranCount, s.count);
      var (w1, a) := Send(w, TranCount, s.count);
      if a.Succeeded? && w.session.nesting == 0 {
        SendInv(w1, BeginTran, s.begin);
      }
    }
  }

  /** Ending the transaction: one SQLEndTran goes out and the connection is gone. */
  lemma FinishInv(w: World, commit: bool, r: Reply)
    requires Inv(w) && w.txn.Some?
    ensures Inv(Unpin(Finalize(w, commit, r).0))
  {
    var w' := Unpin(Finalize(w, commit, r).0);
    forall i, j | 0 <= i < j < |w'.log| && w'.log[i].serial == w'.log[j].serial
      ensures !w'.log[i].command.EndTran? &&
              (w'.log[i].command.BeginTran? && CarriedOut(w'.log[i].reply) ==> !w'.log[j].command.BeginTran?)
    {
      assert w'.log[i] == w.log[i];
    }
  }

  lemma WriteContextInv(w: World, table: string, s: Script)
    requires Inv(w) && w.txn.Some?
    ensures Inv(WriteContext(w, table, s).0)
  {
    var h := w.txn.value.handle;
    if !(table in w.contexts && w.contexts[table] == h) {
      SendInv(w, Catalog, s.catalog);
      var (w1, a) := Send(w, Catalog, s.catalog);
      if a.Succeeded? { BeginLazyInv(w1.(contexts := w.contexts[table := h]), s); }
    }
  }

  lemma UpdateInv(w: World, table: string, write: string, s: Script)
    requires Inv(w)
    ensures Inv(Step(w, XUpdate(table, write, s)).0)
  {
    if w.txn.Some? {
      WriteContextInv(w, table, s);
      var (w1, ok) := WriteContext(w, table, s);
      if ok { SendInv(w1, Dml(write), s.stmt); }
    }
  }

  lemma SavepointInv(w: World, n: nat, s: Script)
    requires Inv(w)
    ensures Inv(Step(w, XSavepoint(n, s)).0)
  {
    PinInv(w, s);
    var (w1, ok) := PinShared(w, s);
    if ok {
      BeginLazyInv(w1, s);
      var (w2, ok2) := BeginLazy(w1, s);
      if ok2 { SendInv(w2, SaveTran(MarkName(n)), s.stmt); }
    }
  }

  lemma SyncInv(w: World, s: Script)
    requires Inv(w)
    ensures Inv(Step(w, XSync(s)).0)
  {
    if w.txn.Some? && w.txn.value.active {
      SendInv(w, XactState, s.state);
      SendInv(Send(w, XactState, s.state).0, XactState, s.state2);
    }
  }

  lemma StepInv(w: World, e: Event)
    requires Inv(w)
    ensures Inv(Step(w, e).0)
  {
    match e
    case XBegin(s) => PinInv(w, s);
    case XBestIndex(table, s) => if w.txn.Some? { WriteContextInv(w, table, s); }
    case XUpdate(table, write, s) => UpdateInv(w, table, write, s);
    case XSavepoint(n, s) => SavepointInv(w, n, s);
    case XRelease(_) =>
    case XRollbackTo(n, s) => if w.txn.Some? { SendInv(w, RollbackTran(MarkName(n)), s.stmt); }
    case XSync(s) => SyncInv(w, s);
    case XCommit(s) => if w.txn.Some? { FinishInv(w, true, s.end); }
    case XRollback(s) => if w.txn.Some? { FinishInv(w, false, s.end); }
  }
}
