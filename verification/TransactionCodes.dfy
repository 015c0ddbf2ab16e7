/** What SQLite is told: the result code of every callback against the replies the connection got. */
module TransactionCodes {
  import opened Lists
  import opened Server
  import opened Transaction
  import opened TransactionRuns
  import opened TransactionOutcome

  predicate AllSucceeded(log: seq<Sent>) {
    forall i :: 0 <= i < |log| ==> log[i].reply.Succeeded?
  }

  predicate EndsWith(log: seq<Sent>, c: Command) {
    log != [] && log[|log| - 1].command == c
  }

  /** The commands sent between two worlds. */
  function Since(w: World, w': World): seq<Sent>
    requires w.log <= w'.log
  {
    w'.log[|w.log|..]
  }

  lemma SinceOn(w: World, w1: World, w2: World)
    requires w.log <= w1.log <= w2.log
    ensures Since(w, w2) == Since(w, w1) + Since(w1, w2)
    ensures AllSucceeded(Since(w, w2)) <==> AllSucceeded(Since(w, w1)) && AllSucceeded(Since(w1, w2))
  {
    assert Since(w, w2) == Since(w, w1) + Since(w1, w2);
    forall i | 0 <= i < |Since(w1, w2)| ensures Since(w, w2)[|Since(w, w1)| + i] == Since(w1, w2)[i] {}
  }

  lemma SinceSend(w: World, c: Command, r: Reply)
    requires w.txn.Some?
    ensures var (w', a) := Send(w, c, r);
            && w.log <= w'.log && Since(w, w') == [Sent(w.txn.value.serial, c, a, Open(w.session))]
            && (AllSucceeded(Since(w, w')) <==> a.Succeeded?)
  {
    assert Since(w, Send(w, c, r).0)[0].reply == Send(w, c, r).1;
  }

  // ---- the end of a transaction ----

  lemma EndStep(w: World, commit: bool, s: Script)
    requires Inv(w) && w.txn.Some?
    ensures var (w', rc) := Step(w, if commit then XCommit(s) else XRollback(s));
            var a := Answer(w.session, EndTran(commit), s.end);
            && rc == (if a.Succeeded? then RcOk else if Unknown(a, commit, w.txn.value.active) then RcError else RcBusy)
            && w'.txn.None? && w'.log == w.log + [Sent(w.txn.value.serial, EndTran(commit), a, Open(w.session))]
  {
  }

  lemma EndRetires(w: World, commit: bool, s: Script)
    requires Inv(w) && w.txn.Some?
    ensures var (w', rc) := Step(w, if commit then XCommit(s) else XRollback(s));
            && |w'.retired| == |w.retired| + 1
            && var cn, a := w'.retired[|w.retired|], Answer(w.session, EndTran(commit), s.end);
               && cn.serial == w.txn.value.serial && (cn.quarantined <==> rc == RcError) && (cn.pinned <==> rc != RcOk)
               && (cn.active <==> w.txn.value.active && TimedOut(a))
  {
  }

  /** The code of COMMIT and ROLLBACK in every run: OK exactly for a success, an error exactly when nothing is known
      of the outcome, BUSY for the other failures, a timeout among them; one SQLEndTran is sent; the connection is
      retired, quarantined exactly with an error, no longer pinned exactly after a success, and still counted as
      active exactly after a timeout of an active one. */
  lemma EndExactly(rows: Rows, es: seq<Event>, commit: bool, s: Script)
    requires Run(rows, es).0.txn.Some?
    ensures var w := Run(rows, es).0;
            var (w', rc) := Step(w, if commit then XCommit(s) else XRollback(s));
            var a := Answer(w.session, EndTran(commit), s.end);
            && (rc == RcOk <==> a.Succeeded?) && (rc == RcError <==> Unknown(a, commit, w.txn.value.active))
            && (TimedOut(a) ==> rc == RcBusy)
            && w'.txn.None? && w'.log == w.log + [Sent(w.txn.value.serial, EndTran(commit), a, Open(w.session))]
            && |w'.retired| == |w.retired| + 1
            && var cn, a := w'.retired[|w.retired|], Answer(w.session, EndTran(commit), s.end);
               && cn.serial == w.txn.value.serial && (cn.quarantined <==> rc == RcError) && (cn.pinned <==> rc != RcOk)
               && (cn.active <==> w.txn.value.active && TimedOut(a))
  {
    SingleFinalization(rows, es);
    EndStep(Run(rows, es).0, commit, s);
    EndRetires(Run(rows, es).0, commit, s);
  }

  // ---- the other callbacks ----

  /** xBegin succeeds exactly when there is a pin afterwards: the one there was, untouched, or a new connection.  A
      connection that cannot be pinned is closed again. */
  lemma BeginExactly(rows: Rows, es: seq<Event>, s: Script)
    ensures var w := Run(rows, es).0;
            var (w', rc) := Step(w, XBegin(s));
            && (rc == RcOk <==> w.txn.Some? || (s.opens && s.pins)) && (rc == RcOk <==> w'.txn.Some?)
            && (w.txn.Some? ==> w' == w)
            && (w.txn.None? && rc == RcOk ==>
                  && w'.txn == Some(Connection(w.connections, s.handle, true, false, false))
                  && w'.connections == w.connections + 1 && w'.session == Fresh(w.session)
                  && w.log <= w'.log && |Since(w, w')| == 1 && EndsWith(Since(w, w'), Primer))
            && (w.txn.None? && !s.opens ==> w' == w)
            && (w.txn.None? && s.opens && !s.pins ==>
                  && w'.txn.None? && w'.log == w.log && w'.session == w.session && w'.connections == w.connections + 1
                  && w'.retired == w.retired + [Connection(w.connections, s.handle, false, false, false)])
  {
  }

  /** A lazy BEGIN succeeds exactly when every command it sent did, and then leaves an active connection. */
  lemma LazyCommands(w: World, s: Script)
    requires Inv(w) && w.txn.Some?
    ensures var (w', ok) := BeginLazy(w, s);
            && w.log <= w'.log && (ok <==> AllSucceeded(Since(w, w')))
            && w'.contexts == w.contexts && w'.txn == (if ok then Some(w.txn.value.(active := true)) else w.txn)
  {
    if !w.txn.value.active {
      SinceSend(w, TranCount, s.count);
      var (w1, a) := Send(w, TranCount, s.count);
      if a.Succeeded? && w.session.nesting == 0 {
        SinceSend(w1, BeginTran, s.begin);
        SinceOn(w, w1, Send(w1, BeginTran, s.begin).0);
      }
    }
  }

  /** A write context is made for the pinned connection unless it is there; a failed key lookup leaves none. */
  lemma ContextCommands(w: World, table: string, s: Script)
    requires Inv(w) && w.txn.Some?
    ensures var (w', ok) := WriteContext(w, table, s);
            var known := table in w.contexts && w.contexts[table] == w.txn.value.handle;
            && w.log <= w'.log && w'.txn.Some? && w'.txn.value.serial == w.txn.value.serial
            && (ok <==> AllSucceeded(Since(w, w')))
            && (known ==> w' == w)
            && (!known ==> Since(w, w') != [] && Since(w, w')[0].command == Catalog)
            && (!known ==> (table in w'.contexts <==> Since(w, w')[0].reply.Succeeded?))
            && (table in w'.contexts ==> w'.contexts[table] == w.txn.value.handle)
  {
    var h := w.txn.value.handle;
    if !(table in w.contexts && w.contexts[table] == h) {
      SendInv(w, Catalog, s.catalog);
      SinceSend(w, Catalog, s.catalog);
      var (w1, a) := Send(w, Catalog, s.catalog);
      if a.Succeeded? {
        var w2 := w1.(contexts := w.contexts[table := h]);
        LazyCommands(w2, s);
        SinceOn(w, w2, BeginLazy(w2, s).0);
      }
    }
  }

  /** Then the callback's own command, sent exactly if everything before it succeeded. */
  lemma LastCommand(w: World, w1: World, c: Command, r: Reply)
    requires w.log <= w1.log && w1.txn.Some?
    ensures var (w2, a) := Send(w1, c, r);
            && w.log <= w2.log && EndsWith(Since(w, w2), c)
            && (AllSucceeded(Since(w, w2)) <==> AllSucceeded(Since(w, w1)) && a.Succeeded?)
  {
    SinceSend(w1, c, r);
    SinceOn(w, w1, Send(w1, c, r).0);
  }

  /** xUpdate succeeds exactly when every command it sent did, the last of which then is the write. */
  lemma UpdateExactly(rows: Rows, es: seq<Event>, table: string, write: string, s: Script)
    requires Run(rows, es).0.txn.Some?
    ensures var w := Run(rows, es).0;
            var (w', rc) := Step(w, XUpdate(table, write, s));
            && w.log <= w'.log && rc != RcBusy && (rc == RcOk <==> AllSucceeded(Since(w, w')))
            && (rc == RcOk ==> EndsWith(Since(w, w'), Dml(write)))
  {
    SingleFinalization(rows, es);
    var w := Run(rows, es).0;
    ContextCommands(w, table, s);
    var (w1, ok) := WriteContext(w, table, s);
    if ok { LastCommand(w, w1, Dml(write), s.stmt); }
  }

  lemma PinCommands(w: World, s: Script)
    requires Inv(w)
    ensures var (w', ok) := PinShared(w, s);
            Inv(w') && w.log <= w'.log && AllSucceeded(Since(w, w')) && (ok <==> w'.txn.Some?)
  {
    PinInv(w, s);
  }

  /** xSavepoint succeeds exactly when there is a pin and every command it sent succeeded, the last of which then
      sets the mark of the level. */
  lemma SavepointExactly(rows: Rows, es: seq<Event>, n: nat, s: Script)
    ensures var w := Run(rows, es).0;
            var (w', rc) := Step(w, XSavepoint(n, s));
            && w.log <= w'.log && rc != RcBusy && (rc == RcOk <==> w'.txn.Some? && AllSucceeded(Since(w, w')))
            && (rc == RcOk ==> EndsWith(Since(w, w'), SaveTran(MarkName(n))))
  {
    SingleFinalization(rows, es);
    SavepointCommands(Run(rows, es).0, n, s);
  }

  lemma SavepointCommands(w: World, n: nat, s: Script)
    requires Inv(w)
    ensures var (w', rc) := Step(w, XSavepoint(n, s));
            && w.log <= w'.log && rc != RcBusy && (rc == RcOk <==> w'.txn.Some? && AllSucceeded(Since(w, w')))
            && (rc == RcOk ==> EndsWith(Since(w, w'), SaveTran(MarkName(n))))
  {
    PinCommands(w, s);
    var (w1, ok) := PinShared(w, s);
    if ok {
      BegunCommands(w, w1, s);
      var (w2, ok2) := BeginLazy(w1, s);
      if ok2 { LastCommand(w, w2, SaveTran(MarkName(n)), s.stmt); }
    }
  }

  lemma BegunCommands(w: World, w1: World, s: Script)
    requires Inv(w1) && w1.txn.Some? && w.log <= w1.log && AllSucceeded(Since(w, w1))
    ensures var (w2, ok) := BeginLazy(w1, s);
            w.log <= w2.log && w2.txn.Some? && (ok <==> AllSucceeded(Since(w, w2)))
  {
    LazyCommands(w1, s);
    SinceOn(w, w1, BeginLazy(w1, s).0);
  }

  /** xRollbackTo sends one command, back to the mark of the level, and succeeds exactly when it does. */
  lemma RollbackToExactly(rows: Rows, es: seq<Event>, n: nat, s: Script)
    ensures var w := Run(rows, es).0;
            var (w', rc) := Step(w, XRollbackTo(n, s));
            && w.log <= w'.log && rc != RcBusy
            && (w.txn.None? ==> w' == w && rc == RcOk)
            && (w.txn.Some? ==> |Since(w, w')| == 1 && EndsWith(Since(w, w'), RollbackTran(MarkName(n))))
            && (rc == RcOk <==> AllSucceeded(Since(w, w')))
  {
  }

  /** xSync accepts exactly without a pin, and an active transaction that is not known to be doomed. */
  lemma SyncCode(rows: Rows, es: seq<Event>, s: Script)
    ensures var w := Run(rows, es).0;
            var rc := Step(w, XSync(s)).1;
            && rc != RcBusy
            && (rc == RcOk <==>
                (w.txn.Some? ==>
                   w.txn.value.active && !(w.session.doomed && Answer(w.session, XactState, s.state).Succeeded?)))
  {
  }

  // ---- a server that always answers ----

  predicate Good(s: Script) {
    && s.opens && s.pins && s.catalog.Succeeded? && s.count.Succeeded? && s.begin.Succeeded? && s.stmt.Succeeded?
    && s.state.Succeeded? && s.state2.Succeeded? && s.end.Succeeded?
  }

  predicate GoodEvent(e: Event) {
    e.XRelease? || Good(e.s)
  }

  /** SQLite writes only inside a transaction, and asks xSync only of a table that was written. */
  predicate Expected(w: World, e: Event) {
    && (e.XUpdate? ==> w.txn.Some?)
    && (e.XSync? && w.txn.Some? ==> w.txn.value.active)
  }

  predicate Healthy(w: World) {
    w.txn.Some? ==> w.session.alive && !w.session.doomed && (w.txn.value.active <==> w.session.nesting > 0)
  }

  lemma GoodLazy(w: World, s: Script)
    requires Inv(w) && w.txn.Some? && Healthy(w) && Good(s)
    ensures var (w', ok) := BeginLazy(w, s);
            ok && Healthy(w') && w'.txn.Some? && w'.txn.value.active && w'.session.marks == w.session.marks
  {
  }

  lemma GoodContext(w: World, table: string, s: Script)
    requires Inv(w) && w.txn.Some? && Healthy(w) && Good(s)
    ensures var (w', ok) := WriteContext(w, table, s); ok && Healthy(w') && w'.txn.Some?
    ensures !Bypass(w, table) ==> WriteContext(w, table, s).0.txn.value.active
  {
    SendInv(w, Catalog, s.catalog);
    var w1 := Send(w, Catalog, s.catalog).0;
    GoodLazy(w1.(contexts := w.contexts[table := w.txn.value.handle]), s);
  }

  lemma GoodSavepoint(w: World, n: nat, s: Script)
    requires Inv(w) && Healthy(w) && Good(s)
    ensures var (w', rc) := Step(w, XSavepoint(n, s)); rc == RcOk && Healthy(w')
  {
    PinInv(w, s);
    GoodLazy(PinShared(w, s).0, s);
  }

  lemma GoodStep(w: World, sp: Snapshots, e: Event)
    requires Inv(w) && Refines(w, sp) && Legal(w, sp, e) && GoodEvent(e) && Healthy(w) && Expected(w, e)
    ensures var (w', rc) := Step(w, e); rc == RcOk && Healthy(w')
  {
    match e
    case XBestIndex(table, s) => if w.txn.Some? { GoodContext(w, table, s); }
    case XUpdate(table, write, s) => GoodContext(w, table, s);
    case XSavepoint(n, s) => GoodSavepoint(w, n, s);
    case XRollbackTo(n, s) => if w.txn.Some? { assert Open(w.session) && At(w.session, n) >= 0; }
    case _ =>
  }

  predicate GoodRun(rows: Rows, es: seq<Event>) {
    es == [] ||
    var before, e := es[..|es| - 1], es[|es| - 1];
    GoodRun(rows, before) && GoodEvent(e) && Expected(Run(rows, before).0, e)
  }

  /** When every reply is good, every callback of a legal run succeeds; and COMMIT makes the reference's rows
      durable. */
  lemma {:induction false} GoodRunSucceeds(rows: Rows, es: seq<Event>, e: Event)
    requires LegalRun(rows, es) && GoodRun(rows, es)
    requires Legal(Run(rows, es).0, Run(rows, es).1, e) && GoodEvent(e) && Expected(Run(rows, es).0, e)
    ensures var (w, sp) := Run(rows, es);
            var (w', rc) := Step(w, e);
            rc == RcOk && Healthy(w) && (e.XCommit? && w.txn.Some? ==> w'.session.committed == sp.working)
  {
    SavepointsRefineSnapshots(rows, es);
    HealthyRun(rows, es);
    GoodStep(Run(rows, es).0, Run(rows, es).1, e);
    if e.XCommit? && Run(rows, es).0.txn.Some? { CommitOutcome(rows, es, e.s); }
  }

  lemma {:induction false} HealthyRun(rows: Rows, es: seq<Event>)
    requires LegalRun(rows, es) && GoodRun(rows, es)
    ensures Healthy(Run(rows, es).0)
  {
    if es != [] {
      var before, e := es[..|es| - 1], es[|es| - 1];
      HealthyRun(rows, before);
      SavepointsRefineSnapshots(rows, before);
      GoodStep(Run(rows, before).0, Run(rows, before).1, e);
    }
  }
}
