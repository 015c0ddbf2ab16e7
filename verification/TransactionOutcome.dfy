/** The remote transaction against its reference: a plain stack of snapshots.

    RELEASE sends nothing and stale marks stay on the server, yet while the transaction is open its
    rows are those of the stack, and from that the outcome of COMMIT and ROLLBACK follows. */
module TransactionOutcome {
  import opened Lists
  import opened Server
  import opened Transaction
  import opened TransactionRuns

  /** The reference: rows before BEGIN, rows now, and one snapshot per live savepoint level. */
  datatype Snapshots = Snapshots(base: Rows, working: Rows, stack: seq<Rows>)

  /** What a callback that returned `rc` means for the reference; `durable` are the rows durable
      afterwards, from which the next transaction starts. */
  function Reference(sp: Snapshots, e: Event, rc: Rc, durable: Rows): (r: Snapshots) {
    match e
    case XUpdate(_, write, _) =>
      if rc == RcOk then sp.(working := sp.working + [write]) else sp
    case XSavepoint(n, _) =>
      if rc == RcOk && n == |sp.stack| then sp.(stack := sp.stack + [sp.working]) else sp
    case XRelease(n) =>
      if n < |sp.stack| then sp.(stack := sp.stack[..n]) else sp
    case XRollbackTo(n, _) =>
      if rc == RcOk && n < |sp.stack| then sp.(working := sp.stack[n], stack := sp.stack[..n + 1]) else sp
    case XCommit(_) => Snapshots(durable, durable, [])
    case XRollback(_) => Snapshots(durable, durable, [])
    case _ => sp
  }

  /** The write would skip the lazy BEGIN: its table's context was made for this address while no
      transaction is known to be open. */
  predicate Bypass(w: World, table: string) {
    w.txn.Some? && !w.txn.value.active &&
    table in w.contexts && w.contexts[table] == w.txn.value.handle
  }

  /** SQLite's nesting rules.  With several tables in the transaction every callback comes once per
      table, so a savepoint may be set again before anything was written, and released again. */
  predicate Legal(w: World, sp: Snapshots, e: Event) {
    match e
    case XUpdate(table, _, _) => !Bypass(w, table)
    case XSavepoint(n, _) =>
      n == |sp.stack| || (n + 1 == |sp.stack| && sp.stack[n] == sp.working)
    case XRollbackTo(n, _) => n < |sp.stack|
    case _ => true
  }

  function At(s: Session, level: nat): int {
    Latest(s.marks, MarkName(level))
  }

  /** The latest mark of every live level is that level's snapshot, and these marks lie in level order. */
  predicate Aligned(s: Session, stack: seq<Rows>) {
    && (forall k :: 0 <= k < |stack| ==> At(s, k) >= 0 && s.marks[At(s, k)].rows == stack[k])
    && (forall j, k :: 0 <= j < k < |stack| ==> At(s, j) < At(s, k))
  }

  predicate Refines(w: World, sp: Snapshots) {
    && sp.base == w.session.committed
    && (w.txn.None? || !w.txn.value.active ==> sp.working == sp.base && sp.stack == [])
    && (Open(w.session) ==> w.session.working == sp.working && Aligned(w.session, sp.stack))
  }

  lemma LatestUnique(marks: seq<Mark>, name: string, i: int)
    requires -1 <= i < |marks|
    requires i >= 0 ==> marks[i].name == name
    requires forall k :: i < k < |marks| ==> marks[k].name != name
    ensures Latest(marks, name) == i
  {
  }

  lemma SameMarksAligned(s: Session, s': Session, stack: seq<Rows>)
    requires s.marks == s'.marks && Aligned(s, stack)
    ensures Aligned(s', stack)
  {
    assert forall k: nat :: At(s, k) == At(s', k);
  }

  /** SAVE pushes. */
  lemma SaveAligned(s: Session, stack: seq<Rows>, n: nat)
    requires Aligned(s, stack)
    requires n == |stack| || (n + 1 == |stack| && stack[n] == s.working)
    requires Executable(s, SaveTran(MarkName(n)))
    ensures Aligned(Apply(s, SaveTran(MarkName(n))), if n == |stack| then stack + [s.working] else stack)
  {
    var s' := Apply(s, SaveTran(MarkName(n)));
    assert At(s', n) == |s.marks|;
    forall k: nat | k != n ensures At(s', k) == At(s, k) {
      if MarkName(k) == MarkName(n) { MarkNameInjective(k, n); }
      LatestUnique(s'.marks, MarkName(k), At(s, k));
    }
  }

  /** ROLLBACK TO restores the level's snapshot and drops the younger ones. */
  lemma RollbackAligned(s: Session, stack: seq<Rows>, n: nat)
    requires Aligned(s, stack) && n < |stack|
    requires Executable(s, RollbackTran(MarkName(n)))
    ensures var s' := Apply(s, RollbackTran(MarkName(n)));
            s'.working == stack[n] && Aligned(s', stack[..n + 1])
  {
    var s' := Apply(s, RollbackTran(MarkName(n)));
    forall k: nat | k <= n ensures At(s', k) == At(s, k) {
      assert At(s, k) <= At(s, n);
      LatestUnique(s'.marks, MarkName(k), At(s, k));
    }
  }

  /** Queries and failed statements neither move rows nor touch a session that stays open. */
  lemma QuietSend(w: World, c: Command, r: Reply, sp: Snapshots)
    requires Inv(w) && w.txn.Some? && Refines(w, sp)
    requires c in {Primer, Catalog, TranCount, XactState, BeginTran} || Answer(w.session, c, r).Failed?
    requires c.BeginTran? ==> w.session.nesting == 0 && !w.txn.value.active
    requires c.Dml? || c.SaveTran? || c.RollbackTran? ==> w.session.nesting > 0 || !w.session.alive
    requires !c.EndTran?
    ensures Refines(Send(w, c, r).0, sp)
  {
  }

  lemma BeginLazyRefines(w: World, s: Script, sp: Snapshots)
    requires Inv(w) && w.txn.Some? && Refines(w, sp)
    ensures var (w', ok) := BeginLazy(w, s);
            Inv(w') && Refines(w', sp) && w'.txn.Some? && (ok ==> w'.txn.value.active)
  {
    BeginLazyInv(w, s);
    if !w.txn.value.active {
      SendInv(w, TranCount, s.count);
      QuietSend(w, TranCount, s.count, sp);
      var (w1, a) := Send(w, TranCount, s.count);
      if a.Succeeded? && w.session.nesting == 0 {
        QuietSend(w1, BeginTran, s.begin, sp);
      }
    }
  }

  lemma PinRefines(w: World, s: Script, sp: Snapshots)
    requires Inv(w) && Refines(w, sp)
    ensures var (w', ok) := PinShared(w, s); Inv(w') && Refines(w', sp) && (ok ==> w'.txn.Some?)
  {
    PinInv(w, s);
  }

  /** Making or reusing a write context moves no rows; unless the context bypasses the lazy BEGIN, it
      ends in an active transaction or fails. */
  lemma WriteContextRefines(w: World, table: string, s: Script, sp: Snapshots)
    requires Inv(w) && Refines(w, sp) && w.txn.Some?
    ensures var (w', ok) := WriteContext(w, table, s);
            Inv(w') && Refines(w', sp) && w'.txn.Some? && (ok && !Bypass(w, table) ==> w'.txn.value.active)
  {
    WriteContextInv(w, table, s);
    var h := w.txn.value.handle;
    if !(table in w.contexts && w.contexts[table] == h) {
      SendInv(w, Catalog, s.catalog);
      QuietSend(w, Catalog, s.catalog, sp);
      var (v, a) := Send(w, Catalog, s.catalog);
      if a.Succeeded? { BeginLazyRefines(v.(contexts := w.contexts[table := h]), s, sp); }
    }
  }

  lemma UpdateRefines(w: World, table: string, write: string, s: Script, sp: Snapshots)
    requires Inv(w) && Refines(w, sp) && !Bypass(w, table)
    ensures var (w', rc) := Step(w, XUpdate(table, write, s));
            Refines(w', Reference(sp, XUpdate(table, write, s), rc, w'.session.committed))
  {
    if w.txn.Some? {
      WriteContextRefines(w, table, s, sp);
      var (w1, ok) := WriteContext(w, table, s);
      if ok && Answer(w1.session, Dml(write), s.stmt).Failed? {
        QuietSend(w1, Dml(write), s.stmt, sp);
      } else if ok {
        SameMarksAligned(w1.session, Send(w1, Dml(write), s.stmt).0.session, sp.stack);
      }
    }
  }

  /** SAVE TRANSACTION on a pinned connection with the transaction begun. */
  lemma SaveRefines(w: World, n: nat, r: Reply, sp: Snapshots)
    requires Inv(w) && Refines(w, sp) && w.txn.Some? && w.txn.value.active && Legal(w, sp, XSavepoint(n, AllWell))
    ensures var (w', a) := Send(w, SaveTran(MarkName(n)), r);
            Refines(w', if a.Succeeded? && n == |sp.stack| then sp.(stack := sp.stack + [sp.working]) else sp)
  {
    var c := SaveTran(MarkName(n));
    if Answer(w.session, c, r).Failed? {
      QuietSend(w, c, r, sp);
    } else {
      SaveAligned(w.session, sp.stack, n);
    }
  }

  lemma SavepointRefines(w: World, n: nat, s: Script, sp: Snapshots)
    requires Inv(w) && Refines(w, sp) && Legal(w, sp, XSavepoint(n, s))
    ensures var (w', rc) := Step(w, XSavepoint(n, s));
            Refines(w', Reference(sp, XSavepoint(n, s), rc, w'.session.committed))
  {
    PinRefines(w, s, sp);
    var (w1, ok) := PinShared(w, s);
    if ok {
      BeginLazyRefines(w1, s, sp);
      var (w2, ok2) := BeginLazy(w1, s);
      if ok2 { SaveRefines(w2, n, s.stmt, sp); }
    }
  }

  lemma RollbackToRefines(w: World, n: nat, s: Script, sp: Snapshots)
    requires Inv(w) && Refines(w, sp) && n < |sp.stack|
    ensures var (w', rc) := Step(w, XRollbackTo(n, s));
            Refines(w', Reference(sp, XRollbackTo(n, s), rc, w'.session.committed))
  {
    var c := RollbackTran(MarkName(n));
    if Answer(w.session, c, s.stmt).Failed? {
      QuietSend(w, c, s.stmt, sp);
    } else {
      RollbackAligned(w.session, sp.stack, n);
    }
  }

  lemma SyncRefines(w: World, s: Script, sp: Snapshots)
    requires Inv(w) && Refines(w, sp)
    ensures Refines(Step(w, XSync(s)).0, sp)
  {
    if w.txn.Some? && w.txn.value.active {
      SendInv(w, XactState, s.state);
      QuietSend(w, XactState, s.state, sp);
      QuietSend(Send(w, XactState, s.state).0, XactState, s.state2, sp);
    }
  }

  /** Every legal callback keeps the refinement. */
  lemma StepRefines(w: World, sp: Snapshots, e: Event)
    requires Inv(w) && Refines(w, sp) && Legal(w, sp, e)
    ensures var (w', rc) := Step(w, e);
            Inv(w') && Refines(w', Reference(sp, e, rc, w'.session.committed))
  {
    StepInv(w, e);
    match e
    case XBegin(s) => PinRefines(w, s, sp);
    case XBestIndex(table, s) => if w.txn.Some? { WriteContextRefines(w, table, s, sp); }
    case XUpdate(table, write, s) => UpdateRefines(w, table, write, s, sp);
    case XSavepoint(n, s) => SavepointRefines(w, n, s, sp);
    case XRelease(n) =>
    case XRollbackTo(n, s) => RollbackToRefines(w, n, s, sp);
    case XSync(s) => SyncRefines(w, s, sp);
    case XCommit(s) =>
    case XRollback(s) =>
  }

  // ---- runs ----

  function Initial(rows: Rows): (w: World) {
    World(None, map[], 0, [], Session(rows, false, 0, rows, [], false), [])
  }

  function StepBoth(p: (World, Snapshots), e: Event): (r: (World, Snapshots)) {
    var (w', rc) := Step(p.0, e);
    (w', Reference(p.1, e, rc, w'.session.committed))
  }

  /** The layer and its reference after a run of callbacks, from a server holding `rows`. */
  function Run(rows: Rows, es: seq<Event>): (p: (World, Snapshots)) {
    if es == [] then (Initial(rows), Snapshots(rows, rows, []))
    else StepBoth(Run(rows, es[..|es| - 1]), es[|es| - 1])
  }

  predicate LegalRun(rows: Rows, es: seq<Event>) {
    es == [] ||
    var p := Run(rows, es[..|es| - 1]);
    LegalRun(rows, es[..|es| - 1]) && Legal(p.0, p.1, es[|es| - 1])
  }

  /** The wire discipline holds in every run whatsoever: per connection at most one BEGIN TRANSACTION
      takes effect (so the nesting count never exceeds one), at most one SQLEndTran is sent, nothing is
      sent after it, and an active connection is pinned. */
  lemma {:induction false} SingleFinalization(rows: Rows, es: seq<Event>)
    ensures var w := Run(rows, es).0;
            Inv(w) && LogOrdered(w.log) && w.session.nesting <= 1 &&
            (w.txn.Some? && w.txn.value.active ==> w.txn.value.pinned)
  {
    if es != [] {
      SingleFinalization(rows, es[..|es| - 1]);
      StepInv(Run(rows, es[..|es| - 1]).0, es[|es| - 1]);
    }
  }

  /** In every legal run, while the remote transaction is open its rows are the reference's rows and
      every live level can still be rolled back to. */
  lemma {:induction false} SavepointsRefineSnapshots(rows: Rows, es: seq<Event>)
    requires LegalRun(rows, es)
    ensures var (w, sp) := Run(rows, es);
            Inv(w) && Refines(w, sp) &&
            (Open(w.session) ==> w.session.working == sp.working && Aligned(w.session, sp.stack))
  {
    if es != [] {
      SavepointsRefineSnapshots(rows, es[..|es| - 1]);
      var p := Run(rows, es[..|es| - 1]);
      StepRefines(p.0, p.1, es[|es| - 1]);
    }
  }

  /** Outcome of COMMIT after every legal run, for every driver reply: the surviving writes are durable if
      the COMMIT was carried out and the rows before BEGIN otherwise, never anything between.  OK is
      said exactly of a COMMIT that succeeded, and it was carried out; the unknown outcome exactly quarantines;
      BUSY means that nothing was committed exactly if the COMMIT was not carried out or there was nothing
      to commit, and always means it when the reply is no timeout. */
  lemma CommitOutcome(rows: Rows, es: seq<Event>, s: Script)
    requires LegalRun(rows, es) && Run(rows, es).0.txn.Some?
    ensures var (w, sp) := Run(rows, es);
            var (w', rc) := Step(w, XCommit(s));
            var a := Answer(w.session, EndTran(true), s.end);
            && w'.txn.None? && |w'.retired| == |w.retired| + 1
            && w'.session.committed == (if CarriedOut(a) then sp.working else sp.base)
            && (rc == RcOk <==> a.Succeeded?) && (rc == RcOk ==> CarriedOut(a))
            && (rc == RcError <==> w'.retired[|w.retired|].quarantined)
            && (rc == RcBusy ==> (w'.session.committed == sp.base <==> !CarriedOut(a) || sp.working == sp.base))
            && (rc == RcBusy && !TimedOut(a) ==> w'.session.committed == sp.base)
  {
    SavepointsRefineSnapshots(rows, es);
    CommitStep(Run(rows, es).0, Run(rows, es).1, s);
  }

  lemma CommitStep(w: World, sp: Snapshots, s: Script)
    requires Inv(w) && Refines(w, sp) && w.txn.Some?
    ensures var (w', rc) := Step(w, XCommit(s));
            var a := Answer(w.session, EndTran(true), s.end);
            && w'.txn.None? && |w'.retired| == |w.retired| + 1
            && w'.session.committed == (if CarriedOut(a) then sp.working else sp.base)
            && (rc == RcOk <==> a.Succeeded?) && (rc == RcOk ==> CarriedOut(a))
            && (rc == RcError <==> w'.retired[|w.retired|].quarantined)
            && (rc == RcBusy && !TimedOut(a) ==> sp.working == sp.base)
  {
  }

  /** ROLLBACK never changes what is durable, whatever it returns, in every run whatsoever; in a legal
      run that is the state before BEGIN. */
  lemma RollbackOutcome(rows: Rows, es: seq<Event>, s: Script)
    ensures var (w, sp) := Run(rows, es);
            var w' := Step(w, XRollback(s)).0;
            && w'.txn.None? && w'.session.committed == w.session.committed
            && (LegalRun(rows, es) ==> w'.session.committed == sp.base)
  {
    RollbackStep(Run(rows, es).0, s);
    if LegalRun(rows, es) { SavepointsRefineSnapshots(rows, es); }
  }

  lemma RollbackStep(w: World, s: Script)
    ensures var w' := Step(w, XRollback(s)).0; w'.txn.None? && w'.session.committed == w.session.committed
  {
  }

  // ---- the commit gate ----

  /** xSync said yes to an active transaction: COMMIT would find it open and not doomed exactly when
      the XACT_STATE() query was answered.  An unanswered query lets a doomed transaction through; if the
      transaction was not doomed before, the failed query itself dooms it (XACT_ABORT ON), or loses the
      connection, and so it is never open afterwards. */
  lemma SyncExactly(rows: Rows, es: seq<Event>, s: Script)
    requires Run(rows, es).0.txn.Some?
    ensures var w := Run(rows, es).0;
            var (w', rc) := Step(w, XSync(s));
            rc == RcOk ==> (Open(w'.session) <==> Answer(w.session, XactState, s.state).Succeeded?)
  {
    SingleFinalization(rows, es);
  }

  /** Every COMMIT of a pinned transaction directly follows an xSync that succeeded on an answered
      XACT_STATE() query. */
  predicate Gated(rows: Rows, es: seq<Event>) {
    es == [] ||
    var before, e := es[..|es| - 1], es[|es| - 1];
    Gated(rows, before) &&
    (e.XCommit? && Run(rows, before).0.txn.Some? ==>
       |before| > 0 && before[|before| - 1].XSync? &&
       var prior, sync := before[..|before| - 1], before[|before| - 1];
       var w := Run(rows, prior).0;
       Step(w, sync).1 == RcOk && Answer(w.session, XactState, sync.s.state).Succeeded?)
  }

  predicate CommitsOpen(log: seq<Sent>) {
    forall i :: 0 <= i < |log| && log[i].command == EndTran(true) ==> log[i].open
  }

  /** In every gated run COMMIT is sent only while the remote transaction is open and not doomed. */
  lemma {:induction false} CommitGate(rows: Rows, es: seq<Event>)
    requires Gated(rows, es)
    ensures CommitsOpen(Run(rows, es).0.log)
  {
    if es != [] {
      var before, e := es[..|es| - 1], es[|es| - 1];
      CommitGate(rows, before);
      var w := Run(rows, before).0;
      if e.XCommit? && w.txn.Some? {
        var prior, sync := before[..|before| - 1], before[|before| - 1];
        SingleFinalization(rows, prior);
        SyncedCommit(Run(rows, prior).0, sync.s, e.s);
      } else {
        OtherStepsDoNotCommit(w, e);
      }
    }
  }

  lemma SyncedCommit(w: World, s: Script, c: Script)
    requires Inv(w) && Step(w, XSync(s)).0.txn.Some? && CommitsOpen(Step(w, XSync(s)).0.log)
    requires Step(w, XSync(s)).1 == RcOk && Answer(w.session, XactState, s.state).Succeeded?
    ensures CommitsOpen(Step(Step(w, XSync(s)).0, XCommit(c)).0.log)
  {
  }

  lemma BeginLazyDoesNotCommit(w: World, s: Script)
    requires CommitsOpen(w.log) && w.txn.Some?
    ensures CommitsOpen(BeginLazy(w, s).0.log) && BeginLazy(w, s).0.txn.Some?
  {
  }

  lemma WriteContextDoesNotCommit(w: World, table: string, s: Script)
    requires CommitsOpen(w.log) && w.txn.Some?
    ensures CommitsOpen(WriteContext(w, table, s).0.log) && WriteContext(w, table, s).0.txn.Some?
  {
    var (w1, a) := Send(w, Catalog, s.catalog);
    BeginLazyDoesNotCommit(w1.(contexts := w.contexts[table := w.txn.value.handle]), s);
  }

  lemma UpdateDoesNotCommit(w: World, table: string, write: string, s: Script)
    requires CommitsOpen(w.log)
    ensures CommitsOpen(Step(w, XUpdate(table, write, s)).0.log)
  {
    if w.txn.Some? { WriteContextDoesNotCommit(w, table, s); }
  }

  lemma SavepointDoesNotCommit(w: World, n: nat, s: Script)
    requires CommitsOpen(w.log)
    ensures CommitsOpen(Step(w, XSavepoint(n, s)).0.log)
  {
    var (w1, ok) := PinShared(w, s);
    if ok { BeginLazyDoesNotCommit(w1, s); }
  }

  lemma OtherStepsDoNotCommit(w: World, e: Event)
    requires CommitsOpen(w.log) && (e.XCommit? ==> w.txn.None?)
    ensures CommitsOpen(Step(w, e).0.log)
  {
    match e
    case XBestIndex(table, s) => if w.txn.Some? { WriteContextDoesNotCommit(w, table, s); }
    case XUpdate(table, write, s) => UpdateDoesNotCommit(w, table, write, s);
    case XSavepoint(n, s) => SavepointDoesNotCommit(w, n, s);
    case _ =>
  }

  // ---- writes that escape the transaction ----

  /** Exactly when a write becomes durable at once, in every run: its context skips the lazy BEGIN while
      no transaction is open on the live session, and the server carries it out. */
  lemma EscapeExactly(rows: Rows, es: seq<Event>, table: string, write: string, s: Script)
    ensures var w := Run(rows, es).0;
            var w' := Step(w, XUpdate(table, write, s)).0;
            w'.session.committed != w.session.committed <==>
              Bypass(w, table) && w.session.alive && w.session.nesting == 0 &&
              (var a := Answer(w.session, Dml(write), s.stmt); a.Succeeded? || a.took)
  {
    SingleFinalization(rows, es);
    var w := Run(rows, es).0;
    if w.txn.Some? && !Bypass(w, table) {
      WriteContextActive(w, table, s);
      var (w1, ok) := WriteContext(w, table, s);
      assert ok ==> w1.session.nesting == 1 || !w1.session.alive;
    }
  }

  lemma WriteContextActive(w: World, table: string, s: Script)
    requires Inv(w) && w.txn.Some? && !Bypass(w, table)
    ensures var (w1, ok) := WriteContext(w, table, s);
            Inv(w1) && w1.session.committed == w.session.committed && w1.txn.Some? &&
            (ok ==> w1.txn.value.active)
  {
    WriteContextInv(w, table, s);
  }

  /** Every new transaction connection gets an address no table's context still names, and every lazy
      BEGIN a write needs is answered. */
  predicate Careful(rows: Rows, es: seq<Event>) {
    es == [] ||
    var before, e := es[..|es| - 1], es[|es| - 1];
    var w := Run(rows, before).0;
    Careful(rows, before) &&
    match e
    case XBegin(s) => w.txn.None? ==> s.handle !in w.contexts.Values
    case XSavepoint(_, s) => w.txn.None? ==> s.handle !in w.contexts.Values
    case XBestIndex(_, s) => s.count.Succeeded? && s.begin.Succeeded?
    case XUpdate(_, _, s) => s.count.Succeeded? && s.begin.Succeeded?
    case _ => true
  }

  /** In careful runs no write ever bypasses the transaction. */
  lemma {:induction false} CarefulNeverBypasses(rows: Rows, es: seq<Event>, table: string)
    requires Careful(rows, es)
    ensures !Bypass(Run(rows, es).0, table)
  {
    if es != [] {
      var before, e := es[..|es| - 1], es[|es| - 1];
      CarefulNeverBypasses(rows, before, table);
      SingleFinalization(rows, before);
      CarefulStep(Run(rows, before).0, e, table);
    }
  }

  lemma CarefulStep(w: World, e: Event, table: string)
    requires Inv(w) && !Bypass(w, table)
    requires match e
             case XBegin(s) => w.txn.None? ==> s.handle !in w.contexts.Values
             case XSavepoint(_, s) => w.txn.None? ==> s.handle !in w.contexts.Values
             case XBestIndex(_, s) => s.count.Succeeded? && s.begin.Succeeded?
             case XUpdate(_, _, s) => s.count.Succeeded? && s.begin.Succeeded?
             case _ => true
    ensures !Bypass(Step(w, e).0, table)
  {
    if table in w.contexts { assert w.contexts[table] in w.contexts.Values; }
  }

  const AllWell: Script :=
    Script(true, 7, true, Succeeded, Succeeded, Succeeded, Succeeded, Succeeded, Succeeded, Succeeded)

  /** A write that bypasses the transaction is durable, and ROLLBACK does not take it back. */
  lemma EscapedWrite(w: World)
    requires Bypass(w, "t") && w.session.alive && w.session.nesting == 0 && !w.session.doomed
    ensures Step(Step(w, XUpdate("t", "b", AllWell)).0, XRollback(AllWell)).0.session.committed ==
              w.session.committed + ["b"]
  {
    assert Step(w, XUpdate("t", "b", AllWell)).0.session.committed == w.session.committed + ["b"];
  }

  lemma RunOn(rows: Rows, es: seq<Event>, e: Event)
    ensures Run(rows, es + [e]).0 == Step(Run(rows, es).0, e).0
  {
    assert (es + [e])[..|es|] == es;
  }

  const FailedBegin: Script := AllWell.(begin := Failed("HYT00", false))

  lemma AfterFailedBegin()
    ensures var w := Run([], [XBegin(AllWell), XUpdate("t", "a", FailedBegin)]).0;
            Bypass(w, "t") && w.session.alive && w.session.nesting == 0 && !w.session.doomed &&
              w.session.committed == []
  {
    RunOn([], [], XBegin(AllWell));
    RunOn([], [XBegin(AllWell)], XUpdate("t", "a", FailedBegin));
    assert [XBegin(AllWell)] == [] + [XBegin(AllWell)];
  }

  /** After one failed BEGIN the next write of the same table is durable at once, and a ROLLBACK does
      not take it back. */
  lemma FailedBeginEscapes()
    ensures Run([], [XBegin(AllWell), XUpdate("t", "a", FailedBegin)] + [XUpdate("t", "b", AllWell)] +
                [XRollback(AllWell)])
              .0.session.committed == ["b"]
  {
    var es := [XBegin(AllWell), XUpdate("t", "a", FailedBegin)];
    AfterFailedBegin();
    EscapedWrite(Run([], es).0);
    RunOn([], es, XUpdate("t", "b", AllWell));
    RunOn([], es + [XUpdate("t", "b", AllWell)], XRollback(AllWell));
  }

  /** One write was made in a transaction at address 7 and is not yet durable. */
  predicate WroteOnce(w: World) {
    && w.txn == Some(Connection(0, 7, true, true, false)) && w.contexts == map["t" := 7]
    && Open(w.session) && w.session.nesting == 1 && w.session.working == ["a"] && w.session.committed == []
  }

  lemma FirstWrite(w: World)
    requires w.txn == Some(Connection(0, 7, true, false, false)) && w.contexts == map[]
    requires w.session == Session([], true, 0, [], [], false)
    ensures WroteOnce(Step(w, XUpdate("t", "a", AllWell)).0)
  {
    var (w1, ok) := WriteContext(w, "t", AllWell);
    assert ok && w1.session.nesting == 1 && w1.txn.value.active;
    assert [] + ["a"] == ["a"];
  }

  lemma AfterOneWrite()
    ensures WroteOnce(Run([], [XBegin(AllWell)] + [XUpdate("t", "a", AllWell)]).0)
  {
    RunOn([], [], XBegin(AllWell));
    assert [] + [XBegin(AllWell)] == [XBegin(AllWell)];
    RunOn([], [XBegin(AllWell)], XUpdate("t", "a", AllWell));
    FirstWrite(Run([], [XBegin(AllWell)]).0);
  }

  lemma CommitWrite(w: World)
    requires WroteOnce(w)
    ensures var w' := Step(w, XCommit(AllWell)).0;
            w'.txn.None? && w'.contexts == map["t" := 7] && w'.session.committed == ["a"]
  {
  }

  const FirstTransaction: seq<Event> := [XBegin(AllWell)] + [XUpdate("t", "a", AllWell)] + [XCommit(AllWell)]

  lemma AfterFirstCommit()
    ensures var w := Run([], FirstTransaction).0;
            w.txn.None? && w.contexts == map["t" := 7] && w.session.committed == ["a"]
  {
    var es := [XBegin(AllWell)] + [XUpdate("t", "a", AllWell)];
    AfterOneWrite();
    RunOn([], es, XCommit(AllWell));
    CommitWrite(Run([], es).0);
  }

  /** A new connection at the address of a closed one inherits the closed one's write context: the first
      write of the second transaction is durable at once. */
  lemma ReusedAddressEscapes()
    ensures Run([], FirstTransaction + [XBegin(AllWell)] + [XUpdate("t", "b", AllWell)] + [XRollback(AllWell)])
              .0.session.committed == ["a", "b"]
  {
    AfterFirstCommit();
    var es := FirstTransaction + [XBegin(AllWell)];
    RunOn([], FirstTransaction, XBegin(AllWell));
    EscapedWrite(Run([], es).0);
    RunOn([], es, XUpdate("t", "b", AllWell));
    RunOn([], es + [XUpdate("t", "b", AllWell)], XRollback(AllWell));
  }

  /** A lazy BEGIN that fails inside xBestIndex binds the write context all the same: the next write, with
      every reply good, is durable at once. */
  lemma FailedBeginInBestIndexEscapes()
    ensures Run([], [XBegin(AllWell), XBestIndex("t", FailedBegin)] + [XUpdate("t", "b", AllWell)] +
                [XRollback(AllWell)])
              .0.session.committed == ["b"]
  {
    var es := [XBegin(AllWell), XBestIndex("t", FailedBegin)];
    AfterFailedBestIndex();
    EscapedWrite(Run([], es).0);
    RunOn([], es, XUpdate("t", "b", AllWell));
    RunOn([], es + [XUpdate("t", "b", AllWell)], XRollback(AllWell));
  }

  lemma AfterFailedBestIndex()
    ensures var w := Run([], [XBegin(AllWell), XBestIndex("t", FailedBegin)]).0;
            Bypass(w, "t") && w.session.alive && w.session.nesting == 0 && !w.session.doomed &&
              w.session.committed == []
  {
    RunOn([], [], XBegin(AllWell));
    RunOn([], [XBegin(AllWell)], XBestIndex("t", FailedBegin));
    assert [XBegin(AllWell)] == [] + [XBegin(AllWell)];
  }

  // ---- a doomed transaction that passes xSync, and a COMMIT that is not what BUSY says ----

  const BadStatement: Script := AllWell.(stmt := Failed("42000", false))
  const NoState: Script := AllWell.(state := Failed("HYT00", false))

  lemma DoomedStep(w: World)
    requires WroteOnce(w)
    ensures var w1 := Step(w, XUpdate("t", "b", BadStatement)).0;
            w1.session.doomed && Step(w1, XSync(NoState)).1 == RcOk
  {
    var w1 := Step(w, XUpdate("t", "b", BadStatement)).0;
    assert w1.session.doomed && w1.txn == w.txn;
  }

  /** A statement error dooms the transaction; with XACT_STATE unanswered xSync says yes to it. */
  lemma DoomedPassesSync()
    ensures var w := Run([], [XBegin(AllWell)] + [XUpdate("t", "a", AllWell)] + [XUpdate("t", "b", BadStatement)]).0;
            w.session.doomed && Step(w, XSync(NoState)).1 == RcOk
  {
    var es := [XBegin(AllWell)] + [XUpdate("t", "a", AllWell)];
    AfterOneWrite();
    RunOn([], es, XUpdate("t", "b", BadStatement));
    DoomedStep(Run([], es).0);
  }

  const LateCommit: Script := AllWell.(end := Failed("HYT01", true))

  lemma LateCommitStep(w: World)
    requires WroteOnce(w)
    ensures var (w', rc) := Step(w, XCommit(LateCommit)); rc == RcBusy && w'.session.committed == ["a"]
  {
  }

  /** A COMMIT that timed out after the server carried it out: the answer is BUSY and the row is durable. */
  lemma TimedOutCommitSaysBusy()
    ensures var (w, rc) := Step(Run([], [XBegin(AllWell)] + [XUpdate("t", "a", AllWell)]).0, XCommit(LateCommit));
            rc == RcBusy && w.session.committed == ["a"]
  {
    AfterOneWrite();
    LateCommitStep(Run([], [XBegin(AllWell)] + [XUpdate("t", "a", AllWell)]).0);
  }
}
