/** Verify before reuse, over every interleaving: how a connection comes to a caller and into the idle list, and what
    becomes of one that does not answer. */
module PoolReuse {
  import opened Pool

  // ---- one action ----

  /** The thread's own action verified its connection: it answered, and is neither quarantined nor in a transaction. */
  predicate Passed(s: State, answers: bool, cn: Conn) {
    answers && cn !in s.quarantined && cn !in s.inTransaction
  }

  /** A connection comes to a caller exactly when it passes its verification in that acquire, or when that acquire
      has just opened it. */
  lemma LeasedExactly(s: State, a: Action, cn: Conn)
    requires OwnerInv(s) && Enabled(s, a) && cn !in s.leases
    ensures cn in Apply(s, a).leases <==>
              || (a.AcquireVerify? && s.flights[a.t] == Verifying(cn) && Passed(s, a.answers, cn))
              || (a.AcquireCount? && s.flights[a.t] == Opened(cn))
  {
  }

  /** A connection comes into the idle list exactly when a release that verified it finds room. */
  lemma StoredExactly(s: State, a: Action, cn: Conn)
    requires OwnerInv(s) && Enabled(s, a) && cn !in s.idle
    ensures cn in Apply(s, a).idle <==>
              a.ReleaseStore? && s.flights[a.t] == Clean(cn) && s.idleCount < s.capacity
  {
  }

  /** A release has verified its connection exactly when it passes, and goes on with the very same connection. */
  lemma CleanExactly(s: State, a: Action, t: Thread, cn: Conn)
    requires OwnerInv(s) && Enabled(s, a) && !Carrying(s, t, Clean(cn))
    ensures Carrying(Apply(s, a), t, Clean(cn)) <==>
              a.ReleaseVerify? && a.t == t && s.flights[t] == Returning(cn) && Passed(s, a.answers, cn)
  {
  }

  predicate Carrying(s: State, t: Thread, p: Pc) {
    t in s.flights && s.flights[t] == p
  }

  /** An acquire has just opened its connection exactly when the opening succeeded, and it is a new one. */
  lemma OpenedExactly(s: State, a: Action, t: Thread, cn: Conn)
    requires OwnerInv(s) && Enabled(s, a) && !Carrying(s, t, Opened(cn))
    ensures Carrying(Apply(s, a), t, Opened(cn)) <==>
              a.OpenFresh? && a.ok && a.t == t && s.flights[t] == Opening && cn == s.next
  {
  }

  /** An acquire opens a connection exactly when the idle list is empty or what it took from it did not pass. */
  lemma OpeningExactly(s: State, a: Action, t: Thread)
    requires OwnerInv(s) && Enabled(s, a) && !Carrying(s, t, Opening)
    ensures Carrying(Apply(s, a), t, Opening) <==>
              || (a == AcquireTake(t) && s.idle == [])
              || (a == Uncount(t) && s.flights[t] == Uncounting)
  {
  }

  /** Which connections a step closes: those that do not pass, those there is no room for, those whose pin could not
      be primed, came second or ended, and a lease its owner closes. */
  lemma ClosedExactly(s: State, a: Action, cn: Conn)
    requires OwnerInv(s) && CountInv(s) && Enabled(s, a) && cn in s.open
    ensures cn !in Apply(s, a).open <==>
              || (a.AcquireVerify? && s.flights[a.t] == Verifying(cn) && !Passed(s, a.answers, cn))
              || (a.ReleaseVerify? && s.flights[a.t] == Returning(cn) && !Passed(s, a.answers, cn))
              || (a.ReleaseStore? && s.flights[a.t] == Clean(cn) && |s.idle| >= s.capacity)
              || (a.PinPrime? && !a.ok && s.flights[a.t] == PinOpened(cn))
              || (a.CloseHeld? && s.flights[a.t] in {PinRaced(cn), Unpinning(cn)})
              || a == CloseLease(cn)
  {
  }

  /** The pin is published exactly by a call that primed its connection and finds none, and taken down by unpin. */
  lemma PinnedExactly(s: State, a: Action, cn: Conn)
    requires OwnerInv(s) && Enabled(s, a)
    ensures s.pin != Pinned(cn) ==>
              (Apply(s, a).pin == Pinned(cn) <==> a.PinPublish? && s.flights[a.t] == PinReady(cn) && s.pin == NoPin)
    ensures s.pin == Pinned(cn) ==>
              (Apply(s, a).pin == Pinned(cn) <==> !a.UnpinTake?) && (a.UnpinTake? ==> Apply(s, a).pin == NoPin)
    ensures a.PinCheck? ==> Apply(s, a) == if s.pin == NoPin then Go(s, a.t, PinOpening) else s
  {
  }

  // ---- never again ----

  lemma NextGrows(s: State, a: Action)
    requires Enabled(s, a)
    ensures s.next <= Apply(s, a).next && forall cn :: cn in Apply(s, a).open && cn !in s.open ==> s.next <= cn
  {
  }

  /** A closed connection stays closed, whatever is done. */
  lemma {:induction false} ClosedForever(capacity: nat, run: seq<Action>, more: seq<Action>, cn: Conn)
    requires cn < After(capacity, run).next && cn !in After(capacity, run).open
    ensures cn < After(capacity, run + more).next && cn !in After(capacity, run + more).open
    decreases |more|
  {
    if more == [] {
      assert run + more == run;
    } else {
      var n := |more| - 1;
      ClosedForever(capacity, run, more[..n], cn);
      var s, a := After(capacity, run + more[..n]), more[n];
      assert (run + more)[..|run| + n] == run + more[..n] && (run + more)[|run| + n] == a;
      if Enabled(s, a) { NextGrows(s, a); }
    }
  }

  /** A connection that fails its verification, in acquire or in release, is closed and nobody ever holds it again. */
  lemma FailedNeverHeldAgain(capacity: nat, run: seq<Action>, a: Action, cn: Conn, more: seq<Action>, o: Owner)
    requires Enabled(After(capacity, run), a) && (a.AcquireVerify? || a.ReleaseVerify?)
    requires After(capacity, run).flights[a.t].cn == cn && !Passed(After(capacity, run), a.answers, cn)
    ensures !Holder(After(capacity, run + [a] + more), o, cn)
  {
    var s := After(capacity, run);
    AfterInv(capacity, run);
    assert (run + [a])[..|run|] == run;
    assert After(capacity, run + [a]) == Apply(s, a);
    assert Carries(s, a.t, cn);
    OneOwner(capacity, run, cn);
    assert Holder(s, Call(a.t), cn);
    ClosedExactly(s, a, cn);
    NextGrows(s, a);
    ClosedForever(capacity, run + [a], more, cn);
    OneOwner(capacity, run + [a] + more, cn);
  }

  lemma QuarantineStays(s: State, a: Action, cn: Conn)
    requires OwnerInv(s) && CleanInv(s) && Enabled(s, a) && cn in s.quarantined
    ensures var s' := Apply(s, a); cn in s'.quarantined && cn !in s'.idle && (cn in s'.leases ==> cn in s.leases)
  {
    OwnerStep(s, a);
    CleanStep(s, a);
    if cn !in s.leases { LeasedExactly(s, a, cn); }
  }

  lemma QuarantineStarts(s: State, cn: Conn)
    requires OwnerInv(s) && Enabled(s, Quarantine(cn))
    ensures var s' := Apply(s, Quarantine(cn)); cn in s'.quarantined && cn !in s'.idle && s'.leases == s.leases
  {
  }

  /** Quarantine is for good, and whatever is done a quarantined connection is never idle and never comes to a caller
      again. */
  lemma {:induction false} QuarantinedForever(capacity: nat, run: seq<Action>, cn: Conn, more: seq<Action>)
    requires Enabled(After(capacity, run), Quarantine(cn))
    ensures var s := After(capacity, run + [Quarantine(cn)] + more);
            && cn in s.quarantined && cn !in s.idle
            && (cn in s.leases ==> cn in After(capacity, run).leases)
    decreases |more|
  {
    var first := run + [Quarantine(cn)];
    if more == [] {
      AfterInv(capacity, run);
      AfterOne(capacity, run, Quarantine(cn));
      QuarantineStarts(After(capacity, run), cn);
      assert first + more == first;
    } else {
      var n := |more| - 1;
      QuarantinedForever(capacity, run, cn, more[..n]);
      var before, a := first + more[..n], more[n];
      assert first + more == before + [a];
      AfterInv(capacity, before);
      AfterOne(capacity, before, a);
      if Enabled(After(capacity, before), a) { QuarantineStays(After(capacity, before), a, cn); }
    }
  }

  /** Inside a transaction exactly as long as its owner says so. */
  lemma TransactExactly(s: State, cn: Conn, on: bool)
    requires Enabled(s, Transact(cn, on))
    ensures Apply(s, Transact(cn, on)) == s.(inTransaction := Apply(s, Transact(cn, on)).inTransaction)
    ensures forall c :: c in Apply(s, Transact(cn, on)).inTransaction <==>
              (if c == cn then on else c in s.inTransaction)
  {
  }

  // ---- where a connection comes from ----

  /** The connection passed its verification in a release, and no caller has had it since. */
  ghost predicate Vouched(capacity: nat, run: seq<Action>, cn: Conn) {
    exists j: nat :: VouchedAt(capacity, run, cn, j)
  }

  ghost predicate VouchedAt(capacity: nat, run: seq<Action>, cn: Conn, j: nat) {
    && j < |run| && run[j].ReleaseVerify?
    && (var s := After(capacity, run[..j]);
        Enabled(s, run[j]) && s.flights[run[j].t] == Returning(cn) && Passed(s, run[j].answers, cn))
    && forall k :: j < k <= |run| ==> cn !in After(capacity, run[..k]).leases
  }

  lemma VouchedOn(capacity: nat, run: seq<Action>, a: Action, cn: Conn)
    requires Vouched(capacity, run, cn) && cn !in After(capacity, run + [a]).leases
    ensures Vouched(capacity, run + [a], cn)
  {
    var j: nat :| VouchedAt(capacity, run, cn, j);
    var all := run + [a];
    assert all[..j] == run[..j] && all[j] == run[j];
    forall k | j < k <= |all| ensures cn !in After(capacity, all[..k]).leases {
      if k <= |run| { assert all[..k] == run[..k]; } else { assert all[..k] == all; }
    }
    assert VouchedAt(capacity, all, cn, j);
  }

  lemma VouchedNow(capacity: nat, run: seq<Action>, a: Action, cn: Conn)
    requires a.ReleaseVerify? && Enabled(After(capacity, run), a) && After(capacity, run).flights[a.t] == Returning(cn)
    requires Passed(After(capacity, run), a.answers, cn) && cn !in After(capacity, run + [a]).leases
    ensures Vouched(capacity, run + [a], cn)
  {
    var all := run + [a];
    assert all[..|run|] == run && all[..|all|] == all;
    assert VouchedAt(capacity, all, cn, |run|);
  }

  ghost predicate AllVouched(capacity: nat, run: seq<Action>) {
    var s := After(capacity, run);
    && (forall cn :: cn in s.idle ==> Vouched(capacity, run, cn))
    && (forall t, cn :: Carrying(s, t, Clean(cn)) ==> Vouched(capacity, run, cn))
  }

  /** A connection in the idle list, or verified in a release, is with no caller. */
  lemma NotLeased(s: State, t: Thread, cn: Conn)
    requires OwnerInv(s) && (cn in s.idle || Carrying(s, t, Clean(cn)))
    ensures cn !in s.leases
  {
  }

  lemma AfterOne(capacity: nat, run: seq<Action>, a: Action)
    ensures var s := After(capacity, run); After(capacity, run + [a]) == if Enabled(s, a) then Apply(s, a) else s
  {
    assert (run + [a])[..|run|] == run;
  }

  lemma StoredVouched(capacity: nat, run: seq<Action>, a: Action, cn: Conn)
    requires AllVouched(capacity, run) && cn in After(capacity, run + [a]).idle
    ensures Vouched(capacity, run + [a], cn)
  {
    AfterInv(capacity, run);
    AfterInv(capacity, run + [a]);
    AfterOne(capacity, run, a);
    NotLeased(After(capacity, run + [a]), 0, cn);
    var s := After(capacity, run);
    if cn !in s.idle {
      StoredExactly(s, a, cn);
      assert Carrying(s, a.t, Clean(cn));
    }
    VouchedOn(capacity, run, a, cn);
  }

  lemma CleanVouched(capacity: nat, run: seq<Action>, a: Action, t: Thread, cn: Conn)
    requires AllVouched(capacity, run) && Carrying(After(capacity, run + [a]), t, Clean(cn))
    ensures Vouched(capacity, run + [a], cn)
  {
    AfterInv(capacity, run);
    AfterInv(capacity, run + [a]);
    AfterOne(capacity, run, a);
    NotLeased(After(capacity, run + [a]), t, cn);
    var s := After(capacity, run);
    if Carrying(s, t, Clean(cn)) {
      VouchedOn(capacity, run, a, cn);
    } else {
      CleanExactly(s, a, t, cn);
      VouchedNow(capacity, run, a, cn);
    }
  }

  /** In every interleaving an idle connection, and one about to be stored, passed its verification in a release and
      no caller has had it since. */
  lemma {:induction false} IdleIsVouched(capacity: nat, run: seq<Action>)
    ensures AllVouched(capacity, run)
  {
    if run != [] {
      var n := |run| - 1;
      IdleIsVouched(capacity, run[..n]);
      assert run[..n] + [run[n]] == run;
      var s := After(capacity, run);
      forall cn | cn in s.idle ensures Vouched(capacity, run, cn) { StoredVouched(capacity, run[..n], run[n], cn); }
      forall t, cn | Carrying(s, t, Clean(cn)) ensures Vouched(capacity, run, cn) {
        CleanVouched(capacity, run[..n], run[n], t, cn);
      }
    }
  }

  /** The acquire of thread t opened the connection, as a new one, and has done nothing since. */
  ghost predicate OpenedInCall(capacity: nat, run: seq<Action>, t: Thread, cn: Conn) {
    exists j: nat :: OpenedAt(capacity, run, t, cn, j)
  }

  ghost predicate OpenedAt(capacity: nat, run: seq<Action>, t: Thread, cn: Conn, j: nat) {
    && j < |run| && run[j] == OpenFresh(t, true)
    && Carrying(After(capacity, run[..j]), t, Opening) && After(capacity, run[..j]).next == cn
    && forall k :: j < k <= |run| ==> Carrying(After(capacity, run[..k]), t, Opened(cn))
  }

  lemma OpenedOn(capacity: nat, run: seq<Action>, a: Action, t: Thread, cn: Conn)
    requires OpenedInCall(capacity, run, t, cn) && Carrying(After(capacity, run + [a]), t, Opened(cn))
    ensures OpenedInCall(capacity, run + [a], t, cn)
  {
    var j: nat :| OpenedAt(capacity, run, t, cn, j);
    var all := run + [a];
    assert all[..j] == run[..j] && all[j] == run[j];
    forall k | j < k <= |all| ensures Carrying(After(capacity, all[..k]), t, Opened(cn)) {
      if k <= |run| { assert all[..k] == run[..k]; } else { assert all[..k] == all; }
    }
    assert OpenedAt(capacity, all, t, cn, j);
  }

  /** In every interleaving a connection a call is about to hand out as a fresh one was opened by that call. */
  lemma {:induction false} OpenedIsNew(capacity: nat, run: seq<Action>, t: Thread, cn: Conn)
    requires Carrying(After(capacity, run), t, Opened(cn))
    ensures OpenedInCall(capacity, run, t, cn)
  {
    var n := |run| - 1;
    var s, a := After(capacity, run[..n]), run[n];
    assert run[..n] + [a] == run;
    if Carrying(s, t, Opened(cn)) {
      OpenedIsNew(capacity, run[..n], t, cn);
      OpenedOn(capacity, run[..n], a, t, cn);
    } else {
      AfterInv(capacity, run[..n]);
      OpenedExactly(s, a, t, cn);
      assert run[..|run|] == run;
      assert OpenedAt(capacity, run, t, cn, n);
    }
  }

  /** How a caller gets a connection, over every interleaving: the acquire verified it, it answered and was fit, and
      before that it was vouched for by a release; or the acquire opened it itself. */
  lemma VerifiedBeforeReuse(capacity: nat, run: seq<Action>, a: Action, cn: Conn)
    requires Enabled(After(capacity, run), a)
    requires cn !in After(capacity, run).leases && cn in After(capacity, run + [a]).leases
    ensures var s := After(capacity, run);
            if s.flights[a.t].Verifying? then
              a == AcquireVerify(a.t, true) && s.flights[a.t].cn == cn && Passed(s, true, cn)
            else a == AcquireCount(a.t) && OpenedInCall(capacity, run, a.t, cn)
  {
    var s := After(capacity, run);
    assert (run + [a])[..|run|] == run;
    AfterInv(capacity, run);
    LeasedExactly(s, a, cn);
    if a.AcquireCount? { OpenedIsNew(capacity, run, a.t, cn); }
  }
}
