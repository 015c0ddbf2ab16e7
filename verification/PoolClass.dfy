/** The pool in the source's own form: acquire and release update the idle list and the two counters,
    and each critical section changes them exactly as its step in module Pool does. */
module PoolClass {
  import opened Pool

  function Fields(s: State): (seq<Conn>, int, int) {
    (s.idle, s.idleCount, s.liveCount)
  }

  // ---- a call without another one between its steps ----

  /** The actions one after the other; one that is not enabled does nothing. */
  function Play(s: State, steps: seq<Action>): State
    decreases |steps|
  {
    if steps == [] then s else Play(if Enabled(s, steps[0]) then Apply(s, steps[0]) else s, steps[1..])
  }

  function AcquireSteps(t: Thread, answers: bool, opens: bool): seq<Action> {
    [AcquireTake(t), AcquireVerify(t, answers), Uncount(t), OpenFresh(t, opens), AcquireCount(t)]
  }

  function ReleaseSteps(t: Thread, cn: Conn, answers: bool): seq<Action> {
    [ReleaseStart(t, cn), ReleaseVerify(t, answers), ReleaseStore(t), Uncount(t)]
  }

  lemma PlayOne(s: State, a: Action, more: seq<Action>)
    ensures Play(s, [a] + more) == Play(if Enabled(s, a) then Apply(s, a) else s, more)
  {
    assert ([a] + more)[1..] == more;
  }

  lemma PlayOpen(s: State, t: Thread, opens: bool)
    requires At(s, t) && s.flights[t] == Opening
    ensures var r := Play(s, [OpenFresh(t, opens), AcquireCount(t)]);
            && r.capacity == s.capacity && Fields(r) == (s.idle, s.idleCount, s.liveCount + if opens then 1 else 0)
            && r.leases == (if opens then s.leases + {s.next} else s.leases)
  {
    assert [OpenFresh(t, opens), AcquireCount(t)] == [OpenFresh(t, opens)] + [AcquireCount(t)];
    PlayOne(s, OpenFresh(t, opens), [AcquireCount(t)]);
    assert [AcquireCount(t)] == [AcquireCount(t)] + [];
    PlayOne(Apply(s, OpenFresh(t, opens)), AcquireCount(t), []);
  }

  /** From s to r by an acquire: the head of the idle list is reused if it answers, and otherwise dropped and a new
      connection opened. */
  predicate Acquired(s: State, r: State, answers: bool, opens: bool) {
    var reused, took := s.idle != [] && answers, if s.idle != [] then 1 else 0;
    && r.capacity == s.capacity && r.idle == (if s.idle != [] then s.idle[1..] else [])
    && r.idleCount == s.idleCount - took
    && r.liveCount == s.liveCount + (if reused then 0 else (if opens then 1 else 0) - took)
    && r.leases == (if reused then s.leases + {s.idle[0]} else if opens then s.leases + {s.next} else s.leases)
  }

  /** That is what the steps of an acquire come to when no other call interrupts them. */
  lemma PlayAcquire(s: State, t: Thread, answers: bool, opens: bool)
    requires !At(s, t) && (s.idle != [] ==> Fit(s, s.idle[0]))
    ensures Acquired(s, Play(s, AcquireSteps(t, answers, opens)), answers, opens)
  {
    var s1 := Apply(s, AcquireTake(t));
    var tail := [OpenFresh(t, opens), AcquireCount(t)];
    assert AcquireSteps(t, answers, opens) == [AcquireTake(t)] + ([AcquireVerify(t, answers)] + ([Uncount(t)] + tail));
    PlayOne(s, AcquireTake(t), [AcquireVerify(t, answers)] + ([Uncount(t)] + tail));
    PlayOne(s1, AcquireVerify(t, answers), [Uncount(t)] + tail);
    if s.idle == [] {
      PlayOne(s1, Uncount(t), tail);
      PlayOpen(s1, t, opens);
    } else {
      var s2 := Apply(s1, AcquireVerify(t, answers));
      PlayOne(s2, Uncount(t), tail);
      if answers {
        PlayNothing(s2, t, opens);
      } else {
        PlayOpen(Apply(s2, Uncount(t)), t, opens);
      }
    }
  }

  lemma PlayNothing(s: State, t: Thread, opens: bool)
    requires !At(s, t)
    ensures Play(s, [OpenFresh(t, opens), AcquireCount(t)]) == s
  {
    assert [OpenFresh(t, opens), AcquireCount(t)] == [OpenFresh(t, opens)] + [AcquireCount(t)];
    PlayOne(s, OpenFresh(t, opens), [AcquireCount(t)]);
    assert [AcquireCount(t)] == [AcquireCount(t)] + [];
    PlayOne(s, AcquireCount(t), []);
  }

  /** From s to r by a release: the connection goes to the head of the idle list if it answers and there is room, and is
      counted out otherwise. */
  predicate Released(s: State, r: State, cn: Conn, answers: bool) {
    var kept := answers && s.idleCount < s.capacity;
    && r.capacity == s.capacity && r.idle == (if kept then [cn] + s.idle else s.idle) && r.leases == s.leases - {cn}
    && r.idleCount == s.idleCount + (if kept then 1 else 0) && r.liveCount == s.liveCount - (if kept then 0 else 1)
  }

  lemma PlayRelease(s: State, t: Thread, cn: Conn, answers: bool)
    requires !At(s, t) && cn in s.leases && Fit(s, cn)
    ensures Released(s, Play(s, ReleaseSteps(t, cn, answers)), cn, answers)
  {
    var s1 := Apply(s, ReleaseStart(t, cn));
    assert ReleaseSteps(t, cn, answers) ==
           [ReleaseStart(t, cn)] + ([ReleaseVerify(t, answers)] + ([ReleaseStore(t)] + [Uncount(t)]));
    PlayOne(s, ReleaseStart(t, cn), [ReleaseVerify(t, answers)] + ([ReleaseStore(t)] + [Uncount(t)]));
    PlayOne(s1, ReleaseVerify(t, answers), [ReleaseStore(t)] + [Uncount(t)]);
    var s2 := Apply(s1, ReleaseVerify(t, answers));
    PlayOne(s2, ReleaseStore(t), [Uncount(t)]);
    var s3 := if answers then Apply(s2, ReleaseStore(t)) else s2;
    assert [Uncount(t)] == [Uncount(t)] + [];
    PlayOne(s3, Uncount(t), []);
  }

  class VmsPool {
    const capacity: nat
    var idle: seq<Conn>
    var idleCount: int
    var liveCount: int

    ghost predicate Valid()
      reads this
    {
      idleCount == |idle| <= capacity
    }

    ghost predicate Shows(s: State)
      reads this
    {
      s.capacity == capacity && Fields(s) == (idle, idleCount, liveCount)
    }

    constructor (capacity: nat)
      requires capacity >= 1
      ensures Valid() && Shows(Start(capacity))
    {
      this.capacity := capacity;
      idle, idleCount, liveCount := [], 0, 0;
    }

    method TakeIdle() returns (found: bool, cn: Conn)
      requires Valid()
      modifies this
      ensures Valid() && liveCount == old(liveCount)
      ensures found == (old(idle) != []) && (found ==> cn == old(idle)[0])
      ensures idle == (if found then old(idle)[1..] else [])
      ensures forall s: State, t :: old(Shows(s)) && Enabled(s, AcquireTake(t)) ==> Shows(Apply(s, AcquireTake(t)))
    {
      found, cn := false, 0;
      if idle != [] {
        found, cn := true, idle[0];
        idle := idle[1..];
        idleCount := idleCount - 1;
      }
    }

    method StoreIdle(cn: Conn) returns (kept: bool)
      requires Valid()
      modifies this
      ensures Valid() && kept == (old(idleCount) < capacity) && liveCount == old(liveCount)
      ensures idle == (if kept then [cn] + old(idle) else old(idle))
      ensures forall s: State, t :: old(Shows(s)) && Enabled(s, ReleaseStore(t)) && s.flights[t].cn == cn ==>
                Shows(Apply(s, ReleaseStore(t)))
    {
      kept := false;
      if idleCount < capacity {
        idle := [cn] + idle;
        idleCount := idleCount + 1;
        kept := true;
      }
    }

    method Discount()
      requires Valid()
      modifies this
      ensures Valid() && idle == old(idle) && liveCount == old(liveCount) - 1
      ensures forall s: State, t :: old(Shows(s)) && Enabled(s, Uncount(t)) ==> Shows(Apply(s, Uncount(t)))
    {
      liveCount := liveCount - 1;
    }

    /** vms_pool_acquire.  `clean` says which connections verify, `newcomer` is what opening one yields. */
    method Acquire(clean: set<Conn>, opens: bool, newcomer: Conn) returns (ok: bool, cn: Conn)
      requires Valid()
      modifies this
      ensures Valid() && idle == (if old(idle) != [] then old(idle)[1..] else [])
      ensures var reused := old(idle) != [] && old(idle)[0] in clean;
              && ok == (reused || opens)
              && (ok ==> cn == if reused then old(idle)[0] else newcomer)
              && liveCount == old(liveCount) + (if reused then 0 else
                   (if opens then 1 else 0) - (if old(idle) != [] then 1 else 0))
      ensures forall s: State, t ::
                old(Shows(s)) && !At(s, t) && (s.idle != [] ==> Fit(s, s.idle[0])) && newcomer == s.next ==>
                  var r := Play(s, AcquireSteps(t, s.idle != [] && s.idle[0] in clean, opens));
                  Shows(r) && r.leases == if ok then s.leases + {cn} else s.leases
    {
      forall s: State, t | Shows(s) && !At(s, t) && (s.idle != [] ==> Fit(s, s.idle[0]))
        ensures Acquired(s, Play(s, AcquireSteps(t, s.idle != [] && s.idle[0] in clean, opens)),
                         s.idle != [] && s.idle[0] in clean, opens)
      {
        PlayAcquire(s, t, s.idle != [] && s.idle[0] in clean, opens);
      }
      ok, cn := TakeIdle();
      if ok {
        if cn in clean { return; }
        Discount();
      }
      ok, cn := opens, newcomer;
      if ok { liveCount := liveCount + 1; }
    }

    /** vms_pool_release: kept when clean and there is room, otherwise closed and no longer counted. */
    method Release(cn: Conn, clean: set<Conn>) returns (kept: bool)
      requires Valid()
      modifies this
      ensures Valid() && kept == (cn in clean && |old(idle)| < capacity)
      ensures idle == (if kept then [cn] + old(idle) else old(idle))
      ensures liveCount == old(liveCount) - (if kept then 0 else 1)
      ensures forall s: State, t :: old(Shows(s)) && !At(s, t) && cn in s.leases && Fit(s, cn) ==>
                Shows(Play(s, ReleaseSteps(t, cn, cn in clean)))
    {
      forall s: State, t | Shows(s) && !At(s, t) && cn in s.leases && Fit(s, cn)
        ensures Released(s, Play(s, ReleaseSteps(t, cn, cn in clean)), cn, cn in clean)
      {
        PlayRelease(s, t, cn, cn in clean);
      }
      kept := false;
      if cn in clean { kept := StoreIdle(cn); }
      if !kept { Discount(); }
    }
  }
}
