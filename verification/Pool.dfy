/** The bounded connection pool together with the transaction pin, over every interleaving.

    Every block under a critical section is one action, and so is every call into a connection (verify,
    open, close), whose outcome is a parameter of the action.  `flights` holds the program counters of
    the calls in progress. */
module Pool {

  type Conn = nat
  type Thread = nat

  datatype Pc =
    // vms_pool_acquire
    | Verifying(cn: Conn)     // taken from the idle list
    | Uncounting              // failed verification, closed; live_count-- to come
    | Opening                 // about to open a fresh connection
    | Opened(cn: Conn)        // open; live_count++ to come
    // vms_pool_release
    | Returning(cn: Conn)     // handed back
    | Clean(cn: Conn)         // verified
    | Dropped                 // closed; live_count-- to come
    // txn_pin_shared, txn_unpin
    | PinOpening              // saw no pin
    | PinOpened(cn: Conn)
    | PinReady(cn: Conn)      // primed; about to look again
    | PinRaced(cn: Conn)      // somebody else pinned first
    | Unpinning(cn: Conn)     // unpublished; close to come

  /** The call holds a connection, p.cn. */
  predicate Holding(p: Pc) {
    !(p.Uncounting? || p.Opening? || p.Dropped? || p.PinOpening?)
  }

  /** live_count still includes this call's connection. */
  predicate Counts(p: Pc) {
    p.Verifying? || p.Uncounting? || p.Returning? || p.Clean? || p.Dropped?
  }

  datatype Owner = IdleList | Caller | ThePin | Call(t: Thread)

  datatype Pin = NoPin | Pinned(cn: Conn)

  datatype State = State(
    capacity: nat, idle: seq<Conn>, idleCount: int, liveCount: int,
    pin: Pin,                    // env->txn_cn
    flights: map<Thread, Pc>,
    // the connections themselves
    leases: set<Conn>,           // with a caller
    open: set<Conn>,
    next: nat,                   // fresh identities
    quarantined: set<Conn>,
    inTransaction: set<Conn>,    // @@TRANCOUNT > 0
    // history
    owner: map<Conn, Owner>,     // who holds each open connection
    leaked: nat                  // leases their owner closed without the pool
  )

  datatype Action =
    | AcquireTake(t: Thread)
    | AcquireVerify(t: Thread, answers: bool)
    | AcquireCount(t: Thread)
    | ReleaseStart(t: Thread, cn: Conn)
    | ReleaseVerify(t: Thread, answers: bool)
    | ReleaseStore(t: Thread)
    | PinCheck(t: Thread)
    | PinPrime(t: Thread, ok: bool)
    | PinPublish(t: Thread)
    | UnpinTake(t: Thread)
    // steps the calls share
    | OpenFresh(t: Thread, ok: bool)
    | Uncount(t: Thread)
    | CloseHeld(t: Thread)
    // what owners do with their connections
    | Quarantine(cn: Conn)
    | Transact(cn: Conn, on: bool)
    | CloseLease(cn: Conn)

  function Start(capacity: nat): State {
    State(capacity, [], 0, 0, NoPin, map[], {}, {}, 0, {}, {}, map[], 0)
  }

  predicate At(s: State, t: Thread) {
    t in s.flights
  }

  predicate Enabled(s: State, a: Action) {
    match a
    case AcquireTake(t) => !At(s, t)
    case AcquireVerify(t, _) => At(s, t) && s.flights[t].Verifying?
    case AcquireCount(t) => At(s, t) && s.flights[t].Opened?
    case ReleaseStart(t, cn) => !At(s, t) && cn in s.leases
    case ReleaseVerify(t, _) => At(s, t) && s.flights[t].Returning?
    case ReleaseStore(t) => At(s, t) && s.flights[t].Clean?
    case PinCheck(t) => !At(s, t)
    case PinPrime(t, _) => At(s, t) && s.flights[t].PinOpened?
    case PinPublish(t) => At(s, t) && s.flights[t].PinReady?
    case UnpinTake(t) => !At(s, t)
    case OpenFresh(t, _) => At(s, t) && (s.flights[t].Opening? || s.flights[t].PinOpening?)
    case Uncount(t) => At(s, t) && (s.flights[t].Uncounting? || s.flights[t].Dropped?)
    case CloseHeld(t) => At(s, t) && (s.flights[t].PinRaced? || s.flights[t].Unpinning?)
    case Quarantine(cn) => cn in s.leases || s.pin == Pinned(cn)
    case Transact(cn, _) => cn in s.leases || s.pin == Pinned(cn)
    case CloseLease(cn) => cn in s.leases
  }

  predicate Fit(s: State, cn: Conn) {
    cn !in s.quarantined && cn !in s.inTransaction
  }

  function Go(s: State, t: Thread, p: Pc): State {
    s.(flights := s.flights[t := p])
  }

  function Leave(s: State, t: Thread): State {
    s.(flights := s.flights - {t})
  }

  function Give(s: State, cn: Conn, o: Owner): State {
    s.(owner := s.owner[cn := o])
  }

  /** vms_conn_close */
  function Close(s: State, cn: Conn): State {
    s.(open := s.open - {cn}, owner := s.owner - {cn})
  }

  /** vms_conn_open, which gave the connection s.next to the call of thread t */
  function Open(s: State, t: Thread): State {
    Give(s, s.next, Call(t)).(open := s.open + {s.next}, next := s.next + 1)
  }

  function HandOut(s: State, t: Thread, cn: Conn): State {
    Give(Leave(s, t), cn, Caller).(leases := s.leases + {cn})
  }

  function Apply(s: State, a: Action): (r: State)
    requires Enabled(s, a)
  {
    match a
    case AcquireTake(t) =>
      if s.idle == [] then Go(s, t, Opening)
      else
        Give(Go(s, t, Verifying(s.idle[0])), s.idle[0], Call(t))
        .(idle := s.idle[1..], idleCount := s.idleCount - 1)
    case AcquireVerify(t, answers) =>
      var cn := s.flights[t].cn;
      if Fit(s, cn) && answers then HandOut(s, t, cn) else Close(Go(s, t, Uncounting), cn)
    case AcquireCount(t) => HandOut(s, t, s.flights[t].cn).(liveCount := s.liveCount + 1)
    case ReleaseStart(t, cn) =>
      Give(Go(s, t, Returning(cn)), cn, Call(t)).(leases := s.leases - {cn})
    case ReleaseVerify(t, answers) =>
      var cn := s.flights[t].cn;
      if Fit(s, cn) && answers then Go(s, t, Clean(cn)) else Close(Go(s, t, Dropped), cn)
    case ReleaseStore(t) =>
      var cn := s.flights[t].cn;
      if s.idleCount < s.capacity then
        Give(Leave(s, t), cn, IdleList).(idle := [cn] + s.idle, idleCount := s.idleCount + 1)
      else Close(Go(s, t, Dropped), cn)
    case PinCheck(t) => if s.pin.Pinned? then s else Go(s, t, PinOpening)
    case PinPrime(t, ok) =>
      var cn := s.flights[t].cn;
      if ok then Go(s, t, PinReady(cn)) else Close(Leave(s, t), cn)
    case PinPublish(t) =>
      var cn := s.flights[t].cn;
      if s.pin.Pinned? then Go(s, t, PinRaced(cn)) else Give(Leave(s, t), cn, ThePin).(pin := Pinned(cn))
    case UnpinTake(t) =>
      if s.pin.NoPin? then s
      else Give(Go(s, t, Unpinning(s.pin.cn)), s.pin.cn, Call(t)).(pin := NoPin)
    case OpenFresh(t, ok) =>
      if !ok then Leave(s, t)
      else Open(Go(s, t, if s.flights[t].Opening? then Opened(s.next) else PinOpened(s.next)), t)
    case Uncount(t) =>
      // a failed verification in acquire goes on to open a fresh connection; release is over
      (if s.flights[t].Uncounting? then Go(s, t, Opening) else Leave(s, t)).(liveCount := s.liveCount - 1)
    case CloseHeld(t) => Close(Leave(s, t), s.flights[t].cn)
    case Quarantine(cn) => s.(quarantined := s.quarantined + {cn})
    case Transact(cn, on) =>
      s.(inTransaction := if on then s.inTransaction + {cn} else s.inTransaction - {cn})
    case CloseLease(cn) => Close(s, cn).(leases := s.leases - {cn}, leaked := s.leaked + 1)
  }

  // ---- invariants ----

  /** A call in flight holds exactly the connections that are owned by it. */
  predicate FlightInv(flights: map<Thread, Pc>, owner: map<Conn, Owner>) {
    && (forall t :: t in flights && Holding(flights[t]) ==>
          flights[t].cn in owner && owner[flights[t].cn] == Call(t))
    && (forall cn :: cn in owner && owner[cn].Call? ==>
          var t := owner[cn].t; t in flights && Holding(flights[t]) && flights[t].cn == cn)
  }

  /** The idle list, the leases and the pin hold exactly the connections that are owned by them. */
  ghost predicate HolderInv(s: State) {
    && s.owner.Keys == s.open
    && (forall cn :: cn in s.idle <==> cn in s.owner && s.owner[cn] == IdleList)
    && (forall cn :: cn in s.leases <==> cn in s.owner && s.owner[cn] == Caller)
    && (forall cn :: s.pin == Pinned(cn) <==> cn in s.owner && s.owner[cn] == ThePin)
    && (forall i, j :: 0 <= i < j < |s.idle| ==> s.idle[i] != s.idle[j])
    && (forall cn :: cn in s.open || cn in s.quarantined || cn in s.inTransaction ==> cn < s.next)
  }

  /** Every open connection has exactly one owner. */
  ghost predicate OwnerInv(s: State) {
    FlightInv(s.flights, s.owner) && HolderInv(s)
  }

  /** Idle connections, and those about to be stored or handed out as new, are fit for use. */
  ghost predicate CleanInv(s: State) {
    && (forall cn :: cn in s.idle ==> Fit(s, cn))
    && (forall t :: t in s.flights && (s.flights[t].Clean? || s.flights[t].Opened?) ==> Fit(s, s.flights[t].cn))
  }

  function Counted(flights: map<Thread, Pc>): set<Thread> {
    set t | t in flights && Counts(flights[t])
  }

  predicate CountInv(s: State) {
    && s.idleCount == |s.idle| <= s.capacity
    && s.liveCount == |s.idle| + |s.leases| + |Counted(s.flights)| + s.leaked
  }

  predicate ToPool(a: Action) {
    a.ReleaseStart? || a.ReleaseVerify? || a.ReleaseStore? || a.CloseLease? || a.Quarantine? || a.Transact?
  }

  predicate Handover(a: Action) {
    a.AcquireVerify? || a.AcquireCount?
  }

  lemma FlightHandover(s: State, a: Action)
    requires OwnerInv(s) && Enabled(s, a) && Handover(a)
    ensures FlightInv(Apply(s, a).flights, Apply(s, a).owner)
  {
  }

  lemma FlightToPool(s: State, a: Action)
    requires OwnerInv(s) && Enabled(s, a) && ToPool(a)
    ensures FlightInv(Apply(s, a).flights, Apply(s, a).owner)
  {
  }

  lemma FlightPin(s: State, a: Action)
    requires OwnerInv(s) && Enabled(s, a) && (a.PinCheck? || a.PinPrime? || a.PinPublish? || a.UnpinTake?)
    ensures FlightInv(Apply(s, a).flights, Apply(s, a).owner)
  {
  }

  lemma FlightTakes(s: State, a: Action)
    requires OwnerInv(s) && Enabled(s, a) && (a.AcquireTake? || a.OpenFresh?)
    ensures FlightInv(Apply(s, a).flights, Apply(s, a).owner)
  {
  }

  lemma FlightDrops(s: State, a: Action)
    requires OwnerInv(s) && Enabled(s, a) && (a.Uncount? || a.CloseHeld?)
    ensures FlightInv(Apply(s, a).flights, Apply(s, a).owner)
  {
  }

  lemma HolderHandover(s: State, a: Action)
    requires OwnerInv(s) && Enabled(s, a) && Handover(a)
    ensures HolderInv(Apply(s, a))
  {
  }

  lemma HolderTake(s: State, a: Action)
    requires OwnerInv(s) && Enabled(s, a) && a.AcquireTake?
    ensures HolderInv(Apply(s, a))
  {
  }

  lemma HolderReleases(s: State, a: Action)
    requires OwnerInv(s) && Enabled(s, a) && (a.ReleaseStart? || a.ReleaseVerify?)
    ensures HolderInv(Apply(s, a))
  {
  }

  lemma HolderStores(s: State, a: Action)
    requires OwnerInv(s) && Enabled(s, a) && (a.ReleaseStore?)
    ensures HolderInv(Apply(s, a))
  {
  }

  lemma HolderPins(s: State, a: Action)
    requires OwnerInv(s) && Enabled(s, a) && (a.PinCheck? || a.PinPrime?)
    ensures HolderInv(Apply(s, a))
  {
  }

  lemma HolderPublishes(s: State, a: Action)
    requires OwnerInv(s) && Enabled(s, a) && (a.PinPublish? || a.UnpinTake?)
    ensures HolderInv(Apply(s, a))
  {
  }

  lemma HolderClose(s: State, a: Action)
    requires OwnerInv(s) && Enabled(s, a) && (a.CloseHeld? || a.CloseLease? || a.Uncount?)
    ensures HolderInv(Apply(s, a))
  {
  }

  lemma HolderOther(s: State, a: Action)
    requires OwnerInv(s) && Enabled(s, a) && (a.OpenFresh? || a.Quarantine? || a.Transact?)
    ensures HolderInv(Apply(s, a))
  {
  }

  lemma OwnerStep(s: State, a: Action)
    requires OwnerInv(s) && Enabled(s, a)
    ensures OwnerInv(Apply(s, a))
  {
    if Handover(a) {
      FlightHandover(s, a);
      HolderHandover(s, a);
    } else {
      if ToPool(a) { FlightToPool(s, a); }
      else if a.PinCheck? || a.PinPrime? || a.PinPublish? || a.UnpinTake? { FlightPin(s, a); }
      else if a.AcquireTake? || a.OpenFresh? { FlightTakes(s, a); }
      else { FlightDrops(s, a); }
      if a.AcquireTake? { HolderTake(s, a); }
      else if a.ReleaseStart? || a.ReleaseVerify? { HolderReleases(s, a); }
      else if a.ReleaseStore? { HolderStores(s, a); }
      else if a.PinCheck? || a.PinPrime? { HolderPins(s, a); }
      else if a.PinPublish? || a.UnpinTake? { HolderPublishes(s, a); }
      else if a.CloseHeld? || a.CloseLease? || a.Uncount? { HolderClose(s, a); }
      else { HolderOther(s, a); }
    }
  }

  lemma IdleStaysFit(s: State, a: Action)
    requires OwnerInv(s) && CleanInv(s) && Enabled(s, a)
    ensures forall cn :: cn in Apply(s, a).idle ==> Fit(Apply(s, a), cn)
  {
    if a.AcquireTake? {
      forall cn | cn in Apply(s, a).idle ensures cn in s.idle {}
    }
  }

  /** The actions that move a connection on its way into or through a thread. */
  predicate Early(a: Action) {
    a.AcquireTake? || a.OpenFresh? || a.ReleaseStart? || a.ReleaseVerify? || a.PinCheck? || a.PinPrime?
  }

  lemma FlightsStayFit(s: State, a: Action, t: Thread)
    requires OwnerInv(s) && CleanInv(s) && Enabled(s, a) && Early(a)
    requires t in Apply(s, a).flights
    ensures var p := Apply(s, a).flights[t]; p.Clean? || p.Opened? ==> Fit(Apply(s, a), p.cn)
  {
  }

  lemma OtherFlightsStayFit(s: State, a: Action, t: Thread)
    requires OwnerInv(s) && CleanInv(s) && Enabled(s, a) && !Early(a)
    requires t in Apply(s, a).flights
    ensures var p := Apply(s, a).flights[t]; p.Clean? || p.Opened? ==> Fit(Apply(s, a), p.cn)
  {
  }

  lemma CleanStep(s: State, a: Action)
    requires OwnerInv(s) && CleanInv(s) && Enabled(s, a)
    ensures CleanInv(Apply(s, a))
  {
    var s' := Apply(s, a);
    IdleStaysFit(s, a);
    forall t | t in s'.flights ensures s'.flights[t].Clean? || s'.flights[t].Opened? ==> Fit(s', s'.flights[t].cn) {
      if Early(a) { FlightsStayFit(s, a, t); } else { OtherFlightsStayFit(s, a, t); }
    }
  }

  predicate ByThread(a: Action) {
    !(a.Quarantine? || a.Transact? || a.CloseLease?)
  }

  function One(b: bool): nat {
    if b then 1 else 0
  }

  lemma CountedChange(f: map<Thread, Pc>, g: map<Thread, Pc>, t: Thread)
    requires forall u :: u != t ==> (u in f <==> u in g)
    requires forall u :: u != t && u in f ==> f[u] == g[u]
    ensures var was, now := Counted(f), Counted(g); now == (if t in now then was + {t} else was - {t})
  {
  }

  lemma SizeChange(was: set<Thread>, now: set<Thread>, t: Thread)
    requires now == (if t in now then was + {t} else was - {t})
    ensures |now| + One(t in was) == |was| + One(t in now)
  {
  }

  lemma CountedAfter(s: State, a: Action)
    requires Enabled(s, a) && ByThread(a)
    ensures var f, g := s.flights, Apply(s, a).flights;
            |Counted(g)| + One(a.t in f && Counts(f[a.t])) == |Counted(f)| + One(a.t in g && Counts(g[a.t]))
  {
    CountedChange(s.flights, Apply(s, a).flights, a.t);
    SizeChange(Counted(s.flights), Counted(Apply(s, a).flights), a.t);
  }

  lemma CountTakes(s: State, a: Action)
    requires CountInv(s) && Enabled(s, a) && (a.AcquireTake? || a.Uncount?)
    ensures CountInv(Apply(s, a))
  {
    CountedAfter(s, a);
  }

  lemma CountHandover(s: State, a: Action)
    requires CountInv(s) && Enabled(s, a) && Handover(a)
    requires |s.leases + {s.flights[a.t].cn}| == |s.leases| + 1
    ensures CountInv(Apply(s, a))
  {
    CountedAfter(s, a);
  }

  lemma CountLease(s: State, a: Action)
    requires OwnerInv(s) && CountInv(s) && Enabled(s, a) && Handover(a)
    ensures CountInv(Apply(s, a))
  {
    NewLease(s, a.t);
    CountHandover(s, a);
  }

  lemma NewLease(s: State, t: Thread)
    requires OwnerInv(s) && t in s.flights && Holding(s.flights[t])
    ensures |s.leases + {s.flights[t].cn}| == |s.leases| + 1
  {
    assert s.owner[s.flights[t].cn] == Call(t);
    assert s.flights[t].cn !in s.leases;
  }

  lemma CountReturns(s: State, a: Action)
    requires OwnerInv(s) && CountInv(s) && Enabled(s, a) && (a.ReleaseStart? || a.ReleaseVerify? || a.ReleaseStore?)
    ensures CountInv(Apply(s, a))
  {
    CountedAfter(s, a);
  }

  lemma CountOutside(s: State, a: Action)
    requires OwnerInv(s) && CountInv(s) && Enabled(s, a) && !ByThread(a)
    ensures CountInv(Apply(s, a))
  {
  }

  lemma CountStep(s: State, a: Action)
    requires OwnerInv(s) && CountInv(s) && Enabled(s, a)
    ensures CountInv(Apply(s, a))
  {
    if a.AcquireTake? || a.Uncount? { CountTakes(s, a); }
    if Handover(a) { CountLease(s, a); }
    else if !ByThread(a) { CountOutside(s, a); }
    else if ToPool(a) { CountReturns(s, a); }
    else { CountedAfter(s, a); }
  }

  // ---- every interleaving ----

  /** Every schedule: an action that is not enabled when its turn comes does nothing. */
  function After(capacity: nat, run: seq<Action>): (s: State) {
    if run == [] then Start(capacity)
    else
      var s, a := After(capacity, run[..|run| - 1]), run[|run| - 1];
      if Enabled(s, a) then Apply(s, a) else s
  }

  lemma {:induction false} AfterInv(capacity: nat, run: seq<Action>)
    ensures var s := After(capacity, run); OwnerInv(s) && CleanInv(s) && CountInv(s) && s.capacity == capacity
  {
    if run != [] {
      AfterInv(capacity, run[..|run| - 1]);
      var s, a := After(capacity, run[..|run| - 1]), run[|run| - 1];
      if Enabled(s, a) {
        OwnerStep(s, a);
        CleanStep(s, a);
        CountStep(s, a);
      }
    }
  }

  predicate Carries(s: State, t: Thread, cn: Conn) {
    t in s.flights && Holding(s.flights[t]) && s.flights[t].cn == cn
  }

  /** Who holds a connection, read off the data the source keeps (not off the history). */
  ghost predicate Holder(s: State, o: Owner, cn: Conn) {
    match o
    case IdleList => cn in s.idle
    case Caller => cn in s.leases
    case ThePin => s.pin == Pinned(cn)
    case Call(t) => Carries(s, t, cn)
  }

  /** In every interleaving an open connection has exactly one holder and a closed one none, and the idle
      list names no connection twice. */
  lemma OneOwner(capacity: nat, run: seq<Action>, cn: Conn)
    ensures var s := After(capacity, run);
            && (cn in s.open <==> exists o :: Holder(s, o, cn))
            && (forall o, p :: Holder(s, o, cn) && Holder(s, p, cn) ==> o == p)
            && (forall i, j :: 0 <= i < j < |s.idle| ==> s.idle[i] != s.idle[j])
  {
    AfterInv(capacity, run);
    var s := After(capacity, run);
    if cn in s.open { assert Holder(s, s.owner[cn], cn); }
  }

  /** The counters: idle_count is the list's length and within capacity; live_count is idle plus leased
      plus the calls that still have to subtract theirs, plus every lease its owner closed without the
      pool.  So with no call in flight it is exact if and only if no lease was closed that way. */
  lemma CountersExact(capacity: nat, run: seq<Action>)
    ensures var s := After(capacity, run);
            && s.idleCount == |s.idle| <= capacity
            && s.liveCount == |s.idle| + |s.leases| + |Counted(s.flights)| + s.leaked
            && (s.flights == map[] ==> (s.liveCount == |s.idle| + |s.leases| <==> s.leaked == 0))
  {
    AfterInv(capacity, run);
    var s := After(capacity, run);
    if s.flights == map[] { assert Counted(s.flights) == {}; }
  }

  /** No connection that is quarantined or inside a transaction is ever idle or handed out. */
  lemma OnlyFitHandedOut(capacity: nat, run: seq<Action>, a: Action)
    ensures var s, s' := After(capacity, run), After(capacity, run + [a]);
            && (forall cn :: cn in s'.leases && cn !in s.leases ==> cn !in s.quarantined && cn !in s.inTransaction)
            && (forall cn :: cn in s.idle ==> cn !in s.quarantined && cn !in s.inTransaction)
  {
    AfterInv(capacity, run);
    assert (run + [a])[..|run|] == run;
  }

  const LeakRun: seq<Action> := [AcquireTake(1), OpenFresh(1, true), AcquireCount(1), CloseLease(0)]

  /** A write context closes its lease itself, and live_count stays one too high. */
  lemma DirectCloseLeaks()
    ensures var s := After(4, LeakRun); s.liveCount == 1 && s.open == {} && s.flights == map[]
  {
    var r := LeakRun;
    assert r[..4] == r && r[..4][..3] == r[..3] && r[..3][..2] == r[..2] && r[..2][..1] == r[..1] && r[..1][..0] == [];
    assert After(4, r[..1]) == Go(Start(4), 1, Opening);
    var s2 := After(4, r[..2]);
    assert s2.flights == map[1 := Opened(0)] && s2.open == {0} && s2.liveCount == 0;
    assert After(4, r[..3]).leases == {0} && After(4, r[..3]).liveCount == 1;
    assert After(4, r[..3]).flights == map[] && After(4, r[..3]).open == {0};
  }
}
