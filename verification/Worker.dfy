/** The connection-affine worker: a job queue under one critical section, two condition variables, any
    number of submitting threads and one stopping thread.

    A block between EnterCriticalSection and LeaveCriticalSection is one action, a condition-variable
    sleep is a program point a thread leaves only by a wake, and wakes issued outside the lock are
    actions of their own.  Sleeping threads may also wake for no reason. */
module Worker {

  type Job = nat
  type Thread = nat

  datatype WorkerPc =
    | Deciding                // at the loop head, or re-checking after a wake
    | Asleep                  // in SleepConditionVariableCS(cv_push)
    | Running(job: Job)       // inside j->fn
    | Completing(job: Job)    // about to set done
    | Gone

  datatype SubmitterPc =
    | Pushed(job: Job, waits: bool)   // queued; the wake of cv_push is still to come
    | Checking(job: Job)              // in vms_worker_run, about to test done
    | Waiting(job: Job)               // in SleepConditionVariableCS(cv_done)
    | Polling(job: Job)               // after vms_worker_post, in vms_job_wait
    | Returned(job: Job)

  datatype StopPc = NotStopping | Flagged | Joining | Stopped

  datatype State = State(
    queue: seq<Job>, done: set<Job>, stopping: bool,
    worker: WorkerPc, submitters: map<Thread, SubmitterPc>, stop: StopPc,
    // history
    pushed: seq<Job>, started: seq<Job>, finished: seq<Job>)

  datatype Action =
    | Push(t: Thread, job: Job, waits: bool)
    | WakePush(t: Thread)
    | Check(t: Thread)
    | Poll(t: Thread)
    | Take
    | Finish
    | Complete(woken: set<Thread>)   // WakeConditionVariable(cv_done) wakes one sleeper if there is one
    | SetStop
    | WakeStop
    | Join
    | SpuriousDone(t: Thread)
    | SpuriousPush

  const Start: State := State([], {}, false, Deciding, map[], NotStopping, [], [], [])

  predicate IsWaiting(s: State, t: Thread) {
    t in s.submitters && s.submitters[t].Waiting?
  }

  predicate IsPending(s: State, t: Thread) {
    t in s.submitters && s.submitters[t].Pushed?
  }

  /** One job per thread at a time, a fresh job each time, and nobody uses a worker that was freed. */
  ghost predicate Enabled(s: State, a: Action) {
    match a
    case Push(t, job, _) =>
      s.stop != Stopped && job !in s.pushed && (t in s.submitters ==> s.submitters[t].Returned?)
    case WakePush(t) => IsPending(s, t)
    case Check(t) => t in s.submitters && s.submitters[t].Checking?
    case Poll(t) => t in s.submitters && s.submitters[t].Polling? && s.submitters[t].job in s.done
    case Take => s.worker == Deciding
    case Finish => s.worker.Running?
    case Complete(woken) =>
      s.worker.Completing? &&
      (woken == {} ==> forall t :: !IsWaiting(s, t)) &&
      (woken != {} ==> exists t :: woken == {t} && IsWaiting(s, t))
    case SetStop => s.stop == NotStopping
    case WakeStop => s.stop == Flagged
    case Join => s.stop == Joining && s.worker == Gone
    case SpuriousDone(t) => IsWaiting(s, t)
    case SpuriousPush => s.worker == Asleep
  }

  function Wake(w: WorkerPc): WorkerPc {
    if w == Asleep then Deciding else w
  }

  ghost function Apply(s: State, a: Action): (r: State)
    requires Enabled(s, a)
  {
    match a
    case Push(t, job, waits) =>
      s.(queue := s.queue + [job], pushed := s.pushed + [job],
         submitters := s.submitters[t := Pushed(job, waits)])
    case WakePush(t) =>
      var p := s.submitters[t];
      s.(worker := Wake(s.worker),
         submitters := s.submitters[t := if p.waits then Checking(p.job) else Polling(p.job)])
    case Check(t) =>
      var j := s.submitters[t].job;
      s.(submitters := s.submitters[t := if j in s.done then Returned(j) else Waiting(j)])
    case Poll(t) =>
      s.(submitters := s.submitters[t := Returned(s.submitters[t].job)])
    case Take =>
      if s.queue != [] then
        s.(queue := s.queue[1..], started := s.started + [s.queue[0]], worker := Running(s.queue[0]))
      else if s.stopping then s.(worker := Gone)
      else s.(worker := Asleep)
    case Finish =>
      s.(finished := s.finished + [s.worker.job], worker := Completing(s.worker.job))
    case Complete(woken) =>
      s.(done := s.done + {s.worker.job}, worker := Deciding,
         submitters := map t | t in s.submitters ::
           if t in woken then Checking(s.submitters[t].job) else s.submitters[t])
    case SetStop => s.(stopping := true, stop := Flagged)
    case WakeStop => s.(stop := Joining, worker := Wake(s.worker))
    case Join => s.(stop := Stopped)
    case SpuriousDone(t) => s.(submitters := s.submitters[t := Checking(s.submitters[t].job)])
    case SpuriousPush => s.(worker := Deciding)
  }

  // ---- runs ----

  /** Every schedule: an action that is not enabled when its turn comes does nothing. */
  ghost function After(run: seq<Action>): (s: State) {
    if run == [] then Start
    else
      var s, a := After(run[..|run| - 1]), run[|run| - 1];
      if Enabled(s, a) then Apply(s, a) else s
  }

  // ---- safety ----

  predicate Distinct(q: seq<Job>) {
    forall i, j :: 0 <= i < j < |q| ==> q[i] != q[j]
  }

  /** Jobs leave the queue in push order, each once, and run one at a time. */
  ghost predicate QueueInv(s: State) {
    && s.pushed == s.started + s.queue && Distinct(s.pushed)
    && s.started == s.finished + (if s.worker.Running? then [s.worker.job] else [])
    && (forall j :: j in s.done <==> j in s.finished && s.worker != Completing(j))
    && (s.worker.Completing? ==> s.worker.job in s.finished)
  }

  /** A submitter is told only about jobs that ran. */
  ghost predicate SubmitterInv(s: State) {
    && (forall t :: t in s.submitters ==> s.submitters[t].job in s.pushed)
    && (forall t :: t in s.submitters && s.submitters[t].Returned? ==> s.submitters[t].job in s.done)
  }

  ghost predicate WakeComing(s: State) {
    s.stop == Flagged || exists t :: IsPending(s, t)
  }

  /** A sleeping worker with something to do has a wake coming. */
  ghost predicate WakeInv(s: State) {
    && (s.stopping <==> s.stop != NotStopping)
    && (s.worker == Asleep && (s.queue != [] || s.stopping) ==> WakeComing(s))
    && (s.worker == Gone ==> s.stopping)
    && (s.stop == Stopped ==> s.worker == Gone)
  }

  lemma QueueStep(s: State, a: Action)
    requires QueueInv(s) && Enabled(s, a)
    ensures QueueInv(Apply(s, a))
  {
    var s' := Apply(s, a);
    match a
    case Take =>
      if s.queue != [] { assert s'.started + s'.queue == s.started + s.queue; }
    case Push(_, job, _) =>
      assert s'.pushed == s'.started + s'.queue;
    case Finish =>
      assert s.worker.job !in s.finished by {
        assert s.pushed[|s.finished|] == s.worker.job;
        assert forall i :: 0 <= i < |s.finished| ==> s.pushed[i] == s.finished[i];
      }
    case _ =>
  }

  lemma SubmitterStep(s: State, a: Action)
    requires SubmitterInv(s) && Enabled(s, a)
    ensures SubmitterInv(Apply(s, a))
  {
  }

  lemma WakeStep(s: State, a: Action)
    requires WakeInv(s) && Enabled(s, a)
    ensures WakeInv(Apply(s, a))
  {
    var s' := Apply(s, a);
    if a.Push? { assert IsPending(s', a.t); }
    if s'.worker == Asleep && exists t :: IsPending(s, t) {
      var t :| IsPending(s, t);
      assert IsPending(s', t);
    }
  }

  /** In every schedule: jobs run in push order, each exactly once and one at a time; a call returns only
      after its job ran; and the worker never sleeps on work or on a stop without a wake on its way. */
  lemma {:induction false} ExactlyOnceInOrder(run: seq<Action>)
    ensures var s := After(run);
            && QueueInv(s) && SubmitterInv(s) && WakeInv(s)
            && s.finished <= s.pushed && Distinct(s.finished)
            && (forall t :: t in s.submitters && s.submitters[t].Returned? ==> s.submitters[t].job in s.finished)
            && (s.worker == Asleep && (s.queue != [] || s.stopping) ==> WakeComing(s))
  {
    if run != [] {
      var before, a := run[..|run| - 1], run[|run| - 1];
      ExactlyOnceInOrder(before);
      var s := After(before);
      if Enabled(s, a) {
        QueueStep(s, a);
        SubmitterStep(s, a);
        WakeStep(s, a);
      }
    }
  }

  // ---- stop drains the queue ----

  /** Nobody pushes once the worker thread has exited. */
  ghost predicate Disciplined(run: seq<Action>) {
    run == [] ||
    var before, a := run[..|run| - 1], run[|run| - 1];
    Disciplined(before) && (a.Push? && Enabled(After(before), a) ==> After(before).worker != Gone)
  }

  /** The worker exits on an empty queue, and then only a push changes the queue. */
  lemma GoneStep(s: State, a: Action)
    requires Enabled(s, a) && Apply(s, a).worker == Gone
    ensures if s.worker == Gone then Apply(s, a).queue == s.queue + (if a.Push? then [a.job] else [])
            else Apply(s, a).queue == []
  {
  }

  lemma {:induction false} GoneIsDrained(run: seq<Action>)
    requires After(run).worker == Gone
    ensures After(run).queue == [] <==> Disciplined(run)
  {
    var before, a := run[..|run| - 1], run[|run| - 1];
    var s := After(before);
    if Enabled(s, a) { GoneStep(s, a); }
    if s.worker == Gone { GoneIsDrained(before); } else { NotGoneDisciplined(before); }
  }

  lemma {:induction false} NotGoneDisciplined(run: seq<Action>)
    requires After(run).worker != Gone
    ensures Disciplined(run)
  {
    if run != [] { NotGoneDisciplined(run[..|run| - 1]); }
  }

  /** When the worker thread is gone, the queue is empty exactly if nobody pushed after its exit, and then
      every job pushed has run and is marked done. */
  lemma StopDrains(run: seq<Action>)
    requires After(run).worker == Gone
    ensures var s := After(run);
            && (s.queue == [] <==> Disciplined(run)) && (s.finished == s.pushed <==> Disciplined(run))
            && (Disciplined(run) ==> forall j :: j in s.pushed ==> j in s.done)
  {
    ExactlyOnceInOrder(run);
    GoneIsDrained(run);
    var s := After(run);
    if s.queue != [] { assert |s.pushed| > |s.finished|; }
  }

  /** A push after the exit is lost: the caller's job never runs. */
  lemma LatePushIsLost()
    ensures var s := After([SetStop, Take, Push(1, 5, true)]);
            s.worker == Gone && 5 in s.pushed && 5 !in s.finished
  {
    RunOf3(SetStop, Take, Push(1, 5, true));
  }

  lemma RunOf3(a: Action, b: Action, c: Action)
    ensures After([a, b, c]) == Then(Then(Then(Start, a), b), c)
  {
    assert [a, b, c][..2] == [a, b] && [a, b][..1] == [a] && [a][..0] == [];
    assert After([]) == Start && After([a]) == Then(Start, a);
    assert After([a, b]) == Then(After([a]), b);
  }

  ghost function Then(s: State, a: Action): State {
    if Enabled(s, a) then Apply(s, a) else s
  }

  // ---- wakes of waiting submitters ----

  /** At every moment of the run at most one submitter sleeps on cv_done. */
  ghost predicate Solo(run: seq<Action>) {
    (forall t, u :: IsWaiting(After(run), t) && IsWaiting(After(run), u) ==> t == u) &&
    (run == [] || Solo(run[..|run| - 1]))
  }

  lemma SoloStep(s: State, a: Action, t: Thread)
    requires Enabled(s, a) && IsWaiting(Apply(s, a), t)
    requires IsWaiting(s, t) ==> s.submitters[t].job !in s.done
    requires forall u, v :: IsWaiting(s, u) && IsWaiting(s, v) ==> u == v
    ensures Apply(s, a).submitters[t].job !in Apply(s, a).done
  {
    if a.Complete? {
      assert IsWaiting(s, t);
    }
  }

  /** With at most one sleeping submitter, none sleeps on a job that is done. */
  lemma {:induction false} NoLostWake(run: seq<Action>, t: Thread)
    requires Solo(run) && IsWaiting(After(run), t)
    ensures After(run).submitters[t].job !in After(run).done
  {
    var before, a := run[..|run| - 1], run[|run| - 1];
    var s := After(before);
    if IsWaiting(s, t) { NoLostWake(before, t); }
    if Enabled(s, a) { SoloStep(s, a, t); }
  }

  // ---- progress ----

  /** Nothing is left to do for the worker or for a thread that owes it a wake. */
  ghost predicate Settled(s: State) {
    (s.worker == Asleep || s.worker == Gone) && !WakeComing(s)
  }

  predicate OwnStep(a: Action) {
    a.Take? || a.Finish? || a.Complete? || a.WakePush? || a.WakeStop?
  }

  ghost function Pending(s: State): set<Thread> {
    set t | t in s.submitters && s.submitters[t].Pushed?
  }

  ghost function Rank(s: State): nat {
    4 * |s.queue| + 2 * |Pending(s)| + (if s.stop == Flagged then 2 else 0) +
    match s.worker
    case Asleep => 0
    case Gone => 0
    case Deciding => 1
    case Completing(_) => 2
    case Running(_) => 3
  }

  /** Until everything is settled some step of the worker, or a wake owed to it, is possible, and every
      such step lowers the rank: without new pushes the worker settles after at most Rank steps. */
  lemma Progress(s: State)
    ensures !Settled(s) ==> exists a :: OwnStep(a) && Enabled(s, a)
  {
    if s.worker == Deciding { assert Enabled(s, Take); }
    else if s.worker.Running? { assert Enabled(s, Finish); }
    else if s.worker.Completing? {
      if t :| IsWaiting(s, t) { assert Enabled(s, Complete({t})); }
      else { assert Enabled(s, Complete({})); }
    } else if WakeComing(s) {
      if s.stop == Flagged { assert Enabled(s, WakeStop); }
      else { var t :| IsPending(s, t); assert Enabled(s, WakePush(t)); }
    }
  }

  lemma PendingAfter(s: State, a: Action)
    requires OwnStep(a) && Enabled(s, a)
    ensures Pending(Apply(s, a)) == Pending(s) - (if a.WakePush? then {a.t} else {})
  {
  }

  lemma StepsLowerRank(s: State, a: Action)
    requires OwnStep(a) && Enabled(s, a)
    ensures Rank(Apply(s, a)) < Rank(s)
  {
    PendingAfter(s, a);
  }

  /** Once settled, every job pushed has run and every blocking call is awake. */
  lemma SettledServesEveryone(run: seq<Action>)
    requires Disciplined(run) && Solo(run) && Settled(After(run))
    ensures var s := After(run);
            s.finished == s.pushed && (forall j :: j in s.pushed ==> j in s.done) && (forall t :: !IsWaiting(s, t))
  {
    ExactlyOnceInOrder(run);
    var s := After(run);
    if s.worker == Gone { StopDrains(run); }
    forall t ensures !IsWaiting(s, t) {
      if IsWaiting(s, t) { NoLostWake(run, t); }
    }
  }

  /** Once settled, every call that has not returned returns with its next step, and so does a stop. */
  lemma SettledCallsReturn(run: seq<Action>, t: Thread)
    requires Disciplined(run) && Solo(run) && Settled(After(run))
    ensures var s := After(run);
            && (t in s.submitters && !s.submitters[t].Returned? ==>
                  var step := if s.submitters[t].Polling? then Poll(t) else Check(t);
                  Enabled(s, step) && Apply(s, step).submitters[t] == Returned(s.submitters[t].job))
            && (s.stopping && s.stop != Stopped ==> Enabled(s, Join) && Apply(s, Join).stop == Stopped)
  {
    SettledServesEveryone(run);
    ExactlyOnceInOrder(run);
    var s := After(run);
    assert !IsPending(s, t);
    assert !IsWaiting(s, t);
  }

  /** The way of a call: queued, then its wake, then asking under the lock and sleeping if it blocks and polling if it
      does not; back to asking only from a sleep, and returned only from an answer.  Other threads' steps leave it
      alone, but for the worker's wake. */
  lemma CallMoves(s: State, a: Action, t: Thread)
    requires Enabled(s, a) && t in s.submitters
    ensures var p, s' := s.submitters[t], Apply(s, a);
            && t in s'.submitters
            && var q := s'.submitters[t];
            && (!(a.Push? && a.t == t) ==> q.job == p.job)
            && (a == WakePush(t) ==> (q.Checking? <==> p.waits) && (q.Polling? <==> !p.waits))
            && (a == Check(t) ==> (q.Returned? <==> p.job in s.done) && (q.Waiting? <==> p.job !in s.done))
            && (a == Poll(t) ==> q.Returned? && p.job in s.done)
            && (a == SpuriousDone(t) || (a.Complete? && t in a.woken) ==> p.Waiting? && q.Checking?)
            && (p != q ==> (a.Complete? && t in a.woken) || a in {WakePush(t), Check(t), Poll(t), SpuriousDone(t)} ||
                           (a.Push? && a.t == t && p.Returned?))
  {
  }

  const TwoWaiters: seq<Action> := [
    Push(1, 10, true), WakePush(1), Check(1), Push(2, 20, true), WakePush(2), Check(2),
    Take, Finish, Complete({2}), Check(2), Take, Finish, Complete({2}), Check(2), Take]

  const Waiting1: State :=
    State([10], {}, false, Deciding, map[1 := Waiting(10)], NotStopping, [10], [], [])
  const WaitingBoth: State :=
    State([10, 20], {}, false, Deciding, map[1 := Waiting(10), 2 := Waiting(20)], NotStopping, [10, 20], [], [])
  const WrongWake: State :=
    State([20], {10}, false, Deciding, map[1 := Waiting(10), 2 := Checking(20)], NotStopping, [10, 20], [10], [10])
  const SecondRan: State :=
    State([], {10}, false, Completing(20), map[1 := Waiting(10), 2 := Waiting(20)], NotStopping,
          [10, 20], [10, 20], [10, 20])

  lemma FirstWaits()
    ensures Then(Then(Then(Start, Push(1, 10, true)), WakePush(1)), Check(1)) == Waiting1
  {
    var s := Then(Then(Start, Push(1, 10, true)), WakePush(1));
    assert s.submitters == map[1 := Checking(10)];
  }

  lemma SecondWaits()
    ensures Then(Then(Then(Waiting1, Push(2, 20, true)), WakePush(2)), Check(2)) == WaitingBoth
  {
    var s := Then(Then(Waiting1, Push(2, 20, true)), WakePush(2));
    assert s.submitters == map[1 := Waiting(10), 2 := Checking(20)];
  }

  lemma FirstFinishes()
    ensures Then(Then(Then(WaitingBoth, Take), Finish), Complete({2})) == WrongWake
  {
    var s := Then(Then(WaitingBoth, Take), Finish);
    assert IsWaiting(s, 2) && s.worker == Completing(10);
  }

  lemma OneComesToWait()
    ensures After(TwoWaiters[..3]) == Waiting1
  {
    FirstWaits();
    Extend3(TwoWaiters, 0, Start);
  }

  lemma BothComeToWait()
    ensures After(TwoWaiters[..6]) == WaitingBoth
  {
    OneComesToWait();
    SecondWaits();
    Extend3(TwoWaiters, 3, Waiting1);
  }

  lemma WrongOneWakes()
    ensures After(TwoWaiters[..9]) == WrongWake
  {
    BothComeToWait();
    FirstFinishes();
    Extend3(TwoWaiters, 6, WaitingBoth);
  }

  lemma SecondJobRuns()
    ensures After(TwoWaiters[..12]) == SecondRan
  {
    WrongOneWakes();
    Extend3(TwoWaiters, 9, WrongWake);
  }

  const Lost: State :=
    State([], {10, 20}, false, Asleep, map[1 := Waiting(10), 2 := Returned(20)], NotStopping,
          [10, 20], [10, 20], [10, 20])

  lemma SecondReturns()
    ensures Then(Then(Then(SecondRan, Complete({2})), Check(2)), Take) == Lost
  {
    assert IsWaiting(SecondRan, 2);
    var s1 := Then(SecondRan, Complete({2}));
    assert s1.submitters == map[1 := Waiting(10), 2 := Checking(20)] && s1.done == {10, 20};
    var s2 := Then(s1, Check(2));
    assert s2.submitters == map[1 := Waiting(10), 2 := Returned(20)];
  }

  /** With two sleeping submitters the single wake can go to the wrong one both times: everything is
      settled, job 10 is done, and its submitter sleeps for good. */
  lemma TwoWaitersLoseAWake()
    ensures After(TwoWaiters) == Lost && Settled(Lost) && Lost.finished == Lost.pushed
    ensures IsWaiting(Lost, 1) && Lost.submitters[1].job in Lost.done
  {
    SecondJobRuns();
    Extend3(TwoWaiters, 12, SecondRan);
    assert TwoWaiters[..15] == TwoWaiters;
    SecondReturns();
  }

  lemma Extend3(r: seq<Action>, n: nat, s: State)
    requires n + 3 <= |r| && After(r[..n]) == s
    ensures After(r[..n + 3]) == Then(Then(Then(s, r[n]), r[n + 1]), r[n + 2])
  {
    assert r[..n + 3][..n + 2] == r[..n + 2] && r[..n + 2][..n + 1] == r[..n + 1] && r[..n + 1][..n] == r[..n];
    assert After(r[..n + 1]) == Then(s, r[n]);
    assert After(r[..n + 2]) == Then(After(r[..n + 1]), r[n + 1]);
  }
}
