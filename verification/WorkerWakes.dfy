/** When the single wake of cv_done can be lost: exactly when two submitters sleep at once. */
module WorkerWakes {
  import opened Worker

  /** A submitter sleeps on a job that is done. */
  ghost predicate Missed(s: State) {
    exists t :: IsWaiting(s, t) && s.submitters[t].job in s.done
  }

  /** Two submitters sleep on unfinished jobs while the worker is there. */
  ghost predicate Pair(s: State, t: Thread, u: Thread) {
    && t != u && s.worker != Gone && IsWaiting(s, t) && IsWaiting(s, u)
    && s.submitters[t].job !in s.done && s.submitters[u].job !in s.done
  }

  ghost predicate Paired(s: State) {
    exists t, u :: Pair(s, t, u)
  }

  /** The state after more actions. */
  ghost function Continue(s: State, more: seq<Action>): State
    decreases |more|
  {
    if more == [] then s else Then(Continue(s, more[..|more| - 1]), more[|more| - 1])
  }

  lemma {:induction false} Continues(run: seq<Action>, more: seq<Action>)
    ensures After(run + more) == Continue(After(run), more)
  {
    if more == [] {
      assert run + more == run;
    } else {
      var n := |more| - 1;
      Continues(run, more[..n]);
      assert (run + more)[..|run + more| - 1] == run + more[..n];
    }
  }

  lemma {:induction false} ContinueAppend(s: State, a: seq<Action>, b: seq<Action>)
    ensures Continue(s, a + b) == Continue(Continue(s, a), b)
  {
    if b == [] {
      assert a + b == a;
    } else {
      assert (a + b)[..|a + b| - 1] == a + b[..|b| - 1];
      ContinueAppend(s, a, b[..|b| - 1]);
    }
  }

  // ---- a missed wake comes from a pair ----

  /** The step that makes a submitter miss its wake starts from two sleepers. */
  lemma MissNeedsPair(s: State, a: Action)
    requires QueueInv(s) && Enabled(s, a) && !Missed(s) && Missed(Apply(s, a))
    ensures Paired(s)
  {
    var s' := Apply(s, a);
    var t :| IsWaiting(s', t) && s'.submitters[t].job in s'.done;
    assert a.Complete? && IsWaiting(s, t) && s.submitters[t].job == s.worker.job;
    var u :| a.woken == {u} && IsWaiting(s, u);
    assert Pair(s, t, u);
  }

  lemma {:induction false} MissHadPair(run: seq<Action>, more: seq<Action>)
    requires !Missed(After(run)) && Missed(After(run + more))
    ensures exists part :: Paired(After(run + part))
  {
    assert run + [] == run;
    var n := |more| - 1;
    var before := run + more[..n];
    assert (run + more)[..|run + more| - 1] == before;
    if Missed(After(before)) {
      MissHadPair(run, more[..n]);
    } else {
      ExactlyOnceInOrder(before);
      MissNeedsPair(After(before), more[n]);
      assert Paired(After(run + more[..n]));
    }
  }

  // ---- from a pair a wake can be missed ----

  ghost function Distance(s: State): nat {
    4 * |s.queue| +
    match s.worker
    case Gone => 0
    case Deciding => 0
    case Asleep => 1
    case Completing(_) => 1
    case Running(_) => 2
  }

  /** A sleeper's unfinished job is queued, running or about to be completed. */
  lemma PairHasWork(s: State, t: Thread, u: Thread)
    requires QueueInv(s) && SubmitterInv(s) && Pair(s, t, u) && s.worker == Deciding
    ensures s.queue != []
  {
    assert s.queue == [] ==> s.pushed == s.finished;
  }

  lemma OneStep(s: State, a: Action)
    ensures Continue(s, [a]) == Then(s, a)
  {
    assert [a][..0] == [] && Continue(s, []) == s;
  }

  lemma TwoSteps(s: State, a: Action, b: Action)
    ensures Continue(s, [a, b]) == Then(Then(s, a), b)
  {
    OneStep(s, a);
    assert [a, b][..1] == [a];
  }

  /** Completing the job of one sleeper with the wake given to the other. */
  lemma WrongWakeMisses(s: State, t: Thread, u: Thread)
    requires Pair(s, t, u) && s.worker.Completing? && s.submitters[t].job == s.worker.job
    ensures Missed(Then(s, Complete({u})))
  {
    assert Enabled(s, Complete({u}));
    assert IsWaiting(Then(s, Complete({u})), t);
  }

  /** Completing somebody else's job: the woken sleeper finds its own unfinished and sleeps again. */
  lemma SleepsAgain(s: State, t: Thread, u: Thread)
    requires Pair(s, t, u) && s.worker.Completing?
    requires s.submitters[t].job != s.worker.job && s.submitters[u].job != s.worker.job
    ensures var s' := Then(Then(s, Complete({t})), Check(t));
            Pair(s', t, u) && s'.worker == Deciding && s'.queue == s.queue
  {
    assert Enabled(s, Complete({t}));
  }

  lemma WorkerMoves(s: State, t: Thread, u: Thread) returns (more: seq<Action>)
    requires QueueInv(s) && SubmitterInv(s) && Pair(s, t, u) && !s.worker.Completing?
    ensures Pair(Continue(s, more), t, u) && Distance(Continue(s, more)) < Distance(s)
    ensures QueueInv(Continue(s, more)) && SubmitterInv(Continue(s, more))
  {
    var a := if s.worker == Deciding then Take else if s.worker == Asleep then SpuriousPush else Finish;
    if s.worker == Deciding { PairHasWork(s, t, u); }
    more := [a];
    OneStep(s, a);
    QueueStep(s, a);
    SubmitterStep(s, a);
  }

  /** One more step, or two, bring the pair's first job closer, or miss a wake. */
  lemma Closer(s: State, t: Thread, u: Thread) returns (more: seq<Action>)
    requires QueueInv(s) && SubmitterInv(s) && Pair(s, t, u)
    ensures Missed(Continue(s, more)) || (Pair(Continue(s, more), t, u) && Distance(Continue(s, more)) < Distance(s))
    ensures QueueInv(Continue(s, more)) && SubmitterInv(Continue(s, more))
  {
    if !s.worker.Completing? {
      more := WorkerMoves(s, t, u);
    } else if s.submitters[t].job == s.worker.job {
      more := MissNow(s, t, u);
    } else if s.submitters[u].job == s.worker.job {
      more := MissNow(s, u, t);
    } else {
      more := SleepAgainNow(s, t, u);
    }
  }

  lemma MissNow(s: State, t: Thread, u: Thread) returns (more: seq<Action>)
    requires QueueInv(s) && SubmitterInv(s) && Pair(s, t, u) && s.worker.Completing? &&
             s.submitters[t].job == s.worker.job
    ensures Missed(Continue(s, more)) && QueueInv(Continue(s, more)) && SubmitterInv(Continue(s, more))
  {
    more := [Complete({u})];
    OneStep(s, Complete({u}));
    WrongWakeMisses(s, t, u);
    QueueStep(s, Complete({u}));
    SubmitterStep(s, Complete({u}));
  }

  lemma SleepAgainNow(s: State, t: Thread, u: Thread) returns (more: seq<Action>)
    requires QueueInv(s) && SubmitterInv(s) && Pair(s, t, u) && s.worker.Completing?
    requires s.submitters[t].job != s.worker.job && s.submitters[u].job != s.worker.job
    ensures Pair(Continue(s, more), t, u) && Distance(Continue(s, more)) < Distance(s)
    ensures QueueInv(Continue(s, more)) && SubmitterInv(Continue(s, more))
  {
    var s1 := Then(s, Complete({t}));
    more := [Complete({t}), Check(t)];
    TwoSteps(s, Complete({t}), Check(t));
    SleepsAgain(s, t, u);
    QueueStep(s, Complete({t}));
    SubmitterStep(s, Complete({t}));
    QueueStep(s1, Check(t));
    SubmitterStep(s1, Check(t));
  }

  /** From two sleepers on unfinished jobs some schedule makes one of them miss its wake. */
  lemma PairCanMiss(s: State, t: Thread, u: Thread) returns (more: seq<Action>)
    requires QueueInv(s) && SubmitterInv(s) && Pair(s, t, u)
    ensures Missed(Continue(s, more))
    decreases Distance(s)
  {
    var first := Closer(s, t, u);
    var s1 := Continue(s, first);
    if Missed(s1) { return first; }
    var rest := PairCanMiss(s1, t, u);
    ContinueAppend(s, first, rest);
    more := first + rest;
  }

  /** A wake can be missed after a run exactly if one is missed already or two submitters can come to sleep
      on unfinished jobs at once. */
  lemma MissExactly(run: seq<Action>)
    ensures (exists more :: Missed(After(run + more))) <==>
            Missed(After(run)) || exists more :: Paired(After(run + more))
  {
    if more :| Missed(After(run + more)) {
      if !Missed(After(run)) { MissHadPair(run, more); }
    }
    if Missed(After(run)) { assert run + [] == run && Missed(After(run + [])); }
    if part :| Paired(After(run + part)) { PairedMisses(run, part); }
  }

  lemma ReachedPairCanMiss(run: seq<Action>) returns (rest: seq<Action>)
    requires Paired(After(run))
    ensures Missed(After(run + rest))
  {
    ExactlyOnceInOrder(run);
    var t, u :| Pair(After(run), t, u);
    rest := PairCanMiss(After(run), t, u);
    Continues(run, rest);
  }

  lemma PairedMisses(run: seq<Action>, part: seq<Action>)
    requires Paired(After(run + part))
    ensures exists more :: Missed(After(run + more))
  {
    var rest := ReachedPairCanMiss(run + part);
    assert run + part + rest == run + (part + rest);
  }
}
