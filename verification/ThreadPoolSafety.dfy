/** Every interleaving of the worker pool keeps the invariant; what runs, and when it ends. */
module ThreadPoolSafety {
  import opened Basics
  import opened ThreadPool

  lemma {:induction false} SumPut(ws: seq<Worker>, w: nat, pc: Worker, f: Worker -> nat)
    requires w < |ws|
    ensures Sum(ws[w := pc], f) + f(ws[w]) == Sum(ws, f) + f(pc)
  {
    var n := |ws| - 1;
    if w == n {
      assert ws[w := pc][..n] == ws[..n];
    } else {
      assert ws[w := pc][..n] == ws[..n][w := pc];
      SumPut(ws[..n], w, pc, f);
    }
  }

  lemma {:induction false} RunsWakeAll(ws: seq<Worker>, job: Job)
    ensures Sum(WakeAll(ws), Runs(job)) == Sum(ws, Runs(job))
  {
    if ws != [] {
      var n := |ws| - 1;
      RunsWakeAll(ws[..n], job);
      assert WakeAll(ws)[..n] == WakeAll(ws[..n]);
    }
  }

  lemma {:induction false} SumZero(ws: seq<Worker>, f: Worker -> nat)
    requires forall w :: 0 <= w < |ws| ==> f(ws[w]) == 0
    ensures Sum(ws, f) == 0
  {
    if ws != [] {
      SumZero(ws[..|ws| - 1], f);
    }
  }

  // ------------------------------------------------------------------- step by step

  /** A worker changes its state; histories change accordingly. */
  lemma MoveOnce(s: State, w: nat, pc: Worker, t: State)
    requires EachOnce(s) && w < |s.workers| && t.workers == s.workers[w := pc]
    requires forall job :: multiset(t.started)[job] + s.finished[job] + Runs(job)(s.workers[w])
                        == multiset(s.started)[job] + t.finished[job] + Runs(job)(pc)
    ensures EachOnce(t)
  {
    forall job
      ensures multiset(t.started)[job] == t.finished[job] + Sum(t.workers, Runs(job))
    {
      SumPut(s.workers, w, pc, Runs(job));
    }
  }

  lemma StepOnce(limit: nat, s: State, a: Action)
    requires EachOnce(s) && Enabled(s, a)
    ensures EachOnce(Apply(limit, s, a))
  {
    var t := Apply(limit, s, a);
    match a
    case Notify(wake) =>
      if wake.Some? {
        MoveOnce(s, wake.value, Woken, t);
      }
    case Spurious(w) => MoveOnce(s, w, Woken, t);
    case Test(w) => TestOnce(s, w);
    case Finish(w) => FinishOnce(limit, s, w);
    case NotifyAll =>
      forall job
        ensures Sum(t.workers, Runs(job)) == Sum(s.workers, Runs(job))
      {
        RunsWakeAll(s.workers, job);
      }
    case Enqueue(_) =>
    case Shutdown =>
    case Join =>
  }

  lemma TestOnce(s: State, w: nat)
    requires EachOnce(s) && Enabled(s, Test(w))
    ensures EachOnce(Tested(s, w))
  {
    if s.jobs != [] {
      Dequeue(s.started, s.jobs);
    }
    MoveOnce(s, w, Tested(s, w).workers[w], Tested(s, w));
  }

  lemma FinishOnce(limit: nat, s: State, w: nat)
    requires EachOnce(s) && Enabled(s, Finish(w))
    ensures EachOnce(Apply(limit, s, Finish(w)))
  {
    MoveOnce(s, w, Checking, Apply(limit, s, Finish(w)));
  }

  lemma StepOrdered(limit: nat, s: State, a: Action)
    requires Ordered(limit, s) && Enabled(s, a)
    ensures Ordered(limit, Apply(limit, s, a))
  {
    StepOnce(limit, s, a);
    StepQueue(limit, s, a);
  }

  lemma StepQueue(limit: nat, s: State, a: Action)
    requires s.started + s.jobs == s.accepted && (limit > 0 ==> |s.jobs| <= limit) && Enabled(s, a)
    ensures var t := Apply(limit, s, a); t.started + t.jobs == t.accepted && (limit > 0 ==> |t.jobs| <= limit)
  {
    if a.Enqueue? {
      assert s.started + (s.jobs + [a.job]) == s.started + s.jobs + [a.job];
    }
    if a.Test? && s.jobs != [] {
      Dequeue(s.started, s.jobs);
    }
  }

  lemma Dequeue(started: seq<Job>, jobs: seq<Job>)
    requires jobs != []
    ensures (started + [jobs[0]]) + jobs[1..] == started + jobs
    ensures multiset(started + [jobs[0]]) == multiset(started) + multiset{jobs[0]}
  {
    assert jobs == [jobs[0]] + jobs[1..];
  }

  /** When no job is running, what was accepted has finished or is still queued. */
  lemma NoneRunning(limit: nat, s: State)
    requires Ordered(limit, s) && forall w :: 0 <= w < |s.workers| ==> !s.workers[w].Running?
    ensures multiset(s.accepted) == s.finished + multiset(s.jobs)
  {
    forall job
      ensures multiset(s.started)[job] == s.finished[job]
    {
      SumZero(s.workers, Runs(job));
    }
    assert multiset(s.started) == s.finished;
    Counted(s.started, s.jobs);
  }

  lemma Counted(a: seq<Job>, b: seq<Job>)
    ensures multiset(a + b) == multiset(a) + multiset(b)
  {
  }

  lemma AsleepBefore(s: State, w: nat, pc: Worker)
    requires w < |s.workers| && !pc.Asleep? && SomeAsleep(With(s, w, pc))
    ensures SomeAsleep(s)
  {
    var v :| IsAsleep(With(s, w, pc).workers, v);
    assert IsAsleep(s.workers, v);
  }

  /** A worker that moves and does not fall asleep. */
  lemma MoveWakes(s: State, w: nat, pc: Worker, t: State)
    requires NoLostWakeup(s) && w < |s.workers| && !pc.Asleep?
    requires t.workers == s.workers[w := pc] && t.stopper == s.stopper
    requires |t.jobs| + IsWoken(s.workers[w]) + s.pending <= |s.jobs| + IsWoken(pc) + t.pending || t.jobs == []
    ensures NoLostWakeup(t)
  {
    SumPut(s.workers, w, pc, IsWoken);
    if SomeAsleep(t) {
      assert SomeAsleep(With(s, w, pc)) by {
        var v :| IsAsleep(t.workers, v);
        assert IsAsleep(With(s, w, pc).workers, v);
      }
      AsleepBefore(s, w, pc);
    }
  }

  lemma StepWakes(limit: nat, s: State, a: Action)
    requires NoLostWakeup(s) && Enabled(s, a)
    ensures NoLostWakeup(Apply(limit, s, a))
  {
    var t := Apply(limit, s, a);
    match a
    case Enqueue(job) => SameWorkers(s, t);
    case Notify(wake) =>
      if wake.Some? {
        MoveWakes(s, wake.value, Woken, t);
      } else {
        SameWorkers(s, t);
      }
    case Spurious(w) => MoveWakes(s, w, Woken, t);
    case Test(w) =>
      if s.jobs != [] || Stopping(s) {
        MoveWakes(s, w, t.workers[w], t);
      }
    case Finish(w) => MoveWakes(s, w, Checking, t);
    case Shutdown => SameWorkers(s, t);
    case NotifyAll =>
    case Join => SameWorkers(s, t);
  }

  lemma SameWorkers(s: State, t: State)
    requires t.workers == s.workers
    ensures SomeAsleep(t) <==> SomeAsleep(s)
  {
  }

  lemma ExitedBefore(s: State, t: State, w: nat, pc: Worker)
    requires w < |s.workers| && t.workers == s.workers[w := pc] && !pc.Exited? && SomeExited(t)
    ensures SomeExited(s)
  {
    var v :| 0 <= v < |t.workers| && t.workers[v].Exited?;
    assert s.workers[v].Exited?;
  }

  /** A worker that moves and does not exit. */
  lemma MoveLeaves(s: State, w: nat, pc: Worker, t: State)
    requires Leaving(s) && w < |s.workers| && !pc.Exited? && !s.workers[w].Exited?
    requires t.workers == s.workers[w := pc] && t.stopper == s.stopper && t.late == s.late
    requires s.jobs == [] ==> t.jobs == []
    ensures Leaving(t)
  {
    if SomeExited(t) {
      ExitedBefore(s, t, w, pc);
    }
  }

  lemma StepLeaves(limit: nat, s: State, a: Action)
    requires Leaving(s) && Enabled(s, a)
    ensures Leaving(Apply(limit, s, a))
  {
    var t := Apply(limit, s, a);
    match a
    case Enqueue(job) => assert SomeExited(t) <==> SomeExited(s);
    case Notify(wake) =>
      if wake.Some? {
        MoveLeaves(s, wake.value, Woken, t);
      } else {
        assert SomeExited(t) <==> SomeExited(s);
      }
    case Spurious(w) => MoveLeaves(s, w, Woken, t);
    case Test(w) =>
      if !t.workers[w].Exited? {
        MoveLeaves(s, w, t.workers[w], t);
      }
    case Finish(w) => MoveLeaves(s, w, Checking, t);
    case Shutdown => assert SomeExited(t) <==> SomeExited(s);
    case NotifyAll =>
      if SomeExited(t) {
        var v :| 0 <= v < |t.workers| && t.workers[v].Exited?;
        assert s.workers[v].Exited?;
      }
    case Join => assert SomeExited(t) <==> SomeExited(s);
  }

  lemma StepInv(limit: nat, s: State, a: Action)
    requires Inv(limit, s) && Enabled(s, a)
    ensures Inv(limit, Apply(limit, s, a))
  {
    StepOrdered(limit, s, a);
    StepWakes(limit, s, a);
    StepLeaves(limit, s, a);
  }

  lemma {:induction false} RunInv(limit: nat, s: State, acts: seq<Action>)
    requires Inv(limit, s) && CanRun(limit, s, acts)
    ensures Inv(limit, Exec(limit, s, acts))
    decreases |acts|
  {
    if acts != [] {
      StepInv(limit, s, acts[0]);
      RunInv(limit, Apply(limit, s, acts[0]), acts[1..]);
    }
  }

  lemma InitInv(limit: nat, n: nat)
    ensures Inv(limit, Init(n))
  {
    forall job
      ensures Sum(Init(n).workers, Runs(job)) == 0
    {
      SumZero(Init(n).workers, Runs(job));
    }
  }

  lemma {:induction false} WorkersKept(limit: nat, s: State, acts: seq<Action>)
    requires CanRun(limit, s, acts)
    ensures |Exec(limit, s, acts).workers| == |s.workers|
    decreases |acts|
  {
    if acts != [] {
      WorkersKept(limit, Apply(limit, s, acts[0]), acts[1..]);
    }
  }

  // -------------------------------------------------------------------- the results

  /**
   In every run: jobs are dequeued in the order of acceptance, each dequeued job is running or
   has run, once; the queue keeps to a non-zero limit; and when `shutdown` has returned, the jobs
   that ran are the accepted ones except those still queued, of which there are none if there was
   a worker and no job was accepted after the flag was set.
   */
  lemma Safety(limit: nat, n: nat, acts: seq<Action>)
    requires CanRun(limit, Init(n), acts)
    ensures var s := Exec(limit, Init(n), acts);
            && s.started + s.jobs == s.accepted
            && (forall job :: multiset(s.started)[job] == s.finished[job] + Sum(s.workers, Runs(job)))
            && (limit > 0 ==> |s.jobs| <= limit)
            && (s.stopper.Returned? ==> multiset(s.accepted) == s.finished + multiset(s.jobs))
            && (s.stopper.Returned? && n > 0 && !s.late ==> s.finished == multiset(s.accepted))
  {
    var s := Exec(limit, Init(n), acts);
    InitInv(limit, n);
    RunInv(limit, Init(n), acts);
    WorkersKept(limit, Init(n), acts);
    if s.stopper.Returned? {
      AllGone(limit, s);
    }
  }

  lemma AllGone(limit: nat, s: State)
    requires Inv(limit, s) && s.stopper.Returned?
    ensures multiset(s.accepted) == s.finished + multiset(s.jobs)
    ensures |s.workers| > 0 && !s.late ==> s.jobs == []
  {
    NoneRunning(limit, s);
    if |s.workers| > 0 {
      assert s.workers[0].Exited?;
    }
  }

  /** In every run a job is taken in exactly when there is no limit or fewer jobs than the limit wait to be started. */
  lemma AcceptedExactly(limit: nat, n: nat, acts: seq<Action>, job: Job)
    requires CanRun(limit, Init(n), acts)
    ensures var s := Exec(limit, Init(n), acts);
            var s' := Apply(limit, s, Enqueue(job));
            if limit == 0 || |s.accepted| - |s.started| < limit
            then s'.accepted == s.accepted + [job] && s'.pending == s.pending + 1
            else s' == s
  {
    Safety(limit, n, acts);
  }

  // ----------------------------------------------------------------------- progress

  /** Steps the pool takes by itself. */
  predicate Internal(a: Action) { !a.Enqueue? && !a.Spurious? && !a.Shutdown? }

  const Effort: Worker -> nat := (w: Worker) =>
    match w
    case Exited => 0
    case Asleep => 1
    case Checking | Woken => 2
    case Running(_) => 3

  function StopEffort(s: State): nat {
    match s.stopper
    case Flagged => 2 * |s.workers| + 3
    case Joining(k) => if k <= |s.workers| then |s.workers| - k + 1 else 1
    case _ => 0
  }

  /** A bound on the number of internal steps left. */
  function Measure(s: State): nat { 2 * |s.jobs| + 2 * s.pending + Sum(s.workers, Effort) + StopEffort(s) }

  lemma {:induction false} EffortWakeAll(ws: seq<Worker>)
    ensures Sum(WakeAll(ws), Effort) <= Sum(ws, Effort) + |ws|
  {
    if ws != [] {
      var n := |ws| - 1;
      EffortWakeAll(ws[..n]);
      assert WakeAll(ws)[..n] == WakeAll(ws[..n]);
    }
  }

  lemma Decreases(limit: nat, s: State, a: Action)
    requires Enabled(s, a) && Internal(a)
    ensures Measure(Apply(limit, s, a)) < Measure(s)
  {
    match a
    case Notify(wake) => NotifyDecreases(limit, s, wake);
    case Test(w) => TestDecreases(s, w);
    case Finish(w) => FinishDecreases(limit, s, w);
    case NotifyAll => EffortWakeAll(s.workers);
    case Join =>
  }

  lemma NotifyDecreases(limit: nat, s: State, wake: Option<nat>)
    requires Enabled(s, Notify(wake))
    ensures Measure(Apply(limit, s, Notify(wake))) < Measure(s)
  {
    if wake.Some? {
      SumPut(s.workers, wake.value, Woken, Effort);
      assert Effort(s.workers[wake.value]) == 1 && Effort(Woken) == 2;
    }
  }

  lemma FinishDecreases(limit: nat, s: State, w: nat)
    requires Enabled(s, Finish(w))
    ensures Measure(Apply(limit, s, Finish(w))) < Measure(s)
  {
    SumPut(s.workers, w, Checking, Effort);
    assert Effort(s.workers[w]) == 3 && Effort(Checking) == 2;
  }

  lemma TestDecreases(s: State, w: nat)
    requires Enabled(s, Test(w))
    ensures Measure(Tested(s, w)) < Measure(s)
  {
    var pc := Tested(s, w).workers[w];
    SumPut(s.workers, w, pc, Effort);
    assert Effort(s.workers[w]) == 2 && Effort(pc) <= 3;
  }

  /** Runs of internal steps are finite, whatever the schedule. */
  lemma {:induction false} InternalRunsEnd(limit: nat, s: State, acts: seq<Action>)
    requires CanRun(limit, s, acts) && forall i :: 0 <= i < |acts| ==> Internal(acts[i])
    ensures |acts| <= Measure(s)
    decreases |acts|
  {
    if acts != [] {
      Decreases(limit, s, acts[0]);
      InternalRunsEnd(limit, Apply(limit, s, acts[0]), acts[1..]);
    }
  }

  ghost predicate Quiescent(s: State) { forall a :: Internal(a) ==> !Enabled(s, a) }

  /** No worker that could move. */
  lemma Still(s: State, w: nat)
    requires Quiescent(s) && w < |s.workers|
    ensures s.workers[w].Asleep? || s.workers[w].Exited?
  {
    assert !Enabled(s, Test(w)) && !Enabled(s, Finish(w));
  }

  lemma NothingPending(s: State)
    requires Quiescent(s)
    ensures s.pending == 0
  {
    if w :| IsAsleep(s.workers, w) {
      assert !Enabled(s, Notify(Some(w)));
    } else {
      forall w | 0 <= w < |s.workers|
        ensures !s.workers[w].Asleep?
      {
        assert !IsAsleep(s.workers, w);
      }
      assert !Enabled(s, Notify(None));
    }
  }

  /**
   A pool that can go no further by itself has run every accepted job, or else `shutdown` was
   called; and a called `shutdown` has returned.
   */
  lemma StuckMeansDone(limit: nat, n: nat, acts: seq<Action>)
    requires n > 0 && CanRun(limit, Init(n), acts) && Quiescent(Exec(limit, Init(n), acts))
    ensures var s := Exec(limit, Init(n), acts);
            && (Stopping(s) ==> s.stopper.Returned?)
            && (!s.late ==> s.finished == multiset(s.accepted))
  {
    var s := Exec(limit, Init(n), acts);
    InitInv(limit, n);
    RunInv(limit, Init(n), acts);
    WorkersKept(limit, Init(n), acts);
    forall w | 0 <= w < |s.workers|
      ensures s.workers[w].Asleep? || s.workers[w].Exited?
    {
      Still(s, w);
    }
    NothingPending(s);
    if Stopping(s) {
      StopReturns(limit, s);
      AllGone(limit, s);
    } else {
      EmptyQueue(s);
      NoneRunning(limit, s);
      assert s.finished + multiset(s.jobs) == s.finished;
    }
  }

  lemma StopReturns(limit: nat, s: State)
    requires Inv(limit, s) && Quiescent(s) && Stopping(s)
    ensures s.stopper.Returned?
  {
    assert !Enabled(s, NotifyAll) && !Enabled(s, Join);
    if s.stopper.Joining? {
      var w := s.stopper.next;
      Still(s, w);
      assert IsAsleep(s.workers, w);
    }
  }

  lemma EmptyQueue(s: State)
    requires NoLostWakeup(s) && Leaving(s) && !Stopping(s) && s.pending == 0 && |s.workers| > 0
    requires forall w :: 0 <= w < |s.workers| ==> s.workers[w].Asleep? || s.workers[w].Exited?
    ensures s.jobs == []
  {
    assert IsAsleep(s.workers, 0);
    SumZero(s.workers, IsWoken);
  }

  // -------------------------------------------------------------- where it is not so

  ghost predicate Lost(s: State, job: Job) {
    s.stopper.Returned? && Quiescent(s) && s.accepted == [job] && s.finished == multiset{}
  }

  /** Of `n` workers the first `m` have left; `jobs` came in late. */
  function Shown(n: nat, m: nat, jobs: seq<Job>, stopper: Stopper, pending: nat): State {
    State(seq(n, i => if i < m then Exited else Checking), jobs, stopper, pending, jobs, [], multiset{}, jobs != [])
  }

  ghost predicate Reaches(limit: nat, s: State, t: State) {
    exists acts :: CanRun(limit, s, acts) && Exec(limit, s, acts) == t
  }

  lemma Goes(limit: nat, s: State, a: Action, t: State, u: State)
    requires Enabled(s, a) && Apply(limit, s, a) == t && Reaches(limit, t, u)
    ensures Reaches(limit, s, u)
  {
    var acts :| CanRun(limit, t, acts) && Exec(limit, t, acts) == u;
    ExecOne(limit, s, a, acts);
  }

  lemma Stays(limit: nat, s: State)
    ensures Reaches(limit, s, s)
  {
    assert CanRun(limit, s, []) && Exec(limit, s, []) == s;
  }

  /** The remaining workers find the flag set and the queue empty, and leave. */
  lemma {:induction false} AllLeave(limit: nat, n: nat, m: nat, end: State)
    requires m <= n && Reaches(limit, Shown(n, n, [], Flagged, 0), end)
    ensures Reaches(limit, Shown(n, m, [], Flagged, 0), end)
    decreases n - m
  {
    if m < n {
      AllLeave(limit, n, m + 1, end);
      var s, t := Shown(n, m, [], Flagged, 0), Shown(n, m + 1, [], Flagged, 0);
      assert s.workers[m := Exited] == t.workers;
      Goes(limit, s, Test(m), t, end);
    }
  }

  /** They are joined one after the other. */
  lemma {:induction false} AllJoined(limit: nat, n: nat, k: nat, job: Job, end: State)
    requires k <= n && Reaches(limit, Shown(n, n, [job], Returned, 1), end)
    ensures Reaches(limit, Shown(n, n, [job], Joining(k), 1), end)
    decreases n - k
  {
    if k < n {
      AllJoined(limit, n, k + 1, job, end);
      Goes(limit, Shown(n, n, [job], Joining(k), 1), Join, Shown(n, n, [job], Joining(k + 1), 1), end);
    } else {
      Goes(limit, Shown(n, n, [job], Joining(k), 1), Join, Shown(n, n, [job], Returned, 1), end);
    }
  }

  lemma LateJobEnds(limit: nat, n: nat, job: Job, end: State)
    requires end == Shown(n, n, [job], Returned, 0)
    ensures Reaches(limit, Shown(n, n, [job], Flagged, 1), end)
  {
    Stays(limit, end);
    Goes(limit, Shown(n, n, [job], Returned, 1), Notify(None), end, end);
    AllJoined(limit, n, 0, job, end);
    var s, t := Shown(n, n, [job], Flagged, 1), Shown(n, n, [job], Joining(0), 1);
    assert WakeAll(s.workers) == t.workers;
    Goes(limit, s, NotifyAll, t, end);
  }

  /** A job accepted after the flag may never run, for any number of workers and any limit: all may be gone already. */
  lemma LateJobLost(limit: nat, n: nat, job: Job)
    ensures exists s :: Reaches(limit, Init(n), s) && Lost(s, job)
  {
    var end := Shown(n, n, [job], Returned, 0);
    LateJobEnds(limit, n, job, end);
    Goes(limit, Shown(n, n, [], Flagged, 0), Enqueue(job), Shown(n, n, [job], Flagged, 1), end);
    AllLeave(limit, n, 0, end);
    assert Init(n).workers == Shown(n, 0, [], Flagged, 0).workers;
    Goes(limit, Init(n), Shutdown, Shown(n, 0, [], Flagged, 0), end);
    assert Lost(end, job);
  }

  lemma ExecOne(limit: nat, s: State, a: Action, rest: seq<Action>)
    requires Enabled(s, a) && CanRun(limit, Apply(limit, s, a), rest)
    ensures CanRun(limit, s, [a] + rest) && Exec(limit, s, [a] + rest) == Exec(limit, Apply(limit, s, a), rest)
  {
    assert ([a] + rest)[1..] == rest;
  }
}
