/** The worker pool: a job list and a shutdown flag under one mutex, and a condition variable. */
module ThreadPool {
  // The condition variable is notified after the mutex has been released.
  // Each critical section is one step.

  import opened Basics

  type Job = nat

  datatype Worker =
    | Checking              // about to take the mutex and test the wait condition
    | Asleep                // waiting, not notified
    | Woken                 // notified or woken spuriously; must test again
    | Running(job: Job)
    | Exited

  /** The thread inside `shutdown`. */
  datatype Stopper =
    | NotCalled
    | Flagged               // shutdown_ is set, notify_all still to come
    | Joining(next: nat)    // threads below `next` have been joined
    | Returned

  datatype State = State(
    workers: seq<Worker>,
    jobs: seq<Job>,
    stopper: Stopper,
    pending: nat,           // enqueue calls that have unlocked and not yet notified
    accepted: seq<Job>,     // history: jobs taken in by enqueue
    started: seq<Job>,      // history: jobs dequeued
    finished: multiset<Job>,
    late: bool)             // history: some job was accepted after the flag was set

  datatype Action =
    | Enqueue(job: Job)                  // the critical section of enqueue
    | Notify(wake: Option<nat>)          // its notify_one and the worker it wakes
    | Spurious(w: nat)
    | Test(w: nat)                       // a worker's critical section
    | Finish(w: nat)                     // fn() returns
    | Shutdown
    | NotifyAll
    | Join

  predicate Stopping(s: State) { !s.stopper.NotCalled? }

  /** `max_queued_requests_`; 0 means no limit. */
  predicate HasRoom(limit: nat, jobs: seq<Job>) { limit == 0 || |jobs| < limit }

  predicate IsAsleep(ws: seq<Worker>, w: nat) { w < |ws| && ws[w].Asleep? }

  predicate CanNotify(ws: seq<Worker>, wake: Option<nat>) {
    match wake
    case Some(w) => IsAsleep(ws, w)
    case None => forall w :: 0 <= w < |ws| ==> !ws[w].Asleep?
  }

  predicate Enabled(s: State, a: Action) {
    match a
    case Enqueue(_) => true
    case Notify(wake) => s.pending > 0 && CanNotify(s.workers, wake)
    case Spurious(w) => IsAsleep(s.workers, w)
    case Test(w) => w < |s.workers| && (s.workers[w].Checking? || s.workers[w].Woken?)
    case Finish(w) => w < |s.workers| && s.workers[w].Running?
    case Shutdown => s.stopper.NotCalled?
    case NotifyAll => s.stopper.Flagged?
    case Join =>
      s.stopper.Joining? && (s.stopper.next < |s.workers| ==> s.workers[s.stopper.next].Exited?)
  }

  function Enqueued(limit: nat, s: State, job: Job): State {
    if HasRoom(limit, s.jobs)
    then s.(jobs := s.jobs + [job], accepted := s.accepted + [job],
            pending := s.pending + 1, late := s.late || Stopping(s))
    else s
  }

  function With(s: State, w: nat, pc: Worker): State
    requires w < |s.workers|
  {
    s.(workers := s.workers[w := pc])
  }

  function Tested(s: State, w: nat): State
    requires w < |s.workers|
  {
    if s.jobs != [] then
      With(s, w, Running(s.jobs[0])).(jobs := s.jobs[1..], started := s.started + [s.jobs[0]])
    else if Stopping(s) then With(s, w, Exited)
    else With(s, w, Asleep)
  }

  function WakeAll(ws: seq<Worker>): (r: seq<Worker>)
    ensures |r| == |ws|
    ensures forall w :: 0 <= w < |ws| ==> r[w] == if ws[w].Asleep? then Woken else ws[w]
  {
    if ws == [] then []
    else WakeAll(ws[..|ws| - 1]) + [if ws[|ws| - 1].Asleep? then Woken else ws[|ws| - 1]]
  }

  function Apply(limit: nat, s: State, a: Action): State
    requires Enabled(s, a)
  {
    match a
    case Enqueue(job) => Enqueued(limit, s, job)
    case Notify(wake) =>
      var t := s.(pending := s.pending - 1);
      if wake.Some? then With(t, wake.value, Woken) else t
    case Spurious(w) => With(s, w, Woken)
    case Test(w) => Tested(s, w)
    case Finish(w) => With(s, w, Checking).(finished := s.finished + multiset{s.workers[w].job})
    case Shutdown => s.(stopper := Flagged)
    case NotifyAll => s.(stopper := Joining(0), workers := WakeAll(s.workers))
    case Join =>
      if s.stopper.next < |s.workers| then s.(stopper := Joining(s.stopper.next + 1)) else s.(stopper := Returned)
  }

  predicate CanRun(limit: nat, s: State, acts: seq<Action>)
    decreases |acts|
  {
    acts == [] || (Enabled(s, acts[0]) && CanRun(limit, Apply(limit, s, acts[0]), acts[1..]))
  }

  function Exec(limit: nat, s: State, acts: seq<Action>): State
    requires CanRun(limit, s, acts)
    decreases |acts|
  {
    if acts == [] then s else Exec(limit, Apply(limit, s, acts[0]), acts[1..])
  }

  /** `ThreadPool(n, limit)`. */
  function Init(n: nat): State {
    State(seq(n, _ => Checking), [], NotCalled, 0, [], [], multiset{}, false)
  }

  // --------------------------------------------------------------------- invariants

  function Sum(ws: seq<Worker>, f: Worker -> nat): nat {
    if ws == [] then 0 else Sum(ws[..|ws| - 1], f) + f(ws[|ws| - 1])
  }

  const IsWoken: Worker -> nat := (w: Worker) => if w.Woken? then 1 else 0

  function Runs(job: Job): Worker -> nat { (w: Worker) => if w == Running(job) then 1 else 0 }

  ghost predicate SomeAsleep(s: State) { exists w :: IsAsleep(s.workers, w) }

  ghost predicate SomeExited(s: State) { exists w :: 0 <= w < |s.workers| && s.workers[w].Exited? }

  /** Of the times a job was dequeued, each is a finished run or a worker running it. */
  ghost predicate EachOnce(s: State) {
    forall job :: multiset(s.started)[job] == s.finished[job] + Sum(s.workers, Runs(job))
  }

  /** Jobs leave in the order they came; each dequeued job is running or has finished, once. */
  ghost predicate Ordered(limit: nat, s: State) {
    && s.started + s.jobs == s.accepted
    && EachOnce(s)
    && (limit > 0 ==> |s.jobs| <= limit)
  }

  /** While a worker sleeps, each queued job has a notification or a woken worker on its way. */
  ghost predicate NoLostWakeup(s: State) {
    && (SomeAsleep(s) ==> |s.jobs| <= Sum(s.workers, IsWoken) + s.pending)
    && (s.stopper.Joining? || s.stopper.Returned? ==> !SomeAsleep(s))
  }

  /** Workers leave only after the flag, and only past the last job unless one came late. */
  ghost predicate Leaving(s: State) {
    && (SomeExited(s) ==> Stopping(s))
    && (SomeExited(s) && !s.late ==> s.jobs == [])
    && (s.late ==> Stopping(s))
    && (forall w :: 0 <= w < |s.workers| && (s.stopper.Returned? || (s.stopper.Joining? && w < s.stopper.next))
          ==> s.workers[w].Exited?)
  }

  ghost predicate Inv(limit: nat, s: State) { Ordered(limit, s) && NoLostWakeup(s) && Leaving(s) }
}
