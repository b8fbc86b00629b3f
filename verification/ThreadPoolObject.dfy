/**
 The critical sections of the worker pool as methods on the shared fields.

 `Shows` relates the fields to a state of the machine in ThreadPool.dfy.  `Enqueue` is the section of
 enqueue, `Take` that of a worker and `SetShutdown` that of shutdown.

 Notifying the condition variable comes after the mutex has been released and is a step of the machine
 only.
 */
module ThreadPoolObject {
  import opened ThreadPool

  class JobList {
    const limit: nat
    var jobs: seq<Job>
    var shutdown: bool

    constructor (limit: nat)
      ensures this.limit == limit && jobs == [] && !shutdown
    {
      this.limit, jobs, shutdown := limit, [], false;
    }

    /** The fields are those of the state `s`. */
    ghost predicate Shows(s: State)
      reads this
    {
      jobs == s.jobs && shutdown == Stopping(s)
    }

    /** The critical section of `enqueue`, as the step Enqueue of any state with these fields. */
    method Enqueue(job: Job) returns (ok: bool)
      modifies this`jobs
      ensures jobs == old(jobs) + if ok then [job] else []
      ensures ok <==> limit == 0 || |old(jobs)| < limit
      ensures forall s :: old(Shows(s)) ==> Shows(Enqueued(limit, s, job))
    {
      if limit > 0 && |jobs| >= limit {
        return false;
      }
      jobs := jobs + [job];
      return true;
    }

    /** A worker's critical section: the wait condition, then leaving or taking the first job. */
    method Take() returns (next: Worker)
      modifies this`jobs
      ensures next.Running? ==> [next.job] + jobs == old(jobs)
      ensures !next.Running? ==> jobs == old(jobs) == [] && next == if shutdown then Exited else Asleep
      ensures forall s: State, w: nat :: old(Shows(s)) && Enabled(s, Test(w)) ==>
                Shows(Tested(s, w)) && Tested(s, w).workers[w] == next
    {
      if jobs == [] && !shutdown {
        return Asleep;
      }
      if shutdown && jobs == [] {
        return Exited;
      }
      next := Running(jobs[0]);
      jobs := jobs[1..];
    }

    /** The critical section of `shutdown`, as the machine's step. */
    method SetShutdown()
      modifies this`shutdown
      ensures shutdown
      ensures forall s :: old(Shows(s)) && Enabled(s, Shutdown) ==> Shows(Apply(limit, s, Shutdown))
    {
      shutdown := true;
    }
  }
}
