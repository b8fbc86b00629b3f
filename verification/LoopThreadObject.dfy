/**
 The fields of the loop thread and what its regions under the mutex do to them.

 `Shows` relates the fields to a state of the machine in LoopThread.dfy.  Every method is one region: it
 is given a state that the fields show and leaves the fields showing the state after the machine's step,
 so that what is proved of the machine's runs holds of the object.

 The region before the wait is entered at the start of a trip (`Enter`) and after a wakeup (`Reenter`);
 the one behind the loop function is `Update`.
 */
module LoopThreadObject {
  import L = LoopThread

  datatype Created = Refused | Made(thread: LoopObject)

  /** A negative interval is refused. */
  method CreateLoopThread(loopIntervalUs: int, strictMode: bool) returns (r: Created)
    ensures r.Refused? <==> loopIntervalUs < 0
    ensures r.Made? ==> fresh(r.thread) && forall t0: nat :: r.thread.Shows(L.Init(t0))
    ensures r.Made? ==> r.thread.loopIntervalUs == loopIntervalUs && r.thread.strictMode == strictMode
  {
    if loopIntervalUs < 0 {
      return Refused;
    }
    var t := new LoopObject(loopIntervalUs, strictMode);
    return Made(t);
  }

  class LoopObject {
    const loopIntervalUs: nat
    const strictMode: bool
    var isRunning: bool
    var nextRunTimeUs: int

    constructor (interval: nat, strict: bool)
      ensures isRunning && nextRunTimeUs == 0 && loopIntervalUs == interval && strictMode == strict
    {
      loopIntervalUs, strictMode, isRunning, nextRunTimeUs := interval, strict, true, 0;
    }

    /** The object's fields are those of the machine state `s`. */
    ghost predicate Shows(s: L.State)
      reads this
    {
      s.running == isRunning && s.next == nextRunTimeUs
    }

    method RunOnce(ghost s: L.State)
      requires Shows(s)
      modifies this
      ensures Shows(L.Apply(L.Config(loopIntervalUs, strictMode), s, L.RunOnce))
    {
      nextRunTimeUs := -1;
    }

    /** The region of Stop; `joins` says whether this call goes on to join the thread. */
    method StopRegion(ghost s: L.State) returns (joins: bool)
      requires Shows(s)
      modifies this
      ensures Shows(L.Apply(L.Config(loopIntervalUs, strictMode), s, L.Stop))
      ensures joins <==> old(isRunning)
    {
      joins := isRunning;
      isRunning := false;
    }

    /** The first region up to the wait: what the thread does next. */
    method Enter(nowUs: int, later: nat, ghost s: L.State) returns (pc: L.Pc)
      requires Shows(s) && s.pc.Top? && s.clock == nowUs
      modifies this
      ensures var s' := L.Apply(L.Config(loopIntervalUs, strictMode), s, L.Pass(later));
              Shows(s') && pc == s'.pc
    {
      if !isRunning {
        return L.Exited;
      }
      if nowUs < nextRunTimeUs {
        return L.Asleep;
      }
      pc := Settle(nowUs + later);
    }

    /** The first region after the wait. */
    method Reenter(nowUs: int, ghost s: L.State) returns (pc: L.Pc)
      requires Shows(s) && s.pc.Woken? && s.clock <= nowUs
      modifies this
      ensures var s' := L.Apply(L.Config(loopIntervalUs, strictMode), s, L.Resume(nowUs - s.clock));
              Shows(s') && pc == s'.pc
    {
      if !isRunning {
        return L.Exited;
      }
      pc := Settle(nowUs);
    }

    method Settle(nowUs: int) returns (pc: L.Pc)
      modifies this`nextRunTimeUs
      ensures nextRunTimeUs == if old(nextRunTimeUs) == -1 then 0 else old(nextRunTimeUs)
      ensures pc == if nowUs < nextRunTimeUs then L.Top else L.Decided(nowUs)
    {
      if nextRunTimeUs == -1 {
        nextRunTimeUs := 0;
      }
      return if nowUs < nextRunTimeUs then L.Top else L.Decided(nowUs);
    }

    /** The second region. */
    method Update(nowUs: int, ghost s: L.State)
      requires Shows(s) && s.pc == L.Finished(nowUs)
      modifies this
      ensures Shows(L.Apply(L.Config(loopIntervalUs, strictMode), s, L.Update))
    {
      if nextRunTimeUs != -1 {
        nextRunTimeUs := nowUs + loopIntervalUs;
      }
    }
  }
}
