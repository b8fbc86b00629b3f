/** The periodic loop thread: a clock, a "run now" request coded as -1 in the next run time, and a stop handshake. */
module LoopThread {
  // Each region under the mutex is one step of the loop thread; time passes, callers call and
  // the condition variable wakes up (also for no reason) in between.

  /** `interval` and `strict` are fixed at creation; a negative interval is refused there. */
  datatype Config = Config(interval: nat, strict: bool)

  datatype Pc =
    | Top                      // before the first region
    | Asleep                   // in wait_for, not notified
    | Woken                    // out of the wait, about to take the mutex again
    | Decided(now: int)        // out of the first region, about to call the loop function
    | Running(now: int)        // in the loop function
    | Finished(now: int)       // about to set the next run time
    | Exited

  /** The Stop call that flips `is_running_`. */
  datatype StopCall = NotCalled | Joining | Returned

  datatype State = State(
    running: bool,
    next: int,                 // next_run_time_us_
    clock: int,
    pc: Pc,
    stop: StopCall,
    starts: nat,               // calls of the loop function begun
    requests: nat)             // calls of RunOnce

  datatype Action =
    | Pass(dt: nat)            // first region; dt passes between its two clock readings
    | Resume(dt: nat)          // first region, after the wait
    | Start
    | Return
    | Update                   // second region
    | Tick(dt: nat)
    | Wake                     // time-out or spurious wakeup
    | RunOnce
    | Stop
    | StopReturns

  predicate IsLoopStep(a: Action) { a.Pass? || a.Resume? || a.Start? || a.Return? || a.Update? }

  function Init(t0: nat): State { State(true, 0, t0, Top, NotCalled, 0, 0) }

  predicate Enabled(s: State, a: Action) {
    match a
    case Pass(_) => s.pc.Top?
    case Resume(_) => s.pc.Woken?
    case Start => s.pc.Decided?
    case Return => s.pc.Running?
    case Update => s.pc.Finished?
    case Tick(_) => true
    case Wake => s.pc.Asleep?
    case RunOnce => true
    case Stop => true
    case StopReturns => s.stop.Joining? && s.pc.Exited?
  }

  /** The end of the first region, from the test for a request on. */
  function Settle(s: State, dt: nat): State {
    var next := if s.next == -1 then 0 else s.next;
    var now := s.clock + dt;
    s.(next := next, clock := now, pc := if now < next then Top else Decided(now))
  }

  /** `notify_all`. */
  function Notify(pc: Pc): Pc { if pc.Asleep? then Woken else pc }

  function Apply(c: Config, s: State, a: Action): State
    requires Enabled(s, a)
  {
    match a
    case Pass(dt) =>
      if !s.running then s.(pc := Exited)
      else if s.clock < s.next then s.(pc := Asleep)
      else Settle(s, dt)
    case Resume(dt) => if !s.running then s.(pc := Exited) else Settle(s, dt)
    case Start => s.(pc := Running(s.pc.now), starts := s.starts + 1)
    case Return => s.(pc := Finished(if c.strict then s.clock else s.pc.now))
    case Update => s.(pc := Top, next := if s.next != -1 then s.pc.now + c.interval else s.next)
    case Tick(dt) => s.(clock := s.clock + dt)
    case Wake => s.(pc := Woken)
    case RunOnce => s.(next := -1, pc := Notify(s.pc), requests := s.requests + 1)
    case Stop => if s.running then s.(running := false, pc := Notify(s.pc), stop := Joining) else s
    case StopReturns => s.(stop := Returned)
  }

  predicate CanRun(c: Config, s: State, acts: seq<Action>)
    decreases |acts|
  {
    acts == [] || (Enabled(s, acts[0]) && CanRun(c, Apply(c, s, acts[0]), acts[1..]))
  }

  function Exec(c: Config, s: State, acts: seq<Action>): State
    requires CanRun(c, s, acts)
    decreases |acts|
  {
    if acts == [] then s else Exec(c, Apply(c, s, acts[0]), acts[1..])
  }

  function LoopSteps(acts: seq<Action>): nat {
    if acts == [] then 0 else (if IsLoopStep(acts[0]) then 1 else 0) + LoopSteps(acts[1..])
  }

  // ------------------------------------------------------- what every step keeps

  /** A sleeping loop has neither a request nor a stop to miss; a returned Stop has joined. */
  ghost predicate Inv(s: State) {
    && 0 <= s.clock && -1 <= s.next
    && (s.pc.Decided? || s.pc.Running? || s.pc.Finished? ==> 0 <= s.pc.now <= s.clock)
    && (s.pc.Asleep? ==> s.running && s.next != -1)
    && (s.running <==> s.stop.NotCalled?)
    && (s.running ==> !s.pc.Exited?)
    && (s.stop.Returned? ==> s.pc.Exited?)
  }

  lemma StepInv(c: Config, s: State, a: Action)
    requires Inv(s) && Enabled(s, a)
    ensures Inv(Apply(c, s, a))
  {
  }

  lemma {:induction false} RunInv(c: Config, s: State, acts: seq<Action>)
    requires Inv(s) && CanRun(c, s, acts)
    ensures Inv(Exec(c, s, acts))
    decreases |acts|
  {
    if acts != [] {
      StepInv(c, s, acts[0]);
      RunInv(c, Apply(c, s, acts[0]), acts[1..]);
    }
  }

  // ------------------------------------------------------------- never lost

  /** Loop steps left before the next start, once a start is certain. */
  function StepsToStart(pc: Pc): nat {
    match pc
    case Running(_) => 4
    case Finished(_) => 3
    case Top | Woken | Asleep => 2
    case Decided(_) => 1
    case Exited => 0
  }

  /** Between two calls of the loop function. */
  predicate Waiting(pc: Pc) { pc.Top? || pc.Asleep? || pc.Woken? }

  /** A request is pending, the next run time has come, or a start is already decided. */
  ghost predicate StartDue(s: State) {
    Inv(s) && s.running && (s.next == -1 || s.pc.Decided? || (Waiting(s.pc) && s.next <= s.clock))
  }

  /** While a start is due every step keeps it due, and every loop step brings it nearer. */
  lemma DueStep(c: Config, s: State, a: Action)
    requires StartDue(s) && Enabled(s, a) && !a.Stop?
    ensures var s' := Apply(c, s, a);
            || s'.starts > s.starts
            || (StartDue(s') && s'.starts == s.starts
                && StepsToStart(s'.pc) <= StepsToStart(s.pc) - (if IsLoopStep(a) then 1 else 0))
  {
    StepInv(c, s, a);
  }

  /** A sleeping loop is woken by the time-out of its wait. */
  lemma DueCanStep(s: State) returns (a: Action)
    requires StartDue(s)
    ensures Enabled(s, a) && if s.pc.Asleep? then a == Wake else IsLoopStep(a)
  {
    match s.pc
    case Asleep => a := Wake;
    case Top => a := Pass(0);
    case Woken => a := Resume(0);
    case Decided(_) => a := Start;
    case Running(_) => a := Return;
    case Finished(_) => a := Update;
  }

  lemma StartsGrow(c: Config, s: State, acts: seq<Action>)
    requires CanRun(c, s, acts)
    ensures Exec(c, s, acts).starts >= s.starts
    decreases |acts|
  {
  }

  lemma {:induction false} DueRun(c: Config, s: State, acts: seq<Action>)
    requires StartDue(s) && CanRun(c, s, acts) && Stop !in acts
    requires LoopSteps(acts) >= StepsToStart(s.pc)
    ensures Exec(c, s, acts).starts > s.starts
    decreases |acts|
  {
    DuePositive(s);
    DueStep(c, s, acts[0]);
    var s' := Apply(c, s, acts[0]);
    if s'.starts > s.starts {
      StartsGrow(c, s', acts[1..]);
    } else {
      DueRun(c, s', acts[1..]);
    }
  }

  lemma DuePositive(s: State)
    requires StartDue(s)
    ensures StepsToStart(s.pc) > 0
  {
  }

  /** A loop with a start due is never stuck: left to itself it gets there. */
  lemma {:induction false} DueReachesStart(c: Config, s: State) returns (acts: seq<Action>)
    requires StartDue(s)
    ensures CanRun(c, s, acts) && Exec(c, s, acts).starts > s.starts
    ensures |acts| <= StepsToStart(s.pc) + if s.pc.Asleep? then 1 else 0
    ensures forall i :: 0 <= i < |acts| ==> IsLoopStep(acts[i]) || acts[i] == Wake
    decreases StepsToStart(s.pc), if s.pc.Asleep? then 1 else 0
  {
    var a := DueCanStep(s);
    var s' := Apply(c, s, a);
    DueStep(c, s, a);
    var rest := [];
    if s'.starts == s.starts {
      rest := DueReachesStart(c, s');
    }
    acts := [a] + rest;
    assert acts[1..] == rest;
  }

  /** RunOnce is never lost: whatever else happens, the loop function starts again within four loop steps. */
  lemma RunOnceForcesStart(c: Config, t0: nat, before: seq<Action>, after: seq<Action>)
    requires CanRun(c, Init(t0), before) && Exec(c, Init(t0), before).running
    requires CanRun(c, Apply(c, Exec(c, Init(t0), before), RunOnce), after)
    requires Stop !in after && LoopSteps(after) >= 4
    ensures Exec(c, Apply(c, Exec(c, Init(t0), before), RunOnce), after).starts > Exec(c, Init(t0), before).starts
  {
    RunInv(c, Init(t0), before);
    var s := Apply(c, Exec(c, Init(t0), before), RunOnce);
    StepInv(c, Exec(c, Init(t0), before), RunOnce);
    DueRun(c, s, after);
  }

  // --------------------------------------------------------------- the period

  /**
   The time from which the interval is counted: in strict mode when the loop function last returned,
   otherwise when its last start was decided.
   */
  function Stamp(c: Config, s: State, s': State, last: int): int {
    if c.strict then if s.pc.Running? && s'.pc.Finished? then s.clock else last
    else if s'.pc.Decided? && !s.pc.Decided? then s'.clock else last
  }

  function LastStamp(c: Config, s: State, acts: seq<Action>, last: int): int
    requires CanRun(c, s, acts)
    decreases |acts|
  {
    if acts == [] then last
    else
      var s' := Apply(c, s, acts[0]);
      LastStamp(c, s', acts[1..], Stamp(c, s, s', last))
  }

  /** A new loop is due at time 0. */
  function NewStamp(c: Config): int { 0 - c.interval }

  /** Between two calls the next run time is one interval after the stamp, or a request is pending. */
  ghost predicate Timed(c: Config, s: State, last: int) {
    && (Waiting(s.pc) ==> s.next == -1 || s.next == last + c.interval)
    && (s.pc.Finished? ==> s.pc.now == last)
    && (!c.strict && (s.pc.Decided? || s.pc.Running?) ==> s.pc.now == last)
  }

  lemma StepTimed(c: Config, s: State, a: Action, last: int)
    requires Inv(s) && Enabled(s, a) && Timed(c, s, last)
    ensures Timed(c, Apply(c, s, a), Stamp(c, s, Apply(c, s, a), last))
  {
  }

  lemma {:induction false} RunTimed(c: Config, s: State, acts: seq<Action>, last: int)
    requires Inv(s) && CanRun(c, s, acts) && Timed(c, s, last)
    ensures Timed(c, Exec(c, s, acts), LastStamp(c, s, acts, last))
    decreases |acts|
  {
    if acts != [] {
      var s' := Apply(c, s, acts[0]);
      StepInv(c, s, acts[0]);
      StepTimed(c, s, acts[0], last);
      RunTimed(c, s', acts[1..], Stamp(c, s, s', last));
    }
  }

  /**
   The period is kept: in every run, between two calls of the loop function, once an interval has passed
   since the stamp the function starts again within two loop steps.  A new loop is due at once.
   */
  lemma PeriodForcesStart(c: Config, t0: nat, before: seq<Action>, after: seq<Action>)
    requires CanRun(c, Init(t0), before) && Exec(c, Init(t0), before).running
    requires Waiting(Exec(c, Init(t0), before).pc) && CanRun(c, Exec(c, Init(t0), before), after)
    requires Exec(c, Init(t0), before).clock >= LastStamp(c, Init(t0), before, NewStamp(c)) + c.interval
    requires Stop !in after && LoopSteps(after) >= 2
    ensures Exec(c, Exec(c, Init(t0), before), after).starts > Exec(c, Init(t0), before).starts
  {
    RunInv(c, Init(t0), before);
    RunTimed(c, Init(t0), before, NewStamp(c));
    DueRun(c, Exec(c, Init(t0), before), after);
  }

  /** And not cut short: without a request a start is decided only when an interval has passed. */
  lemma NoStartBeforeDue(c: Config, t0: nat, before: seq<Action>, a: Action)
    requires CanRun(c, Init(t0), before) && Enabled(Exec(c, Init(t0), before), a)
    ensures var s := Exec(c, Init(t0), before);
            var s' := Apply(c, s, a);
            !s.pc.Decided? && s'.pc.Decided? && s.next != -1 ==>
              s'.clock >= LastStamp(c, Init(t0), before, NewStamp(c)) + c.interval
  {
    RunInv(c, Init(t0), before);
    RunTimed(c, Init(t0), before, NewStamp(c));
  }

  /** Until then, without a request, the loop goes to sleep instead of running on. */
  lemma SleepsUntilDue(c: Config, t0: nat, before: seq<Action>, dt: nat)
    requires CanRun(c, Init(t0), before)
    requires var s := Exec(c, Init(t0), before);
             && s.running && s.pc.Top? && s.next != -1
             && s.clock < LastStamp(c, Init(t0), before, NewStamp(c)) + c.interval
    ensures Apply(c, Exec(c, Init(t0), before), Pass(dt)).pc == Asleep
  {
    RunInv(c, Init(t0), before);
    RunTimed(c, Init(t0), before, NewStamp(c));
  }

  function StartCount(acts: seq<Action>): nat {
    if acts == [] then 0 else (if acts[0] == Start then 1 else 0) + StartCount(acts[1..])
  }

  function RunOnceCount(acts: seq<Action>): nat {
    if acts == [] then 0 else (if acts[0] == RunOnce then 1 else 0) + RunOnceCount(acts[1..])
  }

  /** Time that passes outside the loop's own regions. */
  function Ticks(acts: seq<Action>): nat {
    if acts == [] then 0 else (if acts[0].Tick? then acts[0].dt else 0) + Ticks(acts[1..])
  }

  /** The counters count the starts and the calls of RunOnce, and nothing else; the clock counts time. */
  lemma {:induction false} Counted(c: Config, s: State, acts: seq<Action>)
    requires CanRun(c, s, acts)
    ensures Exec(c, s, acts).starts == s.starts + StartCount(acts)
    ensures Exec(c, s, acts).requests == s.requests + RunOnceCount(acts)
    ensures Exec(c, s, acts).clock >= s.clock + Ticks(acts)
    decreases |acts|
  {
    if acts != [] {
      Counted(c, Apply(c, s, acts[0]), acts[1..]);
    }
  }

  // --------------------------------------------------------- never amplified

  /**
   Starts are charged to what caused them: the first run, a request, or a due time.
   `last` is when the last start was decided, `t0` when the thread was created.
   */
  datatype Account = Account(decisions: nat, served: nat, timed: nat, last: int)

  /** Books a decision to start, taken in the first region. */
  function Book(s: State, s': State, acc: Account): Account {
    if s'.pc.Decided? && !s.pc.Decided? then
      if s.next == -1 then acc.(decisions := acc.decisions + 1, served := acc.served + 1, last := s'.pc.now)
      else if acc.decisions == 0 then acc.(decisions := 1, last := s'.pc.now)
      else acc.(decisions := acc.decisions + 1, timed := acc.timed + 1, last := s'.pc.now)
    else acc
  }

  ghost predicate Balanced(c: Config, t0: nat, s: State, acc: Account) {
    && acc.decisions == s.starts + (if s.pc.Decided? then 1 else 0)
    && acc.decisions <= 1 + acc.served + acc.timed
    && acc.served + (if s.next == -1 then 1 else 0) <= s.requests
    && t0 <= acc.last <= s.clock
    && acc.timed * c.interval <= acc.last - t0
    && (s.pc.Decided? || s.pc.Running? || s.pc.Finished? ==> acc.last <= s.pc.now)
    && (s.pc.Top? || s.pc.Asleep? || s.pc.Woken? ==>
          s.next == -1 || acc.decisions == 0 || s.next >= acc.last + c.interval)
  }

  lemma AddOne(n: nat, k: nat, room: int, more: int)
    requires n * k <= room && room + k <= more
    ensures (n + 1) * k <= more
  {
  }

  lemma StepBalanced(c: Config, t0: nat, s: State, a: Action, acc: Account)
    requires Inv(s) && Enabled(s, a) && Balanced(c, t0, s, acc)
    ensures Balanced(c, t0, Apply(c, s, a), Book(s, Apply(c, s, a), acc))
  {
    var s' := Apply(c, s, a);
    var acc' := Book(s, s', acc);
    if acc'.timed == acc.timed + 1 {
      AddOne(acc.timed, c.interval, acc.last - t0, acc'.last - t0);
    } else {
      assert acc'.timed * c.interval == acc.timed * c.interval;
    }
  }

  lemma {:induction false} RunBalanced(c: Config, t0: nat, s: State, acts: seq<Action>, acc: Account)
    returns (acc': Account)
    requires Inv(s) && CanRun(c, s, acts) && Balanced(c, t0, s, acc)
    ensures Balanced(c, t0, Exec(c, s, acts), acc')
    decreases |acts|
  {
    acc' := acc;
    if acts != [] {
      var s1 := Apply(c, s, acts[0]);
      StepInv(c, s, acts[0]);
      StepBalanced(c, t0, s, acts[0], acc);
      acc' := RunBalanced(c, t0, s1, acts[1..], Book(s, s1, acc));
    }
  }

  /** Starts never exceed one, plus the requests, plus the whole intervals that have passed. */
  lemma NeverAmplified(c: Config, t0: nat, acts: seq<Action>)
    requires c.interval > 0 && CanRun(c, Init(t0), acts)
    ensures StartCount(acts) <= 1 + RunOnceCount(acts) + (Exec(c, Init(t0), acts).clock - t0) / c.interval
  {
    Counted(c, Init(t0), acts);
    var s := Exec(c, Init(t0), acts);
    var acc := RunBalanced(c, t0, Init(t0), acts, Account(0, 0, 0, t0));
    DivBound(acc.timed, c.interval, s.clock - t0);
  }

  lemma DivBound(n: nat, k: nat, elapsed: int)
    requires k > 0 && n * k <= elapsed
    ensures n <= elapsed / k
  {
    var q := elapsed / k;
    assert elapsed == q * k + elapsed % k;
    if n > q {
      MulAbove(n, q, k);
    }
  }

  lemma Distribute(a: int, b: int, k: int)
    ensures (a + b) * k == a * k + b * k
  {
  }

  lemma ProductNat(m: nat, k: nat)
    ensures m * k >= 0
  {
  }

  lemma MulAbove(n: nat, q: int, k: nat)
    requires n >= q + 1
    ensures n * k >= q * k + k
  {
    var m := n - q - 1;
    Distribute(q, 1, k);
    Distribute(q + 1, m, k);
    ProductNat(m, k);
  }

  // ----------------------------------------------------------- stop handshake

  /** Since the flip at `flip` starts, at most one more: the one already decided. */
  ghost predicate Stopping(s: State, flip: nat) {
    Inv(s) && !s.running && s.starts + (if s.pc.Decided? then 1 else 0) <= flip + 1
  }

  lemma StoppingStep(c: Config, s: State, a: Action, flip: nat)
    requires Stopping(s, flip) && Enabled(s, a)
    ensures Stopping(Apply(c, s, a), flip)
    ensures s.stop.Returned? ==> Apply(c, s, a).stop.Returned?
  {
    StepInv(c, s, a);
  }

  lemma {:induction false} StoppingRun(c: Config, s: State, acts: seq<Action>, flip: nat)
    requires Stopping(s, flip) && CanRun(c, s, acts)
    ensures Stopping(Exec(c, s, acts), flip)
    ensures s.stop.Returned? ==> Exec(c, s, acts).stop.Returned?
    decreases |acts|
  {
    if acts != [] {
      StoppingStep(c, s, acts[0], flip);
      StoppingRun(c, Apply(c, s, acts[0]), acts[1..], flip);
    }
  }

  /**
   The stop handshake.  `s` is any reachable state in which Stop flips `is_running_`: from
   there at most one more start occurs, and once that Stop has returned the loop function
   is not running and no start follows.
   */
  lemma StopHandshake(c: Config, t0: nat, before: seq<Action>, mid: seq<Action>, after: seq<Action>)
    requires CanRun(c, Init(t0), before) && Exec(c, Init(t0), before).running
    requires CanRun(c, Apply(c, Exec(c, Init(t0), before), Stop), mid)
    requires CanRun(c, Exec(c, Apply(c, Exec(c, Init(t0), before), Stop), mid), after)
    ensures var s := Exec(c, Init(t0), before);
            var m := Exec(c, Apply(c, s, Stop), mid);
            var e := Exec(c, m, after);
            && m.starts <= s.starts + 1
            && (m.stop.Returned? ==> e.pc.Exited? && e.starts == m.starts)
  {
    RunInv(c, Init(t0), before);
    var s := Exec(c, Init(t0), before);
    StepInv(c, s, Stop);
    StoppingRun(c, Apply(c, s, Stop), mid, s.starts);
    var m := Exec(c, Apply(c, s, Stop), mid);
    if m.stop.Returned? {
      ExitedRun(c, m, after);
    }
  }

  lemma {:induction false} ExitedRun(c: Config, s: State, acts: seq<Action>)
    requires Inv(s) && s.pc.Exited? && CanRun(c, s, acts)
    ensures Exec(c, s, acts).pc.Exited? && Exec(c, s, acts).starts == s.starts
    decreases |acts|
  {
    if acts != [] {
      StepInv(c, s, acts[0]);
      ExitedRun(c, Apply(c, s, acts[0]), acts[1..]);
    }
  }

  /** Loop steps left before the thread exits, once it has been told to. */
  function StepsToExit(pc: Pc): nat {
    match pc
    case Decided(_) => 4
    case Running(_) => 3
    case Finished(_) => 2
    case Top | Woken | Asleep => 1
    case Exited => 0
  }

  /** A stopped loop never sleeps, and within four of its steps it has exited: Stop returns and cannot hang. */
  lemma {:induction false} StopTerminates(c: Config, s: State, acts: seq<Action>)
    requires Inv(s) && !s.running && CanRun(c, s, acts)
    requires LoopSteps(acts) >= StepsToExit(s.pc)
    ensures var e := Exec(c, s, acts);
            && e.pc.Exited?
            && (e.stop.Returned? || (Enabled(e, StopReturns) && Apply(c, e, StopReturns).stop.Returned?))
    decreases |acts|
  {
    if s.pc.Exited? {
      ExitedRun(c, s, acts);
      StoppingRun(c, s, acts, s.starts);
    } else {
      StepInv(c, s, acts[0]);
      StopTerminates(c, Apply(c, s, acts[0]), acts[1..]);
    }
  }

  /**
   Only the flipping Stop waits: in every reachable state in which the loop function runs, once a Stop
   has flipped the flag any further one returns at once, while the function still runs and the first
   call still waits.
   */
  lemma SecondStopDoesNotWait(c: Config, t0: nat, before: seq<Action>)
    requires CanRun(c, Init(t0), before) && Exec(c, Init(t0), before).pc.Running?
    ensures var s := Apply(c, Exec(c, Init(t0), before), Stop);
            s.pc.Running? && s.stop.Joining? && Apply(c, s, Stop) == s && !Enabled(s, StopReturns)
  {
    RunInv(c, Init(t0), before);
  }
}
