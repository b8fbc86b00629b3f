/** The crash handler as a protocol between threads. */
module CrashProtocol {
  // Signal masks, dispositions, the process flag `g_in_handler` and the per-thread flag
  // `t_in_handler`.  A crash signal may hit any thread that does not block it, at any time.  A
  // fault on a blocked signal, for which the kernel kills the process without asking the
  // handler, is not a step of this model.

  import opened Basics

  type ThreadId = nat

  datatype Signal = SEGV | ABRT | BUS | FPE | ILL

  const CRASH_SIGNALS: set<Signal> := {SEGV, ABRT, BUS, FPE, ILL}

  function Number(sig: Signal): nat {
    match sig
    case SEGV => 11
    case ABRT => 6
    case BUS => 7
    case FPE => 8
    case ILL => 4
  }

  /** What stood in `g_old_actions` before Install. */
  datatype OldAction = InfoHandler | PlainHandler | OldDefault | OldIgnored

  /** `logOpen` is `g_log_fd >= 0`. */
  datatype Config = Config(oldAction: Signal -> OldAction, logOpen: bool)

  /** What happens now when a signal is delivered. */
  datatype Disposition = Ours | Default | Ignored | Users

  datatype Pc =
    | Normal
    | Entry(sig: Signal)                    // KvcmCrashSigaction entered
    | Try(sig: Signal)                      // t_in_handler was false; about to test-and-set
    | Paused
    | Marked(sig: Signal)                   // g_in_handler taken; about to set t_in_handler
    | Dumping(sig: Signal, left: nat)       // output steps left
    | Dispatch(sig: Signal)                 // about to look at the old action
    | Unblocking(sig: Signal, call: bool)   // then call the old handler, or raise
    | InUser(sig: Signal)                   // in the old handler
    | Raising(sig: Signal)
    | Fallback(sig: Signal)                 // about to _exit(128 + sig)

  datatype Thread = Thread(pc: Pc, mask: set<Signal>, inHandler: bool)

  datatype Process = Live | Exited(code: int) | Killed(sig: Signal)

  datatype State = State(
    threads: map<ThreadId, Thread>,
    owner: Option<ThreadId>,                // who took g_in_handler
    disposition: map<Signal, Disposition>,
    process: Process,
    dumps: nat,                             // dumps started
    dumpDone: bool)

  datatype Action =
    | Deliver(t: ThreadId, sig: Signal)
    | Step(t: ThreadId)                     // one step of handler code
    | UserReturns(t: ThreadId)
    | UserSets(t: ThreadId, sig: Signal, d: Disposition)   // the old handler calls sigaction
    | SetMask(t: ThreadId, mask: set<Signal>)              // code outside the handler, or the old handler

  ghost predicate Init(s: State) {
    && (forall t :: t in s.threads ==> s.threads[t].pc == Normal && !s.threads[t].inHandler)
    && s.owner == None && s.process == Live && s.dumps == 0 && !s.dumpDone
    && (forall sig :: sig in s.disposition && s.disposition[sig] == Ours)
  }

  predicate InHandlerCode(pc: Pc) { !pc.Normal? && !pc.Paused? && !pc.InUser? }

  predicate Enabled(s: State, a: Action) {
    && s.process == Live
    && a.t in s.threads
    && match a
       case Deliver(t, sig) => sig !in s.threads[t].mask && sig in s.disposition
       case Step(t) => InHandlerCode(s.threads[t].pc)
       case UserReturns(t) => s.threads[t].pc.InUser?
       case UserSets(t, sig, _) => s.threads[t].pc.InUser?
       case SetMask(t, _) => s.threads[t].pc.Normal? || s.threads[t].pc.InUser?
  }

  function WithPc(s: State, t: ThreadId, pc: Pc): State
    requires t in s.threads
  {
    s.(threads := s.threads[t := s.threads[t].(pc := pc)])
  }

  /** A signal reaches thread `t`. */
  function Delivered(s: State, t: ThreadId, sig: Signal): State
    requires t in s.threads && sig in s.disposition
  {
    match s.disposition[sig]
    case Ours =>
      var th := s.threads[t];
      s.(threads := s.threads[t := th.(pc := Entry(sig), mask := th.mask + CRASH_SIGNALS)])
    case Default => s.(process := Killed(sig))
    case Ignored | Users => s
  }

  /** The old action is chained to. */
  function Dispatched(c: Config, s: State, t: ThreadId, sig: Signal): State
    requires t in s.threads
  {
    match c.oldAction(sig)
    case InfoHandler | PlainHandler => WithPc(s, t, Unblocking(sig, true))
    case OldDefault => WithPc(s, t, Unblocking(sig, false)).(disposition := s.disposition[sig := Default])
    case OldIgnored => WithPc(s, t, Fallback(sig))
  }

  /** backtrace and stderr; with a log file also the log and fsync. */
  function DumpSteps(c: Config): nat { if c.logOpen then 4 else 2 }

  function Stepped(c: Config, s: State, t: ThreadId): State
    requires t in s.threads && InHandlerCode(s.threads[t].pc)
  {
    var th := s.threads[t];
    match th.pc
    case Entry(sig) => if th.inHandler then s.(process := Exited(128 + Number(sig))) else WithPc(s, t, Try(sig))
    case Try(sig) => if s.owner.Some? then WithPc(s, t, Paused) else WithPc(s, t, Marked(sig)).(owner := Some(t))
    case Marked(sig) =>
      s.(threads := s.threads[t := th.(pc := Dumping(sig, DumpSteps(c)), inHandler := true)], dumps := s.dumps + 1)
    case Dumping(sig, left) =>
      if left > 1 then WithPc(s, t, Dumping(sig, left - 1)) else WithPc(s, t, Dispatch(sig)).(dumpDone := true)
    case Dispatch(sig) => Dispatched(c, s, t, sig)
    case Unblocking(sig, call) =>
      var next := if call then InUser(sig) else Raising(sig);
      s.(threads := s.threads[t := th.(pc := next, mask := th.mask - CRASH_SIGNALS)])
    case Raising(sig) =>
      if sig in s.disposition && s.disposition[sig] != Ignored && s.disposition[sig] != Users && sig !in th.mask
      then Delivered(s, t, sig) else WithPc(s, t, Fallback(sig))
    case Fallback(sig) => s.(process := Exited(128 + Number(sig)))
  }

  function Apply(c: Config, s: State, a: Action): State
    requires Enabled(s, a)
  {
    match a
    case Deliver(t, sig) => Delivered(s, t, sig)
    case Step(t) => Stepped(c, s, t)
    case UserReturns(t) => WithPc(s, t, Fallback(s.threads[t].pc.sig))
    case UserSets(t, sig, d) => s.(disposition := s.disposition[sig := d])
    case SetMask(t, mask) => s.(threads := s.threads[t := s.threads[t].(mask := mask)])
  }

  predicate CanRun(c: Config, s: State, acts: seq<Action>)
    decreases |acts|
  {
    acts == [] || (Enabled(s, acts[0]) && CanRun(c, Apply(c, s, acts[0]), acts[1..]))
  }

  function Exec(c: Config, s: State, acts: seq<Action>): State
    requires CanRun(c, s, acts)
    decreases |acts|
  {
    if acts == [] then s else Exec(c, Apply(c, s, acts[0]), acts[1..])
  }

  // ---------------------------------------------------------------- invariant

  /** Handler code that runs with every crash signal blocked. */
  predicate Shielded(pc: Pc) {
    pc.Entry? || pc.Try? || pc.Paused? || pc.Marked? || pc.Dumping? || pc.Dispatch? || pc.Unblocking?
  }

  /** Places only the thread that took `g_in_handler` can be in. */
  predicate OwnersPlace(pc: Pc) {
    pc.Marked? || pc.Dumping? || pc.Dispatch? || pc.Unblocking? || pc.InUser? || pc.Raising? || pc.Fallback?
  }

  predicate BeforeDump(pc: Pc) { pc.Marked? || pc.Dumping? }

  ghost predicate ThreadInv(s: State, t: ThreadId, th: Thread) {
    && (Shielded(th.pc) ==> CRASH_SIGNALS <= th.mask)
    && (OwnersPlace(th.pc) ==> s.owner == Some(t))
    && (th.inHandler ==> s.owner == Some(t) && !th.pc.Marked?)
    && (s.owner == Some(t) ==> (OwnersPlace(th.pc) || th.pc.Entry?) && (th.inHandler || th.pc.Marked?))
    && (s.owner == Some(t) ==> (BeforeDump(th.pc) <==> !s.dumpDone))
    && (s.owner == Some(t) ==> s.dumps == if th.pc.Marked? then 0 else 1)
  }

  ghost predicate Inv(s: State) {
    && (forall t :: t in s.threads ==> ThreadInv(s, t, s.threads[t]))
    && (s.owner.Some? ==> s.owner.value in s.threads)
    && (s.owner.None? ==> s.dumps == 0 && !s.dumpDone)
    && s.dumps <= 1
    && (s.dumpDone ==> s.dumps == 1)
    && (forall sig :: sig in s.disposition)
    && (!s.dumpDone ==> s.process == Live && forall sig :: s.disposition[sig] == Ours)
  }

  /** A step that changes only thread `t` and keeps `ThreadInv` for it. */
  lemma OthersKept(s: State, s': State, t: ThreadId)
    requires Inv(s) && t in s.threads && t in s'.threads && s'.threads == s.threads[t := s'.threads[t]]
    requires s'.owner == s.owner && s'.dumpDone == s.dumpDone && s'.dumps == s.dumps
    requires ThreadInv(s', t, s'.threads[t])
    ensures forall u :: u in s'.threads ==> ThreadInv(s', u, s'.threads[u])
  {
    forall u | u in s'.threads
      ensures ThreadInv(s', u, s'.threads[u])
    {
      assert u in s.threads && ThreadInv(s, u, s.threads[u]);
    }
  }

  lemma DeliveredInv(s: State, t: ThreadId, sig: Signal)
    requires Inv(s) && s.process == Live && t in s.threads && sig in s.disposition && sig !in s.threads[t].mask
    ensures Inv(Delivered(s, t, sig))
  {
    var s' := Delivered(s, t, sig);
    assert ThreadInv(s, t, s.threads[t]);
    if s.disposition[sig] == Ours {
      assert !Shielded(s.threads[t].pc);
      OthersKept(s, s', t);
    }
  }

  /** Taking `g_in_handler`: nobody had it, so no other thread is in an owner's place. */
  lemma TakenInv(s: State, t: ThreadId, sig: Signal)
    requires Inv(s) && t in s.threads && s.threads[t].pc == Try(sig) && s.owner == None
    ensures Inv(WithPc(s, t, Marked(sig)).(owner := Some(t)))
  {
    var s' := WithPc(s, t, Marked(sig)).(owner := Some(t));
    forall u | u in s'.threads
      ensures ThreadInv(s', u, s'.threads[u])
    {
      assert ThreadInv(s, u, s.threads[u]);
    }
  }

  lemma MarkedInv(c: Config, s: State, t: ThreadId)
    requires Inv(s) && t in s.threads && s.threads[t].pc.Marked?
    ensures Inv(Stepped(c, s, t))
  {
    var s' := Stepped(c, s, t);
    assert ThreadInv(s, t, s.threads[t]);
    forall u | u in s'.threads
      ensures ThreadInv(s', u, s'.threads[u])
    {
      assert ThreadInv(s, u, s.threads[u]);
    }
  }

  lemma DumpedInv(c: Config, s: State, t: ThreadId)
    requires Inv(s) && t in s.threads && s.threads[t].pc.Dumping? && s.process == Live
    ensures Inv(Stepped(c, s, t))
  {
    var s' := Stepped(c, s, t);
    assert ThreadInv(s, t, s.threads[t]);
    assert s.threads[t].inHandler;
    forall u | u in s'.threads
      ensures ThreadInv(s', u, s'.threads[u])
    {
      assert ThreadInv(s, u, s.threads[u]);
    }
  }

  /** Any other step of the owner's, or of a thread on its way in. */
  lemma PlainStepInv(c: Config, s: State, t: ThreadId)
    requires Inv(s) && Enabled(s, Step(t))
    requires var pc := s.threads[t].pc; pc.Entry? || pc.Dispatch? || pc.Unblocking? || pc.Fallback?
    ensures Inv(Stepped(c, s, t))
  {
    var s' := Stepped(c, s, t);
    assert ThreadInv(s, t, s.threads[t]);
    OthersKept(s, s', t);
  }

  lemma TryInv(c: Config, s: State, t: ThreadId)
    requires Inv(s) && Enabled(s, Step(t)) && s.threads[t].pc.Try?
    ensures Inv(Stepped(c, s, t))
  {
    assert ThreadInv(s, t, s.threads[t]);
    if s.owner.Some? {
      OthersKept(s, Stepped(c, s, t), t);
    } else {
      TakenInv(s, t, s.threads[t].pc.sig);
    }
  }

  lemma RaisingInv(c: Config, s: State, t: ThreadId)
    requires Inv(s) && Enabled(s, Step(t)) && s.threads[t].pc.Raising?
    ensures Inv(Stepped(c, s, t))
  {
    var sig, s' := s.threads[t].pc.sig, Stepped(c, s, t);
    assert ThreadInv(s, t, s.threads[t]);
    if s' == WithPc(s, t, Fallback(sig)) {
      OthersKept(s, s', t);
    } else {
      DeliveredInv(s, t, sig);
    }
  }

  lemma StepInv(c: Config, s: State, a: Action)
    requires Inv(s) && Enabled(s, a)
    ensures Inv(Apply(c, s, a))
  {
    var t := a.t;
    assert ThreadInv(s, t, s.threads[t]);
    match a
    case Deliver(_, sig) => DeliveredInv(s, t, sig);
    case Step(_) =>
      match s.threads[t].pc {
        case Try(_) => TryInv(c, s, t);
        case Marked(_) => MarkedInv(c, s, t);
        case Dumping(_, _) => DumpedInv(c, s, t);
        case Raising(_) => RaisingInv(c, s, t);
        case _ => PlainStepInv(c, s, t);
      }
    case UserReturns(_) => OthersKept(s, Apply(c, s, a), t);
    case UserSets(_, sig, d) => OthersKept(s, Apply(c, s, a), t);
    case SetMask(_, mask) => OthersKept(s, Apply(c, s, a), t);
  }

  lemma {:induction false} RunInv(c: Config, s: State, acts: seq<Action>)
    requires Inv(s) && CanRun(c, s, acts)
    ensures Inv(Exec(c, s, acts))
    decreases |acts|
  {
    if acts != [] {
      StepInv(c, s, acts[0]);
      RunInv(c, Apply(c, s, acts[0]), acts[1..]);
    }
  }

  // --------------------------------------------------------------- main results

  /**
   In every interleaving: at most one dump is started, the thread that took the flag is not
   in the pause loop, and the process has not ended unless that dump is complete.
   */
  lemma Safety(c: Config, s: State, acts: seq<Action>)
    requires Init(s) && CanRun(c, s, acts)
    ensures var e := Exec(c, s, acts);
            && e.dumps <= 1
            && (e.owner.Some? ==> e.owner.value in e.threads && !e.threads[e.owner.value].pc.Paused?)
            && (e.process != Live ==> e.dumpDone && e.dumps == 1)
  {
    RunInv(c, s, acts);
    var e := Exec(c, s, acts);
    if e.owner.Some? {
      assert ThreadInv(e, e.owner.value, e.threads[e.owner.value]);
    }
  }
}
