/** What the crash handler does before the end: the dump it writes and the old handler it calls. */
module CrashEffects {
  import opened Basics
  import opened CrashProtocol
  import opened CrashExit

  // ----------------------------------------------------------------- what is written

  datatype Output = Backtrace | ToStderr | ToLog | SyncLog

  /** What the owner does with `left` output steps to go. */
  function OutputAt(c: Config, left: nat): Output {
    if !c.logOpen then if left >= 2 then Backtrace else ToStderr
    else if left >= 4 then Backtrace
    else if left == 3 then ToStderr
    else if left == 2 then ToLog
    else SyncLog
  }

  function OutputsFrom(c: Config, left: nat): seq<Output> {
    if left == 0 then [] else [OutputAt(c, left)] + OutputsFrom(c, left - 1)
  }

  /** What a run writes. */
  function Outputs(c: Config, s: State, acts: seq<Action>): seq<Output>
    requires CanRun(c, s, acts)
    decreases |acts|
  {
    if acts == [] then []
    else OutputsAt(c, s, acts[0]) + Outputs(c, Apply(c, s, acts[0]), acts[1..])
  }

  function OutputsAt(c: Config, s: State, a: Action): seq<Output>
    requires Enabled(s, a)
  {
    if a.Step? && s.threads[a.t].pc.Dumping? && s.threads[a.t].pc.left > 0
    then [OutputAt(c, s.threads[a.t].pc.left)] else []
  }

  /** What is still to be written. */
  function Unwritten(c: Config, s: State): seq<Output> {
    if s.dumpDone then []
    else if s.owner.Some? && s.owner.value in s.threads && s.threads[s.owner.value].pc.Dumping?
    then OutputsFrom(c, s.threads[s.owner.value].pc.left) else OutputsFrom(c, DumpSteps(c))
  }

  /** A dump in progress has steps left. */
  ghost predicate StepsLeft(s: State) {
    forall t :: t in s.threads && s.threads[t].pc.Dumping? ==> s.threads[t].pc.left > 0
  }

  predicate WritesAt(s: State, a: Action) { a.Step? && a.t in s.threads && s.threads[a.t].pc.Dumping? }

  lemma DumpStepWrites(c: Config, s: State, t: ThreadId)
    requires Inv(s) && StepsLeft(s) && Enabled(s, Step(t)) && s.threads[t].pc.Dumping?
    ensures OutputsAt(c, s, Step(t)) + Unwritten(c, Apply(c, s, Step(t))) == Unwritten(c, s)
    ensures StepsLeft(Apply(c, s, Step(t)))
  {
    assert ThreadInv(s, t, s.threads[t]);
    var left := s.threads[t].pc.left;
    assert OutputsFrom(c, left) == [OutputAt(c, left)] + OutputsFrom(c, left - 1);
    assert left == 1 ==> OutputsFrom(c, left - 1) == [];
  }

  lemma EverySignal(sig: Signal)
    ensures sig in CRASH_SIGNALS
  {
  }

  lemma OtherStepWrites(c: Config, s: State, a: Action)
    requires Inv(s) && StepsLeft(s) && Enabled(s, a) && !WritesAt(s, a)
    ensures Unwritten(c, Apply(c, s, a)) == Unwritten(c, s) && StepsLeft(Apply(c, s, a))
  {
    assert ThreadInv(s, a.t, s.threads[a.t]);
    if a.Deliver? {
      EverySignal(a.sig);
    }
    if s.owner.Some? {
      assert ThreadInv(s, s.owner.value, s.threads[s.owner.value]);
    }
  }

  lemma StepWrites(c: Config, s: State, a: Action)
    requires Inv(s) && StepsLeft(s) && Enabled(s, a)
    ensures OutputsAt(c, s, a) + Unwritten(c, Apply(c, s, a)) == Unwritten(c, s) && StepsLeft(Apply(c, s, a))
  {
    if WritesAt(s, a) {
      DumpStepWrites(c, s, a.t);
    } else {
      OtherStepWrites(c, s, a);
      assert [] + Unwritten(c, s) == Unwritten(c, s);
    }
  }

  lemma {:induction false} RunWrites(c: Config, s: State, acts: seq<Action>)
    requires Inv(s) && StepsLeft(s) && CanRun(c, s, acts)
    ensures Outputs(c, s, acts) + Unwritten(c, Exec(c, s, acts)) == Unwritten(c, s)
    decreases |acts|
  {
    if acts == [] {
      assert [] + Unwritten(c, s) == Unwritten(c, s);
    } else {
      var s' := Apply(c, s, acts[0]);
      StepWrites(c, s, acts[0]);
      StepInv(c, s, acts[0]);
      RunWrites(c, s', acts[1..]);
      Associate(OutputsAt(c, s, acts[0]), Outputs(c, s', acts[1..]), Unwritten(c, Exec(c, s, acts)));
    }
  }

  /**
   The dump is whole: in every run, once it is done, and so before the process ends, the stack has been
   taken once and written once to standard error and, if there is a log file, to that too, which is synced.
   */
  lemma DumpWhole(c: Config, s0: State, acts: seq<Action>)
    requires Init(s0) && CanRun(c, s0, acts) && Exec(c, s0, acts).dumpDone
    ensures Outputs(c, s0, acts) == [Backtrace, ToStderr] + if c.logOpen then [ToLog, SyncLog] else []
  {
    RunWrites(c, s0, acts);
    assert Outputs(c, s0, acts) + [] == Outputs(c, s0, acts);
    AllOutputs(c);
  }

  lemma AllOutputs(c: Config)
    ensures OutputsFrom(c, DumpSteps(c)) == [Backtrace, ToStderr] + if c.logOpen then [ToLog, SyncLog] else []
  {
    assert OutputsFrom(c, 0) == [] && OutputsFrom(c, 1) == [OutputAt(c, 1)];
    assert OutputsFrom(c, 2) == [OutputAt(c, 2), OutputAt(c, 1)];
    assert OutputsFrom(c, 3) == [OutputAt(c, 3), OutputAt(c, 2), OutputAt(c, 1)];
  }

  // ---------------------------------------------------------------- the old handler

  /** The threads whose old handler has returned, and those that have set their own mask. */
  datatype Record = Record(returned: set<ThreadId>, masked: set<ThreadId>)

  function Noted(r: Record, a: Action): Record {
    Record(if a.UserReturns? then r.returned + {a.t} else r.returned, if a.SetMask? then r.masked + {a.t} else r.masked)
  }

  function NotedAll(r: Record, acts: seq<Action>): Record
    decreases |acts|
  {
    if acts == [] then r else NotedAll(Noted(r, acts[0]), acts[1..])
  }

  /** Where the old action has taken thread `t`. */
  predicate Placed(c: Config, th: Thread, t: ThreadId, r: Record) {
    match th.pc
    case Unblocking(sig, call) => if call then Chained(c, sig) else c.oldAction(sig) == OldDefault
    case InUser(sig) => Chained(c, sig) && (t in r.masked || th.mask !! CRASH_SIGNALS)
    case Raising(sig) => c.oldAction(sig) == OldDefault
    case Fallback(sig) => Chained(c, sig) ==> t in r.returned
    case _ => true
  }

  ghost predicate AllPlaced(c: Config, s: State, r: Record) {
    forall t :: t in s.threads ==> Placed(c, s.threads[t], t, r)
  }

  lemma {:induction false} RunPlaced(c: Config, s: State, acts: seq<Action>, r: Record)
    requires AllPlaced(c, s, r) && CanRun(c, s, acts)
    ensures AllPlaced(c, Exec(c, s, acts), NotedAll(r, acts))
    decreases |acts|
  {
    if acts != [] {
      StepPlaced(c, s, acts[0], r);
      RunPlaced(c, Apply(c, s, acts[0]), acts[1..], Noted(r, acts[0]));
    }
  }

  lemma StepPlaced(c: Config, s: State, a: Action, r: Record)
    requires AllPlaced(c, s, r) && Enabled(s, a)
    ensures AllPlaced(c, Apply(c, s, a), Noted(r, a))
  {
    var s' := Apply(c, s, a);
    OwnPlaced(c, s, a, r);
    forall t | t in s'.threads && t != a.t
      ensures Placed(c, s'.threads[t], t, Noted(r, a))
    {
      assert t in s.threads && s'.threads[t] == s.threads[t] && Placed(c, s.threads[t], t, r);
    }
  }

  lemma OwnPlaced(c: Config, s: State, a: Action, r: Record)
    requires Enabled(s, a) && Placed(c, s.threads[a.t], a.t, r)
    ensures var s' := Apply(c, s, a);
            a.t in s'.threads && s'.threads == s.threads[a.t := s'.threads[a.t]]
            && Placed(c, s'.threads[a.t], a.t, Noted(r, a))
  {
  }

  lemma {:induction false} NotedMeans(r: Record, acts: seq<Action>, t: ThreadId)
    ensures t in NotedAll(r, acts).returned ==> t in r.returned || UserReturns(t) in acts
    ensures t in NotedAll(r, acts).masked ==> t in r.masked || exists mask :: SetMask(t, mask) in acts
    decreases |acts|
  {
    if acts != [] {
      NotedMeans(Noted(r, acts[0]), acts[1..], t);
      if acts[0].SetMask? && acts[0].t == t {
        assert SetMask(t, acts[0].mask) in acts;
      }
    }
  }

  /**
   The old handler is called: in every run a thread is in one only for a signal that has one, with every
   crash signal unblocked unless it has set its mask itself; and it comes to the last exit for such a
   signal only when that handler has returned.
   */
  lemma OldHandlerCalled(c: Config, s0: State, acts: seq<Action>, t: ThreadId)
    requires Init(s0) && CanRun(c, s0, acts) && t in Exec(c, s0, acts).threads
    ensures var th := Exec(c, s0, acts).threads[t];
            && (th.pc.InUser? ==> Chained(c, th.pc.sig))
            && (th.pc.InUser? ==> th.mask !! CRASH_SIGNALS || exists mask :: SetMask(t, mask) in acts)
            && (th.pc.Fallback? && Chained(c, th.pc.sig) ==> UserReturns(t) in acts)
  {
    var none := Record({}, {});
    RunPlaced(c, s0, acts, none);
    NotedMeans(none, acts, t);
    assert Placed(c, Exec(c, s0, acts).threads[t], t, NotedAll(none, acts));
  }

  lemma TwoSteps(c: Config, s: State, a: Action, s1: State, b: Action, s2: State)
    requires Enabled(s, a) && Apply(c, s, a) == s1 && Enabled(s1, b) && Apply(c, s1, b) == s2
    ensures CanRun(c, s, [a, b]) && Exec(c, s, [a, b]) == s2
  {
    assert [a, b][1..] == [b] && [b][1..] == [];
    assert CanRun(c, s2, []) && Exec(c, s2, []) == s2;
    assert CanRun(c, s1, [b]) && Exec(c, s1, [b]) == s2;
  }

  /**
   An old handler that restores the default action of a signal and raises it ends the process by that
   signal, whichever of the crash signals it is; the handler's mask does not stand in the way.
   */
  lemma HandlerCanDie(c: Config, s0: State, acts: seq<Action>, t: ThreadId, sig: Signal)
    requires Init(s0) && CanRun(c, s0, acts)
    requires var s := Exec(c, s0, acts);
             s.process == Live && t in s.threads && s.threads[t].pc.InUser? && s.threads[t].mask !! CRASH_SIGNALS
    ensures var s, last := Exec(c, s0, acts), [UserSets(t, sig, Default), Deliver(t, sig)];
            CanRun(c, s, last) && Exec(c, s, last).process == Killed(sig)
  {
    var s := Exec(c, s0, acts);
    RunInv(c, s0, acts);
    assert sig in CRASH_SIGNALS;
    var s1 := Apply(c, s, UserSets(t, sig, Default));
    TwoSteps(c, s, UserSets(t, sig, Default), s1, Deliver(t, sig), s1.(process := Killed(sig)));
  }
}
