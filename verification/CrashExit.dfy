/** How a crash ends: the owner of the flag reaches process exit, and with which code. */
module CrashExit {
  import opened Basics
  import opened CrashProtocol

  // ------------------------------------------------------------- the way to the end

  /** What the owner still has to do before the process ends: handler steps, and returning from the old handler. */
  function Distance(c: Config, pc: Pc): nat {
    match pc
    case Marked(_) => DumpSteps(c) + 6
    case Dumping(_, left) => left + 5
    case Dispatch(_) => 4
    case Unblocking(_, _) => 3
    case Raising(_) | InUser(_) => 2
    case Entry(_) | Fallback(_) => 1
    case _ => 0
  }

  /** A handler step of thread `t`, or the return of its old handler. */
  predicate Moves(a: Action, t: ThreadId) { a == Step(t) || a == UserReturns(t) }

  function MoveCount(acts: seq<Action>, t: ThreadId): nat {
    if acts == [] then 0 else (if Moves(acts[0], t) then 1 else 0) + MoveCount(acts[1..], t)
  }

  /** The owner's move: outside the old handler its next step, inside the handler's return. */
  lemma OwnerCanMove(s: State, t: ThreadId)
    requires Inv(s) && s.process == Live && s.owner == Some(t)
    ensures t in s.threads
    ensures Enabled(s, if s.threads[t].pc.InUser? then UserReturns(t) else Step(t))
  {
    assert ThreadInv(s, t, s.threads[t]);
  }

  /** No step of any thread takes the owner farther from the end, and its own moves bring it nearer. */
  lemma OwnerAdvances(c: Config, s: State, a: Action, t: ThreadId)
    requires Inv(s) && Enabled(s, a) && s.owner == Some(t)
    ensures var s' := Apply(c, s, a);
            s'.process != Live ||
              (s'.owner == Some(t) && t in s'.threads
               && Distance(c, s'.threads[t].pc) + (if Moves(a, t) then 1 else 0) <= Distance(c, s.threads[t].pc))
  {
    if a.t == t {
      OwnerNearer(c, s, a, t);
    } else {
      assert ThreadInv(s, a.t, s.threads[a.t]);
      assert Apply(c, s, a).owner == s.owner;
    }
  }

  lemma OwnerNearer(c: Config, s: State, a: Action, t: ThreadId)
    requires Inv(s) && Enabled(s, a) && s.owner == Some(t) && a.t == t
    ensures var s' := Apply(c, s, a);
            s'.process != Live ||
              (s'.owner == Some(t) && t in s'.threads
               && Distance(c, s'.threads[t].pc) + (if Moves(a, t) then 1 else 0) <= Distance(c, s.threads[t].pc))
  {
    assert ThreadInv(s, t, s.threads[t]);
  }

  lemma OwnerFar(c: Config, s: State, t: ThreadId)
    requires Inv(s) && s.owner == Some(t)
    ensures t in s.threads && Distance(c, s.threads[t].pc) > 0
  {
    assert ThreadInv(s, t, s.threads[t]);
  }

  /**
   The owner reaches process exit: in every interleaving, signals on all threads included, the process
   has ended once the owner has made as many moves as its distance counts.
   */
  lemma {:induction false} OwnerExits(c: Config, s: State, acts: seq<Action>, t: ThreadId)
    requires Inv(s) && s.owner == Some(t) && t in s.threads && CanRun(c, s, acts)
    requires MoveCount(acts, t) >= Distance(c, s.threads[t].pc)
    ensures Exec(c, s, acts).process != Live
    decreases |acts|
  {
    OwnerFar(c, s, t);
    var s' := Apply(c, s, acts[0]);
    OwnerAdvances(c, s, acts[0], t);
    StepInv(c, s, acts[0]);
    if s'.process == Live {
      OwnerExits(c, s', acts[1..], t);
    } else {
      EndedStays(c, s', acts[1..]);
    }
  }

  lemma EndedStays(c: Config, s: State, acts: seq<Action>)
    requires s.process != Live && CanRun(c, s, acts)
    ensures acts == [] && Exec(c, s, acts) == s
  {
  }

  /** The thread that has taken `g_in_handler` ends the process, if it goes on moving and its old handler returns. */
  lemma TakerExits(c: Config, s0: State, before: seq<Action>, after: seq<Action>, t: ThreadId)
    requires Init(s0) && CanRun(c, s0, before) && Exec(c, s0, before).owner == Some(t)
    requires CanRun(c, Exec(c, s0, before), after) && MoveCount(after, t) >= DumpSteps(c) + 6
    ensures Exec(c, Exec(c, s0, before), after).process != Live
  {
    var s := Exec(c, s0, before);
    RunInv(c, s0, before);
    OwnerFar(c, s, t);
    if s.process == Live {
      DistanceBound(c, s0, before, t);
      OwnerExits(c, s, after, t);
    } else {
      EndedStays(c, s, after);
    }
  }

  /** A dump never has more output steps left than it began with. */
  ghost predicate DumpBounded(c: Config, s: State) {
    forall t :: t in s.threads && s.threads[t].pc.Dumping? ==> s.threads[t].pc.left <= DumpSteps(c)
  }

  lemma {:induction false} DumpRun(c: Config, s: State, acts: seq<Action>)
    requires DumpBounded(c, s) && CanRun(c, s, acts)
    ensures DumpBounded(c, Exec(c, s, acts))
    decreases |acts|
  {
    if acts != [] {
      DumpRun(c, Apply(c, s, acts[0]), acts[1..]);
    }
  }

  lemma DistanceBound(c: Config, s0: State, acts: seq<Action>, t: ThreadId)
    requires Init(s0) && CanRun(c, s0, acts) && t in Exec(c, s0, acts).threads
    ensures Distance(c, Exec(c, s0, acts).threads[t].pc) <= DumpSteps(c) + 6
  {
    DumpRun(c, s0, acts);
  }

  /** No signal is delivered to thread `t`. */
  ghost predicate Undisturbed(acts: seq<Action>, t: ThreadId) {
    forall i :: 0 <= i < |acts| ==> !(acts[i].Deliver? && acts[i].t == t)
  }

  /**
   Once the old handler has returned, any run with a step of the owner in it ends the process: with
   128 + the last signal that hit the owner, which is the one it was called for if none came later, or by a
   default action.
   */
  lemma ReturnEnds(c: Config, s: State, t: ThreadId, acts: seq<Action>)
    requires Inv(s) && Enabled(s, UserReturns(t)) && CanRun(c, Apply(c, s, UserReturns(t)), acts) && Step(t) in acts
    ensures var r, sig := Apply(c, s, UserReturns(t)), s.threads[t].pc.sig;
            var p := Exec(c, r, acts).process;
            && (p == Exited(128 + Number(LastHit(c, r, acts, t, sig))) || p.Killed?)
            && (Undisturbed(acts, t) ==> LastHit(c, r, acts, t, sig) == sig)
  {
    var r, sig := Apply(c, s, UserReturns(t)), s.threads[t].pc.sig;
    assert ThreadInv(s, t, s.threads[t]);
    StepInv(c, s, UserReturns(t));
    StepsCount(acts, t);
    OwnerExits(c, r, acts, t);
    OwnerStays(c, r, acts);
    ExitCodeFrom(c, r, acts, t, sig);
    if Undisturbed(acts, t) {
      NoHit(c, r, acts, t, sig);
    }
  }

  lemma {:induction false} StepsCount(acts: seq<Action>, t: ThreadId)
    requires Step(t) in acts
    ensures MoveCount(acts, t) >= 1
  {
    if acts[0] != Step(t) {
      StepsCount(acts[1..], t);
    }
  }

  // ------------------------------------------------------------------- the exit code

  /** The last signal of the run that our handler took on thread `t`, or `last` if there was none. */
  function LastHit(c: Config, s: State, acts: seq<Action>, t: ThreadId, last: Signal): Signal
    requires CanRun(c, s, acts)
    decreases |acts|
  {
    if acts == [] then last
    else
      LastHit(c, Apply(c, s, acts[0]), acts[1..], t, if Hits(s, acts[0], t) then acts[0].sig else last)
  }

  /** Inside the handler, thread `t` is there for the signal `last`. */
  predicate HereFor(s: State, t: ThreadId, last: Signal) {
    t in s.threads && !s.threads[t].pc.Normal? && !s.threads[t].pc.Paused? ==> s.threads[t].pc.sig == last
  }

  /** An exited process was ended by the owner of the flag, with the number of the signal it was there for. */
  predicate CodeIsOwners(s: State) {
    s.process.Exited? ==>
      && s.owner.Some? && s.owner.value in s.threads
      && var pc := s.threads[s.owner.value].pc; (pc.Entry? || pc.Fallback?) && s.process.code == 128 + Number(pc.sig)
  }

  /** Our handler takes a signal on thread `t`. */
  predicate Hits(s: State, a: Action, t: ThreadId)
    requires Enabled(s, a)
  {
    a.Deliver? && a.t == t && s.disposition[a.sig] == Ours
  }

  lemma StepHereFor(c: Config, s: State, a: Action, t: ThreadId, last: Signal)
    requires Inv(s) && Enabled(s, a) && HereFor(s, t, last)
    ensures HereFor(Apply(c, s, a), t, if Hits(s, a, t) then a.sig else last)
  {
    if a.t == t {
      OwnHereFor(c, s, a, t, last);
    }
  }

  lemma OwnHereFor(c: Config, s: State, a: Action, t: ThreadId, last: Signal)
    requires Enabled(s, a) && a.t == t && HereFor(s, t, last)
    ensures HereFor(Apply(c, s, a), t, if Hits(s, a, t) then a.sig else last)
  {
  }

  lemma StepCode(c: Config, s: State, a: Action)
    requires Inv(s) && Enabled(s, a)
    ensures CodeIsOwners(Apply(c, s, a))
  {
    assert ThreadInv(s, a.t, s.threads[a.t]);
  }

  lemma {:induction false} ExitCodeFrom(c: Config, s: State, acts: seq<Action>, t: ThreadId, last: Signal)
    requires Inv(s) && CodeIsOwners(s) && HereFor(s, t, last) && CanRun(c, s, acts)
    ensures CodeIsOwners(Exec(c, s, acts)) && HereFor(Exec(c, s, acts), t, LastHit(c, s, acts, t, last))
    decreases |acts|
  {
    if acts != [] {
      StepInv(c, s, acts[0]);
      StepCode(c, s, acts[0]);
      StepHereFor(c, s, acts[0], t, last);
      ExitCodeFrom(c, Apply(c, s, acts[0]), acts[1..], t, if Hits(s, acts[0], t) then acts[0].sig else last);
    }
  }

  lemma {:induction false} OwnerStays(c: Config, s: State, acts: seq<Action>)
    requires s.owner.Some? && CanRun(c, s, acts)
    ensures Exec(c, s, acts).owner == s.owner
    decreases |acts|
  {
    if acts != [] {
      OwnerStays(c, Apply(c, s, acts[0]), acts[1..]);
    }
  }

  /**
   Which code comes out: in every run that ends by exit, the process has an owner, and the code is 128 +
   the last signal that our handler took on it.  `none` is arbitrary: there was such a signal.
   */
  lemma ExitCode(c: Config, s0: State, acts: seq<Action>, none: Signal)
    requires Init(s0) && CanRun(c, s0, acts) && Exec(c, s0, acts).process.Exited?
    ensures var e := Exec(c, s0, acts);
            && e.owner.Some?
            && e.process.code == 128 + Number(LastHit(c, s0, acts, e.owner.value, none))
  {
    var e := Exec(c, s0, acts);
    RunInv(c, s0, acts);
    ExitCodeFrom(c, s0, acts, 0, none);
    ExitCodeFrom(c, s0, acts, e.owner.value, none);
  }

  lemma {:induction false} NoHit(c: Config, s: State, acts: seq<Action>, t: ThreadId, last: Signal)
    requires CanRun(c, s, acts) && Undisturbed(acts, t)
    ensures LastHit(c, s, acts, t, last) == last
    decreases |acts|
  {
    if acts != [] {
      NoHit(c, Apply(c, s, acts[0]), acts[1..], t, last);
    }
  }

  /** A second signal before the exit replaces the first one's number. */
  lemma SecondSignalReplacesCode(c: Config, s: State, t: ThreadId, sig: Signal)
    requires Inv(s) && s.process == Live && t in s.threads && s.threads[t].pc.Fallback?
    requires sig !in s.threads[t].mask && s.disposition[sig] == Ours
    ensures CanRun(c, s, [Deliver(t, sig), Step(t)])
    ensures Exec(c, s, [Deliver(t, sig), Step(t)]).process == Exited(128 + Number(sig))
  {
    assert ThreadInv(s, t, s.threads[t]);
    var acts, s1 := [Deliver(t, sig), Step(t)], Apply(c, s, Deliver(t, sig));
    var s2 := Apply(c, s1, Step(t));
    assert acts[1..] == [Step(t)] && [Step(t)][1..] == [];
    assert CanRun(c, s2, []) && Exec(c, s2, []) == s2;
    assert CanRun(c, s1, [Step(t)]) && Exec(c, s1, [Step(t)]) == s2;
  }

  /** Thread `t` can be hit by no signal of ours other than `sig`. */
  ghost predicate OnlyHitBy(s: State, t: ThreadId, sig: Signal)
    requires t in s.threads
  {
    forall x :: x != sig && x !in s.threads[t].mask && x in s.disposition ==> s.disposition[x] != Ours
  }

  /** The owner is about to exit for `sig` and nothing can change that. */
  ghost predicate Settled(s: State, t: ThreadId, sig: Signal) {
    && s.owner == Some(t) && t in s.threads
    && (s.threads[t].pc == Entry(sig) || (s.threads[t].pc == Fallback(sig) && OnlyHitBy(s, t, sig)))
  }

  lemma SettledStep(c: Config, s: State, a: Action, t: ThreadId, sig: Signal)
    requires Inv(s) && Settled(s, t, sig) && Enabled(s, a)
    ensures var s' := Apply(c, s, a);
            if s'.process == Live then Settled(s', t, sig) && a != Step(t)
            else s'.process == Exited(128 + Number(sig)) || s'.process.Killed?
  {
    assert ThreadInv(s, t, s.threads[t]);
    assert ThreadInv(s, a.t, s.threads[a.t]);
  }

  lemma {:induction false} SettledEnds(c: Config, s: State, acts: seq<Action>, t: ThreadId, sig: Signal)
    requires Inv(s) && Settled(s, t, sig) && CanRun(c, s, acts) && Step(t) in acts
    ensures var p := Exec(c, s, acts).process; p == Exited(128 + Number(sig)) || p.Killed?
    decreases |acts|
  {
    var s' := Apply(c, s, acts[0]);
    SettledStep(c, s, acts[0], t, sig);
    StepInv(c, s, acts[0]);
    if s'.process == Live {
      SettledEnds(c, s', acts[1..], t, sig);
    } else {
      EndedStays(c, s', acts[1..]);
    }
  }

  lemma NumbersDiffer(x: Signal, y: Signal)
    requires x != y
    ensures Number(x) != Number(y)
  {
  }

  /**
   When the first signal's code is certain: with the owner about to exit for `sig`, every run with a step of
   it ends so or by a default action, exactly when no other signal that it leaves unblocked is ours.
   */
  lemma CodeCertain(c: Config, s: State, t: ThreadId, sig: Signal)
    requires Inv(s) && s.process == Live && s.owner == Some(t) && t in s.threads && s.threads[t].pc == Fallback(sig)
    ensures OnlyHitBy(s, t, sig) <==>
            forall acts :: CanRun(c, s, acts) && Step(t) in acts ==>
              Exec(c, s, acts).process == Exited(128 + Number(sig)) || Exec(c, s, acts).process.Killed?
  {
    if OnlyHitBy(s, t, sig) {
      forall acts | CanRun(c, s, acts) && Step(t) in acts
        ensures Exec(c, s, acts).process == Exited(128 + Number(sig)) || Exec(c, s, acts).process.Killed?
      {
        SettledEnds(c, s, acts, t, sig);
      }
    } else {
      var x :| x != sig && x !in s.threads[t].mask && x in s.disposition && s.disposition[x] == Ours;
      SecondSignalReplacesCode(c, s, t, x);
      NumbersDiffer(x, sig);
      var acts := [Deliver(t, x), Step(t)];
      assert CanRun(c, s, acts) && Step(t) in acts;
    }
  }

  // ------------------------------------------------- a run in which the code changes

  /** The initial state `s0`, but for where thread `t` has got. */
  function Got(s0: State, t: ThreadId, th: Thread, taken: bool, dumps: nat, dumpDone: bool): State {
    s0.(threads := s0.threads[t := th], owner := if taken then Some(t) else None, dumps := dumps, dumpDone := dumpDone)
  }

  lemma Overwritten(threads: map<ThreadId, Thread>, t: ThreadId, a: Thread, b: Thread)
    ensures threads[t := a][t := b] == threads[t := b]
  {
  }

  ghost predicate Reaches(c: Config, s: State, e: State) { exists acts :: CanRun(c, s, acts) && Exec(c, s, acts) == e }

  lemma Goes(c: Config, s: State, a: Action, s': State, e: State)
    requires Enabled(s, a) && Apply(c, s, a) == s' && Reaches(c, s', e)
    ensures Reaches(c, s, e)
  {
    var acts :| CanRun(c, s', acts) && Exec(c, s', acts) == e;
    assert ([a] + acts)[1..] == acts;
    assert CanRun(c, s, [a] + acts) && Exec(c, s, [a] + acts) == e;
  }

  /** A move of `t` that changes only its own state and the flags. */
  lemma GoesTo(c: Config, s0: State, t: ThreadId, a: Action, th: Thread, th': Thread, taken: bool, taken': bool,
               dumps: nat, dumps': nat, done: bool, done': bool, e: State)
    requires Reaches(c, Got(s0, t, th', taken', dumps', done'), e)
    requires Enabled(Got(s0, t, th, taken, dumps, done), a)
    requires var s := Got(s0, t, th, taken, dumps, done);
             Apply(c, s, a) == s.(threads := s.threads[t := th'], owner := if taken' then Some(t) else None,
                                  dumps := dumps', dumpDone := done')
    ensures Reaches(c, Got(s0, t, th, taken, dumps, done), e)
  {
    Overwritten(s0.threads, t, th, th');
    Goes(c, Got(s0, t, th, taken, dumps, done), a, Got(s0, t, th', taken', dumps', done'), e);
  }

  predicate Chained(c: Config, sig: Signal) { c.oldAction(sig).InfoHandler? || c.oldAction(sig).PlainHandler? }

  /** From the end of the dump on, through an old handler that returns. */
  lemma AfterDump(c: Config, s0: State, t: ThreadId, sig: Signal, mask: set<Signal>, open: set<Signal>, e: State)
    requires Init(s0) && Chained(c, sig) && open == mask - CRASH_SIGNALS
    requires Reaches(c, Got(s0, t, Thread(Fallback(sig), open, true), true, 1, true), e)
    ensures Reaches(c, Got(s0, t, Thread(Dispatch(sig), mask, true), true, 1, true), e)
  {
    var user, unblocking := Thread(InUser(sig), open, true), Thread(Unblocking(sig, true), mask, true);
    GoesTo(c, s0, t, UserReturns(t), user, Thread(Fallback(sig), open, true), true, true, 1, 1, true, true, e);
    GoesTo(c, s0, t, Step(t), unblocking, user, true, true, 1, 1, true, true, e);
    GoesTo(c, s0, t, Step(t), Thread(Dispatch(sig), mask, true), unblocking, true, true, 1, 1, true, true, e);
  }

  lemma {:induction false} ThroughDump(c: Config, s0: State, t: ThreadId, sig: Signal, mask: set<Signal>, left: nat,
                                       e: State)
    requires Init(s0) && left > 0 && Reaches(c, Got(s0, t, Thread(Dispatch(sig), mask, true), true, 1, true), e)
    ensures Reaches(c, Got(s0, t, Thread(Dumping(sig, left), mask, true), true, 1, false), e)
  {
    var th := Thread(Dumping(sig, left), mask, true);
    if left == 1 {
      GoesTo(c, s0, t, Step(t), th, Thread(Dispatch(sig), mask, true), true, true, 1, 1, false, true, e);
    } else {
      ThroughDump(c, s0, t, sig, mask, left - 1, e);
      GoesTo(c, s0, t, Step(t), th, Thread(Dumping(sig, left - 1), mask, true), true, true, 1, 1, false, false, e);
    }
  }

  lemma UpToDump(c: Config, s0: State, t: ThreadId, sig: Signal, mask: set<Signal>, e: State)
    requires Init(s0) && t in s0.threads && sig !in s0.threads[t].mask && mask == s0.threads[t].mask + CRASH_SIGNALS
    requires Reaches(c, Got(s0, t, Thread(Dumping(sig, DumpSteps(c)), mask, true), true, 1, false), e)
    ensures Reaches(c, Apply(c, s0, Deliver(t, sig)), e)
  {
    var marked, trying := Thread(Marked(sig), mask, false), Thread(Try(sig), mask, false);
    var entered := Thread(Entry(sig), mask, false);
    var dumping := Thread(Dumping(sig, DumpSteps(c)), mask, true);
    GoesTo(c, s0, t, Step(t), marked, dumping, true, true, 0, 1, false, false, e);
    GoesTo(c, s0, t, Step(t), trying, marked, false, true, 0, 0, false, false, e);
    GoesTo(c, s0, t, Step(t), entered, trying, false, false, 0, 0, false, false, e);
    assert Apply(c, s0, Deliver(t, sig)) == Got(s0, t, entered, false, 0, false);
  }

  /** A thread hit by a signal with a handler to chain to can get to its last place, all signals unblocked and ours. */
  lemma FallbackReached(c: Config, s0: State, t: ThreadId, sig: Signal) returns (e: State)
    requires Init(s0) && t in s0.threads && sig !in s0.threads[t].mask && Chained(c, sig)
    ensures Reaches(c, Apply(c, s0, Deliver(t, sig)), e) && e.process == Live && e.owner == Some(t) && t in e.threads
    ensures e.threads[t].pc == Fallback(sig) && e.threads[t].mask !! CRASH_SIGNALS && e.disposition == s0.disposition
  {
    var mask := s0.threads[t].mask + CRASH_SIGNALS;
    var open := mask - CRASH_SIGNALS;
    e := Got(s0, t, Thread(Fallback(sig), open, true), true, 1, true);
    assert CanRun(c, e, []) && Exec(c, e, []) == e;
    AfterDump(c, s0, t, sig, mask, open, e);
    ThroughDump(c, s0, t, sig, mask, DumpSteps(c), e);
    UpToDump(c, s0, t, sig, mask, e);
  }

  /** So from every initial state there is a run that begins with one signal and ends with the code of any other. */
  lemma CodeReplaced(c: Config, s0: State, t: ThreadId, sig: Signal, second: Signal) returns (acts: seq<Action>)
    requires Init(s0) && t in s0.threads && sig !in s0.threads[t].mask && Chained(c, sig) && sig != second
    ensures CanRun(c, s0, acts) && acts != [] && acts[0] == Deliver(t, sig)
    ensures Exec(c, s0, acts).process == Exited(128 + Number(second)) != Exited(128 + Number(sig))
  {
    var s1, last := Apply(c, s0, Deliver(t, sig)), [Deliver(t, second), Step(t)];
    var e := FallbackReached(c, s0, t, sig);
    var before :| CanRun(c, s1, before) && Exec(c, s1, before) == e;
    StepInv(c, s0, Deliver(t, sig));
    RunInv(c, s1, before);
    assert second in CRASH_SIGNALS;
    SecondSignalReplacesCode(c, e, t, second);
    NumbersDiffer(sig, second);
    ExecMore(c, s1, before, last);
    acts := [Deliver(t, sig)] + (before + last);
    assert acts[1..] == before + last;
  }

  lemma {:induction false} ExecMore(c: Config, s: State, a: seq<Action>, b: seq<Action>)
    requires CanRun(c, s, a) && CanRun(c, Exec(c, s, a), b)
    ensures CanRun(c, s, a + b) && Exec(c, s, a + b) == Exec(c, Exec(c, s, a), b)
    decreases |a|
  {
    if a == [] {
      assert a + b == b;
    } else {
      ExecMore(c, Apply(c, s, a[0]), a[1..], b);
      assert (a + b)[1..] == a[1..] + b;
    }
  }

  /** A crash signal inside the old handler ends the process instead of pausing the owner, in any run. */
  lemma NestedCrashEnds(c: Config, s: State, t: ThreadId, sig: Signal, acts: seq<Action>)
    requires Inv(s) && Enabled(s, Deliver(t, sig)) && s.threads[t].pc.InUser? && s.disposition[sig] == Ours
    requires CanRun(c, Apply(c, s, Deliver(t, sig)), acts) && Step(t) in acts
    ensures var p := Exec(c, Apply(c, s, Deliver(t, sig)), acts).process; p == Exited(128 + Number(sig)) || p.Killed?
  {
    assert ThreadInv(s, t, s.threads[t]);
    StepInv(c, s, Deliver(t, sig));
    SettledEnds(c, Apply(c, s, Deliver(t, sig)), acts, t, sig);
  }

  // ------------------------------------------------------------- the default action

  /** Until the old action is looked at, every signal is still ours. */
  ghost predicate Untouched(s: State) {
    s.owner.Some? && s.owner.value in s.threads && s.threads[s.owner.value].pc.Dispatch? ==>
      forall sig :: sig in s.disposition && s.disposition[sig] == Ours
  }

  lemma StepUntouched(c: Config, s: State, a: Action)
    requires Inv(s) && Untouched(s) && Enabled(s, a)
    ensures Untouched(Apply(c, s, a))
  {
    assert ThreadInv(s, a.t, s.threads[a.t]);
  }

  lemma {:induction false} RunUntouched(c: Config, s: State, acts: seq<Action>)
    requires Inv(s) && Untouched(s) && CanRun(c, s, acts)
    ensures Inv(Exec(c, s, acts)) && Untouched(Exec(c, s, acts))
    decreases |acts|
  {
    if acts != [] {
      StepUntouched(c, s, acts[0]);
      StepInv(c, s, acts[0]);
      RunUntouched(c, Apply(c, s, acts[0]), acts[1..]);
    }
  }

  /** The owner is on its way to raise `sig` with its default action; every other signal is ours. */
  ghost predicate Restoring(c: Config, s: State, t: ThreadId, sig: Signal) {
    && s.owner == Some(t) && t in s.threads
    && (forall x :: x in s.disposition && (x != sig ==> s.disposition[x] == Ours))
    && match s.threads[t].pc
       case Dispatch(x) => x == sig && c.oldAction(sig) == OldDefault && s.disposition[sig] == Ours
       case Unblocking(x, call) => x == sig && !call && s.disposition[sig] == Default
       case Raising(x) => x == sig && s.disposition[sig] == Default && sig !in s.threads[t].mask
       case _ => false
  }

  /** Owner's moves left until the signal is raised. */
  function RaiseIn(pc: Pc): nat { if pc.Dispatch? then 3 else if pc.Unblocking? then 2 else 1 }

  /** After `n` moves of the owner: so many nearer to raising, or killed by the signal. */
  ghost predicate RestoredBy(c: Config, s: State, e: State, t: ThreadId, sig: Signal, n: nat)
    requires t in s.threads
  {
    || e.process == Killed(sig)
    || (e.process == s.process && Restoring(c, e, t, sig) && RaiseIn(e.threads[t].pc) + n <= RaiseIn(s.threads[t].pc))
  }

  lemma RestoringStep(c: Config, s: State, a: Action, t: ThreadId, sig: Signal)
    requires Inv(s) && Restoring(c, s, t, sig) && Enabled(s, a) && !(a.Deliver? && a.t == t)
    ensures RestoredBy(c, s, Apply(c, s, a), t, sig, if Moves(a, t) then 1 else 0)
  {
    assert ThreadInv(s, t, s.threads[t]);
    if a.t == t {
      RestoringOwn(c, s, a, t, sig);
    } else {
      RestoringOther(c, s, a, t, sig);
    }
  }

  lemma RestoringOwn(c: Config, s: State, a: Action, t: ThreadId, sig: Signal)
    requires Restoring(c, s, t, sig) && Enabled(s, a) && !a.Deliver? && a.t == t
    ensures RestoredBy(c, s, Apply(c, s, a), t, sig, if Moves(a, t) then 1 else 0)
  {
  }

  lemma RestoringOther(c: Config, s: State, a: Action, t: ThreadId, sig: Signal)
    requires Inv(s) && Restoring(c, s, t, sig) && Enabled(s, a) && a.t != t
    ensures RestoredBy(c, s, Apply(c, s, a), t, sig, if Moves(a, t) then 1 else 0)
  {
    assert ThreadInv(s, a.t, s.threads[a.t]);
  }

  lemma {:induction false} RestoringRun(c: Config, s: State, acts: seq<Action>, t: ThreadId, sig: Signal)
    requires Inv(s) && Restoring(c, s, t, sig) && CanRun(c, s, acts) && Undisturbed(acts, t)
    ensures RestoredBy(c, s, Exec(c, s, acts), t, sig, MoveCount(acts, t))
    decreases |acts|
  {
    if acts != [] {
      var s' := Apply(c, s, acts[0]);
      RestoringStep(c, s, acts[0], t, sig);
      StepInv(c, s, acts[0]);
      if s'.process == Live {
        RestoringRun(c, s', acts[1..], t, sig);
      } else {
        EndedStays(c, s', acts[1..]);
      }
    }
  }

  /**
   With a default old action the signal itself ends the process, so its status is kept: from any
   reachable state, in any run with enough moves of the owner and no further signal to it.
   */
  lemma DefaultKills(c: Config, s0: State, before: seq<Action>, after: seq<Action>, t: ThreadId, sig: Signal)
    requires Init(s0) && CanRun(c, s0, before)
    requires var s := Exec(c, s0, before);
             s.process == Live && s.owner == Some(t) && t in s.threads && s.threads[t].pc == Dispatch(sig)
    requires c.oldAction(sig) == OldDefault
    requires CanRun(c, Exec(c, s0, before), after) && MoveCount(after, t) >= 3 && Undisturbed(after, t)
    ensures Exec(c, Exec(c, s0, before), after).process == Killed(sig)
  {
    var s := Exec(c, s0, before);
    RunUntouched(c, s0, before);
    RestoringRun(c, s, after, t, sig);
  }
}
