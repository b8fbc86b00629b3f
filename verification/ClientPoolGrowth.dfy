/** When the client pool grows, and when a call comes back with nothing. */
module ClientPoolGrowth {
  import opened Basics
  import opened ClientPool
  import opened ClientPoolSafety

  lemma RunFirst(c: Config, s: State, a: Action, rest: seq<Action>)
    requires Enabled(c, s, a) && CanRun(c, Apply(c, s, a), rest)
    ensures CanRun(c, s, [a] + rest) && Exec(c, s, [a] + rest) == Exec(c, Apply(c, s, a), rest)
  {
    assert ([a] + rest)[1..] == rest;
  }

  lemma {:induction false} RunOn(c: Config, s: State, acts: seq<Action>, more: seq<Action>)
    requires CanRun(c, s, acts) && CanRun(c, Exec(c, s, acts), more)
    ensures CanRun(c, s, acts + more) && Exec(c, s, acts + more) == Exec(c, Exec(c, s, acts), more)
    decreases |acts|
  {
    if acts == [] {
      assert acts + more == more;
    } else {
      RunOn(c, Apply(c, s, acts[0]), acts[1..], more);
      assert acts + more == [acts[0]] + (acts[1..] + more);
      RunFirst(c, s, acts[0], acts[1..] + more);
    }
  }

  // --------------------------------------------------------------------- growing

  /** Nothing is free, nobody waits or grows, and there is room for another client. */
  ghost predicate CanGrow(c: Config, s: State, t: ThreadId) {
    && Inv(c, s) && c.growable && HasPc(s, t, Idle) && s.grower == None
    && s.pool.free == [] && |s.pool.refs| < c.maxSize && Sleepers(s.threads) == {}
  }

  /** The steps of a call that finds nothing free and has a client created. */
  function GrowActs(t: ThreadId, x: Client): seq<Action> {
    [Call(t), Test(t), Test(t)] + [Test(t), Test(t), Test(t)]
    + ([Callback(t, Some(x)), Push(t, None)] + [Test(t), Enter(t)])
  }

  lemma Steps(c: Config, s: State, a: Action, s1: State, b: Action, s2: State)
    requires Enabled(c, s, a) && s1 == Apply(c, s, a) && Enabled(c, s1, b) && s2 == Apply(c, s1, b)
    ensures CanRun(c, s, [a, b]) && Exec(c, s, [a, b]) == s2
  {
    assert CanRun(c, s2, []) && Exec(c, s2, []) == s2;
    RunFirst(c, s1, b, []);
    RunFirst(c, s, a, [b]);
    assert [b] + [] == [b] && [a] + [b] == [a, b];
  }

  lemma ThreeSteps(c: Config, s: State, a: Action, s1: State, b: Action, s2: State, d: Action, s3: State)
    requires Enabled(c, s, a) && s1 == Apply(c, s, a) && Enabled(c, s1, b) && s2 == Apply(c, s1, b)
    requires Enabled(c, s2, d) && s3 == Apply(c, s2, d)
    ensures CanRun(c, s, [a, b, d]) && Exec(c, s, [a, b, d]) == s3
  {
    Steps(c, s1, b, s2, d, s3);
    RunFirst(c, s, a, [b, d]);
    assert [a] + [b, d] == [a, b, d];
  }

  /** From the call to the first test for room. */
  lemma LooksForFree(c: Config, s: State, t: ThreadId)
    requires CanGrow(c, s, t)
    ensures var acts := [Call(t), Test(t), Test(t)];
            CanRun(c, s, acts) && Exec(c, s, acts) == With(s, t, CheckGrow)
  {
    var s1, s2, s3 := With(s, t, CheckFree), With(s, t, CheckAll), With(s, t, CheckGrow);
    ThreeSteps(c, s, Call(t), s1, Test(t), s2, Test(t), s3);
  }

  /** Both tests for room, the second under the lock. */
  lemma LooksForRoom(c: Config, s: State, t: ThreadId)
    requires CanGrow(c, s, t)
    ensures var acts := [Test(t), Test(t), Test(t)];
            && CanRun(c, With(s, t, CheckGrow), acts)
            && Exec(c, With(s, t, CheckGrow), acts) == With(s, t, Create).(grower := Some(t))
  {
    AsInt32Small(|s.pool.refs|);
    var s1, s2 := With(s, t, LockGrow), With(s, t, RecheckGrow).(grower := Some(t));
    var s3 := With(s, t, Create).(grower := Some(t));
    ThreeSteps(c, With(s, t, CheckGrow), Test(t), s1, Test(t), s2, Test(t), s3);
  }

  /** The grower with its client in the queue and in the list. */
  function Grown(s: State, t: ThreadId, x: Client, pc: Pc, free: seq<Client>): State {
    With(s, t, pc).(created := s.created + {x}, pool := Pool(free, s.pool.refs + [x]))
  }

  /** The client is created, listed and put into the queue. */
  lemma Registers(c: Config, s: State, t: ThreadId, x: Client)
    requires CanGrow(c, s, t) && x !in s.created
    ensures var from := With(s, t, Create).(grower := Some(t));
            var acts := [Callback(t, Some(x)), Push(t, None)];
            CanRun(c, from, acts) && Exec(c, from, acts) == Grown(s, t, x, UnlockGrow, [x]).(grower := Some(t))
  {
    var from := With(s, t, Create).(grower := Some(t));
    var s1 := With(s, t, Register(x)).(grower := Some(t), created := s.created + {x});
    SleepersPut(s.threads, t, Register(x));
    NobodyAsleep(s1.threads);
    Steps(c, from, Callback(t, Some(x)), s1, Push(t, None), Grown(s, t, x, UnlockGrow, [x]).(grower := Some(t)));
  }

  /** And taken out again. */
  lemma TakesNew(c: Config, s: State, t: ThreadId, x: Client)
    requires CanGrow(c, s, t) && x !in s.created
    ensures var from := Grown(s, t, x, UnlockGrow, [x]).(grower := Some(t));
            var acts := [Test(t), Enter(t)];
            CanRun(c, from, acts) && Exec(c, from, acts) == Grown(s, t, x, Got(Some(x)), [])
  {
    var from := Grown(s, t, x, UnlockGrow, [x]).(grower := Some(t));
    Steps(c, from, Test(t), Grown(s, t, x, Acquire(true), [x]), Enter(t), Grown(s, t, x, Got(Some(x)), []));
  }

  lemma NobodyAsleep(threads: map<ThreadId, Pc>)
    requires Sleepers(threads) == {}
    ensures CanNotify(threads, None)
  {
    forall u | u in threads
      ensures !threads[u].Asleep?
    {
      assert u !in Sleepers(threads);
    }
  }

  /**
   A growable pool with room grows: a call that finds nothing free, while nobody else grows or waits, has a
   client created, listed and handed out.
   */
  lemma GrowsAndHandsOut(c: Config, s: State, t: ThreadId, x: Client)
    requires CanGrow(c, s, t) && x !in s.created
    ensures CanRun(c, s, GrowActs(t, x))
    ensures var e := Exec(c, s, GrowActs(t, x));
            HasPc(e, t, Got(Some(x))) && e.pool.refs == s.pool.refs + [x] && e.grower == None
  {
    LooksForFree(c, s, t);
    LooksForRoom(c, s, t);
    Registers(c, s, t, x);
    TakesNew(c, s, t, x);
    var first, second := [Call(t), Test(t), Test(t)], [Test(t), Test(t), Test(t)];
    var third, fourth := [Callback(t, Some(x)), Push(t, None)], [Test(t), Enter(t)];
    RunOn(c, s, first, second);
    RunOn(c, Exec(c, s, first + second), third, fourth);
    RunOn(c, s, first + second, third + fourth);
  }

  // -------------------------------------------------------- coming back with nothing

  /** A test for room that finds the list full. */
  predicate FullAt(c: Config, s: State, a: Action, t: ThreadId) {
    HasTest(s, a, t) && (s.threads[t].CheckGrow? || s.threads[t].RecheckGrow?) && |s.pool.refs| >= c.maxSize
  }

  predicate HasTest(s: State, a: Action, t: ThreadId) { a == Test(t) && t in s.threads }

  /** Another thread takes client `x` from the queue. */
  predicate TakenAt(s: State, a: Action, t: ThreadId, x: Client) {
    a.Enter? && a.t != t && s.pool.free != [] && s.pool.free[0] == x
  }

  /** The client that the thread's callback has created, if any. */
  function Mine(a: Action, t: ThreadId, mine: Option<Client>): Option<Client> {
    if a.Callback? && a.t == t && a.result.Some? then a.result else mine
  }

  /** A step that excuses an empty-handed return. */
  predicate ExcusedAt(c: Config, s: State, a: Action, t: ThreadId, mine: Option<Client>) {
    a == Callback(t, None) || FullAt(c, s, a, t) || (mine.Some? && TakenAt(s, a, t, mine.value))
  }

  /** In the run the callback failed, a test for room found the list full, or another thread took the new client. */
  predicate Excused(c: Config, s: State, acts: seq<Action>, t: ThreadId, mine: Option<Client>)
    requires CanRun(c, s, acts)
    decreases |acts|
  {
    acts != [] &&
    (ExcusedAt(c, s, acts[0], t, mine) || Excused(c, Apply(c, s, acts[0]), acts[1..], t, Mine(acts[0], t, mine)))
  }

  /** Inside PoolState::AcquireClient. */
  predicate Acquiring(pc: Pc) { pc.Acquire? || pc.Asleep? || pc.Woken? }

  /** Inside a call that still cannot fail: once it is past growing, its client is in the queue. */
  predicate Hopeful(s: State, t: ThreadId, mine: Option<Client>) {
    t in s.threads &&
    var pc := s.threads[t];
    && !pc.Idle? && !pc.Releasing? && pc != Got(None)
    && (pc.Register? ==> mine == Some(pc.client))
    && (pc.UnlockGrow? || (Acquiring(pc) && pc.last) ==> mine.Some? && mine.value in s.pool.free)
  }

  predicate EndsCall(a: Action, t: ThreadId) { a.MakeHandle? && a.t == t }

  lemma OwnStepHopeful(c: Config, s: State, a: Action, t: ThreadId, mine: Option<Client>)
    requires Inv(c, s) && Hopeful(s, t, mine) && Enabled(c, s, a) && !ExcusedAt(c, s, a, t, mine)
    requires !a.MoveHandle? && a.t == t && !EndsCall(a, t)
    ensures Hopeful(Apply(c, s, a), t, Mine(a, t, mine))
  {
    AsInt32Small(|s.pool.refs|);
  }

  lemma OtherStepHopeful(c: Config, s: State, a: Action, t: ThreadId, mine: Option<Client>)
    requires Inv(c, s) && Hopeful(s, t, mine) && Enabled(c, s, a) && !ExcusedAt(c, s, a, t, mine)
    requires a.MoveHandle? || a.t != t
    ensures Hopeful(Apply(c, s, a), t, Mine(a, t, mine))
  {
  }

  lemma {:induction false} RunHopeful(c: Config, s: State, acts: seq<Action>, t: ThreadId, mine: Option<Client>)
    requires Inv(c, s) && Hopeful(s, t, mine) && CanRun(c, s, acts) && !Excused(c, s, acts, t, mine)
    requires forall i :: 0 <= i < |acts| ==> !EndsCall(acts[i], t)
    ensures !HasPc(Exec(c, s, acts), t, Got(None))
    decreases |acts|
  {
    if acts != [] {
      var a := acts[0];
      StepInv(c, s, a);
      if !a.MoveHandle? && a.t == t {
        OwnStepHopeful(c, s, a, t, mine);
      } else {
        OtherStepHopeful(c, s, a, t, mine);
      }
      RunHopeful(c, Apply(c, s, a), acts[1..], t, Mine(a, t, mine));
    }
  }

  /** Inside a call whose waits have not timed out. */
  predicate InTime(s: State, t: ThreadId) {
    t in s.threads && s.threads[t] != Got(None) && (s.threads[t].Woken? ==> !s.threads[t].timedOut)
  }

  lemma {:induction false} RunInTime(c: Config, s: State, acts: seq<Action>, t: ThreadId)
    requires InTime(s, t) && CanRun(c, s, acts) && TimeOut(t) !in acts
    ensures InTime(Exec(c, s, acts), t)
    decreases |acts|
  {
    if acts != [] {
      RunInTime(c, Apply(c, s, acts[0]), acts[1..], t);
    }
  }

  /**
   In every run a call comes back with nothing only if one of its waits timed out and, in a growable pool,
   if its callback failed, the list was full at one of its tests for room, or another thread took the
   client it had created.
   */
  lemma NothingOnlyIf(c: Config, s0: State, before: seq<Action>, t: ThreadId, acts: seq<Action>)
    requires Init(c, s0) && CanRun(c, s0, before) && HasPc(Exec(c, s0, before), t, Idle)
    requires CanRun(c, Apply(c, Exec(c, s0, before), Call(t)), acts)
    requires forall i :: 0 <= i < |acts| ==> !EndsCall(acts[i], t)
    requires HasPc(Exec(c, Apply(c, Exec(c, s0, before), Call(t)), acts), t, Got(None))
    ensures TimeOut(t) in acts
    ensures c.growable ==> Excused(c, Apply(c, Exec(c, s0, before), Call(t)), acts, t, None)
  {
    InitInv(c, s0);
    RunInv(c, s0, before);
    var s := Exec(c, s0, before);
    StepInv(c, s, Call(t));
    var s1 := Apply(c, s, Call(t));
    if TimeOut(t) !in acts {
      RunInTime(c, s1, acts, t);
    }
    if c.growable && !Excused(c, s1, acts, t, None) {
      RunHopeful(c, s1, acts, t, None);
    }
  }

  // ------------------------------------------------------------- growing only in need

  /** A look that finds nothing free. */
  predicate NoneFreeAt(s: State, a: Action, t: ThreadId) {
    HasTest(s, a, t) && s.threads[t].CheckFree? && s.pool.free == []
  }

  /** A look that finds the list shorter than the limit. */
  predicate RoomAt(c: Config, s: State, a: Action, t: ThreadId) {
    HasTest(s, a, t) && s.threads[t].CheckAll? && |s.pool.refs| < AsSize(c.maxSize)
  }

  predicate SawNoneFree(c: Config, s: State, acts: seq<Action>, t: ThreadId)
    requires CanRun(c, s, acts)
    decreases |acts|
  {
    acts != [] && (NoneFreeAt(s, acts[0], t) || SawNoneFree(c, Apply(c, s, acts[0]), acts[1..], t))
  }

  predicate SawRoom(c: Config, s: State, acts: seq<Action>, t: ThreadId)
    requires CanRun(c, s, acts)
    decreases |acts|
  {
    acts != [] && (RoomAt(c, s, acts[0], t) || SawRoom(c, Apply(c, s, acts[0]), acts[1..], t))
  }

  /** How far a call has got on its way to growing without a time-out. */
  predicate Seen(s: State, t: ThreadId, none: bool, room: bool) {
    t in s.threads &&
    var pc := s.threads[t];
    && (pc.CheckAll? ==> none)
    && (pc.CheckGrow? || pc.LockGrow? || pc.RecheckGrow? || pc.Create? ==> none && room)
    && (pc.Woken? ==> !pc.timedOut)
    && !pc.Idle? && !pc.Releasing?
  }

  lemma {:induction false} RunSeen(c: Config, s: State, acts: seq<Action>, t: ThreadId, none: bool, room: bool)
    requires Seen(s, t, none, room) && CanRun(c, s, acts) && TimeOut(t) !in acts
    requires forall i :: 0 <= i < |acts| ==> !EndsCall(acts[i], t)
    ensures CallsBack(acts, t) ==>
              (none || SawNoneFree(c, s, acts, t)) && (room || SawRoom(c, s, acts, t))
    decreases |acts|
  {
    if acts != [] {
      var a := acts[0];
      SeenStep(c, s, a, t, none, room);
      RunSeen(c, Apply(c, s, a), acts[1..], t, none || NoneFreeAt(s, a, t), room || RoomAt(c, s, a, t));
    }
  }

  lemma SeenStep(c: Config, s: State, a: Action, t: ThreadId, none: bool, room: bool)
    requires Seen(s, t, none, room) && Enabled(c, s, a) && a != TimeOut(t) && !EndsCall(a, t)
    ensures Seen(Apply(c, s, a), t, none || NoneFreeAt(s, a, t), room || RoomAt(c, s, a, t))
    ensures a.Callback? && a.t == t ==> none && room
  {
  }

  /** The thread's callback is called. */
  predicate CallsBack(acts: seq<Action>, t: ThreadId) {
    acts != [] && ((acts[0].Callback? && acts[0].t == t) || CallsBack(acts[1..], t))
  }

  /** A call has a client created only if it saw none free and room in the list, or waited for one in vain. */
  lemma GrowsOnlyInNeed(c: Config, s: State, t: ThreadId, acts: seq<Action>)
    requires c.growable && HasPc(s, t, Idle) && CanRun(c, Apply(c, s, Call(t)), acts)
    requires CallsBack(acts, t) && forall i :: 0 <= i < |acts| ==> !EndsCall(acts[i], t)
    ensures || TimeOut(t) in acts
            || (SawNoneFree(c, Apply(c, s, Call(t)), acts, t) && SawRoom(c, Apply(c, s, Call(t)), acts, t))
  {
    if TimeOut(t) !in acts {
      RunSeen(c, Apply(c, s, Call(t)), acts, t, false, false);
    }
  }

  /** A test for room, outside the lock, that finds some. */
  predicate GrowRoomAt(c: Config, s: State, a: Action, t: ThreadId) {
    HasTest(s, a, t) && s.threads[t].CheckGrow? && |s.pool.refs| < c.maxSize
  }

  predicate SawGrowRoom(c: Config, s: State, acts: seq<Action>, t: ThreadId)
    requires CanRun(c, s, acts)
    decreases |acts|
  {
    acts != [] && (GrowRoomAt(c, s, acts[0], t) || SawGrowRoom(c, Apply(c, s, acts[0]), acts[1..], t))
  }

  predicate AtLock(s: State, t: ThreadId) { t in s.threads && (s.threads[t].LockGrow? || s.threads[t].RecheckGrow?) }

  lemma {:induction false} RunToLock(c: Config, s: State, acts: seq<Action>, t: ThreadId)
    requires Inv(c, s) && CanRun(c, s, acts)
    ensures AtLock(Exec(c, s, acts), t) ==> AtLock(s, t) || SawGrowRoom(c, s, acts, t)
    decreases |acts|
  {
    if acts != [] {
      StepToLock(c, s, acts[0], t);
      StepInv(c, s, acts[0]);
      RunToLock(c, Apply(c, s, acts[0]), acts[1..], t);
    }
  }

  lemma StepToLock(c: Config, s: State, a: Action, t: ThreadId)
    requires Inv(c, s) && Enabled(c, s, a)
    ensures AtLock(Apply(c, s, a), t) ==> AtLock(s, t) || GrowRoomAt(c, s, a, t)
  {
    AsInt32Small(|s.pool.refs|);
  }

  /** The lock for growing is taken only by a call whose test outside it has found room. */
  lemma LocksOnlyForRoom(c: Config, s0: State, acts: seq<Action>, t: ThreadId)
    requires Init(c, s0) && CanRun(c, s0, acts) && AtLock(Exec(c, s0, acts), t)
    ensures SawGrowRoom(c, s0, acts, t)
  {
    InitInv(c, s0);
    RunToLock(c, s0, acts, t);
  }

  /** Where the threads of a pool that does not grow may be. */
  predicate StaticPlace(pc: Pc) { pc.Idle? || (Acquiring(pc) && pc.last) || pc.Got? || pc.Releasing? }

  lemma {:induction false} StaticRun(c: Config, s: State, acts: seq<Action>)
    requires !c.growable && CanRun(c, s, acts) && forall t :: t in s.threads ==> StaticPlace(s.threads[t])
    ensures Exec(c, s, acts).pool.refs == s.pool.refs && Exec(c, s, acts).created == s.created
    decreases |acts|
  {
    if acts != [] {
      StaticStep(c, s, acts[0]);
      StaticRun(c, Apply(c, s, acts[0]), acts[1..]);
    }
  }

  lemma StaticStep(c: Config, s: State, a: Action)
    requires !c.growable && Enabled(c, s, a) && forall t :: t in s.threads ==> StaticPlace(s.threads[t])
    ensures var s' := Apply(c, s, a);
            && s'.pool.refs == s.pool.refs && s'.created == s.created
            && forall t :: t in s'.threads ==> StaticPlace(s'.threads[t])
  {
  }

  /** A static pool never grows. */
  lemma StaticNeverGrows(c: Config, s0: State, acts: seq<Action>)
    requires !c.growable && Init(c, s0) && CanRun(c, s0, acts)
    ensures Exec(c, s0, acts).pool.refs == s0.pool.refs && Exec(c, s0, acts).created == s0.created
  {
    StaticRun(c, s0, acts);
  }

  // ---------------------------------------------------------------------- calls end

  /** Moves left in a call, waits counted by their time-outs. */
  function Rank(pc: Pc): nat {
    match pc
    case CheckFree => 15
    case CheckAll => 14
    case Acquire(last) => if last then 4 else 13
    case Asleep(last) => if last then 3 else 12
    case Woken(last, timedOut) => (if last then 3 else 12) - (if timedOut then 1 else 0)
    case CheckGrow => 10
    case LockGrow => 9
    case RecheckGrow => 8
    case Create => 7
    case Register(_) => 6
    case UnlockGrow => 5
    case Got(_) => 1
    case Idle | Releasing(_) => 0
  }

  predicate InCall(s: State, t: ThreadId) { t in s.threads && Rank(s.threads[t]) > 0 }

  /** A move of the call: not a wakeup, and not a test that finds nothing and goes back to sleep. */
  predicate Moves(s: State, a: Action, t: ThreadId) {
    && !a.MoveHandle? && a.t == t && t in s.threads
    && var pc := s.threads[t];
       match a
       case Test(_) | Callback(_, _) | Push(_, _) => true
       case Enter(_) => s.pool.free != [] || pc.Acquire? || (pc.Woken? && pc.timedOut)
       case TimeOut(_) => !(pc.Woken? && pc.timedOut)
       case _ => false
  }

  /** Every move of a call brings its end nearer, and no step of any thread takes it farther. */
  lemma CallAdvances(c: Config, s: State, a: Action, t: ThreadId)
    requires Enabled(c, s, a) && InCall(s, t) && !EndsCall(a, t)
    ensures var s' := Apply(c, s, a);
            InCall(s', t) && Rank(s'.threads[t]) + (if Moves(s, a, t) then 1 else 0) <= Rank(s.threads[t])
  {
  }

  function MoveCount(c: Config, s: State, acts: seq<Action>, t: ThreadId): nat
    requires CanRun(c, s, acts)
    decreases |acts|
  {
    if acts == [] then 0
    else (if Moves(s, acts[0], t) then 1 else 0) + MoveCount(c, Apply(c, s, acts[0]), acts[1..], t)
  }

  /** A call that has made as many moves as it had left holds its result, whatever the other threads do. */
  lemma {:induction false} CallEnds(c: Config, s: State, acts: seq<Action>, t: ThreadId)
    requires CanRun(c, s, acts) && InCall(s, t) && MoveCount(c, s, acts, t) + 1 >= Rank(s.threads[t])
    requires forall i :: 0 <= i < |acts| ==> !EndsCall(acts[i], t)
    ensures t in Exec(c, s, acts).threads && Exec(c, s, acts).threads[t].Got?
    decreases |acts|
  {
    if acts != [] {
      CallAdvances(c, s, acts[0], t);
      CallEnds(c, Apply(c, s, acts[0]), acts[1..], t);
    }
  }

  /** And it can always move, unless it waits for the lock that another thread holds. */
  lemma CallCanMove(c: Config, s: State, t: ThreadId) returns (a: Action)
    requires InCall(s, t) && !s.threads[t].Got? && !(s.threads[t].LockGrow? && s.grower.Some?)
    ensures Enabled(c, s, a) && Moves(s, a, t)
  {
    match s.threads[t]
    case Acquire(_) => a := Enter(t);
    case Asleep(_) => a := TimeOut(t);
    case Woken(_, timedOut) => a := if timedOut then Enter(t) else TimeOut(t);
    case Create => a := Callback(t, None);
    case Register(_) =>
      var wake := SomeSleeper(s.threads);
      a := Push(t, wake);
    case _ => a := Test(t);
  }

  lemma SomeSleeper(threads: map<ThreadId, Pc>) returns (wake: Option<ThreadId>)
    ensures CanNotify(threads, wake)
  {
    if w :| w in Sleepers(threads) {
      wake := Some(w);
    } else {
      wake := None;
      NobodyAsleep(threads);
    }
  }

  // ------------------------------------------------------------------------ handles

  /** A client moved to another handle survives the first one. */
  lemma MovedHandleKeeps(c: Config, s: State, t: ThreadId, h: HandleId, g: HandleId)
    requires HasPc(s, t, Idle) && Enabled(c, s, MoveHandle(h, g))
    ensures var acts := [MoveHandle(h, g), DestroyHandle(t, h)];
            && CanRun(c, s, acts)
            && var e := Exec(c, s, acts);
               e.threads == s.threads && e.pool == s.pool && e.handles == (s.handles - {h})[g := s.handles[h]]
  {
    var s1 := Apply(c, s, MoveHandle(h, g));
    Steps(c, s, MoveHandle(h, g), s1, DestroyHandle(t, h), Apply(c, s1, DestroyHandle(t, h)));
  }
}
