/** Every interleaving of `send` and `stop` keeps the socket its owner's. */
module SocketOwnershipSafety {
  import opened Basics
  import opened SocketOwnership

  // ------------------------------------------------------------------- step by step

  /** The thread that takes a step inside `send` owns the request mutex. */
  lemma ActiveOwns(s: State, t: ThreadId)
    requires Owned(s) && Active(s, t)
    ensures s.owner == Some(t)
  {
  }

  /** Activations below the top are all in flight. */
  lemma {:induction false} FlyingBelow(k: Stack)
    requires WellNested(k)
    ensures k.On? ==> Flying(k.below) == Depth(k.below)
  {
    if k.On? && k.below.On? {
      FlyingBelow(k.below);
    }
  }

  /** The innermost activation moves on without changing its request. */
  lemma GotoInv(s: State, t: ThreadId, pc: Pc, u: State)
    requires Inv(s) && Active(s, t) && u.stacks == Goto(s, t, pc).stacks
    requires u.owner == s.owner && u.depth == s.depth
    requires u.peerClosed ==> PeerClosed(s.stacks[t].top.(pc := pc), u.shared.isOpen)
    requires u.shared.inFlight + (if InFlight(s.stacks[t].top) then 1 else 0)
          == s.shared.inFlight + (if InFlight(s.stacks[t].top.(pc := pc)) then 1 else 0)
    requires u.shared.from == if u.shared.inFlight > 0 then Some(t) else None
    ensures Inv(u)
  {
    ActiveOwns(s, t);
  }

  lemma NestInv(s: State, t: ThreadId, f: Frame)
    requires Inv(s) && Active(s, t) && f.pc == Entering && Called(s.stacks[t].top, f)
    requires !s.peerClosed
    ensures Inv(Nest(s, t, f))
  {
    ActiveOwns(s, t);
  }

  lemma FromOwner(s: State, t: ThreadId)
    requires Inv(s) && Active(s, t)
    ensures s.shared.from == if s.shared.inFlight > 0 then Some(t) else None
    ensures InFlight(s.stacks[t].top) ==> s.shared.inFlight > 0
  {
    ActiveOwns(s, t);
  }

  lemma ReturnInv(s: State, t: ThreadId)
    requires Inv(s) && Enabled(s, Return(t))
    ensures Inv(Returned(s, t))
  {
    var k := s.stacks[t];
    if s.peerClosed && !k.top.retried {
      RetryInv(s, t);
    } else if k.below.On? {
      ResumeInv(s, t);
    } else {
      LastReturnInv(s, t);
    }
  }

  lemma RetryInv(s: State, t: ThreadId)
    requires Inv(s) && Enabled(s, Return(t)) && s.peerClosed && !s.stacks[t].top.retried
    ensures Inv(Returned(s, t))
  {
    ActiveOwns(s, t);
    var k, u := s.stacks[t], Returned(s, t);
    assert OwnerStack(s) == k && OwnerStack(u) == u.stacks[t];
    assert Depth(u.stacks[t]) == Depth(k) && Flying(u.stacks[t]) == Flying(k);
    assert WellNested(u.stacks[t]);
  }

  lemma ResumeInv(s: State, t: ThreadId)
    requires Inv(s) && Enabled(s, Return(t)) && !(s.peerClosed && !s.stacks[t].top.retried) && s.stacks[t].below.On?
    ensures Inv(Returned(s, t))
  {
    ActiveOwns(s, t);
    var k, u := s.stacks[t], Returned(s, t);
    ResumedNested(k);
    assert Depth(k) == 1 + Depth(k.below) && Depth(k.below) == 1 + Depth(k.below.below);
    assert Flying(k) == Flying(k.below) && Flying(k.below) == 1 + Flying(k.below.below);
    assert u.owner == s.owner;
    assert OwnerStack(s) == k && OwnerStack(u) == u.stacks[t];
  }

  lemma LastReturnInv(s: State, t: ThreadId)
    requires Inv(s) && Enabled(s, Return(t)) && !(s.peerClosed && !s.stacks[t].top.retried)
    requires s.stacks[t].below == Bottom
    ensures Inv(Returned(s, t))
  {
    ActiveOwns(s, t);
    var k := s.stacks[t];
    assert Depth(k) == 1 + Depth(k.below) && Flying(k) == Flying(k.below);
    assert OwnerStack(s) == k;
  }

  /** The caller's link to its own caller survives the return of its callee. */
  lemma ResumedNested(k: Stack)
    requires WellNested(k) && k.On? && k.below.On? && k.top.pc.Returning?
    ensures WellNested(On(Resumed(k.below.top, k.top, k.top.pc.ret), k.below.below))
    ensures InFlight(Resumed(k.below.top, k.top, k.top.pc.ret)) && InFlight(k.below.top)
  {
  }

  lemma CallInv(s: State, a: Action)
    requires Inv(s) && Enabled(s, a) && a.Call?
    ensures Inv(Apply(s, a))
  {
  }

  lemma EnterInv(s: State, a: Action)
    requires Inv(s) && Enabled(s, a) && a.Enter?
    ensures Inv(Apply(s, a))
  {
    var u := Apply(s, a);
    FromOwner(s, a.t);
    ActiveOwns(s, a.t);
    GotoInv(s, a.t, u.stacks[a.t].top.pc, u);
  }

  lemma RespondInv(s: State, a: Action)
    requires Inv(s) && Enabled(s, a) && (a.Respond? || a.TestConnection?)
    ensures Inv(Apply(s, a))
  {
    var u := Apply(s, a);
    FromOwner(s, a.t);
    ActiveOwns(s, a.t);
    GotoInv(s, a.t, u.stacks[a.t].top.pc, u);
  }

  lemma PassInv(s: State, a: Action)
    requires Inv(s) && Enabled(s, a) && (a.NoRedirect? || a.NoAuthorization?)
    ensures Inv(Apply(s, a))
  {
    var u := Apply(s, a);
    FromOwner(s, a.t);
    ActiveOwns(s, a.t);
    GotoInv(s, a.t, u.stacks[a.t].top.pc, u);
  }

  lemma NestedInv(s: State, a: Action)
    requires Inv(s) && Enabled(s, a) && (a.NestRedirect? || a.NestAuthorization?)
    ensures Inv(Apply(s, a))
  {
    ActiveOwns(s, a.t);
    NestInv(s, a.t, Apply(s, a).stacks[a.t].top);
  }

  lemma LeaveInv(s: State, a: Action)
    requires Inv(s) && Enabled(s, a) && a.Leave?
    ensures Inv(Apply(s, a))
  {
    var u := Apply(s, a);
    FromOwner(s, a.t);
    ActiveOwns(s, a.t);
    GotoInv(s, a.t, u.stacks[a.t].top.pc, u);
  }

  lemma StepInv(s: State, a: Action)
    requires Inv(s) && Enabled(s, a)
    ensures Inv(Apply(s, a))
  {
    match a
    case Call(_, _, _) => CallInv(s, a);
    case Enter(_, _, _) => EnterInv(s, a);
    case Respond(_, _, _) => RespondInv(s, a);
    case TestConnection(_, _) => RespondInv(s, a);
    case NoRedirect(_, _, _) => PassInv(s, a);
    case NestRedirect(_) => NestedInv(s, a);
    case NoAuthorization(_) => PassInv(s, a);
    case NestAuthorization(_) => NestedInv(s, a);
    case Leave(_, _) => LeaveInv(s, a);
    case Return(t) => ReturnInv(s, t);
    case Stop(_) => StopInv(s);
  }

  lemma StopInv(s: State)
    requires Inv(s)
    ensures Inv(s.(shared := Stopped(s.shared)))
  {
    var u := s.(shared := Stopped(s.shared));
    assert OwnerStack(u) == OwnerStack(s);
  }

  lemma {:induction false} RunInv(s: State, acts: seq<Action>)
    requires Inv(s) && CanRun(s, acts)
    ensures Inv(Exec(s, acts))
    decreases |acts|
  {
    if acts != [] {
      StepInv(s, acts[0]);
      RunInv(Apply(s, acts[0]), acts[1..]);
    }
  }

  // -------------------------------------------------------------------- the results

  /** What the code asserts in close_socket and shutdown_ssl. */
  predicate CloseAssertion(c: Closing) { c.inFlight == 0 || c.from == Some(c.t) }

  /** No other thread has a request in flight. */
  ghost predicate Alone(s: State, t: ThreadId) {
    forall u :: u in s.stacks && u != t ==> Flying(s.stacks[u]) == 0
  }

  lemma CloseIsSafe(s: State, a: Action)
    requires Inv(s) && Enabled(s, a) && CloseAt(s, a).Some?
    ensures CloseAssertion(CloseAt(s, a).value) && Alone(s, CloseAt(s, a).value.t)
  {
    match a
    case Enter(t, alive, link) =>
      FromOwner(s, t);
      ActiveOwns(s, t);
    case TestConnection(t, close) =>
      FromOwner(s, t);
      ActiveOwns(s, t);
    case Leave(t, close) =>
      FromOwner(s, t);
      ActiveOwns(s, t);
    case Stop(t) =>
  }

  /**
   `CloseAt` lists the closes the machine makes, no more and no fewer: behind one the socket is closed,
   unless the same region has connected again, and a socket that a step finds open and leaves closed
   was closed by one.
   */
  ghost predicate ClosesAsListed(s: State, a: Action)
    requires Enabled(s, a)
  {
    && (CloseAt(s, a).Some? && !(a.Enter? && a.link.Up?) ==> !Apply(s, a).shared.isOpen)
    && (s.shared.isOpen && !Apply(s, a).shared.isOpen ==> CloseAt(s, a).Some?)
  }

  /** A request is processed on an open socket: nobody closes it from under its owner. */
  ghost predicate OpenWhileProcessed(s: State) {
    OwnerStack(s).On? && (OwnerStack(s).top.pc.Processing? || OwnerStack(s).top.pc.Responded?) ==> s.shared.isOpen
  }

  lemma StepOpen(s: State, a: Action)
    requires Inv(s) && OpenWhileProcessed(s) && Enabled(s, a)
    ensures OpenWhileProcessed(Apply(s, a))
  {
    if a.Stop? {
      if OwnerStack(s).On? && InFlight(OwnerStack(s).top) {
        FromOwner(s, s.owner.value);
      }
    } else if !a.Call? {
      ActiveOwns(s, a.t);
    }
  }

  lemma {:induction false} RunOpen(s: State, acts: seq<Action>)
    requires Inv(s) && OpenWhileProcessed(s) && CanRun(s, acts)
    ensures OpenWhileProcessed(Exec(s, acts))
    decreases |acts|
  {
    if acts != [] {
      StepInv(s, acts[0]);
      StepOpen(s, acts[0]);
      RunOpen(Apply(s, acts[0]), acts[1..]);
    }
  }

  /** A send that failed because its peer was closed is tried once more before it returns, and no other is. */
  ghost predicate RetriedOnce(s: State, a: Action)
    requires Enabled(s, a)
  {
    a.Return? ==>
      var k, k' := s.stacks[a.t], Apply(s, a).stacks[a.t];
      if s.peerClosed && !k.top.retried then k' == On(k.top.(pc := Entering, retried := true), k.below)
      else Depth(k') == Depth(k) - 1
  }

  lemma RunFirst(s: State, a: Action, rest: seq<Action>)
    requires Enabled(s, a) && CanRun(Apply(s, a), rest)
    ensures CanRun(s, [a] + rest) && Exec(s, [a] + rest) == Exec(Apply(s, a), rest)
  {
    assert ([a] + rest)[1..] == rest;
  }

  /** A first try that leaves with the error of a closed peer is followed by the second. */
  lemma LeavesForRetry(s: State, t: ThreadId, close: bool)
    requires Inv(s) && Active(s, t) && Top(s, t) == Leaving(false) && s.peerClosed && !s.stacks[t].top.retried
    ensures var acts := [Leave(t, close), Return(t)];
            && CanRun(s, acts)
            && var e := Exec(s, acts);
               Active(e, t) && e.stacks[t].top == s.stacks[t].top.(pc := Entering, retried := true) && !e.shared.isOpen
  {
    FromOwner(s, t);
    var s1 := Apply(s, Leave(t, close));
    var s2 := Apply(s1, Return(t));
    assert CanRun(s2, []) && Exec(s2, []) == s2;
    RunFirst(s1, Return(t), []);
    RunFirst(s, Leave(t, close), [Return(t)]);
    assert [Return(t)] + [] == [Return(t)] && [Leave(t, close)] + [Return(t)] == [Leave(t, close), Return(t)];
  }

  /** So it is when the request itself fails so, and when a redirect to another host does. */
  lemma ClosedPeerRetried(s: State, t: ThreadId, close: bool)
    requires Inv(s) && Active(s, t) && (Top(s, t).Processing? || Top(s, t).Redirecting?) && !s.stacks[t].top.retried
    ensures var acts := if Top(s, t).Processing? then [Respond(t, false, true)] + [Leave(t, close), Return(t)]
                        else [NoRedirect(t, false, true)] + ([NoAuthorization(t)] + [Leave(t, close), Return(t)]);
            && CanRun(s, acts)
            && var e := Exec(s, acts);
               Active(e, t) && e.stacks[t].top == s.stacks[t].top.(pc := Entering, retried := true)
  {
    var last := [Leave(t, close), Return(t)];
    if Top(s, t).Processing? {
      StepInv(s, Respond(t, false, true));
      LeavesForRetry(Apply(s, Respond(t, false, true)), t, close);
      RunFirst(s, Respond(t, false, true), last);
    } else {
      var s1 := Apply(s, NoRedirect(t, false, true));
      StepInv(s, NoRedirect(t, false, true));
      StepInv(s1, NoAuthorization(t));
      LeavesForRetry(Apply(s1, NoAuthorization(t)), t, close);
      RunFirst(s1, NoAuthorization(t), last);
      RunFirst(s, NoRedirect(t, false, true), [NoAuthorization(t)] + last);
    }
  }

  /** The other assertions: of the marked thread on entry, and of failure before the second try. */
  predicate OtherAssertions(s: State, a: Action)
    requires Enabled(s, a)
  {
    match a
    case Enter(t, alive, link) => Starts(s.shared, alive, link) && s.shared.inFlight > 1 ==> s.shared.from == Some(t)
    case Return(t) => s.peerClosed && !s.stacks[t].top.retried ==> !Top(s, t).ret
    case _ => true
  }

  /**
   In every run, at every next step: the in-flight count is the number of the owner's nested
   sends that are in flight, all but possibly the innermost; no other thread has any; a request is
   processed on an open socket; the socket is closed just where close_socket is listed, on a thread that
   has it to itself; a send is tried again just where it must be; and all assertions hold.
   */
  lemma Safety(s0: State, acts: seq<Action>, a: Action)
    requires Init(s0) && CanRun(s0, acts) && Enabled(Exec(s0, acts), a)
    ensures var s := Exec(s0, acts);
            && s.shared.inFlight == Flying(OwnerStack(s))
            && (OwnerStack(s).On? ==>
                  s.shared.inFlight == Depth(OwnerStack(s)) - (if InFlight(OwnerStack(s).top) then 0 else 1))
            && (forall t :: t in s.stacks && s.owner != Some(t) ==> s.stacks[t] == Bottom)
            && OpenWhileProcessed(s) && ClosesAsListed(s, a) && RetriedOnce(s, a)
            && (CloseAt(s, a).Some? ==> CloseAssertion(CloseAt(s, a).value) && Alone(s, CloseAt(s, a).value.t))
            && OtherAssertions(s, a)
  {
    var s := Exec(s0, acts);
    RunInv(s0, acts);
    RunOpen(s0, acts);
    if s.owner.Some? {
      FlyingBelow(s.stacks[s.owner.value]);
    }
    if CloseAt(s, a).Some? {
      CloseIsSafe(s, a);
    }
    if a.Enter? {
      FromOwner(s, a.t);
    }
    if a.Return? {
      ActiveOwns(s, a.t);
    }
  }

  /** The scope exit never underflows its counter, so it is never held up. */
  lemma LeaveIsReady(s: State, t: ThreadId)
    requires Inv(s) && Active(s, t) && Top(s, t).Leaving?
    ensures Enabled(s, Leave(t, false))
  {
    FromOwner(s, t);
  }

  // ---------------------------------------------------------- nesting is bounded

  function Outer(k: Stack): Frame
    requires k.On?
  {
    if k.below.On? then Outer(k.below) else k.top
  }

  /** Each nested send has less to spend than its caller. */
  lemma {:induction false} DepthBound(k: Stack)
    requires WellNested(k) && k.On?
    ensures Budget(k.top) + Depth(k.below) <= Budget(Outer(k))
  {
    if k.below.On? {
      DepthBound(k.below);
    }
  }

  lemma {:induction false} OuterBelow(k: Stack, f: Frame)
    requires k.On?
    ensures k.below.On? ==> Outer(On(f, k.below)) == Outer(k)
    ensures Outer(On(f, k)) == Outer(k)
  {
  }

  /** What the outermost request allows never grows during its call. */
  ghost predicate OuterAllows(s: State, budget: nat) {
    var k := OwnerStack(s); k.On? ==> Budget(Outer(k)) <= budget
  }

  predicate CallsWithin(a: Action, budget: nat) {
    a.Call? ==> Budget(Frame(Entering, Outermost, a.redirects, a.authorizations, false)) <= budget
  }

  lemma OuterStep(s: State, a: Action, budget: nat)
    requires Inv(s) && Enabled(s, a) && OuterAllows(s, budget) && CallsWithin(a, budget)
    ensures OuterAllows(Apply(s, a), budget)
  {
    var u := Apply(s, a);
    if !a.Call? && !a.Stop? {
      ActiveOwns(s, a.t);
      var k, k' := s.stacks[a.t], u.stacks[a.t];
      if k'.On? {
        OuterBelow(k, k'.top);
        if a.Return? && k.below.On? {
          OuterBelow(k.below, k'.top);
        }
      }
    }
  }

  lemma {:induction false} OuterRun(s: State, acts: seq<Action>, budget: nat)
    requires Inv(s) && CanRun(s, acts) && OuterAllows(s, budget)
    requires forall i :: 0 <= i < |acts| ==> CallsWithin(acts[i], budget)
    ensures Inv(Exec(s, acts)) && OuterAllows(Exec(s, acts), budget)
    decreases |acts|
  {
    if acts != [] {
      OuterStep(s, acts[0], budget);
      StepInv(s, acts[0]);
      OuterRun(Apply(s, acts[0]), acts[1..], budget);
    }
  }

  /** At most one send for each redirect and each authorization the outermost request allows, and itself. */
  lemma NestingBound(s0: State, acts: seq<Action>, budget: nat)
    requires Init(s0) && CanRun(s0, acts) && forall i :: 0 <= i < |acts| ==> CallsWithin(acts[i], budget)
    ensures Depth(OwnerStack(Exec(s0, acts))) <= budget + 1
  {
    OuterRun(s0, acts, budget);
    var k := OwnerStack(Exec(s0, acts));
    if k.On? {
      DepthBound(k);
    }
  }

  // --------------------------------------------------------------------- termination

  /** The most steps a send with this budget can take: two tries, each with two nested sends. */
  function Cost(budget: nat): nat { 2 * TryCost(budget) }

  function TryCost(budget: nat): nat {
    8 + if budget == 0 then 0 else 2 * (2 * TryCost(budget - 1))
  }

  /** The cost of a nested send. */
  function NestCost(budget: nat): nat { if budget == 0 then 0 else Cost(budget - 1) }

  lemma {:induction false} TryCostGrows(a: nat, b: nat)
    requires a <= b
    ensures TryCost(a) <= TryCost(b)
  {
    if a > 0 {
      TryCostGrows(a - 1, b - 1);
    }
  }

  function StepsAt(pc: Pc, budget: nat): nat {
    match pc
    case Entering => 7 + 2 * NestCost(budget)
    case Processing => 6 + 2 * NestCost(budget)
    case Responded => 5 + 2 * NestCost(budget)
    case Redirecting => 4 + 2 * NestCost(budget)
    case Authorizing(_) => 3 + NestCost(budget)
    case Leaving(_) => 2
    case Returning(_) => 1
  }

  function Ahead(f: Frame): nat {
    StepsAt(f.pc, Budget(f)) + if f.retried then 0 else TryCost(Budget(f))
  }

  /** The steps ahead of a caller once its nested send has returned. */
  function AheadOfCaller(f: Frame): nat {
    (if f.pc.Redirecting? then 3 + NestCost(Budget(f)) else 2) + if f.retried then 0 else TryCost(Budget(f))
  }

  function AheadBelow(k: Stack): nat {
    match k
    case Bottom => 0
    case On(f, below) => AheadOfCaller(f) + AheadBelow(below)
  }

  /** A bound on the steps the owner still has to take. */
  function Steps(k: Stack): nat {
    match k
    case Bottom => 0
    case On(f, below) => Ahead(f) + AheadBelow(below)
  }

  predicate ByOwner(a: Action) { !a.Call? && !a.Stop? }

  lemma FreshCost(f: Frame)
    requires f.pc == Entering && !f.retried
    ensures Ahead(f) < Cost(Budget(f))
  {
  }

  lemma Cheaper(a: nat, b: nat)
    requires a <= b
    ensures TryCost(a) <= TryCost(b) && NestCost(a) <= NestCost(b)
  {
    TryCostGrows(a, b);
    if a > 0 {
      TryCostGrows(a - 1, b - 1);
    }
  }

  lemma NestSteps(caller: Frame, callee: Frame)
    requires callee.pc == Entering && !callee.retried && Called(caller, callee)
    ensures Ahead(callee) + AheadOfCaller(caller) < Ahead(caller)
  {
    FreshCost(callee);
    Cheaper(Budget(callee), Budget(caller) - 1);
  }

  lemma ResumeSteps(caller: Frame, callee: Frame, ret: bool)
    requires Called(caller, callee)
    ensures Ahead(Resumed(caller, callee, ret)) <= AheadOfCaller(caller)
  {
    Cheaper(Budget(Resumed(caller, callee, ret)), Budget(caller));
  }

  lemma ReturnSteps(s: State, t: ThreadId)
    requires Inv(s) && Enabled(s, Return(t))
    ensures Steps(Returned(s, t).stacks[t]) < Steps(s.stacks[t])
  {
    ActiveOwns(s, t);
    var k := s.stacks[t];
    if !(s.peerClosed && !k.top.retried) && k.below.On? {
      ResumeSteps(k.below.top, k.top, k.top.pc.ret);
    }
  }

  /** Every step of the owner brings its outermost send nearer to its end. */
  lemma StepsDecrease(s: State, a: Action)
    requires Inv(s) && Enabled(s, a) && ByOwner(a)
    ensures Steps(Apply(s, a).stacks[a.t]) < Steps(s.stacks[a.t])
  {
    ActiveOwns(s, a.t);
    var f := Apply(s, a).stacks[a.t];
    if a.NestRedirect? || a.NestAuthorization? {
      NestSteps(s.stacks[a.t].top, f.top);
    } else if a.Return? {
      ReturnSteps(s, a.t);
    } else {
      GotoSteps(s.stacks[a.t], f.top.pc);
    }
  }

  lemma GotoSteps(k: Stack, pc: Pc)
    requires k.On? && StepsAt(pc, Budget(k.top)) < StepsAt(k.top.pc, Budget(k.top))
    ensures Steps(k.(top := k.top.(pc := pc))) < Steps(k)
  {
  }

  /** The owner always has a step to take. */
  lemma OwnerCanStep(s: State)
    requires Inv(s) && s.owner.Some?
    ensures exists a :: Enabled(s, a) && ByOwner(a) && a.t == s.owner.value
  {
    var t := s.owner.value;
    if Top(s, t).Leaving? {
      LeaveIsReady(s, t);
    }
    var a := match Top(s, t)
      case Entering => Enter(t, false, Up)
      case Processing => Respond(t, true, false)
      case Responded => TestConnection(t, false)
      case Redirecting => NoRedirect(t, true, false)
      case Authorizing(_) => NoAuthorization(t)
      case Leaving(_) => Leave(t, false)
      case Returning(_) => Return(t);
    assert Enabled(s, a) && ByOwner(a) && a.t == t;
  }

  function OwnSteps(acts: seq<Action>): nat {
    if acts == [] then 0 else (if ByOwner(acts[0]) then 1 else 0) + OwnSteps(acts[1..])
  }

  /**
   A send ends: in any run in which no other call begins, however it is interleaved with stops,
   the owner takes at most as many steps as were ahead of it.
   */
  lemma {:induction false} SendEnds(s: State, acts: seq<Action>)
    requires Inv(s) && CanRun(s, acts) && forall i :: 0 <= i < |acts| ==> !acts[i].Call?
    ensures OwnSteps(acts) <= Steps(OwnerStack(s))
    decreases |acts|
  {
    if acts != [] {
      var a, u := acts[0], Apply(s, acts[0]);
      StepInv(s, a);
      SendEnds(u, acts[1..]);
      if ByOwner(a) {
        ActiveOwns(s, a.t);
        StepsDecrease(s, a);
        OwnerAfter(s, a);
      } else {
        assert OwnerStack(u) == OwnerStack(s);
      }
    }
  }

  lemma OwnerAfter(s: State, a: Action)
    requires Inv(s) && Enabled(s, a) && ByOwner(a) && Inv(Apply(s, a))
    ensures Steps(OwnerStack(Apply(s, a))) <= Steps(Apply(s, a).stacks[a.t])
  {
    ActiveOwns(s, a.t);
  }

  // --------------------------------------------------------------------------- stop

  /** A stop of a request in flight takes effect, provided no send begins after it. */
  lemma {:induction false} StopHonoured(s: State, acts: seq<Action>)
    requires s.shared.closeWhenDone && CanRun(s, acts) && forall i :: 0 <= i < |acts| ==> !acts[i].Enter?
    ensures var u := Exec(s, acts).shared;
            && u.closeWhenDone && u.inFlight <= s.shared.inFlight
            && (u.isOpen ==> s.shared.isOpen && u.inFlight == s.shared.inFlight)
    decreases |acts|
  {
    if acts != [] {
      StopHonoured(Apply(s, acts[0]), acts[1..]);
    }
  }

  /** The request to close stands until the next send begins, whoever's it is. */
  lemma {:induction false} FlagKept(s: State, acts: seq<Action>)
    requires CanRun(s, acts) && forall i :: 0 <= i < |acts| ==> !acts[i].Stop?
    ensures Exec(s, acts).shared.closeWhenDone <==>
            s.shared.closeWhenDone && forall i :: 0 <= i < |acts| ==> !acts[i].Enter?
    decreases |acts|
  {
    if acts != [] {
      FlagKept(Apply(s, acts[0]), acts[1..]);
      assert forall i :: 1 <= i < |acts| ==> acts[i] == acts[1..][i - 1];
    }
  }

  /** One thread, between two activations of its stack. */
  function Shown(t: ThreadId, k: Stack, flying: nat, flag: bool, isOpen: bool): State {
    State(map[t := k], if k.On? then Some(t) else None, Depth(k),
          Shared(flying, if flying > 0 then Some(t) else None, flag, isOpen), false)
  }

  ghost predicate Reaches(s: State, u: State) { exists acts :: CanRun(s, acts) && Exec(s, acts) == u }

  lemma Goes(s: State, a: Action, u: State, v: State)
    requires Enabled(s, a) && Apply(s, a) == u && Reaches(u, v)
    ensures Reaches(s, v)
  {
    var acts :| CanRun(u, acts) && Exec(u, acts) == v;
    assert ([a] + acts)[1..] == acts;
    assert CanRun(s, [a] + acts) && Exec(s, [a] + acts) == v;
  }

  /** A send reconnects and gets its response. */
  lemma FirstHalf(t: ThreadId, f: Frame, below: Stack, n: nat, flag: bool, isOpen: bool, v: State)
    requires Reaches(Shown(t, On(f.(pc := Redirecting), below), n + 1, false, true), v)
    ensures Reaches(Shown(t, On(f.(pc := Entering), below), n, flag, isOpen), v)
  {
    var responded := Shown(t, On(f.(pc := Responded), below), n + 1, false, true);
    var processing := Shown(t, On(f.(pc := Processing), below), n + 1, false, true);
    Goes(responded, TestConnection(t, false), Shown(t, On(f.(pc := Redirecting), below), n + 1, false, true), v);
    Goes(processing, Respond(t, true, false), responded, v);
    Goes(Shown(t, On(f.(pc := Entering), below), n, flag, isOpen), Enter(t, false, Up), processing, v);
  }

  /** A send needs no authorization and leaves. */
  lemma SecondHalf(t: ThreadId, f: Frame, below: Stack, n: nat, v: State)
    requires Reaches(Shown(t, On(f.(pc := Returning(true)), below), n, false, true), v)
    ensures Reaches(Shown(t, On(f.(pc := Authorizing(true)), below), n + 1, false, true), v)
  {
    var leaving := Shown(t, On(f.(pc := Leaving(true)), below), n + 1, false, true);
    Goes(leaving, Leave(t, false), Shown(t, On(f.(pc := Returning(true)), below), n, false, true), v);
    Goes(Shown(t, On(f.(pc := Authorizing(true)), below), n + 1, false, true), NoAuthorization(t), leaving, v);
  }

  lemma OuterEnds(t: ThreadId, f: Frame)
    requires f == Frame(Authorizing(true), Outermost, 19, 0, false)
    ensures Reaches(Shown(t, On(f, Bottom), 1, false, true), Shown(t, Bottom, 0, false, true))
  {
    var end := Shown(t, Bottom, 0, false, true);
    assert CanRun(end, []) && Exec(end, []) == end;
    Goes(Shown(t, On(f.(pc := Returning(true)), Bottom), 0, false, true), Return(t), end, end);
    SecondHalf(t, f, Bottom, 0, end);
  }

  /** The nested send, entered after the stop, ends with its caller. */
  lemma NestedEnds(t: ThreadId, inner: Frame, below: Stack)
    requires inner == Frame(Entering, ForRedirect, 19, 0, false)
    requires below == On(Frame(Redirecting, Outermost, 20, 0, false), Bottom)
    ensures Reaches(Shown(t, On(inner, below), 1, true, true), Shown(t, Bottom, 0, false, true))
  {
    var end, outer := Shown(t, Bottom, 0, false, true), Frame(Authorizing(true), Outermost, 19, 0, false);
    OuterEnds(t, outer);
    Goes(Shown(t, On(inner.(pc := Returning(true)), below), 1, false, true), Return(t),
         Shown(t, On(outer, Bottom), 1, false, true), end);
    SecondHalf(t, inner, below, 1, end);
    Goes(Shown(t, On(inner.(pc := Redirecting), below), 2, false, true), NoRedirect(t, true, false),
         Shown(t, On(inner.(pc := Authorizing(true)), below), 2, false, true), end);
    FirstHalf(t, inner, below, 1, true, true, end);
  }

  function Asked(): Frame { Frame(Redirecting, Outermost, 20, 0, false) }

  lemma AskedReached(t: ThreadId)
    ensures Reaches(Shown(t, Bottom, 0, false, false), Shown(t, On(Asked(), Bottom), 1, false, true))
  {
    var before := Shown(t, On(Asked(), Bottom), 1, false, true);
    assert CanRun(before, []) && Exec(before, []) == before;
    FirstHalf(t, Asked(), Bottom, 0, false, false, before);
    Goes(Shown(t, Bottom, 0, false, false), Call(t, 20, 0),
         Shown(t, On(Asked().(pc := Entering), Bottom), 0, false, false), before);
  }

  /**
   With a redirect after it, a stop of a request in flight is forgotten: the nested send resets
   the flag and reconnects, and the socket is still open when the call has ended.
   */
  lemma StopForgotten(t: ThreadId)
    ensures var before := Shown(t, On(Asked(), Bottom), 1, false, true);
            && Reaches(Shown(t, Bottom, 0, false, false), before)
            && Apply(before, Stop(t + 1)).shared.closeWhenDone
            && Reaches(Apply(before, Stop(t + 1)), Shown(t, Bottom, 0, false, true))
  {
    AskedReached(t);
    var below, inner := On(Asked(), Bottom), Frame(Entering, ForRedirect, 19, 0, false);
    var end := Shown(t, Bottom, 0, false, true);
    NestedEnds(t, inner, below);
    Goes(Shown(t, below, 1, true, true), NestRedirect(t), Shown(t, On(inner, below), 1, true, true), end);
    assert Apply(Shown(t, below, 1, false, true), Stop(t + 1)) == Shown(t, below, 1, true, true);
  }
}
