/** Who may close a client's socket: send, nested sends and stop. */
module SocketOwnership {
  // `send` runs under the recursive request mutex, with nested sends for redirects and digest
  // authorization, and `stop` may come from any thread.  Each region under `socket_mutex_` is one step.

  import opened Basics

  type ThreadId = nat

  const MAX_AUTHORIZATIONS: int := 5

  /** Where one activation of `send` stands. */
  datatype Pc =
    | Entering                      // holds request_mutex_; first region of send_ next
    | Processing                    // in flight: process_request
    | Responded                     // in flight: test of the Connection header
    | Redirecting                   // in flight: may follow a location
    | Authorizing(ret: bool)        // in flight: may answer a challenge
    | Leaving(ret: bool)            // in flight: scope exit next
    | Returning(ret: bool)          // send_ has returned

  datatype Kind = Outermost | ForRedirect | ForAuthorization

  datatype Frame = Frame(pc: Pc, kind: Kind, redirects: nat, authorizations: nat, retried: bool)

  /** A thread's activations of `send`, innermost on top. */
  datatype Stack = Bottom | On(top: Frame, below: Stack)

  /** The fields under `socket_mutex_`. */
  datatype Shared = Shared(inFlight: nat, from: Option<ThreadId>, closeWhenDone: bool, isOpen: bool)

  datatype State = State(
    stacks: map<ThreadId, Stack>,
    owner: Option<ThreadId>,        // of request_mutex_
    depth: nat,                     // of its recursion
    shared: Shared,
    peerClosed: bool)               // the owner's error is SSLPeerCouldBeClosed_

  /**
   How connecting goes: up, no socket (which may leave the error as it was), or refused and closed again;
   a proxy that answers CONNECT with a status other than 200 refuses, yet `send_` returns true.
   */
  datatype Link = Up | NoSocket(keepsError: bool) | Refused(byProxy: bool)

  datatype Action =
    | Call(t: ThreadId, redirects: nat, authorizations: nat)
    | Enter(t: ThreadId, alive: bool, link: Link)
    | Respond(t: ThreadId, ok: bool, peerClosed: bool)
    | TestConnection(t: ThreadId, close: bool)
    | NoRedirect(t: ThreadId, ret: bool, peerClosed: bool)   // none, not possible, or to another host
    | NestRedirect(t: ThreadId)
    | NoAuthorization(t: ThreadId)
    | NestAuthorization(t: ThreadId)
    | Leave(t: ThreadId, closeConnection: bool)
    | Return(t: ThreadId)
    | Stop(t: ThreadId)

  predicate InFlight(f: Frame) { !f.pc.Entering? && !f.pc.Returning? }

  // ------------------------------------------------------------ the guarded regions

  predicate DeadSocket(sh: Shared, alive: bool) { sh.isOpen && !alive }

  predicate Starts(sh: Shared, alive: bool, link: Link) { (sh.isOpen && alive) || link.Up? }

  /** The first region of `send_`; the request is in flight afterwards unless connecting failed. */
  function Entered(sh: Shared, t: ThreadId, alive: bool, link: Link): Shared {
    if Starts(sh, alive, link) then Shared(sh.inFlight + 1, Some(t), false, true)
    else sh.(closeWhenDone := false, isOpen := false)
  }

  /** The counters after the decrement at scope exit. */
  function Released(sh: Shared): Shared
    requires sh.inFlight > 0
  {
    sh.(inFlight := sh.inFlight - 1, from := if sh.inFlight == 1 then None else sh.from)
  }

  predicate ClosesOnLeave(sh: Shared, closeConnection: bool, ret: bool) { sh.closeWhenDone || closeConnection || !ret }

  function Left(sh: Shared, closeConnection: bool, ret: bool): Shared
    requires sh.inFlight > 0
  {
    if ClosesOnLeave(sh, closeConnection, ret) then Released(sh).(isOpen := false) else Released(sh)
  }

  function Stopped(sh: Shared): Shared {
    if sh.inFlight > 0 then sh.(closeWhenDone := true) else sh.(isOpen := false)
  }

  // -------------------------------------------------------------------- the machine

  function Top(s: State, t: ThreadId): Pc
    requires t in s.stacks && s.stacks[t].On?
  {
    s.stacks[t].top.pc
  }

  predicate Active(s: State, t: ThreadId) { t in s.stacks && s.stacks[t].On? }

  predicate Enabled(s: State, a: Action) {
    match a
    case Call(t, _, _) => t in s.stacks && s.stacks[t] == Bottom && s.owner == None
    case Enter(t, alive, _) => Active(s, t) && Top(s, t).Entering? && (alive ==> s.shared.isOpen)
    case Respond(t, _, _) => Active(s, t) && Top(s, t).Processing?
    case TestConnection(t, _) => Active(s, t) && Top(s, t).Responded?
    case NoRedirect(t, ret, peerClosed) => Active(s, t) && Top(s, t).Redirecting? && (peerClosed ==> !ret)
    case NestRedirect(t) => Active(s, t) && Top(s, t).Redirecting? && s.stacks[t].top.redirects > 0
    case NoAuthorization(t) => Active(s, t) && Top(s, t).Authorizing?
    case NestAuthorization(t) =>
      // after a failed redirect the status is still 3xx, so there is no challenge to answer
      && Active(s, t) && Top(s, t).Authorizing? && Top(s, t).ret
      && s.stacks[t].top.authorizations < MAX_AUTHORIZATIONS
    case Leave(t, _) => Active(s, t) && Top(s, t).Leaving? && s.shared.inFlight > 0
    case Return(t) => Active(s, t) && Top(s, t).Returning?
    case Stop(t) => true
  }

  function Put(s: State, t: ThreadId, stack: Stack): State { s.(stacks := s.stacks[t := stack]) }

  /** The innermost activation moves on. */
  function Goto(s: State, t: ThreadId, pc: Pc): State
    requires Active(s, t)
  {
    Put(s, t, s.stacks[t].(top := s.stacks[t].top.(pc := pc)))
  }

  function Nest(s: State, t: ThreadId, f: Frame): State
    requires Active(s, t)
  {
    Put(s, t, On(f, s.stacks[t])).(depth := s.depth + 1)
  }

  /** The caller of a nested send goes on: a redirect that succeeded has replaced its request. */
  function Resumed(caller: Frame, callee: Frame, ret: bool): Frame {
    match callee.kind
    case ForRedirect => caller.(pc := Authorizing(ret), redirects := if ret then callee.redirects else caller.redirects)
    case _ => caller.(pc := Leaving(ret))
  }

  function Returned(s: State, t: ThreadId): State
    requires Active(s, t) && Top(s, t).Returning?
  {
    var f, below := s.stacks[t].top, s.stacks[t].below;
    if s.peerClosed && !f.retried then Put(s, t, On(f.(pc := Entering, retried := true), below))
    else
      var unlocked := s.(depth := if s.depth > 0 then s.depth - 1 else 0,
                         owner := if s.depth > 1 then s.owner else None);
      match below
      case Bottom => Put(unlocked, t, Bottom)
      case On(caller, rest) => Put(unlocked, t, On(Resumed(caller, f, f.pc.ret), rest))
  }

  function Apply(s: State, a: Action): State
    requires Enabled(s, a)
  {
    match a
    case Call(t, redirects, authorizations) =>
      Put(s, t, On(Frame(Entering, Outermost, redirects, authorizations, false), Bottom))
        .(owner := Some(t), depth := 1, peerClosed := false)
    case Enter(t, alive, link) =>
      Goto(s, t, if Starts(s.shared, alive, link) then Processing else Returning(link.Refused? && link.byProxy))
        .(shared := Entered(s.shared, t, alive, link),
          peerClosed := s.peerClosed && (alive || (link.NoSocket? && link.keepsError)))
    case Respond(t, ok, peerClosed) =>
      if ok then Goto(s, t, Responded) else Goto(s, t, Leaving(false)).(peerClosed := peerClosed)
    case TestConnection(t, close) =>
      Goto(s, t, Redirecting).(shared := if close then s.shared.(isOpen := false) else s.shared)
    case NoRedirect(t, ret, peerClosed) =>
      Goto(s, t, Authorizing(ret)).(peerClosed := if ret then s.peerClosed else peerClosed)
    case NestRedirect(t) =>
      var f := s.stacks[t].top;
      Nest(s, t, Frame(Entering, ForRedirect, f.redirects - 1, f.authorizations, false))
    case NoAuthorization(t) => Goto(s, t, Leaving(Top(s, t).ret))
    case NestAuthorization(t) =>
      var f := s.stacks[t].top;
      Nest(s, t, Frame(Entering, ForAuthorization, f.redirects, f.authorizations + 1, false))
    case Leave(t, closeConnection) =>
      var ret := Top(s, t).ret;
      Goto(s, t, Returning(ret)).(shared := Left(s.shared, closeConnection, ret))
    case Return(t) => Returned(s, t)
    case Stop(t) => s.(shared := Stopped(s.shared))
  }

  predicate CanRun(s: State, acts: seq<Action>)
    decreases |acts|
  {
    acts == [] || (Enabled(s, acts[0]) && CanRun(Apply(s, acts[0]), acts[1..]))
  }

  function Exec(s: State, acts: seq<Action>): State
    requires CanRun(s, acts)
    decreases |acts|
  {
    if acts == [] then s else Exec(Apply(s, acts[0]), acts[1..])
  }

  ghost predicate Init(s: State) {
    && (forall t :: t in s.stacks ==> s.stacks[t] == Bottom)
    && s.owner == None && s.depth == 0 && s.shared == Shared(0, None, false, false) && !s.peerClosed
  }

  /** The values in force when a step calls close_socket, and the calling thread. */
  datatype Closing = Closing(t: ThreadId, inFlight: nat, from: Option<ThreadId>)

  function CloseAt(s: State, a: Action): Option<Closing>
    requires Enabled(s, a)
  {
    match a
    case Enter(t, alive, link) =>
      if DeadSocket(s.shared, alive) || (!alive && link.Refused?)
      then Some(Closing(t, s.shared.inFlight, s.shared.from)) else None
    case TestConnection(t, close) =>
      if close then Some(Closing(t, s.shared.inFlight, s.shared.from)) else None
    case Leave(t, closeConnection) =>
      if ClosesOnLeave(s.shared, closeConnection, Top(s, t).ret)
      then Some(Closing(t, Released(s.shared).inFlight, Released(s.shared).from)) else None
    case Stop(t) => if s.shared.inFlight > 0 then None else Some(Closing(t, s.shared.inFlight, s.shared.from))
    case _ => None
  }

  // --------------------------------------------------------------------- invariants

  function Depth(k: Stack): nat {
    match k
    case Bottom => 0
    case On(_, below) => 1 + Depth(below)
  }

  /** A thread's requests in flight. */
  function Flying(k: Stack): nat {
    match k
    case Bottom => 0
    case On(f, below) => (if InFlight(f) then 1 else 0) + Flying(below)
  }

  /** A bound on how deep sends can still nest below this one. */
  function Budget(f: Frame): nat {
    f.redirects + if f.authorizations < MAX_AUTHORIZATIONS then MAX_AUTHORIZATIONS - f.authorizations else 0
  }

  /** `callee` is a nested send of `caller`, which waits at the matching place. */
  predicate Called(caller: Frame, callee: Frame) {
    match callee.kind
    case Outermost => false
    case ForRedirect =>
      caller.pc == Redirecting && callee.redirects < caller.redirects && callee.authorizations == caller.authorizations
    case ForAuthorization =>
      && caller.pc.Authorizing? && callee.redirects <= caller.redirects
      && callee.authorizations == caller.authorizations + 1 <= MAX_AUTHORIZATIONS
  }

  predicate WellNested(k: Stack) {
    match k
    case Bottom => true
    case On(f, below) =>
      match below
      case Bottom => f.kind == Outermost
      case On(caller, _) => Called(caller, f) && WellNested(below)
  }

  /** The error left by a closed peer: the request failed, and its socket is closed once it has left. */
  predicate PeerClosed(f: Frame, isOpen: bool) {
    match f.pc
    case Leaving(ret) => !ret
    case Returning(ret) => !ret && !isOpen
    case Authorizing(ret) => !ret
    case Entering => !isOpen
    case _ => false
  }

  /** Only the owner of the request mutex has activations, as many as it holds the mutex. */
  ghost predicate Owned(s: State) {
    match s.owner
    case None => s.depth == 0 && forall t :: t in s.stacks ==> s.stacks[t] == Bottom
    case Some(o) =>
      && Active(s, o) && s.depth == Depth(s.stacks[o]) && WellNested(s.stacks[o])
      && (forall t :: t in s.stacks && t != o ==> s.stacks[t] == Bottom)
      && (s.peerClosed ==> PeerClosed(s.stacks[o].top, s.shared.isOpen))
  }

  function OwnerStack(s: State): Stack {
    if s.owner.Some? && s.owner.value in s.stacks then s.stacks[s.owner.value] else Bottom
  }

  /** The count is the owner's requests in flight, and they are marked as the owner's. */
  ghost predicate Counted(s: State) {
    && s.shared.inFlight == Flying(OwnerStack(s))
    && s.shared.from == if s.shared.inFlight > 0 then s.owner else None
  }

  ghost predicate Inv(s: State) { Owned(s) && Counted(s) }
}
