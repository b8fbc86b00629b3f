/** The bounded client pool. */
module ClientPool {
  // The free queue and the list of all clients under `mtx_`, a condition variable, the
  // double-checked growth under `acq_mux_`, and RAII handles.  Each critical section is one step;
  // threads interleave between them.

  import opened Basics

  type Client = nat
  type ThreadId = nat
  type HandleId = nat

  /** `client_pool_` and `client_ref_`. */
  datatype Pool = Pool(free: seq<Client>, refs: seq<Client>)

  function Pushed(p: Pool, c: Client, isNew: bool): Pool {
    Pool(p.free + [c], if isNew then p.refs + [c] else p.refs)
  }

  /** `growable` tells a DynamicClientPool from a StaticClientPool. */
  datatype Config = Config(minSize: int, maxSize: int, growable: bool)

  const INT32_LIMIT: int := 0x8000_0000
  const SIZE_LIMIT: int := 0x1_0000_0000_0000_0000

  predicate IsInt32(n: int) { -INT32_LIMIT <= n < INT32_LIMIT }

  /** `static_cast<int32_t>` of a size. */
  function AsInt32(n: nat): (r: int)
    ensures IsInt32(r) && (n - r) % (2 * INT32_LIMIT) == 0
  {
    var low := n % (2 * INT32_LIMIT);
    if low < INT32_LIMIT then low else low - 2 * INT32_LIMIT
  }

  /** An int32_t compared with a size_t is converted to it. */
  function AsSize(n: int): (r: int)
    ensures IsInt32(n) ==> 0 <= r < SIZE_LIMIT && (r - n) % SIZE_LIMIT == 0
  {
    if n < 0 then n + SIZE_LIMIT else n
  }

  /** Where a thread stands.  `last` marks the final PoolState::AcquireClient of a call. */
  datatype Pc =
    | Idle
    | CheckFree                                // FreeClientSize() > 0
    | CheckAll                                 // AllClientSize() >= max_pool_size_
    | Acquire(last: bool)                      // about to take mtx_ and test the queue
    | Asleep(last: bool)                       // waiting, not notified
    | Woken(last: bool, timedOut: bool)        // notified, spurious or timed out; must test again
    | CheckGrow                                // first test for room, unlocked
    | LockGrow                                 // about to take acq_mux_
    | RecheckGrow                              // holds acq_mux_: second test
    | Create                                   // holds acq_mux_: about to call cb_
    | Register(client: Client)                 // holds acq_mux_: ReleaseClient(client, true)
    | UnlockGrow                               // holds acq_mux_
    | Got(result: Option<Client>)              // about to build the handle
    | Releasing(client: Client)                // ~ClientHandle: ReleaseClient(client)

  datatype State = State(
    pool: Pool,
    created: set<Client>,                      // returned by cb_ so far
    grower: Option<ThreadId>,                  // holder of acq_mux_
    threads: map<ThreadId, Pc>,
    handles: map<HandleId, Option<Client>>)    // live handles; None once moved from

  datatype Action =
    | Call(t: ThreadId)
    | Test(t: ThreadId)                        // a read of the sizes, or acq_mux_ lock/unlock
    | Enter(t: ThreadId)                       // first or repeated test of the queue under mtx_
    | Spurious(t: ThreadId)
    | TimeOut(t: ThreadId)
    | Callback(t: ThreadId, result: Option<Client>)
    | Push(t: ThreadId, wake: Option<ThreadId>)  // ReleaseClient and the waiter it notifies
    | MakeHandle(t: ThreadId, h: HandleId)
    | MoveHandle(from: HandleId, to: HandleId)
    | DestroyHandle(t: ThreadId, h: HandleId)

  function With(s: State, t: ThreadId, pc: Pc): State { s.(threads := s.threads[t := pc]) }

  predicate HasPc(s: State, t: ThreadId, pc: Pc) { t in s.threads && s.threads[t] == pc }

  predicate IsAsleep(threads: map<ThreadId, Pc>, t: ThreadId) { t in threads && threads[t].Asleep? }

  /** `notify_one` wakes a sleeping thread if there is one. */
  predicate CanNotify(threads: map<ThreadId, Pc>, wake: Option<ThreadId>) {
    match wake
    case Some(w) => IsAsleep(threads, w)
    case None => forall t :: t in threads ==> !threads[t].Asleep?
  }

  predicate CanTest(s: State, pc: Pc) {
    match pc
    case CheckFree | CheckAll | CheckGrow | RecheckGrow | UnlockGrow => true
    case LockGrow => s.grower == None
    case _ => false
  }

  predicate Enabled(c: Config, s: State, a: Action) {
    match a
    case Call(t) => HasPc(s, t, Idle)
    case Test(t) => t in s.threads && CanTest(s, s.threads[t])
    case Enter(t) => t in s.threads && (s.threads[t].Acquire? || s.threads[t].Woken?)
    case Spurious(t) => IsAsleep(s.threads, t)
    case TimeOut(t) => t in s.threads && (s.threads[t].Asleep? || s.threads[t].Woken?)
    case Callback(t, result) => HasPc(s, t, Create) && (result.Some? ==> result.value !in s.created)
    case Push(t, wake) =>
      t in s.threads && (s.threads[t].Register? || s.threads[t].Releasing?) && CanNotify(s.threads, wake)
    case MakeHandle(t, h) => t in s.threads && s.threads[t].Got? && h !in s.handles
    case MoveHandle(from, to) => from in s.handles && to !in s.handles
    case DestroyHandle(t, h) => HasPc(s, t, Idle) && h in s.handles
  }

  function Tested(c: Config, s: State, t: ThreadId): State
    requires Enabled(c, s, Test(t))
  {
    var size := |s.pool.refs|;
    match s.threads[t]
    case CheckFree => With(s, t, if |s.pool.free| > 0 then Acquire(false) else CheckAll)
    case CheckAll => With(s, t, if size >= AsSize(c.maxSize) then Acquire(false) else CheckGrow)
    case CheckGrow => With(s, t, if AsInt32(size) < c.maxSize then LockGrow else Acquire(true))
    case LockGrow => With(s, t, RecheckGrow).(grower := Some(t))
    case RecheckGrow => With(s, t, if AsInt32(size) < c.maxSize then Create else UnlockGrow)
    case UnlockGrow => With(s, t, Acquire(true)).(grower := None)
  }

  /** A call to PoolState::AcquireClient returned nothing. */
  function AfterMiss(last: bool): Pc { if last then Got(None) else CheckGrow }

  function Entered(s: State, t: ThreadId): State
    requires t in s.threads && (s.threads[t].Acquire? || s.threads[t].Woken?)
  {
    var last, free := s.threads[t].last, s.pool.free;
    if free != [] then With(s, t, Got(Some(free[0]))).(pool := s.pool.(free := free[1..]))
    else if s.threads[t].Woken? && s.threads[t].timedOut then With(s, t, AfterMiss(last))
    else With(s, t, Asleep(last))
  }

  function Notified(threads: map<ThreadId, Pc>, wake: Option<ThreadId>): map<ThreadId, Pc>
    requires CanNotify(threads, wake)
  {
    if wake.Some? then threads[wake.value := Woken(threads[wake.value].last, false)] else threads
  }

  function PushedBy(s: State, t: ThreadId, wake: Option<ThreadId>): State
    requires t in s.threads && (s.threads[t].Register? || s.threads[t].Releasing?) && CanNotify(s.threads, wake)
  {
    var isNew := s.threads[t].Register?;
    s.(pool := Pushed(s.pool, s.threads[t].client, isNew),
       threads := Notified(s.threads, wake)[t := if isNew then UnlockGrow else Idle])
  }

  function Apply(c: Config, s: State, a: Action): State
    requires Enabled(c, s, a)
  {
    match a
    case Call(t) => With(s, t, if c.growable then CheckFree else Acquire(true))
    case Test(t) => Tested(c, s, t)
    case Enter(t) => Entered(s, t)
    case Spurious(t) => With(s, t, Woken(s.threads[t].last, false))
    case TimeOut(t) => With(s, t, Woken(s.threads[t].last, true))
    case Callback(t, result) =>
      if result.Some? then With(s, t, Register(result.value)).(created := s.created + {result.value})
      else With(s, t, UnlockGrow)
    case Push(t, wake) => PushedBy(s, t, wake)
    case MakeHandle(t, h) => With(s, t, Idle).(handles := s.handles[h := s.threads[t].result])
    case MoveHandle(from, to) => s.(handles := s.handles[to := s.handles[from]][from := None])
    case DestroyHandle(t, h) =>
      var rest := s.(handles := s.handles - {h});
      if s.handles[h].Some? then With(rest, t, Releasing(s.handles[h].value)) else rest
  }

  predicate CanRun(c: Config, s: State, acts: seq<Action>)
    decreases |acts|
  {
    acts == [] || (Enabled(c, s, acts[0]) && CanRun(c, Apply(c, s, acts[0]), acts[1..]))
  }

  function Exec(c: Config, s: State, acts: seq<Action>): State
    requires CanRun(c, s, acts)
    decreases |acts|
  {
    if acts == [] then s else Exec(c, Apply(c, s, acts[0]), acts[1..])
  }

  ghost predicate NoDup(cs: seq<Client>) {
    forall i, j :: 0 <= i < j < |cs| ==> cs[i] != cs[j]
  }

  /** Right after `Initialize`, whether or not it managed to create all `minSize` clients. */
  ghost predicate Init(c: Config, s: State) {
    && IsInt32(c.minSize) && IsInt32(c.maxSize) && 0 <= c.minSize
    && s.pool.free == s.pool.refs && NoDup(s.pool.refs) && |s.pool.refs| <= c.minSize
    && s.created == (set r | r in s.pool.refs)
    && s.grower == None && s.handles == map[]
    && forall t :: t in s.threads ==> s.threads[t] == Idle
  }

  // ---------------------------------------------------------------- invariants

  /** The client a thread has in hand. */
  function Carried(pc: Pc): Option<Client> {
    match pc
    case Register(c) => Some(c)
    case Got(r) => r
    case Releasing(c) => Some(c)
    case _ => None
  }

  ghost function Hands(threads: map<ThreadId, Pc>): map<ThreadId, Option<Client>> {
    map t | t in threads :: Carried(threads[t])
  }

  /** The clients in a set of places, each of which holds at most one. */
  ghost function Held(places: map<nat, Option<Client>>): set<Client> {
    set k | k in places && places[k].Some? :: places[k].value
  }

  /** No client is in two of the places. */
  ghost predicate Exclusive(places: map<nat, Option<Client>>) {
    forall k, l :: k in places && l in places && k != l && places[k].Some? ==> places[k] != places[l]
  }

  ghost function FreeSet(s: State): set<Client> { set c | c in s.pool.free }

  /**
   Conservation: the created clients are the disjoint union of the free queue, the
   clients in threads' hands and the clients in live handles; none is anywhere twice.
   */
  ghost predicate Conserved(s: State) {
    var hands := Hands(s.threads);
    && s.created == FreeSet(s) + Held(hands) + Held(s.handles)
    && FreeSet(s) !! Held(hands) !! Held(s.handles)
    && NoDup(s.pool.free) && Exclusive(hands) && Exclusive(s.handles)
  }

  predicate HoldsGrow(pc: Pc) { pc.RecheckGrow? || pc.Create? || pc.Register? || pc.UnlockGrow? }

  /** One grower at a time, and only with room: the list of clients stays bounded. */
  ghost predicate Bounded(c: Config, s: State) {
    && (forall t :: t in s.threads && HoldsGrow(s.threads[t]) ==> s.grower == Some(t))
    && (forall t :: t in s.threads && (s.threads[t].Create? || s.threads[t].Register?) ==> |s.pool.refs| < c.maxSize)
    && |s.pool.refs| <= Max(c.minSize, c.maxSize)
  }

  /** `client_ref_` lists the created clients once each, but for the one being registered. */
  ghost predicate Listed(s: State) {
    && NoDup(s.pool.refs)
    && (forall c :: c in s.pool.refs ==> c in s.created)
    && (forall t :: t in s.threads && s.threads[t].Register? ==> s.threads[t].client !in s.pool.refs)
    && (forall c :: c in s.created ==>
          c in s.pool.refs || (s.grower.Some? && HasPc(s, s.grower.value, Register(c))))
  }

  ghost function Sleepers(threads: map<ThreadId, Pc>): set<ThreadId> {
    set t | t in threads && threads[t].Asleep?
  }

  ghost function Wakened(threads: map<ThreadId, Pc>): set<ThreadId> {
    set t | t in threads && threads[t].Woken?
  }

  /** While a thread sleeps un-notified, every free client has a woken thread on its way to it. */
  ghost predicate NoLostWakeup(s: State) {
    Sleepers(s.threads) != {} ==> |s.pool.free| <= |Wakened(s.threads)|
  }

  ghost predicate Inv(c: Config, s: State) {
    && IsInt32(c.minSize) && IsInt32(c.maxSize) && 0 <= c.minSize
    && Conserved(s) && Bounded(c, s) && Listed(s) && NoLostWakeup(s)
  }
}
