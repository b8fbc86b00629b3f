/** Every interleaving of the pool keeps `Inv`, and what that means for its users. */
module ClientPoolSafety {
  import opened Basics
  import opened ClientPool

  // ------------------------------------------------------ places that hold clients

  lemma HeldPut(places: map<nat, Option<Client>>, k: nat, x: Option<Client>)
    requires Exclusive(places)
    requires k in places && places[k].Some? ==> places[k] != x
    ensures Held(places[k := x])
         == Held(places) - (if k in places && places[k].Some? then {places[k].value} else {})
            + (if x.Some? then {x.value} else {})
    ensures x.Some? && x.value !in Held(places) ==> Exclusive(places[k := x])
    ensures x.None? ==> Exclusive(places[k := x])
  {
    var after := places[k := x];
    var gone := if k in places && places[k].Some? then {places[k].value} else {};
    var came := if x.Some? then {x.value} else {};
    forall c
      ensures c in Held(after) <==> c in Held(places) - gone + came
    {
      if c in Held(places) - gone {
        var l :| l in places && places[l] == Some(c);
        assert after[l] == Some(c);
      }
      if x.Some? && c == x.value {
        assert after[k] == Some(c);
      }
    }
  }

  lemma HeldRemove(places: map<nat, Option<Client>>, k: nat)
    requires Exclusive(places) && k in places
    ensures Held(places - {k}) == Held(places) - (if places[k].Some? then {places[k].value} else {})
    ensures Exclusive(places - {k})
  {
    var after := places - {k};
    var gone := if places[k].Some? then {places[k].value} else {};
    forall c
      ensures c in Held(after) <==> c in Held(places) - gone
    {
      if c in Held(places) - gone {
        var l :| l in places && places[l] == Some(c);
        assert l in after && after[l] == Some(c);
      }
    }
  }

  /** A thread moves on with the same client, or none, in hand. */
  lemma HandsKept(threads: map<ThreadId, Pc>, t: ThreadId, pc: Pc)
    requires t in threads && Carried(pc) == Carried(threads[t])
    ensures Hands(threads[t := pc]) == Hands(threads)
  {
  }

  lemma HandsPut(threads: map<ThreadId, Pc>, t: ThreadId, pc: Pc)
    ensures Hands(threads[t := pc]) == Hands(threads)[t := Carried(pc)]
  {
  }

  // ----------------------------------------------------------------- conservation

  lemma ConservedQuiet(s: State, t: ThreadId, pc: Pc, s': State)
    requires Conserved(s) && t in s.threads && Carried(pc) == Carried(s.threads[t])
    requires s'.threads == s.threads[t := pc] && s'.handles == s.handles
    requires s'.pool.free == s.pool.free && s'.created == s.created
    ensures Conserved(s')
  {
    HandsKept(s.threads, t, pc);
  }

  lemma ConservedTake(s: State, t: ThreadId)
    requires Conserved(s) && t in s.threads && (s.threads[t].Acquire? || s.threads[t].Woken?)
    requires s.pool.free != []
    ensures Conserved(Entered(s, t))
  {
    var c, s' := s.pool.free[0], Entered(s, t);
    HandsPut(s.threads, t, Got(Some(c)));
    HeldPut(Hands(s.threads), t, Some(c));
    assert c in FreeSet(s);
    assert FreeSet(s') == FreeSet(s) - {c} by {
      assert s.pool.free == [c] + s'.pool.free;
    }
  }

  lemma ConservedPush(s: State, t: ThreadId, wake: Option<ThreadId>)
    requires Conserved(s)
    requires t in s.threads && (s.threads[t].Register? || s.threads[t].Releasing?) && CanNotify(s.threads, wake)
    ensures Conserved(PushedBy(s, t, wake))
  {
    var c, s' := s.threads[t].client, PushedBy(s, t, wake);
    var woken := Notified(s.threads, wake);
    if wake.Some? {
      HandsKept(s.threads, wake.value, woken[wake.value]);
    }
    assert Hands(woken) == Hands(s.threads);
    assert Hands(s.threads)[t] == Some(c);
    HandsPut(woken, t, s'.threads[t]);
    HeldPut(Hands(s.threads), t, None);
    assert c in Held(Hands(s.threads));
    assert FreeSet(s') == FreeSet(s) + {c};
    assert c !in FreeSet(s);
  }

  lemma ConservedCreate(s: State, t: ThreadId, c: Client, s': State)
    requires Conserved(s) && t in s.threads && s.threads[t].Create? && c !in s.created
    requires s' == With(s, t, Register(c)).(created := s.created + {c})
    ensures Conserved(s')
  {
    HandsPut(s.threads, t, Register(c));
    HeldPut(Hands(s.threads), t, Some(c));
    assert c !in Held(Hands(s.threads));
  }

  lemma ConservedMakeHandle(s: State, t: ThreadId, h: HandleId, s': State)
    requires Conserved(s) && t in s.threads && s.threads[t].Got? && h !in s.handles
    requires s' == With(s, t, Idle).(handles := s.handles[h := s.threads[t].result])
    ensures Conserved(s')
  {
    var r := s.threads[t].result;
    HandsPut(s.threads, t, Idle);
    assert Hands(s.threads)[t] == r;
    if r.Some? {
      HeldPut(Hands(s.threads), t, None);
      assert r.value in Held(Hands(s.threads));
      HeldPut(s.handles, h, r);
    } else {
      HandsKept(s.threads, t, Idle);
      HeldPut(s.handles, h, None);
    }
  }

  lemma ConservedMoveHandle(s: State, from: HandleId, to: HandleId)
    requires Conserved(s) && from in s.handles && to !in s.handles
    ensures Conserved(s.(handles := s.handles[to := s.handles[from]][from := None]))
  {
    var hs, r := s.handles, s.handles[from];
    var hs' := hs[from := None][to := r];
    assert hs' == hs[to := r][from := None];
    if r.Some? {
      HeldPut(hs, from, None);
      HeldPut(hs[from := None], to, r);
      assert r.value in Held(hs);
    } else {
      assert hs[from := None] == hs;
      HeldPut(hs, to, None);
    }
  }

  lemma ConservedDestroy(c: Config, s: State, t: ThreadId, h: HandleId)
    requires Conserved(s) && Enabled(c, s, DestroyHandle(t, h))
    ensures Conserved(Apply(c, s, DestroyHandle(t, h)))
  {
    var s' := Apply(c, s, DestroyHandle(t, h));
    HeldRemove(s.handles, h);
    if s.handles[h].Some? {
      var client := s.handles[h].value;
      assert client in Held(s.handles);
      HandsPut(s.threads, t, Releasing(client));
      HeldPut(Hands(s.threads), t, Some(client));
    }
  }

  lemma StepConserved(c: Config, s: State, a: Action)
    requires Conserved(s) && Enabled(c, s, a)
    ensures Conserved(Apply(c, s, a))
  {
    var s' := Apply(c, s, a);
    match a
    case Enter(t) =>
      if s.pool.free != [] {
        ConservedTake(s, t);
      } else {
        ConservedQuiet(s, t, s'.threads[t], s');
      }
    case Callback(t, result) =>
      if result.Some? {
        ConservedCreate(s, t, result.value, s');
      } else {
        ConservedQuiet(s, t, UnlockGrow, s');
      }
    case Push(t, wake) => ConservedPush(s, t, wake);
    case MakeHandle(t, h) => ConservedMakeHandle(s, t, h, s');
    case MoveHandle(from, to) => ConservedMoveHandle(s, from, to);
    case DestroyHandle(t, h) => ConservedDestroy(c, s, t, h);
    case Call(t) => ConservedQuiet(s, t, s'.threads[t], s');
    case Test(t) => ConservedQuiet(s, t, s'.threads[t], s');
    case Spurious(t) => ConservedQuiet(s, t, s'.threads[t], s');
    case TimeOut(t) => ConservedQuiet(s, t, s'.threads[t], s');
  }

  // ------------------------------------------------------------------ size bound

  lemma AsInt32Small(n: nat)
    requires n < INT32_LIMIT
    ensures AsInt32(n) == n
  {
  }

  /** A move that leaves the list of clients alone. */
  lemma BoundedMove(c: Config, s: State, s': State, t: ThreadId, pc: Pc)
    requires Bounded(c, s) && t in s.threads
    requires s'.threads == s.threads[t := pc] && |s'.pool.refs| == |s.pool.refs|
    requires s'.grower == s.grower || s.grower == None || s.grower == Some(t)
    requires HoldsGrow(pc) ==> s'.grower == Some(t)
    requires pc.Create? || pc.Register? ==> |s.pool.refs| < c.maxSize
    ensures Bounded(c, s')
  {
    forall u | u in s'.threads && HoldsGrow(s'.threads[u])
      ensures s'.grower == Some(u)
    {
      assert u != t ==> s.grower == Some(u);
    }
  }

  lemma BoundedPush(c: Config, s: State, t: ThreadId, wake: Option<ThreadId>)
    requires Bounded(c, s)
    requires t in s.threads && (s.threads[t].Register? || s.threads[t].Releasing?) && CanNotify(s.threads, wake)
    ensures Bounded(c, PushedBy(s, t, wake))
  {
    var s' := PushedBy(s, t, wake);
    forall u | u in s'.threads && HoldsGrow(s'.threads[u])
      ensures s'.grower == Some(u)
      ensures s'.threads[u].Create? || s'.threads[u].Register? ==> |s'.pool.refs| < c.maxSize
    {
      assert HoldsGrow(s.threads[u]);
    }
  }

  lemma StepBounded(c: Config, s: State, a: Action)
    requires Inv(c, s) && Enabled(c, s, a)
    ensures Bounded(c, Apply(c, s, a))
  {
    var s' := Apply(c, s, a);
    AsInt32Small(|s.pool.refs|);
    match a
    case Push(t, wake) => BoundedPush(c, s, t, wake);
    case MoveHandle(from, to) =>
    case DestroyHandle(t, h) =>
      if s.handles[h].Some? {
        BoundedMove(c, s, s', t, s'.threads[t]);
      }
    case Test(t) => BoundedTest(c, s, t);
    case Callback(t, result) =>
      assert HoldsGrow(s.threads[t]);
      BoundedMove(c, s, s', t, s'.threads[t]);
    case Call(t) => BoundedMove(c, s, s', t, s'.threads[t]);
    case Enter(t) => BoundedMove(c, s, s', t, s'.threads[t]);
    case Spurious(t) => BoundedMove(c, s, s', t, s'.threads[t]);
    case TimeOut(t) => BoundedMove(c, s, s', t, s'.threads[t]);
    case MakeHandle(t, h) => BoundedMove(c, s, s', t, s'.threads[t]);
  }

  /** The tests for room: only the holder of acq_mux_ goes on to create a client. */
  lemma BoundedTest(c: Config, s: State, t: ThreadId)
    requires Bounded(c, s) && Enabled(c, s, Test(t))
    requires AsInt32(|s.pool.refs|) == |s.pool.refs|
    ensures Bounded(c, Tested(c, s, t))
  {
    var s' := Tested(c, s, t);
    if HoldsGrow(s.threads[t]) {
      assert s.grower == Some(t);
    }
    BoundedMove(c, s, s', t, s'.threads[t]);
  }

  lemma ListedQuiet(s: State, s': State, t: ThreadId)
    requires Listed(s) && t in s.threads && !s.threads[t].Register?
    requires t in s'.threads && !s'.threads[t].Register? && s'.threads == s.threads[t := s'.threads[t]]
    requires s'.pool.refs == s.pool.refs && s'.created == s.created
    requires s'.grower == s.grower || s.grower == None || s.grower == Some(t)
    ensures Listed(s')
  {
    forall x | x in s'.created
      ensures x in s'.pool.refs || (s'.grower.Some? && HasPc(s', s'.grower.value, Register(x)))
    {
      if x !in s.pool.refs {
        assert HasPc(s, s.grower.value, Register(x));
      }
    }
  }

  lemma ListedCreate(c: Config, s: State, t: ThreadId, client: Client, s': State)
    requires Inv(c, s) && HasPc(s, t, Create) && client !in s.created
    requires s' == With(s, t, Register(client)).(created := s.created + {client})
    ensures Listed(s')
  {
    assert HoldsGrow(s.threads[t]) && s.grower == Some(t);
    assert HasPc(s', t, Register(client));
  }

  lemma ListedRegister(c: Config, s: State, t: ThreadId, wake: Option<ThreadId>)
    requires Inv(c, s) && t in s.threads && s.threads[t].Register? && CanNotify(s.threads, wake)
    ensures Listed(PushedBy(s, t, wake))
  {
    var s', client := PushedBy(s, t, wake), s.threads[t].client;
    assert HoldsGrow(s.threads[t]) && s.grower == Some(t);
    assert Hands(s.threads)[t] == Some(client);
    assert client in Held(Hands(s.threads));
    forall u | u in s'.threads && s'.threads[u].Register?
      ensures false
    {
      assert s.threads[u].Register? && HoldsGrow(s.threads[u]);
    }
  }

  lemma ListedRelease(s: State, t: ThreadId, wake: Option<ThreadId>)
    requires Listed(s) && t in s.threads && s.threads[t].Releasing? && CanNotify(s.threads, wake)
    ensures Listed(PushedBy(s, t, wake))
  {
    var s' := PushedBy(s, t, wake);
    forall x | x in s'.created
      ensures x in s'.pool.refs || (s'.grower.Some? && HasPc(s', s'.grower.value, Register(x)))
    {
      if x !in s.pool.refs {
        assert HasPc(s, s.grower.value, Register(x));
      }
    }
  }

  lemma StepListed(c: Config, s: State, a: Action)
    requires Inv(c, s) && Enabled(c, s, a)
    ensures Listed(Apply(c, s, a))
  {
    var s' := Apply(c, s, a);
    match a
    case Callback(t, result) =>
      if result.Some? {
        ListedCreate(c, s, t, result.value, s');
      } else {
        ListedQuiet(s, s', t);
      }
    case Push(t, wake) =>
      if s.threads[t].Register? {
        ListedRegister(c, s, t, wake);
      } else {
        ListedRelease(s, t, wake);
      }
    case Test(t) =>
      if s.threads[t].UnlockGrow? {
        assert HoldsGrow(s.threads[t]) && s.grower == Some(t);
      }
      ListedQuiet(s, s', t);
    case MoveHandle(from, to) =>
    case Call(t) => ListedQuiet(s, s', t);
    case Enter(t) => ListedQuiet(s, s', t);
    case Spurious(t) => ListedQuiet(s, s', t);
    case TimeOut(t) => ListedQuiet(s, s', t);
    case MakeHandle(t, h) => ListedQuiet(s, s', t);
    case DestroyHandle(t, h) => ListedQuiet(s, s', t);
  }

  // --------------------------------------------------------------------- wakeups

  /** Two sets that differ at most in `t`. */
  lemma CountPut(before: set<ThreadId>, after: set<ThreadId>, t: ThreadId)
    requires before - {t} == after - {t}
    ensures |after| == |before| + (if t in after then 1 else 0) - (if t in before then 1 else 0)
  {
    assert after == if t in after then (before - {t}) + {t} else before - {t};
    assert before == if t in before then (before - {t}) + {t} else before - {t};
  }

  lemma SleepersPut(threads: map<ThreadId, Pc>, t: ThreadId, pc: Pc)
    ensures Sleepers(threads[t := pc]) == if pc.Asleep? then Sleepers(threads) + {t} else Sleepers(threads) - {t}
  {
  }

  lemma WakenedPut(threads: map<ThreadId, Pc>, t: ThreadId, pc: Pc)
    ensures |Wakened(threads[t := pc])|
         == |Wakened(threads)| + (if pc.Woken? then 1 else 0) - (if t in threads && threads[t].Woken? then 1 else 0)
  {
    CountPut(Wakened(threads), Wakened(threads[t := pc]), t);
  }

  lemma PushWakes(s: State, t: ThreadId, wake: Option<ThreadId>)
    requires NoLostWakeup(s)
    requires t in s.threads && (s.threads[t].Register? || s.threads[t].Releasing?) && CanNotify(s.threads, wake)
    ensures NoLostWakeup(PushedBy(s, t, wake))
  {
    var s' := PushedBy(s, t, wake);
    var woken := Notified(s.threads, wake);
    SleepersPut(woken, t, s'.threads[t]);
    WakenedPut(woken, t, s'.threads[t]);
    if wake.Some? {
      SleepersPut(s.threads, wake.value, woken[wake.value]);
      WakenedPut(s.threads, wake.value, woken[wake.value]);
      assert wake.value in Sleepers(s.threads);
    } else {
      assert Sleepers(s.threads) == {};
    }
  }

  /** A move of one thread that takes a client whenever it stops being a woken waiter. */
  lemma MoveWakes(s: State, s': State, t: ThreadId, pc: Pc)
    requires NoLostWakeup(s) && t in s.threads
    requires s'.threads == s.threads[t := pc]
    requires |s'.pool.free| <= |s.pool.free|
    requires pc.Asleep? ==> s'.pool.free == []
    requires s.threads[t].Woken? && !pc.Woken? ==> s'.pool.free == [] || |s'.pool.free| < |s.pool.free|
    ensures NoLostWakeup(s')
  {
    SleepersPut(s.threads, t, pc);
    WakenedPut(s.threads, t, pc);
  }

  lemma StepWakes(c: Config, s: State, a: Action)
    requires NoLostWakeup(s) && Enabled(c, s, a)
    ensures NoLostWakeup(Apply(c, s, a))
  {
    var s' := Apply(c, s, a);
    match a
    case Push(t, wake) => PushWakes(s, t, wake);
    case MoveHandle(from, to) =>
    case DestroyHandle(t, h) =>
      if s.handles[h].Some? {
        MoveWakes(s, s', t, s'.threads[t]);
      }
    case Call(t) => MoveWakes(s, s', t, s'.threads[t]);
    case Test(t) => MoveWakes(s, s', t, s'.threads[t]);
    case Enter(t) => MoveWakes(s, s', t, s'.threads[t]);
    case Spurious(t) => MoveWakes(s, s', t, s'.threads[t]);
    case TimeOut(t) => MoveWakes(s, s', t, s'.threads[t]);
    case Callback(t, result) => MoveWakes(s, s', t, s'.threads[t]);
    case MakeHandle(t, h) => MoveWakes(s, s', t, s'.threads[t]);
  }

  // -------------------------------------------------------------------- all runs

  lemma InitInv(c: Config, s: State)
    requires Init(c, s)
    ensures Inv(c, s)
  {
    assert Held(Hands(s.threads)) == {} by {
      assert forall t :: t in s.threads ==> Hands(s.threads)[t] == None;
    }
    assert Held(s.handles) == {};
    assert Sleepers(s.threads) == {};
  }

  lemma StepInv(c: Config, s: State, a: Action)
    requires Inv(c, s) && Enabled(c, s, a)
    ensures Inv(c, Apply(c, s, a))
  {
    StepConserved(c, s, a);
    StepBounded(c, s, a);
    StepListed(c, s, a);
    StepWakes(c, s, a);
  }

  lemma {:induction false} RunInv(c: Config, s: State, acts: seq<Action>)
    requires Inv(c, s) && CanRun(c, s, acts)
    ensures Inv(c, Exec(c, s, acts))
    decreases |acts|
  {
    if acts != [] {
      StepInv(c, s, acts[0]);
      RunInv(c, Apply(c, s, acts[0]), acts[1..]);
    }
  }

  /** Conservation, exclusivity, the size bound and no lost wakeup, in every reachable state. */
  lemma Safety(c: Config, s: State, acts: seq<Action>)
    requires Init(c, s) && CanRun(c, s, acts)
    ensures Conserved(Exec(c, s, acts))
    ensures |Exec(c, s, acts).pool.refs| <= Max(c.minSize, c.maxSize)
    ensures NoLostWakeup(Exec(c, s, acts))
    ensures Listed(Exec(c, s, acts))
  {
    InitInv(c, s);
    RunInv(c, s, acts);
  }

  /** A free client with a thread asleep: some woken thread's next test takes a client. */
  lemma WakeupIsPending(c: Config, s: State, sleeper: ThreadId) returns (w: ThreadId)
    requires Inv(c, s) && IsAsleep(s.threads, sleeper) && s.pool.free != []
    ensures w in s.threads && s.threads[w].Woken? && Enabled(c, s, Enter(w))
    ensures Apply(c, s, Enter(w)).threads[w] == Got(Some(s.pool.free[0]))
  {
    assert sleeper in Sleepers(s.threads);
    assert |Wakened(s.threads)| > 0;
    w :| w in Wakened(s.threads);
  }

  /** Once no thread is in a call and no handle holds a client, all clients are free again. */
  lemma AllHome(c: Config, s: State)
    requires Inv(c, s)
    requires forall t :: t in s.threads ==> s.threads[t] == Idle
    requires forall h :: h in s.handles ==> s.handles[h] == None
    ensures multiset(s.pool.free) == multiset(s.pool.refs)
  {
    assert forall t :: t in s.threads ==> Hands(s.threads)[t] == None;
    assert Held(Hands(s.threads)) == {} && Held(s.handles) == {};
    SameElements(s.pool.free, s.pool.refs);
  }

  lemma {:induction false} NoDupCount(cs: seq<Client>, x: Client)
    requires NoDup(cs)
    ensures multiset(cs)[x] == if x in cs then 1 else 0
  {
    if cs != [] {
      assert cs == [cs[0]] + cs[1..];
      NoDupCount(cs[1..], x);
    }
  }

  lemma SameElements(a: seq<Client>, b: seq<Client>)
    requires NoDup(a) && NoDup(b)
    requires forall x :: x in a <==> x in b
    ensures multiset(a) == multiset(b)
  {
    forall x: Client
      ensures multiset(a)[x] == multiset(b)[x]
    {
      NoDupCount(a, x);
      NoDupCount(b, x);
    }
  }
}
