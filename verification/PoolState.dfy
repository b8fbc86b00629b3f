/**
 The sequential pieces of the client pool: what each critical section does to its fields.

 `View` is the part of the machine's state in ClientPool.dfy that `mtx_` guards, the free queue and the
 list of all clients.

 Filling the pool is a loop of its own; where its callback never repeats itself it leaves an initial
 state of the machine.
 */
module PoolStateModel {
  import opened Basics
  import opened ClientPool

  class PoolState {
    var clientPool: seq<Client>
    var clientRef: seq<Client>

    ghost function View(): Pool
      reads this
    {
      Pool(clientPool, clientRef)
    }

    constructor ()
      ensures View() == Pool([], [])
    {
      clientPool, clientRef := [], [];
    }

    /** The part of AcquireClient that runs when the wait is over. */
    method TakeFront() returns (client: Option<Client>)
      modifies this`clientPool
      ensures client.None? <==> old(clientPool) == []
      ensures client.None? ==> View() == old(View())
      ensures client.Some? ==> [client.value] + clientPool == old(clientPool)
    {
      if clientPool == [] {
        return None;
      }
      client := Some(clientPool[0]);
      clientPool := clientPool[1..];
    }

    method ReleaseClient(client: Option<Client>, isNew: bool)
      modifies this
      ensures View() == if client.Some? then Pushed(old(View()), client.value, isNew) else old(View())
    {
      if client.Some? {
        if isNew {
          clientRef := clientRef + [client.value];
        }
        clientPool := clientPool + [client.value];
      }
    }
  }

  /** The clients made by the first `n` calls of the callback, up to its first failure. */
  function Made(answers: nat -> Option<Client>, n: nat): (cs: seq<Client>)
    ensures |cs| <= n
    ensures forall i :: 0 <= i < |cs| ==> answers(i) == Some(cs[i])
    ensures |cs| < n ==> answers(|cs|) == None
  {
    if n == 0 then []
    else
      var before := Made(answers, n - 1);
      if |before| == n - 1 && answers(n - 1).Some? then before + [answers(n - 1).value] else before
  }

  /** `answers(i)` is what the i-th call of the callback returns. */
  method InitializePoolStateWithSize(answers: nat -> Option<Client>, poolSize: nat) returns (pool: PoolState, ok: bool)
    ensures fresh(pool)
    ensures pool.View() == Pool(Made(answers, poolSize), Made(answers, poolSize))
    ensures ok <==> |Made(answers, poolSize)| == poolSize
  {
    pool := new PoolState();
    for i := 0 to poolSize
      invariant fresh(pool)
      invariant |Made(answers, i)| == i
      invariant pool.View() == Pool(Made(answers, i), Made(answers, i))
    {
      var client := answers(i);
      if client.None? {
        MadeStops(answers, i, poolSize);
        return pool, false;
      }
      pool.ReleaseClient(client, true);
    }
    return pool, true;
  }

  lemma {:induction false} MadeStops(answers: nat -> Option<Client>, i: nat, n: nat)
    requires i < n && |Made(answers, i)| == i && answers(i).None?
    ensures Made(answers, n) == Made(answers, i)
  {
    if n > i + 1 {
      MadeStops(answers, i, n - 1);
    }
  }

  /** A callback that never repeats a client puts the pool in a state `Init` allows. */
  lemma InitializedIsInit(c: Config, answers: nat -> Option<Client>, threads: map<ThreadId, Pc>)
    requires IsInt32(c.minSize) && IsInt32(c.maxSize) && 0 <= c.minSize
    requires forall i: nat, j: nat :: i < j && answers(i).Some? ==> answers(i) != answers(j)
    requires forall t :: t in threads ==> threads[t] == Idle
    ensures var cs := Made(answers, c.minSize);
            Init(c, State(Pool(cs, cs), (set x | x in cs), None, threads, map[]))
  {
    var cs := Made(answers, c.minSize);
    forall i, j | 0 <= i < j < |cs|
      ensures cs[i] != cs[j]
    {
      assert answers(i) == Some(cs[i]) && answers(j) == Some(cs[j]);
    }
  }
}
