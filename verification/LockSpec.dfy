/** The lock state machine on values: what applying one command does to the lock table and the
    wait-for graph. */
module LockSpec {
  import opened Commands
  import opened WaitForGraph
  import opened DeadlockDetector

  datatype Status = Acquired | Waiting | Released | Deadlock | Ignored

  datatype Waiter = Waiter(client: Client, lockType: LockType)

  datatype Lock = Lock(lockType: LockType, holders: set<Client>, waiting: seq<Waiter>)

  datatype LockState = LockState(locks: map<Resource, Lock>, graph: Graph)

  const EMPTY := LockState(map[], map[])

  function LockOr(st: LockState, r: Resource, lockType: LockType): Lock {
    if r in st.locks then st.locks[r] else Lock(lockType, {}, [])
  }

  predicate CanAcquire(lock: Lock, c: Client, lockType: LockType) {
    lock.holders == {} || (lock.lockType == Shared && lockType == Shared) || c in lock.holders
  }

  function GrantTo(lock: Lock, c: Client, lockType: LockType): Lock {
    Lock(if lock.holders == {} then lockType else lock.lockType, lock.holders + {c}, lock.waiting)
  }

  ghost function ApplyAcquire(st: LockState, c: Client, r: Resource, lockType: LockType): (LockState, Status) {
    var lock := LockOr(st, r, lockType);
    if CanAcquire(lock, c, lockType) then
      (LockState(st.locks[r := GrantTo(lock, c, lockType)], DropWaiter(st.graph, c)), Acquired)
    else
      var g := AddEdges(st.graph, c, lock.holders);
      if CycleReachable(g, c) then
        (LockState(st.locks, DropWaiter(g, c)), Deadlock)
      else
        (LockState(st.locks[r := lock.(waiting := lock.waiting + [Waiter(c, lockType)])], g), Waiting)
  }

  function SharedPrefix(waiting: seq<Waiter>): (n: nat)
    ensures n <= |waiting|
    ensures forall k | 0 <= k < n :: waiting[k].lockType == Shared
    ensures n < |waiting| ==> waiting[n].lockType != Shared
  {
    if waiting == [] || waiting[0].lockType != Shared then 0
    else
      var n := SharedPrefix(waiting[1..]);
      assert forall k | 0 < k < |waiting| :: waiting[k] == waiting[1..][k - 1];
      n + 1
  }

  /** How many queued requests a grant serves: the exclusive head alone or the maximal shared prefix. */
  function GrantCount(waiting: seq<Waiter>): (n: nat)
    ensures n <= |waiting| && (waiting != [] ==> n > 0)
  {
    if waiting == [] then 0 else if waiting[0].lockType == Exclusive then 1 else SharedPrefix(waiting)
  }

  function Clients(waiting: seq<Waiter>): set<Client> {
    set w | w in waiting :: w.client
  }

  function Grant(lock: Lock): (lock': Lock)
    requires lock.waiting != []
    ensures lock.waiting[0].client in lock'.holders
  {
    var n := GrantCount(lock.waiting);
    assert lock.waiting[0] in lock.waiting[..n];
    Lock(lock.waiting[0].lockType, lock.holders + Clients(lock.waiting[..n]), lock.waiting[n..])
  }

  function ApplyRelease(st: LockState, c: Client, r: Resource): LockState {
    if r !in st.locks || c !in st.locks[r].holders then st
    else
      var lock := st.locks[r].(holders := st.locks[r].holders - {c});
      var g := DropHolder(st.graph, c);
      if lock.holders != {} then LockState(st.locks[r := lock], g)
      else if lock.waiting == [] then LockState(st.locks - {r}, g)
      else LockState(st.locks[r := Grant(lock)], g - Clients(lock.waiting[..GrantCount(lock.waiting)]))
  }

  ghost function Apply(st: LockState, command: Command): (LockState, Status) {
    match command
    case Acquire(c, r, t) => ApplyAcquire(st, c, r, t)
    case Release(c, r) => (ApplyRelease(st, c, r), Released)
    case Other(_) => (st, Ignored)
  }

  /** The state after a sequence of commands. */
  ghost function Replay(commands: seq<Command>): LockState {
    if commands == [] then EMPTY
    else Apply(Replay(commands[..|commands| - 1]), commands[|commands| - 1]).0
  }
}
