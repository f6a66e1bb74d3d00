/** What every command sequence keeps: the lock table's shape, an acyclic wait-for graph, and an edge
    only where a held lock blocks a queued request. */
module LockInvariants {
  import opened Commands
  import opened WaitForGraph
  import opened DeadlockDetector
  import opened LockSpec

  predicate Conflicts(lock: Lock, lockType: LockType) {
    !(lock.lockType == Shared && lockType == Shared)
  }

  predicate LockOk(lock: Lock) {
    lock.holders != {} && (lock.lockType == Exclusive ==> |lock.holders| == 1)
  }

  /** `h` holds a resource for which a conflicting request of `w` is the `k`-th in the queue. */
  predicate Blocks(locks: map<Resource, Lock>, w: Client, h: Client, r: Resource, k: nat) {
    && r in locks && k < |locks[r].waiting|
    && h in locks[r].holders && h != w
    && locks[r].waiting[k].client == w && Conflicts(locks[r], locks[r].waiting[k].lockType)
  }

  ghost predicate Justified(locks: map<Resource, Lock>, w: Client, h: Client) {
    exists r, k: nat :: Blocks(locks, w, h, r, k)
  }

  ghost predicate EdgesJustified(locks: map<Resource, Lock>, g: Graph) {
    forall w, h {:trigger Justified(locks, w, h)} | h in Succ(g, w) :: Justified(locks, w, h)
  }

  ghost predicate StateOk(st: LockState) {
    && (forall r | r in st.locks :: LockOk(st.locks[r]))
    && (forall w | w in st.graph :: st.graph[w] != {})
    && Acyclic(st.graph)
    && EdgesJustified(st.locks, st.graph)
  }

  // ---------- acquire ----------

  /** A lock whose type, holders and queue only gain something still blocks what it blocked. */
  lemma BlocksMore(locks: map<Resource, Lock>, r: Resource, lock: Lock, w: Client, h: Client)
    requires Justified(locks, w, h)
    requires r in locks ==> lock.lockType == locks[r].lockType && locks[r].holders <= lock.holders
    requires r in locks ==> locks[r].waiting <= lock.waiting
    ensures Justified(locks[r := lock], w, h)
  {
    var r', k: nat :| Blocks(locks, w, h, r', k);
    assert Blocks(locks[r := lock], w, h, r', k);
  }

  lemma GrantKeeps(st: LockState, c: Client, r: Resource, t: LockType)
    requires StateOk(st) && CanAcquire(LockOr(st, r, t), c, t)
    ensures StateOk(ApplyAcquire(st, c, r, t).0)
  {
    var lock := LockOr(st, r, t);
    var g, locks' := DropWaiter(st.graph, c), st.locks[r := GrantTo(lock, c, t)];
    assert LockOk(GrantTo(lock, c, t)) by {
      if c in lock.holders {
        assert lock.holders + {c} == lock.holders;
      }
    }
    SubgraphAcyclic(g, st.graph);
    forall w, h | h in Succ(g, w)
      ensures Justified(locks', w, h)
    {
      assert h in Succ(st.graph, w);
      assert Justified(st.locks, w, h);
      BlocksMore(st.locks, r, GrantTo(lock, c, t), w, h);
    }
  }

  lemma WaitKeeps(st: LockState, c: Client, r: Resource, t: LockType)
    requires StateOk(st) && !CanAcquire(LockOr(st, r, t), c, t)
    requires !CycleReachable(AddEdges(st.graph, c, LockOr(st, r, t).holders), c)
    ensures StateOk(ApplyAcquire(st, c, r, t).0)
  {
    var lock := st.locks[r];
    var g := AddEdges(st.graph, c, lock.holders);
    var lock' := lock.(waiting := lock.waiting + [Waiter(c, t)]);
    AddAcyclic(st.graph, c, lock.holders);
    forall w, h | h in Succ(g, w)
      ensures Justified(st.locks[r := lock'], w, h)
    {
      if h in Succ(st.graph, w) {
        assert Justified(st.locks, w, h);
        BlocksMore(st.locks, r, lock', w, h);
      } else {
        assert Blocks(st.locks[r := lock'], c, h, r, |lock.waiting|);
      }
    }
  }

  lemma DeadlockKeeps(st: LockState, c: Client, r: Resource, t: LockType)
    requires StateOk(st) && !CanAcquire(LockOr(st, r, t), c, t)
    requires CycleReachable(AddEdges(st.graph, c, LockOr(st, r, t).holders), c)
    ensures StateOk(ApplyAcquire(st, c, r, t).0)
  {
    var g := DropWaiter(AddEdges(st.graph, c, st.locks[r].holders), c);
    assert g == DropWaiter(st.graph, c);
    SubgraphAcyclic(g, st.graph);
    forall w, h | h in Succ(g, w)
      ensures Justified(st.locks, w, h)
    {
      assert h in Succ(st.graph, w);
    }
  }

  // ---------- release ----------

  lemma GrantOk(lock: Lock)
    requires lock.holders == {} && lock.waiting != []
    ensures LockOk(Grant(lock))
  {
    var ws := lock.waiting;
    if ws[0].lockType == Exclusive {
      assert ws[..1] == [ws[0]];
      assert Clients([ws[0]]) == {ws[0].client};
    }
  }

  /** Dropping edges keeps a graph without empty entries acyclic. */
  lemma DropKeeps(g: Graph, c: Client, served: set<Client>)
    requires Acyclic(g)
    ensures var g' := DropHolder(g, c) - served;
            && Acyclic(g')
            && (forall w | w in g' :: g'[w] != {})
            && (forall w, h | h in Succ(g', w) :: h in Succ(g, w) && h != c)
  {
    SubgraphAcyclic(DropHolder(g, c) - served, g);
  }

  /** What blocks another holder's way stays blocked when `c` lets go of one resource. */
  lemma StillBlocked(locks: map<Resource, Lock>, locks': map<Resource, Lock>, c: Client, r: Resource,
                     w: Client, h: Client)
    requires Justified(locks, w, h) && h != c && r in locks && c in locks[r].holders
    requires forall r' | r' in locks && r' != r :: r' in locks' && locks'[r'] == locks[r']
    requires (r in locks' && locks'[r] == locks[r].(holders := locks[r].holders - {c})) || locks[r].holders == {c}
    ensures Justified(locks', w, h)
  {
    var r', k: nat :| Blocks(locks, w, h, r', k);
    assert Blocks(locks', w, h, r', k);
  }

  lemma ReleaseKeeps(st: LockState, c: Client, r: Resource)
    requires StateOk(st)
    ensures StateOk(ApplyRelease(st, c, r))
  {
    if r in st.locks && c in st.locks[r].holders {
      var lock := st.locks[r].(holders := st.locks[r].holders - {c});
      var st' := ApplyRelease(st, c, r);
      var served := if lock.holders == {} then Clients(lock.waiting[..GrantCount(lock.waiting)]) else {};
      assert LockOk(st.locks[r]);
      DropKeeps(st.graph, c, served);
      assert st'.graph == DropHolder(st.graph, c) - served;
      if lock.holders == {} {
        assert st.locks[r].holders == {c};
        if lock.waiting != [] {
          GrantOk(lock);
        }
      }
      forall w, h | h in Succ(st'.graph, w)
        ensures Justified(st'.locks, w, h)
      {
        assert h in Succ(st.graph, w) && h != c;
        assert Justified(st.locks, w, h);
        StillBlocked(st.locks, st'.locks, c, r, w, h);
      }
    }
  }

  // ---------- every command sequence ----------

  lemma ApplyKeeps(st: LockState, command: Command)
    requires StateOk(st)
    ensures StateOk(Apply(st, command).0)
  {
    match command
    case Acquire(c, r, t) =>
      if CanAcquire(LockOr(st, r, t), c, t) {
        GrantKeeps(st, c, r, t);
      } else if CycleReachable(AddEdges(st.graph, c, LockOr(st, r, t).holders), c) {
        DeadlockKeeps(st, c, r, t);
      } else {
        WaitKeeps(st, c, r, t);
      }
    case Release(c, r) => ReleaseKeeps(st, c, r);
    case Other(_) =>
  }

  lemma ReplayOne(commands: seq<Command>, command: Command)
    ensures Replay(commands + [command]) == Apply(Replay(commands), command).0
  {
    assert (commands + [command])[..|commands|] == commands;
  }

  /** After every command sequence each stored lock has a holder, an exclusive one exactly one; the
      wait-for graph is acyclic; and every edge is a held lock in the way of a queued request. */
  lemma {:induction false} ReplayKeeps(commands: seq<Command>)
    ensures StateOk(Replay(commands))
  {
    if commands == [] {
      assert Acyclic(EMPTY.graph) by {
        forall c
          ensures !IsCycle(EMPTY.graph, c)
        {
          assert |c| >= 2 && IsWalk(EMPTY.graph, c) ==> c[0 + 1] in Succ(EMPTY.graph, c[0]);
        }
      }
    } else {
      ReplayKeeps(commands[..|commands| - 1]);
      ApplyKeeps(Replay(commands[..|commands| - 1]), commands[|commands| - 1]);
    }
  }

  // ---------- the verdicts ----------

  /** The exact condition of a DEADLOCK answer: the request cannot be granted and a holder of the
      resource already waits, directly or through others, for the requesting client. */
  lemma DeadlockIff(st: LockState, c: Client, r: Resource, t: LockType)
    requires StateOk(st)
    ensures ApplyAcquire(st, c, r, t).1 == Deadlock
            <==> !CanAcquire(LockOr(st, r, t), c, t) && WaitsBack(st.graph, LockOr(st, r, t).holders, c)
  {
    var lock := LockOr(st, r, t);
    if !CanAcquire(lock, c, t) {
      ClosesCycleIff(st.graph, c, lock.holders);
    }
  }

  /** No false deadlock: the verdict comes with a circle of clients in which the first holds the
      requested resource against the pending request, everyone but the last waits in a queue for a
      resource the next one holds, and the last is the requesting client. */
  lemma DeadlockIsReal(st: LockState, c: Client, r: Resource, t: LockType) returns (circle: seq<Client>)
    requires StateOk(st) && ApplyAcquire(st, c, r, t).1 == Deadlock
    ensures circle != [] && circle[|circle| - 1] == c && c != circle[0]
    ensures r in st.locks && circle[0] in st.locks[r].holders && Conflicts(st.locks[r], t)
    ensures forall k | 0 <= k < |circle| - 1 :: Justified(st.locks, circle[k], circle[k + 1])
  {
    DeadlockIff(st, c, r, t);
    var holders := LockOr(st, r, t).holders;
    circle :| circle != [] && circle[0] in holders && Walks(st.graph, circle, circle[0], c);
    forall k | 0 <= k < |circle| - 1
      ensures Justified(st.locks, circle[k], circle[k + 1])
    {
      assert circle[k + 1] in Succ(st.graph, circle[k]);
    }
  }

  /** Being ACQUIRED for exclusive use does not always mean it: exactly when the resource was already
      held shared, which then must include the client itself, the lock stays a shared one. */
  lemma ExclusiveIff(st: LockState, c: Client, r: Resource)
    requires StateOk(st) && ApplyAcquire(st, c, r, Exclusive).1 == Acquired
    ensures r in ApplyAcquire(st, c, r, Exclusive).0.locks
    ensures var lock := ApplyAcquire(st, c, r, Exclusive).0.locks[r];
            lock.lockType == Exclusive && lock.holders == {c} <==> !(r in st.locks && st.locks[r].lockType == Shared)
  {
    if r in st.locks && st.locks[r].lockType == Exclusive {
      assert LockOk(st.locks[r]);
      var holders := st.locks[r].holders;
      assert |holders - {c}| == |holders| - 1;
      assert holders - {c} == {};
    }
  }

  /** It happens: of two clients that share a resource one asks for exclusive use, is answered ACQUIRED,
      and both still hold a shared lock. */
  lemma UpgradeStaysShared(a: Client, b: Client, r: Resource)
    requires a != b
    ensures var st := Replay([Acquire(a, r, Shared), Acquire(b, r, Shared)]);
            && ApplyAcquire(st, a, r, Exclusive).1 == Acquired
            && r in ApplyAcquire(st, a, r, Exclusive).0.locks
            && ApplyAcquire(st, a, r, Exclusive).0.locks[r] == Lock(Shared, {a, b}, [])
  {
    var one := [] + [Acquire(a, r, Shared)];
    ReplayOne([], Acquire(a, r, Shared));
    assert Replay(one).locks[r] == Lock(Shared, {a}, []);
    ReplayOne(one, Acquire(b, r, Shared));
    assert one + [Acquire(b, r, Shared)] == [Acquire(a, r, Shared), Acquire(b, r, Shared)];
    assert {a} + {b} == {a, b} == {a, b} + {a};
  }

  /** A grant serves exactly the exclusive head or the maximal shared prefix, keeps the rest in order,
      and the lock then has exactly the served clients as holders. */
  lemma GrantServes(lock: Lock)
    requires lock.holders == {} && lock.waiting != []
    ensures var n := |lock.waiting| - |Grant(lock).waiting|;
            && 1 <= n <= |lock.waiting|
            && lock.waiting == lock.waiting[..n] + Grant(lock).waiting
            && (forall c :: c in Grant(lock).holders <==> exists k :: 0 <= k < n && lock.waiting[k].client == c)
            && (forall k | 0 <= k < n :: lock.waiting[k].lockType == Grant(lock).lockType)
            && (Grant(lock).lockType == Exclusive ==> n == 1)
            && (Grant(lock).lockType == Shared && n < |lock.waiting| ==> lock.waiting[n].lockType == Exclusive)
  {
    var n := GrantCount(lock.waiting);
    forall c
      ensures c in Grant(lock).holders <==> exists k :: 0 <= k < n && lock.waiting[k].client == c
    {
      if c in Grant(lock).holders {
        var w :| w in lock.waiting[..n] && w.client == c;
        var k :| 0 <= k < n && lock.waiting[..n][k] == w;
        assert lock.waiting[k].client == c;
      }
      if k :| 0 <= k < n && lock.waiting[k].client == c {
        assert lock.waiting[..n][k] in lock.waiting[..n];
      }
    }
  }
}
