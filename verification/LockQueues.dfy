/** Queues are fair: over every command sequence the queue of a resource is what was answered WAITING and
    not served yet, in the order asked and as asked. */
module LockQueues {
  import opened Commands
  import opened WaitForGraph
  import opened DeadlockDetector
  import opened LockSpec
  import opened LockInvariants

  function QueueOf(st: LockState, r: Resource): seq<Waiter> {
    if r in st.locks then st.locks[r].waiting else []
  }

  function HoldersOf(st: LockState, r: Resource): set<Client> {
    if r in st.locks then st.locks[r].holders else {}
  }

  // ---------- acquire ----------

  /** A WAITING answer puts exactly the request, with its type, behind all others, and changes neither
      who holds what nor any other queue. */
  lemma WaitingQueues(st: LockState, c: Client, r: Resource, t: LockType)
    requires StateOk(st) && ApplyAcquire(st, c, r, t).1 == Waiting
    ensures var st' := ApplyAcquire(st, c, r, t).0;
            && QueueOf(st', r) == QueueOf(st, r) + [Waiter(c, t)]
            && r in st.locks && r in st'.locks && st'.locks[r].lockType == st.locks[r].lockType
            && (forall x :: HoldersOf(st', x) == HoldersOf(st, x))
            && (forall x | x != r :: x in st.locks <==> x in st'.locks)
            && (forall x | x != r && x in st.locks :: st'.locks[x] == st.locks[x])
  {
  }

  /** A DEADLOCK answer changes no lock, and of the graph it drops the client's edges alone. */
  lemma DeadlockRollsBack(st: LockState, c: Client, r: Resource, t: LockType)
    requires ApplyAcquire(st, c, r, t).1 == Deadlock
    ensures ApplyAcquire(st, c, r, t).0.locks == st.locks
    ensures forall w :: Succ(ApplyAcquire(st, c, r, t).0.graph, w) == if w == c then {} else Succ(st.graph, w)
  {
  }

  /** A client that does not hold the resource is granted it at once exactly when no holder conflicts;
      one that does is granted it again, whatever it asks for, and the lock stays as it is. */
  lemma AcquiredIff(st: LockState, c: Client, r: Resource, t: LockType)
    requires StateOk(st)
    ensures c !in HoldersOf(st, r) ==>
              (ApplyAcquire(st, c, r, t).1 == Acquired <==> HoldersOf(st, r) == {} || !Conflicts(st.locks[r], t))
    ensures c in HoldersOf(st, r) ==>
              ApplyAcquire(st, c, r, t).1 == Acquired && ApplyAcquire(st, c, r, t).0.locks == st.locks
    ensures ApplyAcquire(st, c, r, t).1 == Acquired ==>
              var st' := ApplyAcquire(st, c, r, t).0;
              && HoldersOf(st', r) == HoldersOf(st, r) + {c} && QueueOf(st', r) == QueueOf(st, r)
              && (r !in st.locks ==> st'.locks[r].lockType == t)
              && (forall x | x != r :: x in st.locks <==> x in st'.locks)
              && (forall x | x != r && x in st.locks :: st'.locks[x] == st.locks[x])
  {
    assert r in st.locks ==> LockOk(st.locks[r]);
    if c in HoldersOf(st, r) {
      assert st.locks[r].holders + {c} == st.locks[r].holders;
    }
  }

  // ---------- one command ----------

  /** The request the command puts into the queue of `r`, if it does. */
  ghost function Queued(st: LockState, command: Command, r: Resource): seq<Waiter> {
    if command.Acquire? && command.resource == r && Apply(st, command).1 == Waiting
    then [Waiter(command.client, command.lockType)] else []
  }

  /** `n` requests are served from the front of a queue: the release of its last holder gives the resource
      to exactly their clients, with the type they asked for. */
  predicate Serves(st: LockState, command: Command, st': LockState, r: Resource, n: nat) {
    && n <= |QueueOf(st, r)|
    && (n > 0 ==>
          && command.Release? && command.resource == r && HoldersOf(st, r) == {command.client}
          && HoldersOf(st', r) == Clients(QueueOf(st, r)[..n])
          && r in st'.locks && forall k | 0 <= k < n :: QueueOf(st, r)[k].lockType == st'.locks[r].lockType)
  }

  lemma AcquireQueue(st: LockState, c: Client, x: Resource, t: LockType, r: Resource)
    requires StateOk(st)
    ensures QueueOf(ApplyAcquire(st, c, x, t).0, r) == QueueOf(st, r) + Queued(st, Acquire(c, x, t), r)
  {
  }

  lemma LastReleaseServes(st: LockState, c: Client, r: Resource) returns (n: nat)
    requires HoldersOf(st, r) == {c}
    ensures Serves(st, Release(c, r), ApplyRelease(st, c, r), r, n) && (QueueOf(st, r) != [] ==> n > 0)
    ensures QueueOf(ApplyRelease(st, c, r), r) == QueueOf(st, r)[n..]
  {
    var lock := st.locks[r].(holders := st.locks[r].holders - {c});
    assert lock.holders == {};
    n := GrantCount(lock.waiting);
    if lock.waiting != [] {
      assert Grant(lock).holders == Clients(lock.waiting[..n]);
    }
  }

  /** One command leaves a queue alone, puts its own request behind it, or serves requests from its front;
      and the release of the last holder does serve. */
  lemma QueueStep(st: LockState, command: Command, r: Resource) returns (n: nat)
    requires StateOk(st)
    ensures Serves(st, command, Apply(st, command).0, r, n)
    ensures QueueOf(Apply(st, command).0, r) == QueueOf(st, r)[n..] + Queued(st, command, r)
    ensures command.Release? && command.resource == r && HoldersOf(st, r) == {command.client} && QueueOf(st, r) != []
            ==> n > 0
  {
    n := 0;
    match command
    case Acquire(c, x, t) => AcquireQueue(st, c, x, t, r);
    case Release(c, x) =>
      if x == r && HoldersOf(st, r) == {c} {
        n := LastReleaseServes(st, c, r);
      } else {
        ReleaseLetsGo(st, c, x);
      }
    case Other(_) =>
  }

  /** A release takes the client from the holders and does nothing else to a resource that is still held;
      a resource that nobody holds or waits for is forgotten. */
  lemma ReleaseLetsGo(st: LockState, c: Client, r: Resource)
    requires StateOk(st)
    ensures var st' := ApplyRelease(st, c, r);
            && (forall x | x != r :: x in st.locks <==> x in st'.locks)
            && (forall x | x != r && x in st.locks :: st'.locks[x] == st.locks[x])
            && (c !in HoldersOf(st, r) ==> st' == st)
            && (c in HoldersOf(st, r) && HoldersOf(st, r) != {c} ==>
                  r in st'.locks && st'.locks[r] == st.locks[r].(holders := st.locks[r].holders - {c}))
            && (HoldersOf(st, r) == {c} && QueueOf(st, r) == [] ==> r !in st'.locks)
  {
    if c in HoldersOf(st, r) {
      assert HoldersOf(st, r) == {c} <==> st.locks[r].holders - {c} == {};
    }
  }

  // ---------- every command sequence ----------

  /** The requests for `r` that were answered WAITING, in order. */
  ghost function Waited(commands: seq<Command>, r: Resource): seq<Waiter> {
    if commands == [] then []
    else
      var init := commands[..|commands| - 1];
      Waited(init, r) + Queued(Replay(init), commands[|commands| - 1], r)
  }

  /** First come, first served: the queue is the end of what was answered WAITING; all before it has been
      served. No request is lost, doubled, overtaken or changed. */
  lemma {:induction false} QueueIsFifo(commands: seq<Command>, r: Resource)
    ensures |QueueOf(Replay(commands), r)| <= |Waited(commands, r)|
    ensures QueueOf(Replay(commands), r)
            == Waited(commands, r)[|Waited(commands, r)| - |QueueOf(Replay(commands), r)|..]
  {
    if commands != [] {
      var init, last := commands[..|commands| - 1], commands[|commands| - 1];
      QueueIsFifo(init, r);
      ReplayKeeps(init);
      var n := QueueStep(Replay(init), last, r);
      var q, w := QueueOf(Replay(init), r), Waited(init, r);
      assert w[|w| - |q|..][n..] == w[|w| - |q| + n..];
    }
  }

  /** All the requests for `r`, in order. */
  function Asked(commands: seq<Command>, r: Resource): seq<Waiter> {
    if commands == [] then []
    else
      var last := commands[|commands| - 1];
      Asked(commands[..|commands| - 1], r)
      + (if last.Acquire? && last.resource == r then [Waiter(last.client, last.lockType)] else [])
  }

  predicate Subsequence(a: seq<Waiter>, b: seq<Waiter>) {
    || a == []
    || (&& b != []
        && (|| Subsequence(a, b[..|b| - 1])
            || (a[|a| - 1] == b[|b| - 1] && Subsequence(a[..|a| - 1], b[..|b| - 1]))))
  }

  lemma {:induction false} SubsequenceEnd(a: seq<Waiter>, b: seq<Waiter>, n: nat)
    requires Subsequence(a, b) && n <= |a|
    ensures Subsequence(a[n..], b)
  {
    if n < |a| {
      if Subsequence(a, b[..|b| - 1]) {
        SubsequenceEnd(a, b[..|b| - 1], n);
      } else {
        SubsequenceEnd(a[..|a| - 1], b[..|b| - 1], n);
        assert a[n..][..|a[n..]| - 1] == a[..|a| - 1][n..];
      }
    }
  }

  lemma SubsequenceGrows(a: seq<Waiter>, b: seq<Waiter>, x: Waiter)
    requires Subsequence(a, b)
    ensures Subsequence(a, b + [x]) && Subsequence(a + [x], b + [x])
  {
    assert (b + [x])[..|b|] == b && (a + [x])[..|a|] == a;
  }

  lemma {:induction false} WaitedWasAsked(commands: seq<Command>, r: Resource)
    ensures Subsequence(Waited(commands, r), Asked(commands, r))
  {
    if commands != [] {
      var init, last := commands[..|commands| - 1], commands[|commands| - 1];
      WaitedWasAsked(init, r);
      var w, a := Waited(init, r), Asked(init, r);
      assert w + [] == w && a + [] == a;
      if last.Acquire? && last.resource == r {
        SubsequenceGrows(w, a, Waiter(last.client, last.lockType));
      }
    }
  }

  /** So the queue lists requests as they were made, each with its client and its type, in order. */
  lemma QueueWasAsked(commands: seq<Command>, r: Resource)
    ensures Subsequence(QueueOf(Replay(commands), r), Asked(commands, r))
  {
    QueueIsFifo(commands, r);
    WaitedWasAsked(commands, r);
    SubsequenceEnd(Waited(commands, r), Asked(commands, r),
                   |Waited(commands, r)| - |QueueOf(Replay(commands), r)|);
  }

  /** A shared request for what one client, waiting for nobody, holds exclusively. */
  lemma SharedQueues(commands: seq<Command>, st: LockState, a: Client, c: Client, r: Resource)
    requires st == Replay(commands) && r in st.locks && st.locks[r].lockType == Exclusive
    requires st.locks[r].holders == {a} && c != a && a !in st.graph && c !in st.graph
    ensures var st' := Replay(commands + [Acquire(c, r, Shared)]);
            && st'.locks == st.locks[r := st.locks[r].(waiting := st.locks[r].waiting + [Waiter(c, Shared)])]
            && st'.graph.Keys == st.graph.Keys + {c}
  {
    ReplayKeeps(commands);
    ReplayOne(commands, Acquire(c, r, Shared));
    NoWayBack(st.graph, {a}, c);
    DeadlockIff(st, c, r, Shared);
    assert a in {a} - {c};
  }

  /** Shared requests that queue behind an exclusive lock are served together. */
  lemma SharedServedTogether(a: Client, b: Client, c: Client, r: Resource)
    requires a != b && a != c && b != c
    ensures var st := Replay([Acquire(a, r, Exclusive), Acquire(b, r, Shared), Acquire(c, r, Shared), Release(a, r)]);
            r in st.locks && st.locks[r] == Lock(Shared, {b, c}, [])
  {
    var c1 := [] + [Acquire(a, r, Exclusive)];
    var c2 := c1 + [Acquire(b, r, Shared)];
    var c3 := c2 + [Acquire(c, r, Shared)];
    ReplayOne([], Acquire(a, r, Exclusive));
    assert Replay(c1).locks[r] == Lock(Exclusive, {a}, []);
    SharedQueues(c1, Replay(c1), a, b, r);
    SharedQueues(c2, Replay(c2), a, c, r);
    assert Replay(c3).locks[r] == Lock(Exclusive, {a}, [Waiter(b, Shared), Waiter(c, Shared)]);
    ReplayOne(c3, Release(a, r));
    BothServed(Replay(c3), a, b, c, r);
    assert c3 + [Release(a, r)]
        == [Acquire(a, r, Exclusive), Acquire(b, r, Shared), Acquire(c, r, Shared), Release(a, r)];
  }

  lemma BothServed(st: LockState, a: Client, b: Client, c: Client, r: Resource)
    requires r in st.locks && st.locks[r] == Lock(Exclusive, {a}, [Waiter(b, Shared), Waiter(c, Shared)])
    ensures var st' := ApplyRelease(st, a, r); r in st'.locks && st'.locks[r] == Lock(Shared, {b, c}, [])
  {
    var ws := [Waiter(b, Shared), Waiter(c, Shared)];
    var lock := st.locks[r].(holders := {a} - {a});
    assert lock.holders == {};
    assert SharedPrefix(ws) == 2 by {
      assert ws[1..][0] == Waiter(c, Shared) && ws[1..][1..] == [];
    }
    assert ws[..2] == ws && ws[2..] == [];
    assert Clients(ws) == {b, c} by {
      assert ws[0].client == b && ws[1].client == c && ws[0] in ws && ws[1] in ws;
    }
  }
}
