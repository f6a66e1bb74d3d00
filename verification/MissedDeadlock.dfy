/** What the detector cannot see: after a grant the remaining waiters have no edge to the new holder.
    That need not matter, but a real circle can form without a verdict. */
module MissedDeadlock {
  import opened Commands
  import opened WaitForGraph
  import opened DeadlockDetector
  import opened LockSpec
  import opened LockInvariants
  import opened DeadlockCompleteness

  function Held(c: Client, waiting: seq<Client>): Lock {
    Lock(Exclusive, {c}, seq(|waiting|, k requires 0 <= k < |waiting| => Waiter(waiting[k], Exclusive)))
  }

  /** A request for a resource whose one holder waits for nobody is queued. */
  lemma Queued(commands: seq<Command>, st: LockState, c: Client, r: Resource, h: Client, waiting: seq<Client>)
    requires st == Replay(commands) && r in st.locks && st.locks[r] == Held(h, waiting)
    requires c != h && h !in st.graph && c !in st.graph
    ensures Apply(st, Acquire(c, r, Exclusive))
            == (LockState(st.locks[r := Held(h, waiting + [c])], st.graph[c := {h}]), Waiting)
  {
    ReplayKeeps(commands);
    NoWayBack(st.graph, {h}, c);
    DeadlockIff(st, c, r, Exclusive);
    assert AddEdges(st.graph, c, {h}) == st.graph[c := {h}] by {
      assert {h} - {c} == {h} && {} + {h} == {h} && h in {h};
    }
    assert Held(h, waiting).waiting + [Waiter(c, Exclusive)] == Held(h, waiting + [c]).waiting;
  }

  lemma Take(commands: seq<Command>, st: LockState, c: Client, r: Resource) returns (commands': seq<Command>)
    requires st == Replay(commands) && r !in st.locks && c !in st.graph
    ensures Replay(commands') == LockState(st.locks[r := Held(c, [])], st.graph)
  {
    commands' := commands + [Acquire(c, r, Exclusive)];
    ReplayOne(commands, Acquire(c, r, Exclusive));
    assert DropWaiter(st.graph, c) == st.graph;
    assert {} + {c} == {c};
    assert Held(c, []).waiting == [];
  }

  lemma Wait(commands: seq<Command>, st: LockState, c: Client, r: Resource, h: Client, waiting: seq<Client>)
    returns (commands': seq<Command>)
    requires st == Replay(commands) && r in st.locks && st.locks[r] == Held(h, waiting)
    requires c != h && h !in st.graph && c !in st.graph
    ensures Replay(commands') == LockState(st.locks[r := Held(h, waiting + [c])], st.graph[c := {h}])
  {
    commands' := commands + [Acquire(c, r, Exclusive)];
    ReplayOne(commands, Acquire(c, r, Exclusive));
    Queued(commands, st, c, r, h, waiting);
  }

  lemma OneWaiter(before: seq<Command>, locks: map<Resource, Lock>, a: Client, b: Client, x: Resource)
    returns (commands: seq<Command>)
    requires Replay(before) == LockState(locks, map[]) && x !in locks && a != b
    ensures Replay(commands) == LockState(locks[x := Held(a, [b])], map[b := {a}])
  {
    var taken := Take(before, LockState(locks, map[]), a, x);
    commands := Wait(taken, LockState(locks[x := Held(a, [])], map[]), b, x, a, []);
    assert [] + [b] == [b];
    assert locks[x := Held(a, [])][x := Held(a, [b])] == locks[x := Held(a, [b])];
  }

  /** One client takes a free resource and two more queue for it. */
  lemma TwoWaiters(before: seq<Command>, locks: map<Resource, Lock>, a: Client, b: Client, c: Client, x: Resource)
    returns (commands: seq<Command>)
    requires Replay(before) == LockState(locks, map[]) && x !in locks
    requires a != b && a != c && b != c
    ensures Replay(commands) == LockState(locks[x := Held(a, [b, c])], map[b := {a}, c := {a}])
  {
    var one := OneWaiter(before, locks, a, b, x);
    commands := Wait(one, LockState(locks[x := Held(a, [b])], map[b := {a}]), c, x, a, [b]);
    assert [b] + [c] == [b, c];
    assert locks[x := Held(a, [b])][x := Held(a, [b, c])] == locks[x := Held(a, [b, c])];
  }

  /** The release serves the first of the two and drops the edge of the other. */
  lemma HandOver(locks: map<Resource, Lock>, a: Client, b: Client, c: Client, x: Resource)
    requires a != b && a != c && b != c
    ensures Apply(LockState(locks[x := Held(a, [b, c])], map[b := {a}, c := {a}]), Release(a, x)).0
            == LockState(locks[x := Held(b, [c])], map[])
  {
    var lock := Held(a, [b, c]);
    assert lock.holders - {a} == {};
    var open := lock.(holders := {});
    assert open.waiting[..1] == [Waiter(b, Exclusive)] && Clients([Waiter(b, Exclusive)]) == {b};
    assert open.waiting[1..] == Held(b, [c]).waiting;
    assert Grant(open) == Held(b, [c]);
    assert DropHolder(map[b := {a}, c := {a}], a) == map[];
    assert locks[x := lock][x := Held(b, [c])] == locks[x := Held(b, [c])];
  }

  /** So the second waiter ends without an edge to the new holder. */
  lemma LosesEdge(before: seq<Command>, locks: map<Resource, Lock>, a: Client, b: Client, c: Client, x: Resource)
    returns (commands: seq<Command>)
    requires Replay(before) == LockState(locks, map[]) && x !in locks
    requires a != b && a != c && b != c
    ensures Replay(commands) == LockState(locks[x := Held(b, [c])], map[])
    ensures !Seen(Replay(commands))
  {
    var queued := TwoWaiters(before, locks, a, b, c, x);
    commands := queued + [Release(a, x)];
    ReplayOne(queued, Release(a, x));
    HandOver(locks, a, b, c, x);
    assert Blocks(Replay(commands).locks, c, b, x, 0);
    assert Justified(Replay(commands).locks, c, b);
  }

  /** A lost edge need not matter: with nothing else locked every further request is still answered
      rightly, since the graph never leads to the client whose edge is missing. */
  lemma UnseenYetComplete(a: Client, b: Client, c: Client, x: Resource) returns (commands: seq<Command>)
    requires a != b && a != c && b != c
    ensures !Seen(Replay(commands)) && Complete(Replay(commands))
  {
    commands := LosesEdge([], map[], a, b, c, x);
    var st := Replay(commands);
    assert st.locks == map[x := Held(b, [c])];
    forall r, w, h
      ensures FollowsAt(st, r, w, h)
    {
      if r in st.locks && w != b {
        NoWayBack(st.graph, st.locks[r].holders, w);
      }
    }
    DetectionIsComplete(commands);
  }

  /** It can matter: for any three clients and two resources there is a reachable state in which a
      request is answered WAITING although two clients then block each other. */
  lemma DetectionIsIncomplete(a: Client, b: Client, c: Client, x: Resource, y: Resource)
    returns (commands: seq<Command>, request: Command)
    requires a != b && a != c && b != c && x != y
    ensures var st := Replay(commands);
            && Apply(st, request).1 == Waiting && !Complete(st)
            && Justified(Apply(st, request).0.locks, b, c)
            && Justified(Apply(st, request).0.locks, c, b)
  {
    var before := Take([], EMPTY, c, y);
    commands := LosesEdge(before, map[y := Held(c, [])], a, b, c, x);
    var st := Replay(commands);
    request := Acquire(b, y, Exclusive);
    Queued(commands, st, b, y, c, []);
    var locks := Apply(st, request).0.locks;
    assert Blocks(locks, b, c, y, 0) && Blocks(locks, c, b, x, 0);
    CircleMissed(st, b, c, x, y);
  }

  lemma CircleMissed(st: LockState, b: Client, c: Client, x: Resource, y: Resource)
    requires x in st.locks && st.locks[x] == Held(b, [c]) && y in st.locks && st.locks[y] == Held(c, [])
    requires b != c && ApplyAcquire(st, b, y, Exclusive).1 == Waiting
    ensures !Complete(st)
  {
    assert Blocks(st.locks, c, b, x, 0) && Justified(st.locks, c, b);
    assert IsChain(st.locks, [c, b]) && [c, b][0] in {c} && [c, b][1] == b;
    assert BlockedBack(st.locks, {c}, b);
    assert !Right(st, b, y, Exclusive);
  }
}
