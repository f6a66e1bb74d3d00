/** The deadlock detector: the edges it adds and drops, and the exactness of its cycle search. */
module DeadlockDetector {
  import opened Commands
  import opened WaitForGraph

  function AddEdges(g: Graph, waiter: Client, holders: set<Client>): Graph {
    if holders - {waiter} == {} then g else g[waiter := Succ(g, waiter) + (holders - {waiter})]
  }

  function DropWaiter(g: Graph, waiter: Client): Graph {
    g - {waiter}
  }

  /** All edges to the holder go, whatever resource they came from, and so do waiters left with none. */
  function DropHolder(g: Graph, holder: Client): Graph {
    map v | v in g && g[v] - {holder} != {} :: g[v] - {holder}
  }

  lemma AddOneMore(g: Graph, waiter: Client, holders: set<Client>, h: Client)
    ensures var g' := AddEdges(g, waiter, holders);
            AddEdges(g, waiter, holders + {h})
            == if h == waiter then g' else g'[waiter := Succ(g', waiter) + {h}]
  {
    var more := holders + {h} - {waiter};
    if h == waiter {
      assert more == holders - {waiter};
    } else {
      assert more == holders - {waiter} + {h} && h in more;
      assert Succ(g, waiter) + more == Succ(AddEdges(g, waiter, holders), waiter) + {h};
    }
  }

  class DeadlockDetector {
    var graph: Graph

    constructor ()
      ensures graph == map[]
    {
      graph := map[];
    }

    method AddWait(waiter: Client, holders: set<Client>)
      modifies this
      ensures graph == AddEdges(old(graph), waiter, holders)
    {
      var todo := holders;
      while todo != {}
        invariant todo <= holders && graph == AddEdges(old(graph), waiter, holders - todo)
        decreases todo
      {
        var h :| h in todo;
        AddOneMore(old(graph), waiter, holders - todo, h);
        assert holders - (todo - {h}) == holders - todo + {h};
        if h != waiter {
          graph := graph[waiter := Succ(graph, waiter) + {h}];
        }
        todo := todo - {h};
      }
      assert holders - {} == holders;
    }

    method RemoveWait(waiter: Client)
      modifies this
      ensures graph == DropWaiter(old(graph), waiter)
    {
      graph := graph - {waiter};
    }

    method RemoveHolder(holder: Client)
      modifies this
      ensures graph == DropHolder(old(graph), holder)
    {
      ghost var g := graph;
      var todo := graph.Keys;
      while todo != {}
        invariant todo <= graph.Keys <= g.Keys
        invariant forall v | v in todo :: graph[v] == g[v]
        invariant forall v | v in g && v !in todo :: v in graph <==> g[v] - {holder} != {}
        invariant forall v | v in graph && v !in todo :: graph[v] == g[v] - {holder}
        decreases todo
      {
        var v :| v in todo;
        graph := graph[v := graph[v] - {holder}];
        if graph[v] == {} {
          graph := graph - {v};
        }
        todo := todo - {v};
      }
    }

    /** Exact for every finite graph and every order of neighbours: a list comes back if and only if a
        cycle can be reached, and then it is a simple cycle that can be reached. */
    method DetectCycle(start: Client) returns (cycle: Option<seq<Client>>)
      ensures cycle.Some? <==> CycleReachable(graph, start)
      ensures cycle.Some? ==> IsSimpleCycle(graph, cycle.value)
      ensures cycle.Some? ==> exists w :: IsWalk(graph, w) && w[0] == start && w[|w| - 1] == cycle.value[0]
    {
      var search := new Search(graph);
      assert IsWalk(graph, [] + [start]);
      cycle := search.Dfs(start, Vertices(graph) + {start});
      if cycle.Some? {
        ghost var walk := search.path + [cycle.value[0]];
        assert [] + [start] <= walk;
        assert Loops(graph, start, walk);
        assert IsWalk(graph, walk) && walk[0] == start && walk[|walk| - 1] == cycle.value[0];
      }
    }

    method HasDeadlock() returns (cycle: Option<seq<Client>>)
      ensures cycle.None? <==> Acyclic(graph)
      ensures cycle.Some? ==> IsSimpleCycle(graph, cycle.value)
    {
      var todo := graph.Keys;
      while todo != {}
        invariant forall v | v in graph && v !in todo :: !CycleReachable(graph, v)
        decreases todo
      {
        var v :| v in todo;
        cycle := DetectCycle(v);
        if cycle.Some? {
          assert !Acyclic(graph);
          return;
        }
        todo := todo - {v};
      }
      cycle := None;
      forall c
        ensures !IsCycle(graph, c)
      {
        CycleStarts(graph, c);
      }
    }
  }

  // ---------- acyclicity ----------

  predicate Subgraph(g: Graph, g': Graph) {
    forall v | v in g :: g[v] <= Succ(g', v)
  }

  lemma SubgraphCycle(g: Graph, g': Graph, c: seq<Client>)
    requires Subgraph(g, g') && IsCycle(g, c)
    ensures IsCycle(g', c)
  {
    forall k | 0 <= k < |c| - 1
      ensures c[k + 1] in Succ(g', c[k])
    {
      assert c[k + 1] in Succ(g, c[k]);
    }
  }

  lemma SubgraphAcyclic(g: Graph, g': Graph)
    requires Subgraph(g, g') && Acyclic(g')
    ensures Acyclic(g)
  {
    forall c | IsCycle(g, c)
      ensures IsCycle(g', c)
    {
      SubgraphCycle(g, g', c);
    }
  }

  /** A cycle is found from where it starts. */
  lemma CycleStarts(g: Graph, c: seq<Client>)
    ensures IsCycle(g, c) ==> c[0] in g && CycleReachable(g, c[0])
  {
    if IsCycle(g, c) {
      assert c[0 + 1] in Succ(g, c[0]);
      assert Loops(g, c[0], c);
    }
  }

  /** A part of a walk is a walk. */
  lemma WalkPart(g: Graph, w: seq<Client>, i: nat, j: nat)
    requires IsWalk(g, w) && i < j <= |w|
    ensures IsWalk(g, w[i..j])
  {
    forall k | 0 <= k < j - i - 1
      ensures w[i..j][k + 1] in Succ(g, w[i..j][k])
    {
      assert w[(i + k) + 1] in Succ(g, w[i + k]);
    }
  }

  /** A cycle through `v` is found from `v`. */
  lemma CycleThrough(g: Graph, c: seq<Client>, v: Client)
    requires IsCycle(g, c) && v in c
    ensures CycleReachable(g, v)
  {
    var k := IndexOf(c, v);
    if k == 0 {
      assert Loops(g, v, c);
    } else {
      WalkPart(g, c, k, |c|);
      WalkPart(g, c, 0, k + 1);
      var w := c[k..] + c[..k + 1][1..];
      assert w[0] == w[|w| - 1] == v && |w| >= 2;
      assert Loops(g, v, w);
    }
  }

  lemma NewCycle(g: Graph, v: Client, holders: set<Client>, c: seq<Client>)
    requires IsCycle(AddEdges(g, v, holders), c)
    ensures IsCycle(g, c) || CycleReachable(AddEdges(g, v, holders), v)
  {
    if v in c {
      CycleThrough(AddEdges(g, v, holders), c, v);
    } else {
      SameWalk(g, v, holders, c);
    }
  }

  /** Edges out of one client, added when the search from it finds nothing, leave the graph acyclic. */
  lemma AddAcyclic(g: Graph, v: Client, holders: set<Client>)
    requires Acyclic(g) && !CycleReachable(AddEdges(g, v, holders), v)
    ensures Acyclic(AddEdges(g, v, holders))
  {
    forall c | IsCycle(AddEdges(g, v, holders), c)
      ensures IsCycle(g, c) || CycleReachable(AddEdges(g, v, holders), v)
    {
      NewCycle(g, v, holders, c);
    }
  }

  /** A walk that leaves `v` nowhere does not use the edges added for `v`. */
  lemma SameWalk(g: Graph, v: Client, holders: set<Client>, w: seq<Client>)
    requires w != [] && v !in w[..|w| - 1]
    ensures IsWalk(AddEdges(g, v, holders), w) <==> IsWalk(g, w)
  {
    var g' := AddEdges(g, v, holders);
    forall k | 0 <= k < |w| - 1
      ensures Succ(g', w[k]) == Succ(g, w[k])
    {
      assert w[..|w| - 1][k] == w[k];
    }
    assert forall k | 0 <= k < |w| - 1 :: w[k + 1] in Succ(g, w[k]) <==> w[k + 1] in Succ(g', w[k]);
  }

  predicate Walks(g: Graph, w: seq<Client>, from: Client, to: Client) {
    IsWalk(g, w) && w[0] == from && w[|w| - 1] == to
  }

  /** Some holder already waits, directly or not, for the client. */
  ghost predicate WaitsBack(g: Graph, holders: set<Client>, v: Client) {
    exists w :: w != [] && w[0] in holders && Walks(g, w, w[0], v)
  }

  /** Holders that wait for nobody do not wait back. */
  lemma NoWayBack(g: Graph, holders: set<Client>, v: Client)
    requires v !in holders && forall h | h in holders :: Succ(g, h) == {}
    ensures !WaitsBack(g, holders, v)
  {
    forall w | w != [] && w[0] in holders
      ensures !Walks(g, w, w[0], v)
    {
      assert |w| > 1 ==> w[0 + 1] !in Succ(g, w[0]);
    }
  }

  /** In an acyclic graph the new edges close a cycle exactly when some holder waits back. */
  lemma ClosesCycleIff(g: Graph, v: Client, holders: set<Client>)
    requires Acyclic(g) && v !in holders
    ensures CycleReachable(AddEdges(g, v, holders), v) <==> WaitsBack(g, holders, v)
  {
    var g' := AddEdges(g, v, holders);
    if WaitsBack(g, holders, v) {
      WaitingBackCloses(g, v, holders);
    }
    if CycleReachable(g', v) {
      var w :| Loops(g', v, w);
      var i, j :| 0 <= i < j < |w| && w[i] == w[j];
      LoopReturns(g, v, holders, w[i..j + 1]) by {
        WalkPart(g', w, i, j + 1);
      }
    }
  }

  lemma WaitingBackCloses(g: Graph, v: Client, holders: set<Client>)
    requires v !in holders && WaitsBack(g, holders, v)
    ensures CycleReachable(AddEdges(g, v, holders), v)
  {
    var g' := AddEdges(g, v, holders);
    var w :| w != [] && w[0] in holders && Walks(g, w, w[0], v);
    forall k | 0 <= k < |w| - 1
      ensures w[k + 1] in Succ(g', w[k])
    {
      assert w[k + 1] in Succ(g, w[k]);
    }
    assert w[0] in holders - {v};
    assert w[0] in Succ(g', v);
    assert IsWalk(g', [v, w[0]]);
    var c := [v, w[0]] + w[1..];
    assert c[0] == c[|c| - 1] == v;
    assert Loops(g', v, c);
  }

  /** The walk once around a cycle that starts behind `v` and ends in `v`. */
  lemma Around(g: Graph, c: seq<Client>, v: Client) returns (w: seq<Client>)
    requires IsCycle(g, c) && v in c[..|c| - 1]
    ensures IsWalk(g, w) && w[0] in Succ(g, v) && v in w
  {
    assert v in c;
    var k := IndexOf(c, v);
    assert k < |c| - 1 by {
      var m := IndexOf(c[..|c| - 1], v);
      assert c[m] == v;
    }
    assert c[k + 1] in Succ(g, c[k]);
    WalkPart(g, c, k + 1, |c|);
    WalkPart(g, c, 0, k + 1);
    w := c[k + 1..] + c[..k + 1][1..];
    assert w[|w| - 1] == v;
  }

  lemma NotACycle(g: Graph, c: seq<Client>)
    requires Acyclic(g)
    ensures !IsCycle(g, c)
  {
  }

  lemma ClosesLoop(g: Graph, v: Client, back: seq<Client>)
    requires back != [] && Walks(g, back, back[0], v)
    ensures back[0] in Succ(g, v) ==> IsCycle(g, [v] + back)
  {
    var w := [v] + back;
    if back[0] in Succ(g, v) {
      forall k | 0 <= k < |w| - 1
        ensures w[k + 1] in Succ(g, w[k])
      {
        assert k > 0 ==> back[(k - 1) + 1] in Succ(g, back[k - 1]);
      }
    }
  }

  /** A cycle of the new graph leaves `v` for a holder, and the way back is old. */
  lemma LoopReturns(g: Graph, v: Client, holders: set<Client>, c: seq<Client>)
    requires Acyclic(g) && IsCycle(AddEdges(g, v, holders), c)
    ensures WaitsBack(g, holders, v)
  {
    if v in c[..|c| - 1] {
      var w := Around(AddEdges(g, v, holders), c, v);
      var back := w[..IndexOf(w, v) + 1];
      assert back[0] == w[0] && Walks(g, back, back[0], v);
      ClosesLoop(g, v, back);
      NotACycle(g, [v] + back);
      assert w[0] in holders;
    } else {
      SameWalk(g, v, holders, c);
      NotACycle(g, c);
    }
  }
}
