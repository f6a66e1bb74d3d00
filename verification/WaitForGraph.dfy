/** The wait-for graph, its walks, and the depth-first search that looks for a cycle. */
module WaitForGraph {
  import opened Commands
  import opened Sequences

  type Graph = map<Client, set<Client>>

  function Succ(g: Graph, v: Client): set<Client> {
    if v in g then g[v] else {}
  }

  predicate IsWalk(g: Graph, w: seq<Client>) {
    && w != []
    && forall k | 0 <= k < |w| - 1 :: w[k + 1] in Succ(g, w[k])
  }

  predicate IsCycle(g: Graph, c: seq<Client>) {
    IsWalk(g, c) && |c| >= 2 && c[0] == c[|c| - 1]
  }

  /** A closed walk that visits no client twice before it returns. */
  predicate IsSimpleCycle(g: Graph, c: seq<Client>) {
    IsCycle(g, c) && Distinct(c[..|c| - 1])
  }

  ghost predicate Acyclic(g: Graph) {
    forall c :: !IsCycle(g, c)
  }

  /** A walk from `v` that comes back to a client it visited. */
  predicate Loops(g: Graph, v: Client, w: seq<Client>) {
    IsWalk(g, w) && w[0] == v && !Distinct(w)
  }

  ghost predicate CycleReachable(g: Graph, v: Client) {
    exists w :: Loops(g, v, w)
  }

  function Vertices(g: Graph): set<Client> {
    g.Keys + set v, h | v in g && h in g[v] :: h
  }

  function IndexOf(path: seq<Client>, v: Client): (k: nat)
    requires v in path
    ensures k < |path| && path[k] == v && v !in path[..k]
  {
    if path[0] == v then 0 else IndexOf(path[1..], v) + 1
  }

  /** A set of finished vertices: no edge leaves it, and no cycle can be reached from it. */
  ghost predicate Finished(g: Graph, done: set<Client>) {
    forall v | v in done :: Succ(g, v) <= done && !CycleReachable(g, v)
  }

  lemma {:induction false} StaysFinished(g: Graph, done: set<Client>, w: seq<Client>, k: nat)
    requires Finished(g, done) && IsWalk(g, w) && w[0] in done && k < |w|
    ensures w[k] in done
  {
    if k > 0 {
      StaysFinished(g, done, w, k - 1);
      assert w[k - 1 + 1] in Succ(g, w[k - 1]);
    }
  }

  /** A vertex all of whose successors are finished can itself be finished. */
  lemma FinishOne(g: Graph, done: set<Client>, v: Client)
    requires Finished(g, done) && Succ(g, v) <= done && v !in done
    ensures Finished(g, done + {v})
  {
    if CycleReachable(g, v) {
      var w :| Loops(g, v, w);
      var i, j :| 0 <= i < j < |w| && w[i] == w[j];
      var rest := w[1..];
      assert w[0 + 1] in Succ(g, w[0]);
      assert IsWalk(g, rest) by {
        forall k | 0 <= k < |rest| - 1
          ensures rest[k + 1] in Succ(g, rest[k])
        {
          assert w[(k + 1) + 1] in Succ(g, w[k + 1]);
        }
      }
      StaysFinished(g, done, rest, j - 1);
      if i > 0 {
        assert rest[i - 1] == rest[j - 1];
        assert Loops(g, rest[0], rest);
      }
    }
  }

  /** The search came back to a client on its path: a simple cycle at the end of a walk from `start`. */
  predicate Found(g: Graph, start: seq<Client>, path: seq<Client>, cycle: seq<Client>) {
    && IsSimpleCycle(g, cycle)
    && var walk := path + [cycle[0]]; IsWalk(g, walk) && start <= walk && !Distinct(walk)
  }

  lemma CloseCycle(g: Graph, path: seq<Client>, v: Client)
    requires Distinct(path) && IsWalk(g, path + [v]) && v in path
    ensures Found(g, path + [v], path, path[IndexOf(path, v)..] + [v])
  {
    var k := IndexOf(path, v);
    var c, walk := path[k..] + [v], path + [v];
    forall m | 0 <= m < |c| - 1
      ensures c[m + 1] in Succ(g, c[m])
    {
      assert walk[(k + m) + 1] in Succ(g, walk[k + m]);
    }
    assert c[..|c| - 1] == path[k..];
    assert walk[k] == walk[|walk| - 1];
  }

  /** What holds between calls of the search: the clients visited but no longer on the path are done. */
  ghost predicate Searching(g: Graph, visited: set<Client>, path: seq<Client>) {
    && Elements(path) <= visited
    && Distinct(path)
    && (path != [] ==> IsWalk(g, path))
    && Finished(g, visited - Elements(path))
  }

  lemma Leave(g: Graph, visited: set<Client>, path: seq<Client>, v: Client)
    requires Searching(g, visited, path + [v]) && Succ(g, v) <= visited - Elements(path + [v])
    ensures Searching(g, visited, path)
  {
    var w := path + [v];
    FinishOne(g, visited - Elements(w), v);
    assert w[..|path|] == path;
    forall k | 0 <= k < |path|
      ensures path[k] != v
    {
      assert w[k] != w[|path|];
    }
    assert Distinct(path) by {
      assert forall i, j | 0 <= i < j < |path| :: w[i] != w[j];
    }
    assert visited - Elements(path) == visited - Elements(w) + {v};
    if path != [] {
      forall k | 0 <= k < |path| - 1
        ensures path[k + 1] in Succ(g, path[k])
      {
        assert w[k + 1] in Succ(g, w[k]);
      }
    }
  }

  /** The nested recursion of the cycle search, with the `visited` and `path` it shares. */
  class Search {
    const graph: Graph
    var visited: set<Client>
    var path: seq<Client>

    constructor (graph: Graph)
      ensures this.graph == graph && visited == {} && path == []
    {
      this.graph, visited, path := graph, {}, [];
    }

    /** Neighbours are tried in whatever order the set yields them. */
    method Dfs(node: Client, ghost universe: set<Client>) returns (cycle: Option<seq<Client>>)
      requires Searching(graph, visited, path) && Vertices(graph) <= universe && node in universe
      requires IsWalk(graph, path + [node])
      modifies this
      ensures visited >= old(visited)
      ensures cycle.None? ==> Searching(graph, visited, path) && path == old(path)
      ensures cycle.None? ==> node in visited && node !in path
      ensures cycle.Some? ==> Found(graph, old(path) + [node], path, cycle.value)
      decreases universe - visited
    {
      if node in visited {
        if node in path {
          CloseCycle(graph, path, node);
          return Some(path[IndexOf(path, node)..] + [node]);
        }
        return None;
      }
      ghost var before := path;
      visited := visited + {node};
      path := path + [node];
      var todo := Succ(graph, node);
      while todo != {}
        invariant todo <= Succ(graph, node)
        invariant visited >= old(visited) + {node}
        invariant path == before + [node] && Searching(graph, visited, path)
        invariant Succ(graph, node) - todo <= visited - Elements(path)
        decreases todo
      {
        var next :| next in todo;
        ghost var done := visited - Elements(path);
        var found := Dfs(next, universe);
        if found.Some? {
          return found;
        }
        todo := todo - {next};
        assert done <= visited - Elements(path);
        assert next in visited - Elements(path);
      }
      Leave(graph, visited, before, node);
      path := path[..|path| - 1];
      assert path == before;
      return None;
    }
  }
}
