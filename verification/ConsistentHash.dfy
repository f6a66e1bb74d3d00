/** Consistent hashing with virtual nodes. The hashes are parameters: `point` places the virtual key
    "node:i", `keyHash` a key. */
module ConsistentHash {
  import opened Commands
  import opened HashRing
  import opened Sequences

  type Hash = (string, nat) -> int

  /** No two of these virtual keys have one point: all that is asked of `point`, for the nodes in play. */
  predicate CollisionFree(point: Hash, keys: set<(string, nat)>) {
    forall v, w | v in keys && w in keys && point(v.0, v.1) == point(w.0, w.1) :: v == w
  }

  datatype Ring = Ring(points: seq<int>, owner: map<int, string>, nodes: set<string>)

  /** The virtual keys of a member set. */
  function Virtual(nodes: set<string>, replicas: nat): set<(string, nat)> {
    set n, i: nat | n in nodes && i < replicas :: (n, i)
  }

  function Copies(n: string, k: nat): set<(string, nat)> {
    set i: nat | i < k :: (n, i)
  }

  lemma VirtualSplit(nodes: set<string>, n: string, replicas: nat)
    requires n !in nodes
    ensures Virtual(nodes + {n}, replicas) == Virtual(nodes, replicas) + Copies(n, replicas)
    ensures Virtual(nodes, replicas) !! Copies(n, replicas)
    ensures forall i: nat :: (n, i) !in Virtual(nodes, replicas)
  {
    forall v
      ensures v in Virtual(nodes + {n}, replicas) <==> v in Virtual(nodes, replicas) + Copies(n, replicas)
    {
      assert v == (v.0, v.1);
    }
  }

  lemma VirtualGrows(nodes: set<string>, more: set<string>, replicas: nat)
    requires nodes <= more
    ensures Virtual(nodes, replicas) <= Virtual(more, replicas)
  {
  }

  ghost predicate On(point: Hash, keys: set<(string, nat)>, p: int) {
    exists v :: v in keys && point(v.0, v.1) == p
  }

  /** The ring carries exactly the given virtual keys: sorted, and each point mapped to its node. */
  ghost predicate Carries(point: Hash, points: seq<int>, owner: map<int, string>, keys: set<(string, nat)>) {
    && Ascending(points)
    && Elements(points) == owner.Keys
    && (forall v | v in keys :: point(v.0, v.1) in owner && owner[point(v.0, v.1)] == v.0)
    && (forall p | p in owner.Keys :: On(point, keys, p))
  }

  ghost predicate RingOk(point: Hash, replicas: nat, r: Ring) {
    Carries(point, r.points, r.owner, Virtual(r.nodes, replicas))
  }

  /** The points of the ring are those of the copies of its members, `replicas` of each, and the map has
      the member of every one. */
  lemma RingIs(point: Hash, replicas: nat, r: Ring, p: int)
    requires RingOk(point, replicas, r)
    ensures p in r.points <==> exists n, i: nat :: n in r.nodes && i < replicas && point(n, i) == p
    ensures forall n, i: nat {:trigger point(n, i)} | n in r.nodes && i < replicas ::
              point(n, i) in r.owner && r.owner[point(n, i)] == n
  {
    var keys := Virtual(r.nodes, replicas);
    assert p in r.points <==> p in Elements(r.points);
    if p in r.owner.Keys {
      assert On(point, keys, p);
      var v :| v in keys && point(v.0, v.1) == p;
      assert v.0 in r.nodes && v.1 < replicas && point(v.0, v.1) == p;
    }
    forall n, i: nat {:trigger point(n, i)} | n in r.nodes && i < replicas
      ensures point(n, i) in r.owner && r.owner[point(n, i)] == n
    {
      assert (n, i) in keys && point((n, i).0, (n, i).1) == point(n, i);
    }
  }

  /** Without collisions that is `replicas` points a member. */
  lemma RingSize(point: Hash, replicas: nat, r: Ring)
    requires RingOk(point, replicas, r) && CollisionFree(point, Virtual(r.nodes, replicas))
    ensures |r.points| == |r.nodes| * replicas
  {
    VirtualSize(r.nodes, replicas);
    PointsSize(point, Virtual(r.nodes, replicas), Elements(r.points));
    AscendingSize(r.points);
  }

  lemma {:induction false} CopiesSize(n: string, k: nat)
    ensures |Copies(n, k)| == k
  {
    if k > 0 {
      CopiesSize(n, k - 1);
      assert Copies(n, k) == Copies(n, k - 1) + {(n, k - 1)};
    } else {
      assert Copies(n, 0) == {};
    }
  }

  lemma {:induction false} VirtualSize(nodes: set<string>, replicas: nat)
    ensures |Virtual(nodes, replicas)| == |nodes| * replicas
    decreases nodes
  {
    if nodes == {} {
      assert Virtual(nodes, replicas) == {};
    } else {
      var n :| n in nodes;
      VirtualSize(nodes - {n}, replicas);
      VirtualSplit(nodes - {n}, n, replicas);
      CopiesSize(n, replicas);
      assert nodes - {n} + {n} == nodes;
      OneMore(|nodes| - 1, replicas);
    }
  }

  lemma OneMore(a: nat, b: nat)
    ensures (a + 1) * b == a * b + b
  {
  }

  lemma {:induction false} PointsSize(point: Hash, keys: set<(string, nat)>, points: set<int>)
    requires CollisionFree(point, keys) && forall p :: p in points <==> On(point, keys, p)
    ensures |points| == |keys|
    decreases keys
  {
    if keys == {} {
      assert points == {} by {
        forall p
          ensures p !in points
        {
          assert p in points <==> On(point, keys, p);
        }
      }
    } else {
      var v :| v in keys;
      var q := point(v.0, v.1);
      assert On(point, keys, q) && q in points;
      forall p
        ensures p in points - {q} <==> On(point, keys - {v}, p)
      {
        if On(point, keys - {v}, p) {
          var w :| w in keys - {v} && point(w.0, w.1) == p;
          assert w in keys && On(point, keys, p);
        }
        if p in points - {q} {
          assert On(point, keys, p);
          var w :| w in keys && point(w.0, w.1) == p;
          assert w in keys - {v};
        }
      }
      PointsSize(point, keys - {v}, points - {q});
    }
  }

  lemma {:induction false} AscendingSize(points: seq<int>)
    requires Ascending(points)
    ensures |Elements(points)| == |points|
  {
    if points != [] {
      TailAscending(points);
      AscendingSize(points[1..]);
      assert points[0] in Elements(points);
      assert Elements(points) == Elements(points[1..]) + {points[0]};
    }
  }

  /** The ring and the map depend on the member set alone. */
  lemma Canonical(point: Hash, replicas: nat, r: Ring, r': Ring)
    requires RingOk(point, replicas, r) && RingOk(point, replicas, r') && r.nodes == r'.nodes
    ensures r == r'
  {
    var keys := Virtual(r.nodes, replicas);
    forall p
      ensures p in r.owner.Keys <==> p in r'.owner.Keys
      ensures p in r.owner && p in r'.owner ==> r.owner[p] == r'.owner[p]
    {
      if p in r.owner.Keys || p in r'.owner.Keys {
        assert On(point, keys, p);
      }
    }
    AscendingUnique(r.points, r'.points);
  }

  lemma AddPoint(point: Hash, points: seq<int>, owner: map<int, string>, keys: set<(string, nat)>, n: string, i: nat)
    requires CollisionFree(point, keys + {(n, i)}) && Carries(point, points, owner, keys) && (n, i) !in keys
    ensures Carries(point, Insort(points, point(n, i)), owner[point(n, i) := n], keys + {(n, i)})
  {
    var p := point(n, i);
    var keys' := keys + {(n, i)};
    forall v | v in keys
      ensures point(v.0, v.1) != p
    {
      assert v in keys' && (n, i) in keys' && point((n, i).0, (n, i).1) == p;
    }
    assert p !in owner.Keys && (p in points <==> p in Elements(points));
    InsortOk(points, p);
    forall q | q in owner[p := n].Keys
      ensures On(point, keys', q)
    {
      if q == p {
        assert (n, i) in keys' && point((n, i).0, (n, i).1) == q;
      } else {
        assert On(point, keys, q);
        var v :| v in keys && point(v.0, v.1) == q;
        assert v in keys';
      }
    }
  }

  lemma RemovePoint(point: Hash, points: seq<int>, owner: map<int, string>, keys: set<(string, nat)>, n: string, i: nat)
    requires CollisionFree(point, keys) && Carries(point, points, owner, keys) && (n, i) in keys
    ensures point(n, i) in points && point(n, i) in owner
    ensures Carries(point, RemoveFirst(points, point(n, i)), owner - {point(n, i)}, keys - {(n, i)})
  {
    var p := point(n, i);
    var keys' := keys - {(n, i)};
    assert point((n, i).0, (n, i).1) in owner;
    assert p in Elements(points) <==> p in points;
    RemoveFirstOk(points, p);
    forall q | q in (owner - {p}).Keys
      ensures On(point, keys', q)
    {
      assert On(point, keys, q);
      var v :| v in keys && point(v.0, v.1) == q;
      assert v in keys';
    }
    forall v | v in keys'
      ensures point(v.0, v.1) in owner - {p}
    {
      assert v == (v.0, v.1);
    }
  }

  lemma RemoveCopy(point: Hash, points: seq<int>, owner: map<int, string>, all: set<(string, nat)>, n: string, i: nat)
    requires CollisionFree(point, all) && Carries(point, points, owner, all - Copies(n, i)) && (n, i) in all
    ensures point(n, i) in points && point(n, i) in owner
    ensures Carries(point, RemoveFirst(points, point(n, i)), owner - {point(n, i)}, all - Copies(n, i + 1))
  {
    RemovePoint(point, points, owner, all - Copies(n, i), n, i);
    assert all - Copies(n, i) - {(n, i)} == all - Copies(n, i + 1);
  }

  predicate Walkable(r: Ring) {
    Ascending(r.points) && Owned(r.owner, r.points)
  }

  lemma RingWalkable(point: Hash, replicas: nat, r: Ring)
    requires RingOk(point, replicas, r)
    ensures Walkable(r)
  {
    assert forall k | 0 <= k < |r.points| :: r.points[k] in Elements(r.points);
  }

  /** The owners met on the way clockwise once around the ring, starting at `h`. */
  function OwnersFrom(r: Ring, h: int): (os: seq<string>)
    requires Walkable(r)
    ensures |os| == |r.points|
  {
    Owners(r.owner, Clockwise(r.points, h))
  }

  /** All members in the order in which a key prefers them. */
  function Preference(r: Ring, h: int): seq<string>
    requires Walkable(r)
  {
    Dedupe(OwnersFrom(r, h))
  }

  // ---------- what the answers mean on the circle ----------

  /** The smallest point at or after `h`, or the smallest of all when there is none. */
  predicate Nearest(points: seq<int>, h: int, p: int) {
    && p in points
    && if exists q :: q in points && q >= h
       then p >= h && forall q | q in points && q >= h :: p <= q
       else forall q | q in points :: p <= q
  }

  /** Going clockwise from `h` some point of `n` comes before every point of `m`. */
  ghost predicate Earlier(r: Ring, h: int, n: string, m: string) {
    exists p :: p in r.owner && r.owner[p] == n && forall q | q in r.owner && r.owner[q] == m :: Before(h, p, q)
  }

  lemma FirstIsNearest(point: Hash, replicas: nat, r: Ring, h: int)
    requires RingOk(point, replicas, r) && Walkable(r) && r.points != []
    ensures Nearest(r.points, h, Clockwise(r.points, h)[0])
  {
    var k := BisectLeft(r.points, h);
    assert k == |r.points| ==> forall q | q in r.points :: q < h;
    assert k < |r.points| ==> r.points[k] in r.points && r.points[k] >= h;
  }

  /** A key prefers the members in the order in which their first points come clockwise. */
  lemma PreferenceOrder(point: Hash, replicas: nat, r: Ring, h: int, i: nat, j: nat)
    requires RingOk(point, replicas, r) && Walkable(r) && i < j < |Preference(r, h)|
    ensures Earlier(r, h, Preference(r, h)[i], Preference(r, h)[j])
  {
    var walk, os := Clockwise(r.points, h), OwnersFrom(r, h);
    var a := DedupeOrder(os, i, j);
    forall q | q in r.owner && r.owner[q] == Preference(r, h)[j]
      ensures Before(h, walk[a], q)
    {
      WalkIsRing(r.points, h);
      assert q in Elements(walk);
      var b :| 0 <= b < |walk| && walk[b] == q;
      assert os[b] == Preference(r, h)[j];
      ClockwiseOrder(r.points, h, a, b);
    }
    assert r.owner[walk[a]] == Preference(r, h)[i];
  }

  /** The answer to a key: different members, each earlier than those behind it and than all that are not
      listed, and as many as asked for. */
  ghost predicate Answers(r: Ring, h: int, replicas: nat, count: int, result: seq<string>) {
    && Distinct(result) && Elements(result) <= r.nodes
    && |result| == (if replicas == 0 || count <= 0 then 0 else if count <= |r.nodes| then count else |r.nodes|)
    && (forall i, j | 0 <= i < j < |result| :: Earlier(r, h, result[i], result[j]))
    && (forall i, m | 0 <= i < |result| && m in r.nodes && m !in result :: Earlier(r, h, result[i], m))
  }

  lemma TakeAnswers(point: Hash, replicas: nat, r: Ring, h: int, count: int)
    requires RingOk(point, replicas, r) && Walkable(r)
    ensures Answers(r, h, replicas, count, Take(Preference(r, h), count))
  {
    var all := Preference(r, h);
    var result := Take(all, count);
    NoReplicas(point, replicas, r, h);
    if replicas >= 1 {
      PreferenceIsAll(point, replicas, r, h, count);
    }
    forall i, j | 0 <= i < j < |result|
      ensures Earlier(r, h, result[i], result[j])
    {
      PreferenceOrder(point, replicas, r, h, i, j);
    }
    forall i, m | 0 <= i < |result| && m in r.nodes && m !in result
      ensures Earlier(r, h, result[i], m)
    {
      assert m in Elements(all);
      var j :| 0 <= j < |all| && all[j] == m;
      assert forall k | 0 <= k < |result| :: result[k] == all[k] && result[k] in result;
      PreferenceOrder(point, replicas, r, h, i, j);
    }
  }

  lemma NoReplicas(point: Hash, replicas: nat, r: Ring, h: int)
    requires RingOk(point, replicas, r) && Walkable(r)
    ensures replicas == 0 ==> r.points == [] && Preference(r, h) == []
  {
    if r.points != [] {
      assert r.points[0] in Elements(r.points);
      assert On(point, Virtual(r.nodes, replicas), r.points[0]);
    }
  }

  class ConsistentHash {
    const replicas: nat
    const point: Hash
    const keyHash: string -> int
    var ring: seq<int>
    var nodeMap: map<int, string>
    var nodes: set<string>

    function View(): Ring
      reads this
    {
      Ring(ring, nodeMap, nodes)
    }

    ghost predicate Valid()
      reads this
    {
      CollisionFree(point, Virtual(nodes, replicas)) && RingOk(point, replicas, View())
    }

    constructor (members: seq<string>, replicas: nat, point: Hash, keyHash: string -> int)
      requires CollisionFree(point, Virtual(Elements(members), replicas))
      ensures Valid() && nodes == Elements(members)
      ensures this.replicas == replicas && this.point == point && this.keyHash == keyHash
    {
      this.replicas, this.point, this.keyHash := replicas, point, keyHash;
      ring, nodeMap, nodes := [], map[], {};
      new;
      for k := 0 to |members|
        invariant Valid() && nodes == Elements(members[..k])
      {
        assert members[..k + 1] == members[..k] + [members[k]];
        VirtualGrows(Elements(members[..k]) + {members[k]}, Elements(members), replicas);
        AddNode(members[k]);
      }
      assert members[..|members|] == members;
    }

    method AddNode(node: string)
      requires Valid() && CollisionFree(point, Virtual(nodes + {node}, replicas))
      modifies this
      ensures Valid() && nodes == old(nodes) + {node}
    {
      if node in nodes {
        return;
      }
      ghost var keys := Virtual(nodes, replicas);
      VirtualSplit(nodes, node, replicas);
      nodes := nodes + {node};
      assert keys + Copies(node, 0) == keys;
      for i := 0 to replicas
        invariant nodes == old(nodes) + {node}
        invariant Carries(point, ring, nodeMap, keys + Copies(node, i))
      {
        assert keys + Copies(node, i) + {(node, i)} == keys + Copies(node, i + 1);
        assert keys + Copies(node, i + 1) <= Virtual(nodes, replicas);
        AddPoint(point, ring, nodeMap, keys + Copies(node, i), node, i);
        var p := point(node, i);
        ring := Insort(ring, p);
        nodeMap := nodeMap[p := node];
      }
    }

    method RemoveNode(node: string)
      requires Valid()
      modifies this
      ensures Valid() && nodes == old(nodes) - {node}
    {
      if node !in nodes {
        return;
      }
      ghost var keys := Virtual(nodes - {node}, replicas);
      VirtualSplit(nodes - {node}, node, replicas);
      assert nodes - {node} + {node} == nodes;
      nodes := nodes - {node};
      ghost var all := keys + Copies(node, replicas);
      assert forall i: nat | i < replicas :: (node, i) in all;
      assert all - Copies(node, 0) == all;
      for i := 0 to replicas
        invariant nodes == old(nodes) - {node}
        invariant Carries(point, ring, nodeMap, all - Copies(node, i))
      {
        RemoveCopy(point, ring, nodeMap, all, node, i);
        var p := point(node, i);
        ring := RemoveFirst(ring, p);
        nodeMap := nodeMap - {p};
      }
      assert all - Copies(node, replicas) == keys;
    }

    /** A node that joins and leaves again leaves no trace. */
    method JoinAndLeave(node: string)
      requires Valid() && node !in nodes && CollisionFree(point, Virtual(nodes + {node}, replicas))
      modifies this
      ensures Valid() && View() == old(View())
    {
      AddNode(node);
      RemoveNode(node);
      Canonical(point, replicas, old(View()), View());
    }

    /** The owner of the nearest point clockwise from the key's hash, if there is any point; that is the
        head of the key's preference list. */
    method GetNode(key: string) returns (node: Option<string>)
      requires Valid()
      ensures node == None <==> ring == []
      ensures node.Some? ==> exists p :: Nearest(ring, keyHash(key), p) && p in nodeMap && nodeMap[p] == node.value
      ensures Walkable(View())
      ensures node == if ring == [] then None else Some(Preference(View(), keyHash(key))[0])
    {
      RingWalkable(point, replicas, View());
      if ring == [] {
        return None;
      }
      var h := keyHash(key);
      var k := BisectLeft(ring, h);
      if k == |ring| {
        k := 0;
      }
      DedupeOk(OwnersFrom(View(), h));
      assert Clockwise(ring, h)[0] == ring[k];
      FirstIsNearest(point, replicas, View(), h);
      return Some(nodeMap[ring[k]]);
    }

    /** The wrap-around loop never goes round twice: by then it has met every member. */
    method GetNodesForKey(key: string, count: int) returns (result: seq<string>)
      requires Valid()
      ensures Answers(View(), keyHash(key), replicas, count, result)
      ensures Walkable(View())
      ensures result == Take(Preference(View(), keyHash(key)), count)
    {
      RingWalkable(point, replicas, View());
      TakeAnswers(point, replicas, View(), keyHash(key), count);
      if ring == [] {
        return [];
      }
      result := [];
      var seen: set<string> := {};
      var h := keyHash(key);
      var idx := BisectLeft(ring, h);
      ghost var r, t := View(), 0;
      ghost var os := OwnersFrom(r, h);
      MeetsAll(point, replicas, r, h);
      while |result| < count && |seen| < |nodes|
        invariant Around(r, h, t, idx)
        invariant Visited(os, t, count, result, seen, nodes)
        decreases |ring| - t
      {
        OwnerAt(r, h, t, idx);
        if idx >= |ring| {
          idx := 0;
        }
        var node := nodeMap[ring[idx]];
        VisitOne(os, t, count, result, seen, nodes);
        if node !in seen {
          seen := seen + {node};
          result := result + [node];
        }
        idx := idx + 1;
        t := t + 1;
      }
      TakenEnough(os, t, count, result, seen, nodes);
    }
  }

  /** The index after `t` steps around the ring, before it wraps. */
  predicate Around(r: Ring, h: int, t: nat, idx: int) {
    && Ascending(r.points) && r.points != [] && t <= |r.points| && 0 <= idx <= |r.points|
    && var start := BisectLeft(r.points, h); idx == start + t || idx == start + t - |r.points|
  }

  /** After `t` steps around the ring; a whole round has met every member. */
  predicate Visited(os: seq<string>, t: nat, count: int, result: seq<string>, seen: set<string>, nodes: set<string>) {
    && t <= |os|
    && result == Dedupe(os[..t]) && seen == Elements(result)
    && (t == |os| ==> seen == nodes)
    && |result| <= Max0(count)
  }

  lemma VisitOne(os: seq<string>, t: nat, count: int, result: seq<string>, seen: set<string>, nodes: set<string>)
    requires Visited(os, t, count, result, seen, nodes) && t < |os| && |result| < count
    requires Elements(os) == nodes
    ensures if os[t] in seen then Visited(os, t + 1, count, result, seen, nodes)
            else Visited(os, t + 1, count, result + [os[t]], seen + {os[t]}, nodes)
  {
    assert os[..t + 1] == os[..t] + [os[t]];
    assert Elements(result + [os[t]]) == Elements(result) + {os[t]};
    DedupeOk(os[..t + 1]);
    assert t + 1 == |os| ==> os[..t + 1] == os;
  }

  function Max0(x: int): nat {
    if x < 0 then 0 else x
  }

  function Take(s: seq<string>, count: int): seq<string> {
    if count <= 0 then [] else if count <= |s| then s[..count] else s
  }

  /** The `t`-th owner clockwise sits `t` places on, counted around the ring. */
  lemma OwnerAt(r: Ring, h: int, t: nat, idx: int)
    requires Walkable(r) && Around(r, h, t, idx) && t < |r.points|
    ensures var i := if idx >= |r.points| then 0 else idx;
            && r.points[i] in r.owner && OwnersFrom(r, h)[t] == r.owner[r.points[i]]
            && Around(r, h, t + 1, i + 1)
  {
    var i := if idx >= |r.points| then 0 else idx;
    assert Clockwise(r.points, h)[t] == r.points[i];
  }

  lemma TakenEnough(os: seq<string>, t: nat, count: int, result: seq<string>, seen: set<string>, nodes: set<string>)
    requires Visited(os, t, count, result, seen, nodes) && Elements(os) == nodes
    requires |result| >= count || |seen| >= |nodes|
    ensures result == Take(Dedupe(os), count)
  {
    var all := Dedupe(os);
    DedupePrefix(os, t);
    DedupeOk(os[..t]);
    DedupeOk(os);
    DistinctSize(result);
    DistinctSize(all);
  }

  /** The walk once around the ring passes every point and nothing else. */
  lemma WalkIsRing(points: seq<int>, h: int)
    requires Ascending(points)
    ensures Elements(Clockwise(points, h)) == Elements(points)
  {
    assert points == points[..BisectLeft(points, h)] + points[BisectLeft(points, h)..];
  }

  /** Once round the ring every member is met, and nobody else. */
  lemma MeetsAll(point: Hash, replicas: nat, r: Ring, h: int)
    requires RingOk(point, replicas, r) && Walkable(r) && (r.points != [] || replicas >= 1)
    ensures Elements(OwnersFrom(r, h)) == r.nodes
  {
    var walk, keys := Clockwise(r.points, h), Virtual(r.nodes, replicas);
    WalkIsRing(r.points, h);
    if r.points != [] {
      assert r.points[0] in r.owner.Keys;
      assert On(point, keys, r.points[0]);
      assert replicas >= 1;
    }
    forall n | n in r.nodes
      ensures n in OwnersFrom(r, h)
    {
      assert (n, 0) in keys;
      var p := point((n, 0).0, (n, 0).1);
      assert p in Elements(walk);
      var k :| 0 <= k < |walk| && walk[k] == p;
      assert OwnersFrom(r, h)[k] == n;
    }
    forall n | n in OwnersFrom(r, h)
      ensures n in r.nodes
    {
      var k :| 0 <= k < |walk| && OwnersFrom(r, h)[k] == n;
      assert walk[k] in Elements(walk) && On(point, keys, walk[k]);
    }
  }

  /** A key's preferences are all members, each once; so a request for `count` nodes gets exactly
      `min(count, |nodes|)` different members. */
  lemma PreferenceIsAll(point: Hash, replicas: nat, r: Ring, h: int, count: int)
    requires RingOk(point, replicas, r) && replicas >= 1
    ensures Walkable(r)
    ensures Distinct(Preference(r, h)) && Elements(Preference(r, h)) == r.nodes
    ensures |Preference(r, h)| == |r.nodes|
    ensures |Take(Preference(r, h), count)| == if count <= 0 then 0 else if count <= |r.nodes| then count else |r.nodes|
  {
    RingWalkable(point, replicas, r);
    MeetsAll(point, replicas, r, h);
    DedupeOk(OwnersFrom(r, h));
    DistinctSize(Preference(r, h));
  }

  // ---------- membership changes ----------

  /** Removing a node's points leaves the ring of the other members. */
  lemma RemovedPoints(point: Hash, replicas: nat, r: Ring, r': Ring, n: string)
    requires RingOk(point, replicas, r) && RingOk(point, replicas, r') && r'.nodes == r.nodes - {n}
    requires Walkable(r)
    ensures forall p | p in r.owner && r.owner[p] != n :: p in r'.owner && r'.owner[p] == r.owner[p]
    ensures r'.points == Others(r.owner, r.points, n)
  {
    var keys, keys' := Virtual(r.nodes, replicas), Virtual(r'.nodes, replicas);
    forall p | p in r.owner && r.owner[p] != n
      ensures p in r'.owner && r'.owner[p] == r.owner[p]
    {
      assert On(point, keys, p);
      var v :| v in keys && point(v.0, v.1) == p;
      assert v in keys';
    }
    OthersAscending(r.owner, r.points, n);
    forall p
      ensures p in Elements(r'.points) <==> p in Elements(Others(r.owner, r.points, n))
    {
      OthersMember(r.owner, r.points, n, p);
      if p in r'.owner.Keys {
        assert On(point, keys', p);
        var v :| v in keys' && point(v.0, v.1) == p;
        assert v in keys;
      }
      assert p in r.points <==> p in Elements(r.points);
    }
    AscendingUnique(r'.points, Others(r.owner, r.points, n));
  }

  /** Minimal redistribution: when a node leaves, every key's preference list is the old one with that
      node deleted; read backwards, when a node joins it is only inserted. */
  lemma MinimalRedistribution(point: Hash, replicas: nat, r: Ring, r': Ring, n: string, h: int)
    requires RingOk(point, replicas, r) && RingOk(point, replicas, r') && r'.nodes == r.nodes - {n}
    ensures Walkable(r) && Walkable(r')
    ensures Preference(r', h) == Without(Preference(r, h), n)
  {
    RingWalkable(point, replicas, r);
    RingWalkable(point, replicas, r');
    RemovedPoints(point, replicas, r, r', n);
    ClockwiseOthers(r.owner, r.points, h, n);
    OwnersOfOthers(r.owner, r'.owner, Clockwise(r.points, h), n);
    DedupeWithout(OwnersFrom(r, h), n);
  }

  /** So only the keys that the leaving (or joining) node owns change hands. */
  lemma OnlyItsKeysMove(point: Hash, replicas: nat, r: Ring, r': Ring, n: string, h: int)
    requires RingOk(point, replicas, r) && RingOk(point, replicas, r') && r'.nodes == r.nodes - {n}
    ensures Walkable(r) && Walkable(r')
    ensures Preference(r, h) != [] && Preference(r, h)[0] != n ==>
              Preference(r', h) != [] && Preference(r', h)[0] == Preference(r, h)[0]
  {
    MinimalRedistribution(point, replicas, r, r', n, h);
    if Preference(r, h) != [] && Preference(r, h)[0] != n {
      HeadStays(Preference(r, h), n);
    }
  }

  lemma {:induction false} HeadStays(s: seq<string>, n: string)
    requires s != [] && s[0] != n
    ensures Without(s, n) != [] && Without(s, n)[0] == s[0]
  {
    if |s| > 1 {
      HeadStays(s[..|s| - 1], n);
    }
  }
}
