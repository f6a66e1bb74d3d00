/** Ring membership driven by failure detection. A check runs its callbacks at once; a heartbeat only
    schedules its callback, which the event loop runs later. */
module Membership {
  import opened FailureDetector
  import opened ConsistentHash
  import opened Sequences

  /** Detector states, ring members, and the callbacks scheduled but not yet run. */
  datatype Members = Members(nodes: map<string, NodeState>, ring: set<string>, scheduled: seq<Change>)

  function OnChange(ring: set<string>, ch: Change): set<string> {
    if ch.now == Dead then ring - {ch.node}
    else if ch.now == Alive && ch.was == Dead then ring + {ch.node}
    else ring
  }

  datatype Event = Heartbeat(node: string, at: real) | CheckAll(at: real) | RunCallback

  function NewlyDead(before: map<string, NodeState>, after: map<string, NodeState>): set<string> {
    set n | n in before && n in after && before[n].status != Dead && after[n].status == Dead
  }

  function Handle(c: Config, m: Members, e: Event): Members
    requires c.interval > 0.0
  {
    match e
    case Heartbeat(n, at) =>
      if n !in m.nodes then m
      else m.(nodes := m.nodes[n := Beat(m.nodes[n], at)],
              scheduled := if m.nodes[n].status == Alive then m.scheduled
                           else m.scheduled + [Change(n, m.nodes[n].status, Alive)])
    case CheckAll(at) =>
      var nodes := Check(c, m.nodes, at);
      m.(nodes := nodes, ring := m.ring - NewlyDead(m.nodes, nodes))
    case RunCallback =>
      if m.scheduled == [] then m
      else m.(ring := OnChange(m.ring, m.scheduled[0]), scheduled := m.scheduled[1..])
  }

  predicate Rejoining(m: Members, n: string) {
    Change(n, Dead, Alive) in m.scheduled
  }

  /** A watched node is off the ring exactly while it is dead or its return is still scheduled; a
      return is scheduled only for a node that is not dead; all others stay on the ring. */
  predicate Tracks(cluster: set<string>, m: Members) {
    && m.nodes.Keys <= cluster && m.ring <= cluster
    && (forall n | n in cluster - m.nodes.Keys :: n in m.ring)
    && (forall n | n in m.nodes :: m.nodes[n].status == Dead ==> n !in m.ring && !Rejoining(m, n))
    && (forall n | n in m.nodes :: m.nodes[n].status != Dead && n !in m.ring ==> Rejoining(m, n))
    && (forall ch | ch in m.scheduled :: ch.now == Alive && ch.node in m.nodes)
  }

  /** The ring once all that is scheduled has run. */
  function Drained(ring: set<string>, scheduled: seq<Change>): set<string>
    decreases scheduled
  {
    if scheduled == [] then ring else Drained(OnChange(ring, scheduled[0]), scheduled[1..])
  }

  predicate DeadIn(m: Members, n: string) {
    n in m.nodes && m.nodes[n].status == Dead
  }

  /** When all that is scheduled has run, the ring is the cluster without its dead nodes. */
  predicate Exact(cluster: set<string>, m: Members) {
    forall n | n in cluster :: n !in Drained(m.ring, m.scheduled) <==> DeadIn(m, n)
  }

  /** At a check, no node whose return is still scheduled is overdue enough to be dead again. */
  predicate Prompt(c: Config, m: Members, e: Event) {
    e.CheckAll? && c.interval > 0.0 ==>
      forall n | n in m.nodes && Rejoining(m, n) :: Overdue(c, m.nodes[n], e.at) < c.dead
  }

  lemma {:induction false} DrainedIs(ring: set<string>, scheduled: seq<Change>, n: string)
    requires forall ch | ch in scheduled :: ch.now == Alive
    ensures n in Drained(ring, scheduled) <==> n in ring || Change(n, Dead, Alive) in scheduled
    decreases scheduled
  {
    if scheduled != [] {
      assert scheduled == [scheduled[0]] + scheduled[1..];
      DrainedIs(OnChange(ring, scheduled[0]), scheduled[1..], n);
    }
  }

  lemma TracksIsExact(cluster: set<string>, m: Members)
    requires Tracks(cluster, m)
    ensures Exact(cluster, m)
  {
    forall n | n in cluster
      ensures n !in Drained(m.ring, m.scheduled) <==> DeadIn(m, n)
    {
      DrainedIs(m.ring, m.scheduled, n);
    }
  }

  lemma HeartbeatTracks(c: Config, cluster: set<string>, m: Members, n: string, at: real)
    requires c.Sensible() && Tracks(cluster, m)
    ensures Tracks(cluster, Handle(c, m, Heartbeat(n, at)))
  {
    var m' := Handle(c, m, Heartbeat(n, at));
    if n in m.nodes {
      forall x | x in m.nodes
        ensures Rejoining(m, x) ==> Rejoining(m', x)
        ensures x != n && Rejoining(m', x) ==> Rejoining(m, x)
        ensures m.nodes[n].status == Dead ==> Rejoining(m', n)
      {
        if m.nodes[n].status != Alive {
          assert m'.scheduled[|m.scheduled|] == Change(n, m.nodes[n].status, Alive);
        }
      }
    }
  }

  lemma CallbackTracks(c: Config, cluster: set<string>, m: Members)
    requires c.Sensible() && Tracks(cluster, m)
    ensures Tracks(cluster, Handle(c, m, RunCallback))
  {
    var m' := Handle(c, m, RunCallback);
    if m.scheduled != [] {
      var ch := m.scheduled[0];
      assert m.scheduled == [ch] + m'.scheduled;
      assert ch in m.scheduled;
      if ch.was == Dead {
        assert ch == Change(ch.node, Dead, Alive) && Rejoining(m, ch.node);
      }
    }
  }

  lemma CheckTracks(c: Config, cluster: set<string>, m: Members, at: real)
    requires c.Sensible() && Tracks(cluster, m) && Classified(c, m.nodes) && Prompt(c, m, CheckAll(at))
    ensures Tracks(cluster, Handle(c, m, CheckAll(at)))
  {
    var m' := Handle(c, m, CheckAll(at));
    forall n | n in m.nodes
      ensures Rejoining(m', n) <==> Rejoining(m, n)
      ensures m'.nodes[n] == CheckOne(c, m.nodes[n], at)
      ensures m.nodes[n].status == Dead ==> m'.nodes[n].status == Dead
      ensures Rejoining(m, n) ==> m'.nodes[n].status != Dead
    {
    }
  }

  /** The exact condition: after a check, running all that is scheduled leaves exactly the dead nodes
      off the ring if and only if the check was prompt. */
  lemma CheckExactIff(c: Config, cluster: set<string>, m: Members, at: real)
    requires c.Sensible() && Tracks(cluster, m) && Classified(c, m.nodes)
    ensures Exact(cluster, Handle(c, m, CheckAll(at))) <==> Prompt(c, m, CheckAll(at))
  {
    var m' := Handle(c, m, CheckAll(at));
    if Prompt(c, m, CheckAll(at)) {
      CheckTracks(c, cluster, m, at);
      TracksIsExact(cluster, m');
    } else {
      var n :| n in m.nodes && Rejoining(m, n) && Overdue(c, m.nodes[n], at) >= c.dead;
      DrainedIs(m'.ring, m'.scheduled, n);
      assert DeadIn(m', n);
    }
  }

  function Start(cluster: set<string>, self: string, at: real): Members {
    Members(map n | n in cluster - {self} :: NodeState(Alive, at, 0), cluster, [])
  }

  predicate EventRun(c: Config, states: seq<Members>, events: seq<Event>) {
    && c.interval > 0.0 && |states| == |events| + 1
    && forall k {:trigger events[k]} | 0 <= k < |events| :: states[k + 1] == Handle(c, states[k], events[k])
  }

  predicate PromptUpTo(c: Config, states: seq<Members>, events: seq<Event>, k: nat) {
    && k <= |events| <= |states|
    && forall j {:trigger events[j]} | 0 <= j < k :: Prompt(c, states[j], events[j])
  }

  lemma {:induction false} RunTracks(c: Config, cluster: set<string>, self: string, at: real,
                                     states: seq<Members>, events: seq<Event>, k: nat)
    requires c.Sensible() && EventRun(c, states, events) && k < |states| && PromptUpTo(c, states, events, k)
    requires self in cluster && states[0] == Start(cluster, self, at)
    ensures Tracks(cluster, states[k]) && Classified(c, states[k].nodes)
    ensures states[k].nodes.Keys == cluster - {self}
  {
    if k > 0 {
      RunTracks(c, cluster, self, at, states, events, k - 1);
      var m, e := states[k - 1], events[k - 1];
      assert Prompt(c, m, e) && states[k] == Handle(c, m, e);
      match e
      case Heartbeat(n, t) => HeartbeatTracks(c, cluster, m, n, t);
      case CheckAll(t) => CheckTracks(c, cluster, m, t); CheckClassifies(c, m.nodes, t);
      case RunCallback => CallbackTracks(c, cluster, m);
    }
  }

  ghost predicate ExactUpTo(cluster: set<string>, states: seq<Members>, k: nat) {
    k < |states| && forall j {:trigger states[j]} | 0 <= j <= k :: Exact(cluster, states[j])
  }

  lemma {:induction false} ExactIsPrompt(c: Config, cluster: set<string>, self: string, at: real,
                                         states: seq<Members>, events: seq<Event>, k: nat)
    requires c.Sensible() && EventRun(c, states, events) && k < |states|
    requires self in cluster && states[0] == Start(cluster, self, at)
    requires ExactUpTo(cluster, states, k)
    ensures PromptUpTo(c, states, events, k)
  {
    if k > 0 {
      ExactIsPrompt(c, cluster, self, at, states, events, k - 1);
      RunTracks(c, cluster, self, at, states, events, k - 1);
      var m, e := states[k - 1], events[k - 1];
      assert states[k] == Handle(c, m, e) && Exact(cluster, states[k]);
      if e.CheckAll? {
        CheckExactIff(c, cluster, m, e.at);
      }
    }
  }

  /** Over a whole run the ring, once what is scheduled has run, is at every moment the cluster without
      its dead nodes if and only if every check is prompt. */
  lemma RunExactIff(c: Config, cluster: set<string>, self: string, at: real, states: seq<Members>, events: seq<Event>)
    requires c.Sensible() && EventRun(c, states, events)
    requires self in cluster && states[0] == Start(cluster, self, at)
    ensures ExactUpTo(cluster, states, |events|) <==> PromptUpTo(c, states, events, |events|)
  {
    if PromptUpTo(c, states, events, |events|) {
      forall k | 0 <= k < |states|
        ensures Exact(cluster, states[k])
      {
        RunTracks(c, cluster, self, at, states, events, k);
        TracksIsExact(cluster, states[k]);
      }
    }
    if ExactUpTo(cluster, states, |events|) {
      ExactIsPrompt(c, cluster, self, at, states, events, |events|);
    }
  }

  /** In a prompt run, whenever no callback is outstanding, a cluster node is absent from the ring if
      and only if it is dead; and any ring with those members is the one rebuilt from the survivors. */
  lemma RingIsSurvivors(c: Config, cluster: set<string>, self: string, at: real,
                        states: seq<Members>, events: seq<Event>, k: nat,
                        point: Hash, replicas: nat, r: Ring, rebuilt: Ring)
    requires c.Sensible() && EventRun(c, states, events) && k < |states| && PromptUpTo(c, states, events, k)
    requires self in cluster && states[0] == Start(cluster, self, at)
    requires states[k].scheduled == []
    requires RingOk(point, replicas, r) && r.nodes == states[k].ring
    requires RingOk(point, replicas, rebuilt) && rebuilt.nodes == set n | n in cluster && !DeadIn(states[k], n)
    ensures forall n | n in cluster :: n !in states[k].ring <==> DeadIn(states[k], n)
    ensures r == rebuilt
  {
    RunTracks(c, cluster, self, at, states, events, k);
    TracksIsExact(cluster, states[k]);
    assert r.nodes == rebuilt.nodes;
    Canonical(point, replicas, r, rebuilt);
  }

  /** The clock does not run backwards. */
  predicate InOrder(events: seq<Event>) {
    forall i, j | 0 <= i < j < |events| && !events[i].RunCallback? && !events[j].RunCallback? ::
      events[i].at <= events[j].at
  }

  lemma OverdueAfter(c: Config, s: NodeState, span: real)
    requires c.interval > 0.0 && 0 <= c.dead && span == c.dead as real * c.interval
    ensures Overdue(c, s, s.lastHeartbeat + span) == c.dead
  {
    assert s.lastHeartbeat + span - s.lastHeartbeat == span;
    assert span / c.interval == c.dead as real;
  }

  /** A check that finds the one watched node overdue. */
  lemma CheckKills(c: Config, m: Members, n: string, s: NodeState, span: real)
    requires c.Sensible() && span == c.dead as real * c.interval
    requires m.nodes == map[n := s] && s.status == Alive && s.missed == 0
    ensures Handle(c, m, CheckAll(s.lastHeartbeat + span))
            == Members(map[n := NodeState(Dead, s.lastHeartbeat, c.dead)], m.ring - {n}, m.scheduled)
  {
    OverdueAfter(c, s, span);
    var nodes := Check(c, m.nodes, s.lastHeartbeat + span);
    assert nodes == map[n := NodeState(Dead, s.lastHeartbeat, c.dead)];
    assert m.nodes[n].status == Alive && nodes[n].status == Dead;
    assert n in NewlyDead(m.nodes, nodes) && forall x | x in NewlyDead(m.nodes, nodes) :: x in m.nodes;
    assert NewlyDead(m.nodes, nodes) == {n};
  }

  /** A heartbeat of the one watched node, which was dead, schedules its return. */
  lemma BeatReturns(c: Config, m: Members, n: string, s: NodeState, at: real)
    requires c.Sensible() && m.nodes == map[n := s] && s.status == Dead
    ensures Handle(c, m, Heartbeat(n, at))
            == Members(map[n := NodeState(Alive, at, 0)], m.ring, m.scheduled + [Change(n, Dead, Alive)])
  {
    assert m.nodes[n := Beat(s, at)] == map[n := NodeState(Alive, at, 0)];
  }

  lemma SpanPositive(c: Config, span: real)
    requires c.Sensible() && span == c.dead as real * c.interval
    ensures span > 0.0
  {
  }

  /** The condition can fail: in a run from the start a node dies, returns, and is found dead again by a
      check that overtakes the scheduled return, which then puts the dead node on the ring. */
  lemma LateCallback(c: Config, self: string, n: string) returns (states: seq<Members>, events: seq<Event>)
    requires c.Sensible() && n != self
    ensures EventRun(c, states, events) && states[0] == Start({self, n}, self, 0.0)
    ensures InOrder(events) && events != [] && events[0].CheckAll? && events[0].at >= 0.0
    ensures var m := states[|events|]; m.scheduled == [] && DeadIn(m, n) && n in m.ring
  {
    var span := c.dead as real * c.interval;
    SpanPositive(c, span);
    var m0 := Start({self, n}, self, 0.0);
    assert m0.nodes == map[n := NodeState(Alive, 0.0, 0)];
    CheckKills(c, m0, n, NodeState(Alive, 0.0, 0), span);
    var m1 := Handle(c, m0, CheckAll(span));
    BeatReturns(c, m1, n, NodeState(Dead, 0.0, c.dead), span);
    var m2 := Handle(c, m1, Heartbeat(n, span));
    CheckKills(c, m2, n, NodeState(Alive, span, 0), span);
    var m3 := Handle(c, m2, CheckAll(span + span));
    assert m3.scheduled == [Change(n, Dead, Alive)];
    var m4 := Handle(c, m3, RunCallback);
    assert m4.nodes == m3.nodes && n in m4.ring && m4.scheduled == [];
    states := [m0, m1, m2, m3, m4];
    events := [CheckAll(span), Heartbeat(n, span), CheckAll(span + span), RunCallback];
  }

  method WatchOthers(cluster: seq<string>, nodeId: string, config: Config, at: real) returns (d: FailureDetector)
    ensures fresh(d) && d.config == config && d.nodes == Start(Elements(cluster), nodeId, at).nodes
  {
    d := new FailureDetector(nodeId, config);
    for k := 0 to |cluster|
      invariant fresh(d) && d.config == config && d.nodeId == nodeId
      invariant d.nodes == Start(Elements(cluster[..k]), nodeId, at).nodes
    {
      assert cluster[..k + 1] == cluster[..k] + [cluster[k]];
      d.RegisterNode(cluster[k], at);
    }
    assert cluster[..|cluster|] == cluster;
  }

  class QueueNode {
    const detector: FailureDetector
    const consistentHash: ConsistentHash
    var scheduled: seq<Change>

    function View(): Members
      reads this, detector, consistentHash
    {
      Members(detector.nodes, consistentHash.nodes, scheduled)
    }

    /** The nodes that are or can come onto the ring. */
    function Known(): set<string>
      reads this, detector, consistentHash
    {
      consistentHash.nodes + detector.nodes.Keys
    }

    ghost predicate Valid()
      reads this, detector, consistentHash
    {
      && consistentHash.Valid() && detector.config.interval > 0.0
      && (forall ch | ch in scheduled :: ch.node in detector.nodes)
      && CollisionFree(consistentHash.point, Virtual(Known(), consistentHash.replicas))
    }

    /** Starting a node: the others are watched, and all are on the ring. */
    constructor (cluster: seq<string>, nodeId: string, config: Config,
                 replicas: nat, point: Hash, keyHash: string -> int, at: real)
      requires config.interval > 0.0 && CollisionFree(point, Virtual(Elements(cluster), replicas))
      ensures Valid() && View() == Start(Elements(cluster), nodeId, at) && detector.config == config
      ensures fresh(detector) && fresh(consistentHash)
      ensures consistentHash.point == point && consistentHash.replicas == replicas
    {
      var d := WatchOthers(cluster, nodeId, config, at);
      var h := new ConsistentHash(cluster, replicas, point, keyHash);
      detector, consistentHash, scheduled := d, h, [];
      assert h.nodes + d.nodes.Keys == Elements(cluster);
    }

    method OnNodeStatusChange(ch: Change)
      requires Valid() && ch.node in Known()
      modifies consistentHash
      ensures Valid() && consistentHash.nodes == OnChange(old(consistentHash.nodes), ch)
    {
      VirtualGrows(consistentHash.nodes + {ch.node}, Known(), consistentHash.replicas);
      VirtualGrows(OnChange(consistentHash.nodes, ch) + detector.nodes.Keys, Known(), consistentHash.replicas);
      if ch.now == Dead {
        consistentHash.RemoveNode(ch.node);
      } else if ch.now == Alive && ch.was == Dead {
        consistentHash.AddNode(ch.node);
      }
    }

    method HandleHeartbeat(n: string, at: real)
      requires Valid()
      modifies this, detector
      ensures Valid() && View() == Handle(detector.config, old(View()), Heartbeat(n, at))
      ensures n in old(detector.nodes) ==> detector.nodes[n] == NodeState(Alive, at, 0)
      ensures scheduled == if n in old(detector.nodes) && old(detector.nodes)[n].status != Alive
                           then old(scheduled) + [Change(n, old(detector.nodes)[n].status, Alive)]
                           else old(scheduled)
    {
      var change := detector.RecordHeartbeat(n, at);
      if change.Some? {
        scheduled := scheduled + [change.value];
      }
    }

    method RunScheduled()
      requires Valid()
      modifies this, consistentHash
      ensures Valid() && View() == Handle(detector.config, old(View()), RunCallback)
      ensures old(scheduled) != [] ==>
                && scheduled == old(scheduled)[1..]
                && consistentHash.nodes == OnChange(old(consistentHash.nodes), old(scheduled)[0])
    {
      if scheduled != [] {
        var ch := scheduled[0];
        scheduled := scheduled[1..];
        OnNodeStatusChange(ch);
      }
    }

    method CheckNodes(at: real)
      requires Valid()
      modifies detector, consistentHash
      ensures Valid()
      ensures View() == Handle(detector.config, old(View()), CheckAll(at))
    {
      ghost var before, ring := detector.nodes, consistentHash.nodes;
      var changes := detector.CheckNodes(at);
      ghost var after := detector.nodes;
      for k := 0 to |changes|
        invariant Valid() && detector.nodes == after
        invariant consistentHash.nodes == ring - Fallen(changes[..k])
      {
        assert changes[k] in changes && changes[k].now != Alive;
        OnNodeStatusChange(changes[k]);
      }
      assert changes[..|changes|] == changes;
      FallenAreNewlyDead(before, after, changes);
    }
  }

  function Fallen(changes: seq<Change>): set<string> {
    set ch | ch in changes && ch.now == Dead :: ch.node
  }

  lemma FallenAreNewlyDead(before: map<string, NodeState>, after: map<string, NodeState>, changes: seq<Change>)
    requires before.Keys == after.Keys
    requires forall ch :: ch in changes <==>
                            && ch.node in after && ch.was == before[ch.node].status
                            && ch.now == after[ch.node].status && ch.was != ch.now
    ensures Fallen(changes) == NewlyDead(before, after)
  {
    forall n | n in NewlyDead(before, after)
      ensures n in Fallen(changes)
    {
      assert Change(n, before[n].status, Dead) in changes;
    }
  }

  /** A node object taken through any events goes through a run of the model; when the run is prompt and
      no callback is outstanding, its ring is the cluster without the dead. */
  method RunNode(cluster: seq<string>, self: string, config: Config, replicas: nat, point: Hash,
                 keyHash: string -> int, at: real, events: seq<Event>)
    returns (node: QueueNode, ghost states: seq<Members>)
    requires config.Sensible() && self in cluster && CollisionFree(point, Virtual(Elements(cluster), replicas))
    ensures EventRun(config, states, events) && states[0] == Start(Elements(cluster), self, at)
    ensures fresh(node) && node.Valid() && node.View() == states[|events|]
    ensures PromptUpTo(config, states, events, |events|) && node.scheduled == [] ==>
              forall n | n in cluster :: n !in node.consistentHash.nodes <==> DeadIn(node.View(), n)
  {
    node := new QueueNode(cluster, self, config, replicas, point, keyHash, at);
    states := [node.View()];
    for k := 0 to |events|
      invariant fresh(node) && fresh(node.detector) && fresh(node.consistentHash) && node.Valid()
      invariant node.detector.config == config && EventRun(config, states, events[..k])
      invariant states[0] == Start(Elements(cluster), self, at) && node.View() == states[k]
    {
      match events[k] {
        case Heartbeat(n, t) => node.HandleHeartbeat(n, t);
        case CheckAll(t) => node.CheckNodes(t);
        case RunCallback => node.RunScheduled();
      }
      states := states + [node.View()];
      assert events[..k + 1] == events[..k] + [events[k]];
    }
    assert events[..|events|] == events;
    if PromptUpTo(config, states, events, |events|) {
      RunTracks(config, Elements(cluster), self, at, states, events, |events|);
      TracksIsExact(Elements(cluster), states[|events|]);
    }
  }
}
