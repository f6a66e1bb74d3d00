/** The heartbeat failure detector. Clock readings are parameters; a status change is returned to
    whoever registered the callback. */
module FailureDetector {
  import opened Commands

  datatype Status = Alive | Suspected | Dead

  datatype NodeState = NodeState(status: Status, lastHeartbeat: real, missed: int)

  datatype Change = Change(node: string, was: Status, now: Status)

  datatype Config = Config(interval: real, suspect: int, dead: int) {
    /** What the constructor's defaults satisfy. */
    predicate Sensible() {
      interval > 0.0 && 1 <= suspect <= dead
    }
  }

  function Classify(c: Config, missed: int): Status {
    if missed >= c.dead then Dead else if missed >= c.suspect then Suspected else Alive
  }

  /** int(x): towards zero. */
  function Truncate(x: real): int {
    if x >= 0.0 then x.Floor else -(-x).Floor
  }

  /** How many heartbeats are overdue. */
  function Overdue(c: Config, s: NodeState, now: real): int
    requires c.interval > 0.0
  {
    Truncate((now - s.lastHeartbeat) / c.interval)
  }

  /** Comparing a quotient with a number is comparing what was divided with that many intervals. */
  lemma Scaled(k: int, x: real, interval: real, elapsed: real)
    requires interval > 0.0 && x == elapsed / interval
    ensures k as real <= x <==> k as real * interval <= elapsed
    ensures x <= k as real <==> elapsed <= k as real * interval
  {
    assert x * interval == elapsed;
    Times(k as real, x, interval);
    Times(x, k as real, interval);
  }

  lemma Times(a: real, b: real, i: real)
    requires i > 0.0
    ensures a <= b ==> a * i <= b * i
    ensures a < b ==> a * i < b * i
  {
  }

  /** Whole intervals only: once the `k`-th has passed and until the next one has, `k` are overdue. */
  lemma OverdueIs(c: Config, s: NodeState, now: real)
    requires c.interval > 0.0 && now >= s.lastHeartbeat
    ensures var k, elapsed := Overdue(c, s, now), now - s.lastHeartbeat;
            k as real * c.interval <= elapsed && !((k + 1) as real * c.interval <= elapsed)
  {
    var x := (now - s.lastHeartbeat) / c.interval;
    var k := Truncate(x);
    NotNegative(now - s.lastHeartbeat, c.interval);
    assert k as real <= x && !((k + 1) as real <= x);
    Scaled(k, x, c.interval, now - s.lastHeartbeat);
    Scaled(k + 1, x, c.interval, now - s.lastHeartbeat);
  }

  lemma NotNegative(elapsed: real, interval: real)
    requires interval > 0.0
    ensures elapsed >= 0.0 <==> elapsed / interval >= 0.0
  {
    Scaled(0, elapsed / interval, interval, elapsed);
  }

  /** When the clock was set back nothing is overdue, and the count says by how many whole intervals. */
  lemma SetBack(c: Config, s: NodeState, now: real)
    requires c.interval > 0.0 && now < s.lastHeartbeat
    ensures var k, elapsed := Overdue(c, s, now), now - s.lastHeartbeat;
            k <= 0 && elapsed <= k as real * c.interval && !(elapsed <= (k - 1) as real * c.interval)
  {
    var x := (now - s.lastHeartbeat) / c.interval;
    var k := Truncate(x);
    NotNegative(now - s.lastHeartbeat, c.interval);
    assert x <= k as real && !(x <= (k - 1) as real);
    Scaled(k, x, c.interval, now - s.lastHeartbeat);
    Scaled(k - 1, x, c.interval, now - s.lastHeartbeat);
  }

  /** At least `k` heartbeats are overdue exactly when `k` intervals have passed. */
  lemma OverdueAtLeast(c: Config, s: NodeState, now: real, k: int)
    requires c.interval > 0.0 && k >= 1
    ensures Overdue(c, s, now) >= k <==> now - s.lastHeartbeat >= k as real * c.interval
  {
    var x := (now - s.lastHeartbeat) / c.interval;
    Scaled(k, x, c.interval, now - s.lastHeartbeat);
    assert Truncate(x) >= k <==> x >= k as real;
  }

  /** One node's turn in the check loop. */
  function CheckOne(c: Config, s: NodeState, now: real): NodeState
    requires c.interval > 0.0
  {
    var missed := Overdue(c, s, now);
    if missed <= s.missed then s
    else if missed >= c.dead then s.(missed := missed, status := Dead)
    else if missed >= c.suspect then s.(missed := missed, status := Suspected)
    else s.(missed := missed)
  }

  function Check(c: Config, nodes: map<string, NodeState>, now: real): map<string, NodeState>
    requires c.interval > 0.0
  {
    map n | n in nodes :: CheckOne(c, nodes[n], now)
  }

  predicate Classified(c: Config, nodes: map<string, NodeState>) {
    forall n | n in nodes :: nodes[n].missed >= 0 && nodes[n].status == Classify(c, nodes[n].missed)
  }

  /** The status is always the classification of the missed heartbeats, whatever the clock does, and a
      check only makes it worse: nothing goes from dead to suspected or from suspected to alive. */
  lemma CheckClassifies(c: Config, nodes: map<string, NodeState>, now: real)
    requires c.Sensible() && Classified(c, nodes)
    ensures Classified(c, Check(c, nodes, now))
    ensures forall n | n in nodes ::
              && (nodes[n].status == Dead ==> Check(c, nodes, now)[n].status == Dead)
              && (nodes[n].status == Suspected ==> Check(c, nodes, now)[n].status != Alive)
  {
  }

  /** What a check makes of a node, by the clock: dead once the dead span has passed since the last
      heartbeat, else suspected once the suspect span has, else as it was. */
  predicate OnClock(s: NodeState, s': NodeState, now: real, suspectSpan: real, deadSpan: real) {
    && s'.lastHeartbeat == s.lastHeartbeat
    && (s'.status == Dead <==> s.status == Dead || now - s.lastHeartbeat >= deadSpan)
    && (s'.status == Suspected <==>
        s'.status != Dead && (s.status == Suspected || now - s.lastHeartbeat >= suspectSpan))
  }

  lemma CheckOneOnClock(c: Config, s: NodeState, now: real)
    requires c.Sensible() && s.missed >= 0 && s.status == Classify(c, s.missed)
    ensures OnClock(s, CheckOne(c, s, now), now, c.suspect as real * c.interval, c.dead as real * c.interval)
  {
    OverdueAtLeast(c, s, now, c.dead);
    OverdueAtLeast(c, s, now, c.suspect);
  }

  ghost predicate ByClock(c: Config, before: map<string, NodeState>, after: map<string, NodeState>, now: real) {
    c.Sensible() && Classified(c, before) ==>
      && after.Keys == before.Keys
      && forall n | n in before ::
           OnClock(before[n], after[n], now, c.suspect as real * c.interval, c.dead as real * c.interval)
  }

  lemma CheckByClock(c: Config, nodes: map<string, NodeState>, now: real)
    requires c.interval > 0.0
    ensures ByClock(c, nodes, Check(c, nodes, now), now)
  {
    if c.Sensible() && Classified(c, nodes) {
      forall n | n in nodes
        ensures OnClock(nodes[n], Check(c, nodes, now)[n], now,
                        c.suspect as real * c.interval, c.dead as real * c.interval)
      {
        CheckOneOnClock(c, nodes[n], now);
      }
    }
  }

  /** So a node that is alive turns dead exactly when its last heartbeat is the dead span old, and
      suspected exactly when it is the suspect span old but not the dead span. */
  lemma AliveOnClock(c: Config, s: NodeState, now: real)
    requires c.Sensible() && 0 <= s.missed < c.suspect && s.status == Alive
    ensures var elapsed, s' := now - s.lastHeartbeat, CheckOne(c, s, now);
            && (s'.status == Dead <==> elapsed >= c.dead as real * c.interval)
            && (s'.status == Suspected
                <==> elapsed >= c.suspect as real * c.interval && !(elapsed >= c.dead as real * c.interval))
  {
    CheckOneOnClock(c, s, now);
  }

  function Beat(s: NodeState, now: real): NodeState {
    NodeState(Alive, now, 0)
  }

  class FailureDetector {
    const nodeId: string
    const config: Config
    var nodes: map<string, NodeState>

    constructor (nodeId: string, config: Config)
      ensures this.nodeId == nodeId && this.config == config && nodes == map[]
    {
      this.nodeId, this.config, nodes := nodeId, config, map[];
    }

    method RegisterNode(n: string, now: real)
      modifies this
      ensures nodes == if n != nodeId && n !in old(nodes)
                       then old(nodes)[n := NodeState(Alive, now, 0)] else old(nodes)
    {
      if n != nodeId && n !in nodes {
        nodes := nodes[n := NodeState(Alive, now, 0)];
      }
    }

    method RecordHeartbeat(n: string, now: real) returns (change: Option<Change>)
      modifies this
      ensures nodes == if n in old(nodes) then old(nodes)[n := NodeState(Alive, now, 0)] else old(nodes)
      ensures change == if n in old(nodes) && old(nodes)[n].status != Alive
                        then Some(Change(n, old(nodes)[n].status, Alive)) else None
    {
      change := None;
      if n in nodes {
        var state := nodes[n];
        var was := state.status;
        state := state.(lastHeartbeat := now, missed := 0);
        if state.status != Alive {
          state := state.(status := Alive);
          change := Some(Change(n, was, Alive));
        }
        nodes := nodes[n := state];
      }
    }

    /** Nodes are checked in any order, each by the clock; each change of status is reported once. */
    method CheckNodes(now: real) returns (changes: seq<Change>)
      requires config.interval > 0.0
      modifies this
      ensures nodes == Check(config, old(nodes), now)
      ensures ByClock(config, old(nodes), nodes, now)
      ensures forall ch :: ch in changes <==>
                             && ch.node in nodes && ch.was == old(nodes)[ch.node].status
                             && ch.now == nodes[ch.node].status && ch.was != ch.now
    {
      changes := [];
      ghost var before := nodes;
      var todo := nodes.Keys;
      while todo != {}
        invariant todo <= nodes.Keys == before.Keys
        invariant forall n | n in todo :: nodes[n] == before[n]
        invariant forall n | n in nodes && n !in todo :: nodes[n] == CheckOne(config, before[n], now)
        invariant forall ch :: ch in changes <==>
                                 && ch.node in nodes && ch.node !in todo && ch.was == before[ch.node].status
                                 && ch.now == nodes[ch.node].status && ch.was != ch.now
        decreases todo
      {
        var n :| n in todo;
        todo := todo - {n};
        var state := nodes[n];
        var missed := Truncate((now - state.lastHeartbeat) / config.interval);
        if missed > state.missed {
          var was := state.status;
          state := state.(missed := missed);
          if missed >= config.dead {
            if state.status != Dead {
              state := state.(status := Dead);
              changes := changes + [Change(n, was, Dead)];
            }
          } else if missed >= config.suspect {
            if state.status != Suspected {
              state := state.(status := Suspected);
              changes := changes + [Change(n, was, Suspected)];
            }
          }
          nodes := nodes[n := state];
        }
      }
      assert nodes == Check(config, before, now);
      CheckByClock(config, before, now);
    }
  }
}
