/** What nodes apply, over a whole run: of any two, the one that applied less applied a front of it. */
module AppliedOrder {
  import opened RaftSpec
  import opened Cluster
  import opened RaftSafety

  /** What one node has applied, at any time of a run, is a prefix of what any node that has applied
      no less, at any time, has applied. */
  lemma AppliedPrefix(size: nat, states: seq<State>, actions: seq<Action>, a: nat, b: nat, i: NodeId, j: NodeId)
    requires Run(size, states, actions) && AllTruthful(states, actions)
    requires a < |states| && b < |states| && i < size && j < size
    ensures i < |states[a].nodes| && j < |states[b].nodes|
    ensures states[a].nodes[i].lastApplied <= states[b].nodes[j].lastApplied ==>
              states[a].nodes[i].applied <= states[b].nodes[j].applied
  {
    IndexBounds(size, states, actions, a, i);
    IndexBounds(size, states, actions, b, j);
    var m, n := states[a].nodes[i], states[b].nodes[j];
    if m.lastApplied <= n.lastApplied {
      forall k | 0 <= k < |m.applied|
        ensures m.applied[k] == n.applied[k]
      {
        StateMachineSafety(size, states, actions, a, b, i, j, k);
      }
    }
  }
}
