/** The lock manager replicated by Raft: nodes that have applied equally much are in the same state. */
module ReplicaAgreement {
  import opened Commands
  import opened RaftSpec
  import opened Cluster
  import opened AppliedOrder
  import opened LockSpec
  import opened LockInvariants
  import LockManager

  /** Replica agreement: equal `lastApplied` means equal lock types, holders, queues and wait-for
      graph, and that state satisfies the lock invariants. */
  lemma ReplicasAgree(size: nat, states: seq<State>, actions: seq<Action>, a: nat, b: nat, i: NodeId, j: NodeId)
    requires Run(size, states, actions) && AllTruthful(states, actions)
    requires a < |states| && b < |states| && i < size && j < size
    ensures i < |states[a].nodes| && j < |states[b].nodes|
    ensures states[a].nodes[i].lastApplied == states[b].nodes[j].lastApplied ==>
              Replay(states[a].nodes[i].applied) == Replay(states[b].nodes[j].applied)
    ensures StateOk(Replay(states[a].nodes[i].applied))
  {
    AppliedPrefix(size, states, actions, a, b, i, j);
    AppliedPrefix(size, states, actions, b, a, j, i);
    ReplayKeeps(states[a].nodes[i].applied);
    var x, y := states[a].nodes[i].applied, states[b].nodes[j].applied;
    assert x <= y && y <= x ==> x == y;
  }

  /** A lock manager fed a node's applied commands, with any clock readings, reaches that state, and
      looking for a deadlock in it finds none. */
  method ReplayOn(commands: seq<Command>, clock: seq<real>)
    returns (manager: LockManager.LockManager, deadlock: Option<seq<Client>>)
    requires |clock| == |commands|
    ensures fresh(manager) && manager.View() == Replay(commands) && deadlock == None
  {
    manager := new LockManager.LockManager();
    for k := 0 to |commands|
      invariant fresh(manager) && fresh(manager.detector) && manager.View() == Replay(commands[..k])
    {
      assert commands[..k + 1][..k] == commands[..k];
      var _ := manager.ApplyCommand(commands[k], clock[k]);
    }
    assert commands[..|commands|] == commands;
    ReplayKeeps(commands);
    deadlock := manager.detector.HasDeadlock();
  }
}
