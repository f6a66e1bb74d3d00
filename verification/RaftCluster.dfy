/** The cluster's actions performed by node objects: each one is a call of a handler, and a crash puts a
    new object, started from the disk, in the place of the old one. */
module RaftCluster {
  import opened Commands
  import opened RaftSpec
  import opened Cluster
  import opened RaftTheorems
  import opened RaftSafety
  import opened RaftNode

  function NodeList(size: nat): (ids: seq<NodeId>)
    ensures |ids| == size && forall i: NodeId :: i in ids <==> i < size
  {
    if size == 0 then [] else NodeList(size - 1) + [size - 1]
  }

  predicate NodeIs(node: RaftNode, i: NodeId, size: nat, n: Node)
    reads node
  {
    node.Valid() && node.nodeId == i && node.cluster == NodeList(size) && node.View() == n
  }

  /** Different objects, each in its node's state. */
  predicate Plays(objects: seq<RaftNode>, ns: seq<Node>)
    reads objects
  {
    && |objects| == |ns|
    && (forall i, j | 0 <= i < j < |objects| :: objects[i] != objects[j])
    && (forall i | 0 <= i < |objects| :: NodeIs(objects[i], i, |objects|, ns[i]))
  }

  lemma PeersAre(node: RaftNode, i: NodeId, size: nat)
    requires node.nodeId == i && node.cluster == NodeList(size)
    ensures node.PeerSet() == Peers(size, i)
  {
  }

  /** All objects but one are in their nodes' states. */
  predicate OthersPlay(objects: seq<RaftNode>, ns: seq<Node>, i: NodeId)
    reads objects
  {
    && |objects| == |ns|
    && (forall j, k | 0 <= j < k < |objects| :: objects[j] != objects[k])
    && (forall j | 0 <= j < |objects| && j != i :: NodeIs(objects[j], j, |objects|, ns[j]))
  }

  lemma OneMoves(objects: seq<RaftNode>, ns: seq<Node>, i: NodeId, n: Node)
    requires OthersPlay(objects, ns, i) && i < |objects| && NodeIs(objects[i], i, |objects|, n)
    ensures Plays(objects, ns[i := n])
  {
  }

  method Elect(objects: seq<RaftNode>, ghost ns: seq<Node>, i: NodeId) returns (r: VoteRequest)
    requires Plays(objects, ns) && i < |objects|
    modifies objects[i]
    ensures Plays(objects, ns[i := StartElection(ns[i], i)])
    ensures r == MakeVoteRequest(StartElection(ns[i], i), i)
  {
    assert NodeIs(objects[i], i, |objects|, ns[i]);
    r := objects[i].StartElection();
    OneMoves(objects, ns, i, StartElection(ns[i], i));
  }

  method Vote(objects: seq<RaftNode>, ghost ns: seq<Node>, i: NodeId, r: VoteRequest) returns (granted: bool)
    requires Plays(objects, ns) && i < |objects|
    modifies objects[i]
    ensures Plays(objects, ns[i := HandleRequestVote(ns[i], r)]) && granted == Grants(ns[i], r)
  {
    assert NodeIs(objects[i], i, |objects|, ns[i]);
    var _, g := objects[i].HandleRequestVote(r);
    granted := g;
    OneMoves(objects, ns, i, HandleRequestVote(ns[i], r));
  }

  method Count(objects: seq<RaftNode>, ghost ns: seq<Node>, i: NodeId, granted: set<NodeId>)
    requires Plays(objects, ns) && i < |objects|
    modifies objects[i]
    ensures Plays(objects, ns[i := CountVotes(ns[i], |ns|, Peers(|ns|, i), granted)])
  {
    assert NodeIs(objects[i], i, |objects|, ns[i]);
    PeersAre(objects[i], i, |objects|);
    var responses := map j | j in granted :: Some(true);
    assert Granted(responses) == granted;
    objects[i].CountVotes(responses);
    OneMoves(objects, ns, i, CountVotes(ns[i], |ns|, Peers(|ns|, i), granted));
  }

  method Append(objects: seq<RaftNode>, ghost ns: seq<Node>, i: NodeId, r: AppendRequest)
    returns (term: nat, success: bool)
    requires Plays(objects, ns) && i < |objects| && Contiguous(r.prevIndex, r.entries)
    modifies objects[i]
    ensures Plays(objects, ns[i := HandleAppend(ns[i], r)])
    ensures term == HandleAppend(ns[i], r).persistent.currentTerm && success == Accepts(ns[i], r)
  {
    assert NodeIs(objects[i], i, |objects|, ns[i]);
    var reply := objects[i].HandleAppendEntries(r);
    assert r.entries != [] ==> r.entries[0].index >= 1;
    term, success := reply.value.0, reply.value.1;
    OneMoves(objects, ns, i, HandleAppend(ns[i], r));
  }

  method Reply(objects: seq<RaftNode>, ghost ns: seq<Node>, i: NodeId, r: AppendReply)
    requires Plays(objects, ns) && i < |objects|
    modifies objects[i]
    ensures Plays(objects, ns[i := HandleReply(ns[i], r)])
  {
    assert NodeIs(objects[i], i, |objects|, ns[i]);
    objects[i].HandleReply(r);
    OneMoves(objects, ns, i, HandleReply(ns[i], r));
  }

  method Commit(objects: seq<RaftNode>, ghost ns: seq<Node>, i: NodeId)
    requires Plays(objects, ns) && i < |objects|
    modifies objects[i]
    ensures Plays(objects, ns[i := TryCommit(ns[i], |ns|)])
  {
    assert NodeIs(objects[i], i, |objects|, ns[i]);
    objects[i].TryCommit();
    OneMoves(objects, ns, i, TryCommit(ns[i], |ns|));
  }

  method ProposeTo(objects: seq<RaftNode>, ghost ns: seq<Node>, i: NodeId, command: Command)
    requires Plays(objects, ns) && i < |objects|
    modifies objects[i]
    ensures Plays(objects, ns[i := Propose(ns[i], command)])
  {
    assert NodeIs(objects[i], i, |objects|, ns[i]);
    var _ := objects[i].Propose(command);
    OneMoves(objects, ns, i, Propose(ns[i], command));
  }

  /** The process ends, after a step-down or not, and is started again. */
  method Crash(objects: seq<RaftNode>, ghost ns: seq<Node>, i: NodeId, seen: nat) returns (objects': seq<RaftNode>)
    requires Plays(objects, ns) && i < |objects|
    modifies objects[i]
    ensures Plays(objects', ns[i := Reload(CatchUp(ns[i], seen).disk)])
    ensures forall i | 0 <= i < |objects'| :: objects'[i] in objects || fresh(objects'[i])
  {
    assert NodeIs(objects[i], i, |objects|, ns[i]);
    if seen > objects[i].currentTerm {
      objects[i].StepDown(seen);
    }
    OneMoves(objects, ns, i, CatchUp(ns[i], seen));
    var node := new RaftNode(i, objects[i].cluster, objects[i].disk);
    objects' := objects[i := node];
    assert forall j | 0 <= j < |objects| :: objects[j] != node;
    ghost var ns' := ns[i := CatchUp(ns[i], seen)];
    assert forall j | 0 <= j < |objects| && j != i :: NodeIs(objects[j], j, |objects|, ns'[j]);
  }

  /** One action of the cluster, and the messages it sends. */
  method Perform(objects: seq<RaftNode>, ghost s: State, a: Action)
    returns (objects': seq<RaftNode>, sent: set<Message>)
    requires Plays(objects, s.nodes) && Enabled(s, a)
    requires a.AppendAt? ==> Contiguous(a.append.prevIndex, a.append.entries)
    modifies objects
    ensures Plays(objects', Next(s, a).nodes) && Next(s, a).net == s.net + sent
    ensures forall i | 0 <= i < |objects'| :: objects'[i] in objects || fresh(objects'[i])
  {
    objects', sent := objects, {};
    match a
    case StartElectionAt(i) =>
      var r := Elect(objects, s.nodes, i);
      sent := {VoteMsg(r)};
    case VoteAt(i, r) =>
      var granted := Vote(objects, s.nodes, i, r);
      sent := if granted then {GrantMsg(r.term, r.candidate, i)} else {};
    case CountVotesAt(i, granted) => Count(objects, s.nodes, i, granted);
    case SendAppendAt(i, j) =>
      assert NodeIs(objects[i], i, |objects|, s.nodes[i]);
      var r := objects[i].MakeAppend(j);
      sent := {AppendMsg(r)};
    case AppendAt(r) =>
      var term, success := Append(objects, s.nodes, r.dest, r);
      sent := {ReplyMsg(AppendReply(r, r.dest, term, success))};
    case ReplyAt(r) => Reply(objects, s.nodes, r.request.leader, r);
    case TryCommitAt(i) => Commit(objects, s.nodes, i);
    case ProposeAt(i, command) => ProposeTo(objects, s.nodes, i, command);
    case CrashAt(i, seen) => objects' := Crash(objects, s.nodes, i, seen);
  }

  method Boot(size: nat) returns (objects: seq<RaftNode>)
    ensures Plays(objects, InitState(size).nodes) && forall i | 0 <= i < size :: fresh(objects[i])
  {
    objects := [];
    for i := 0 to size
      invariant |objects| == i && forall j | 0 <= j < i :: fresh(objects[j])
      invariant forall j, k | 0 <= j < k < i :: objects[j] != objects[k]
      invariant forall j | 0 <= j < i :: NodeIs(objects[j], j, size, Reload(FRESH))
    {
      var node := new RaftNode(i, NodeList(size), FRESH);
      objects := objects + [node];
    }
  }

  lemma InFlight(size: nat, states: seq<State>, actions: seq<Action>, k: nat)
    requires Run(size, states, actions) && k < |actions| && actions[k].AppendAt?
    ensures Contiguous(actions[k].append.prevIndex, actions[k].append.entries)
  {
    assert Step(states[k], actions[k], states[k + 1]);
    RequestsContiguous(size, states, actions, k, actions[k].append);
  }

  /** A cluster of node objects taken through the actions of any run goes through its states and sends its
      messages; so when the replies consumed are truthful no two of the objects end with different
      commands applied at one position. */
  method RunCluster(size: nat, ghost states: seq<State>, actions: seq<Action>)
    returns (objects: seq<RaftNode>, net: set<Message>)
    requires Run(size, states, actions)
    ensures Plays(objects, states[|actions|].nodes) && net == states[|actions|].net
    ensures AllTruthful(states, actions) ==>
              forall i, j, k | 0 <= i < |objects| && 0 <= j < |objects|
                && 0 <= k < |objects[i].applied| && k < |objects[j].applied| ::
                objects[i].applied[k] == objects[j].applied[k]
  {
    objects := Boot(size);
    net := {};
    for k := 0 to |actions|
      invariant Plays(objects, states[k].nodes) && net == states[k].net
      invariant forall i | 0 <= i < |objects| :: fresh(objects[i])
    {
      assert Step(states[k], actions[k], states[k + 1]);
      if actions[k].AppendAt? {
        InFlight(size, states, actions, k);
      }
      var sent;
      objects, sent := Perform(objects, states[k], actions[k]);
      net := net + sent;
    }
    if AllTruthful(states, actions) {
      forall i, j, k | 0 <= i < |objects| && 0 <= j < |objects|
        && 0 <= k < |objects[i].applied| && k < |objects[j].applied|
        ensures objects[i].applied[k] == objects[j].applied[k]
      {
        var n := |actions|;
        assert NodeIs(objects[i], i, |objects|, states[n].nodes[i]);
        assert NodeIs(objects[j], j, |objects|, states[n].nodes[j]);
        StateMachineSafety(size, states, actions, n, n, i, j, k);
      }
    }
  }
}
