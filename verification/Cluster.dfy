/** A cluster of Raft nodes over a network that keeps every message ever sent: delay, loss,
    reordering and duplication are all choices of which message to handle next. */
module Cluster {
  import opened Commands
  import opened RaftSpec

  datatype Message =
    | VoteMsg(vote: VoteRequest)
    | GrantMsg(term: nat, candidate: NodeId, voter: NodeId)
    | AppendMsg(append: AppendRequest)
    | ReplyMsg(reply: AppendReply)

  datatype Ballot = Ballot(term: nat, node: NodeId)

  /** What the run has done so far; the handlers never read it.
      `electLog` is the log a leader is elected with and `termLog` its log now or when it left office;
      `acks` is how much of the term's log a node has held while in that term. */
  datatype History = History(
    votes: map<Ballot, NodeId>,
    candLog: map<Ballot, Log>,
    leaderOf: map<nat, NodeId>,
    quorum: map<nat, set<NodeId>>,
    electLog: map<nat, Log>,
    termLog: map<nat, Log>,
    acks: map<Ballot, nat>)

  datatype State = State(nodes: seq<Node>, net: set<Message>, history: History)

  /** Every handler is one action. `CrashAt` may come between handlers (`seen` is 0) or inside one that
      has already stepped down to the term `seen` and saved that. */
  datatype Action =
    | StartElectionAt(node: NodeId)
    | VoteAt(node: NodeId, request: VoteRequest)
    | CountVotesAt(node: NodeId, granted: set<NodeId>)
    | SendAppendAt(node: NodeId, peer: NodeId)
    | AppendAt(append: AppendRequest)
    | ReplyAt(reply: AppendReply)
    | TryCommitAt(node: NodeId)
    | ProposeAt(node: NodeId, command: Command)
    | CrashAt(node: NodeId, seen: nat)

  function Ids(size: nat): (ids: set<NodeId>)
    ensures |ids| == size
    ensures forall i: NodeId :: i in ids <==> i < size
  {
    if size == 0 then {} else Ids(size - 1) + {size - 1}
  }

  function Peers(size: nat, i: NodeId): set<NodeId> {
    Ids(size) - {i}
  }

  function InitState(size: nat): State {
    State(seq(size, _ => Reload(FRESH)), {}, History(map[], map[], map[], map[], map[], map[], map[]))
  }

  predicate Enabled(s: State, a: Action) {
    match a
    case StartElectionAt(i) => i < |s.nodes| && s.nodes[i].role != Leader && s.nodes[i].electing == None
    case VoteAt(i, r) => i < |s.nodes| && i != r.candidate && VoteMsg(r) in s.net
    case CountVotesAt(i, granted) =>
      && i < |s.nodes|
      && s.nodes[i].electing.Some?
      && forall v | v in granted :: GrantMsg(s.nodes[i].electing.value, i, v) in s.net
    case SendAppendAt(i, j) => i < |s.nodes| && j < |s.nodes| && i != j && s.nodes[i].leaderState.Some?
    case AppendAt(r) => r.dest < |s.nodes| && AppendMsg(r) in s.net
    case ReplyAt(r) => r.request.leader < |s.nodes| && ReplyMsg(r) in s.net
    case TryCommitAt(i) => i < |s.nodes|
    case ProposeAt(i, _) => i < |s.nodes|
    case CrashAt(i, _) => i < |s.nodes|
  }

  /** A reply that would write `matchIndex` is consumed by the leadership that sent the request. */
  predicate SameLeadership(s: State, a: Action) {
    a.ReplyAt? && a.reply.success && a.reply.request.entries != [] && a.reply.request.leader < |s.nodes| ==>
      var n := s.nodes[a.reply.request.leader];
      n.leaderState.Some? ==> n.persistent.currentTerm == a.reply.request.term
  }

  function Update(s: State, i: NodeId, n: Node, sent: set<Message>, h: History): State
    requires i < |s.nodes|
  {
    State(s.nodes[i := n], s.net + sent, h)
  }

  function AckOf(h: History, b: Ballot): nat {
    if b in h.acks then h.acks[b] else 0
  }

  function Acked(h: History, b: Ballot, length: nat): map<Ballot, nat> {
    h.acks[b := Max(AckOf(h, b), length)]
  }

  function Next(s: State, a: Action): State
    requires Enabled(s, a)
  {
    var h := s.history;
    match a
    case StartElectionAt(i) =>
      var n := StartElection(s.nodes[i], i);
      var b := Ballot(n.persistent.currentTerm, i);
      Update(s, i, n, {VoteMsg(MakeVoteRequest(n, i))},
             h.(votes := h.votes[b := i], candLog := h.candLog[b := n.persistent.log]))
    case VoteAt(i, r) =>
      var n := HandleRequestVote(s.nodes[i], r);
      if Grants(s.nodes[i], r)
      then Update(s, i, n, {GrantMsg(r.term, r.candidate, i)}, h.(votes := h.votes[Ballot(r.term, i) := r.candidate]))
      else Update(s, i, n, {}, h)
    case CountVotesAt(i, granted) =>
      var n := s.nodes[i];
      var n' := CountVotes(n, |s.nodes|, Peers(|s.nodes|, i), granted);
      var t := n.persistent.currentTerm;
      if Wins(n, |s.nodes|, granted)
      then Update(s, i, n', {},
                  h.(leaderOf := h.leaderOf[t := i], quorum := h.quorum[t := n.votes + granted],
                     electLog := h.electLog[t := n.persistent.log], termLog := h.termLog[t := n.persistent.log]))
      else Update(s, i, n', {}, h)
    case SendAppendAt(i, j) =>
      Update(s, i, s.nodes[i], {AppendMsg(MakeAppend(s.nodes[i], i, j))}, h)
    case AppendAt(r) =>
      var n := HandleAppend(s.nodes[r.dest], r);
      var ok := Accepts(s.nodes[r.dest], r);
      var b := Ballot(r.term, r.dest);
      Update(s, r.dest, n, {ReplyMsg(AppendReply(r, r.dest, n.persistent.currentTerm, ok))},
             if ok then h.(acks := Acked(h, b, r.prevIndex + |r.entries|)) else h)
    case ReplyAt(r) =>
      Update(s, r.request.leader, HandleReply(s.nodes[r.request.leader], r), {}, h)
    case TryCommitAt(i) =>
      Update(s, i, TryCommit(s.nodes[i], |s.nodes|), {}, h)
    case ProposeAt(i, command) =>
      var n := Propose(s.nodes[i], command);
      var t := n.persistent.currentTerm;
      if n.role == Leader
      then Update(s, i, n, {}, h.(termLog := h.termLog[t := n.persistent.log],
                                  acks := Acked(h, Ballot(t, i), |n.persistent.log|)))
      else Update(s, i, n, {}, h)
    case CrashAt(i, seen) =>
      Update(s, i, Reload(CatchUp(s.nodes[i], seen).disk), {}, h)
  }

  predicate Step(s: State, a: Action, s': State) {
    Enabled(s, a) && s' == Next(s, a)
  }

  /** A finite run from the initial state. */
  predicate Run(size: nat, states: seq<State>, actions: seq<Action>) {
    && |states| == |actions| + 1
    && states[0] == InitState(size)
    && forall k {:trigger actions[k]} | 0 <= k < |actions| :: Step(states[k], actions[k], states[k + 1])
  }

  /** A leader that consumes a successful reply to a non-empty batch writes `matchIndex`; what it writes
      is true when the peer has held that much of the log of the leader's current term. */
  predicate Truthful(s: State, a: Action) {
    a.ReplyAt? && a.reply.success && a.reply.request.entries != [] && a.reply.request.leader < |s.nodes| ==>
      var n, r := s.nodes[a.reply.request.leader], a.reply.request;
      n.leaderState.Some? ==>
        AckOf(s.history, Ballot(n.persistent.currentTerm, a.reply.from)) >= r.prevIndex + |r.entries|
  }

  predicate AllTruthful(states: seq<State>, actions: seq<Action>) {
    && |states| == |actions| + 1
    && forall k {:trigger actions[k]} | 0 <= k < |actions| :: Truthful(states[k], actions[k])
  }

  /** Every reply of the run is consumed as `SameLeadership` asks. */
  predicate Disciplined(states: seq<State>, actions: seq<Action>) {
    && |states| == |actions| + 1
    && forall k {:trigger actions[k]} | 0 <= k < |actions| :: SameLeadership(states[k], actions[k])
  }
}
