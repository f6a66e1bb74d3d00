/** The condition on replies is needed: a run of five nodes in which a leader consumes an untrue reply,
    one that outlived its leadership, and two nodes apply different commands at one position. */
module StaleReply {
  import opened Commands
  import opened RaftSpec
  import opened Cluster
  import opened RaftInvariant
  import opened RaftSafety

  /** Some run of five nodes ends in this state. */
  ghost predicate Reached(s: State) {
    exists states, actions :: Run(5, states, actions) && states[|actions|] == s
  }

  /** A property of states that every step keeps; the steps below need no more of `Reached`. */
  ghost predicate Closed(reach: State -> bool) {
    forall s, a {:trigger Next(s, a)} :: reach(s) && Enabled(s, a) ==> reach(Next(s, a))
  }

  lemma ReachedClosed() returns (reach: State -> bool)
    ensures Closed(reach) && reach(InitState(5)) && forall s :: reach(s) ==> Reached(s)
  {
    reach := s => Reached(s);
    assert Run(5, [InitState(5)], []);
    forall s, a | Reached(s) && Enabled(s, a)
      ensures Reached(Next(s, a))
    {
      var states, actions :| Run(5, states, actions) && states[|actions|] == s;
      var states', actions' := states + [Next(s, a)], actions + [a];
      forall k | 0 <= k < |actions'|
        ensures Step(states'[k], actions'[k], states'[k + 1])
      {
        if k < |actions| {
          assert actions[k] == actions'[k];
        }
      }
      assert Run(5, states', actions') && states'[|actions'|] == Next(s, a);
    }
  }

  /** The run goes on from one state to another, and what was sent stays sent. */
  ghost predicate GoesOn(reach: State -> bool, s: State, s': State) {
    reach(s') && s.net <= s'.net
  }

  lemma Do(reach: State -> bool, s: State, a: Action) returns (s': State)
    requires Closed(reach) && reach(s) && Enabled(s, a)
    ensures s' == Next(s, a) && GoesOn(reach, s, s')
  {
    s' := Next(s, a);
  }

  // ---------- single steps, in terms of the nodes and what is sent ----------

  ghost predicate Moves(reach: State -> bool, s: State, s': State, i: NodeId, n: Node) {
    GoesOn(reach, s, s') && i < |s.nodes| && s'.nodes == s.nodes[i := n]
  }

  lemma StartStep(reach: State -> bool, s: State, i: NodeId) returns (s': State)
    requires Closed(reach) && reach(s) && i < |s.nodes|
    requires s.nodes[i].role != Leader && s.nodes[i].electing == None
    ensures Moves(reach, s, s', i, StartElection(s.nodes[i], i))
    ensures VoteMsg(MakeVoteRequest(StartElection(s.nodes[i], i), i)) in s'.net
  {
    s' := Do(reach, s, StartElectionAt(i));
  }

  lemma CountStep(reach: State -> bool, s: State, i: NodeId, granted: set<NodeId>) returns (s': State)
    requires Closed(reach) && reach(s) && |s.nodes| == 5 && i < 5 && s.nodes[i].electing.Some?
    requires forall v | v in granted :: GrantMsg(s.nodes[i].electing.value, i, v) in s.net
    ensures Moves(reach, s, s', i, CountVotes(s.nodes[i], 5, Peers(5, i), granted))
  {
    s' := Do(reach, s, CountVotesAt(i, granted));
  }

  lemma ProposeStep(reach: State -> bool, s: State, i: NodeId, command: Command) returns (s': State)
    requires Closed(reach) && reach(s) && i < |s.nodes|
    ensures Moves(reach, s, s', i, Propose(s.nodes[i], command))
  {
    s' := Do(reach, s, ProposeAt(i, command));
  }

  lemma ReplyStep(reach: State -> bool, s: State, r: AppendReply) returns (s': State)
    requires Closed(reach) && reach(s) && r.request.leader < |s.nodes| && ReplyMsg(r) in s.net
    ensures Moves(reach, s, s', r.request.leader, HandleReply(s.nodes[r.request.leader], r))
  {
    s' := Do(reach, s, ReplyAt(r));
  }

  lemma CommitStep(reach: State -> bool, s: State, i: NodeId) returns (s': State)
    requires Closed(reach) && reach(s) && |s.nodes| == 5 && i < 5
    ensures Moves(reach, s, s', i, TryCommit(s.nodes[i], 5))
  {
    s' := Do(reach, s, TryCommitAt(i));
  }

  /** A leader sends a peer what it lacks and the peer handles it. */
  lemma Replicate(reach: State -> bool, s: State, i: NodeId, j: NodeId) returns (s': State, reply: AppendReply)
    requires Closed(reach) && reach(s) && i < |s.nodes| && j < |s.nodes| && i != j
    requires s.nodes[i].leaderState.Some?
    ensures var r := MakeAppend(s.nodes[i], i, j);
            && Moves(reach, s, s', j, HandleAppend(s.nodes[j], r))
            && reply == AppendReply(r, j, HandleAppend(s.nodes[j], r).persistent.currentTerm,
                                    Accepts(s.nodes[j], r))
            && ReplyMsg(reply) in s'.net
  {
    var ns := s.nodes;
    var r := MakeAppend(ns[i], i, j);
    var s1 := Do(reach, s, SendAppendAt(i, j));
    assert s1.nodes == ns;
    s' := Do(reach, s1, AppendAt(r));
    reply := AppendReply(r, j, HandleAppend(ns[j], r).persistent.currentTerm, Accepts(ns[j], r));
  }

  // ---------- what the steps do to a node that has committed nothing ----------

  predicate Looks(n: Node, role: Role, term: nat, log: Log) {
    && n.role == role && n.persistent.currentTerm == term && n.persistent.log == log
    && n.commitIndex == 0 && n.lastApplied == 0 && n.applied == [] && n.electing == None
    && (role == Leader <==> n.leaderState.Some?)
  }

  predicate Knows(n: Node, next: map<NodeId, nat>, matched: map<NodeId, nat>) {
    n.leaderState == Some(LeaderState(next, matched))
  }

  lemma VoteLooks(n: Node, role: Role, term: nat, log: Log, r: VoteRequest)
    requires Looks(n, role, term, log) && r.term > term && UpToDate(r.lastTerm, r.lastIndex, log)
    ensures Grants(n, r) && Looks(HandleRequestVote(n, r), Follower, r.term, log)
  {
  }

  lemma AppendLooks(n: Node, role: Role, term: nat, log: Log, r: AppendRequest)
    requires Looks(n, role, term, log) && r.term >= term && (role == Leader ==> r.term > term)
    requires PrevMatches(log, r) && r.entries != [] && r.leaderCommit == 0 && Contiguous(r.prevIndex, r.entries)
    ensures Accepts(n, r)
    ensures Looks(HandleAppend(n, r), Follower, r.term, Merge(log, r.prevIndex, r.entries))
  {
    PutIsMerge(log, r.prevIndex, r.entries);
  }

  function All(i: NodeId, k: nat): map<NodeId, nat> {
    map j | j in Peers(5, i) :: k
  }

  lemma BecomesKnown(n: Node, i: NodeId)
    ensures Knows(BecomeLeader(n, Peers(5, i)), All(i, LastIndex(n.persistent.log) + 1), All(i, 0))
  {
    var l := BecomeLeader(n, Peers(5, i)).leaderState.value;
    assert l.nextIndex == All(i, LastIndex(n.persistent.log) + 1) && l.matchIndex == All(i, 0);
  }

  lemma WinnerLooks(n: Node, i: NodeId, v: NodeId, w: NodeId, role: Role, term: nat, log: Log)
    requires Looks(n, role, term, log) && i != v && i != w && v != w
    ensures var n' := CountVotes(StartElection(n, i), 5, Peers(5, i), {v, w});
            && Looks(n', Leader, term + 1, log) && Knows(n', All(i, LastIndex(log) + 1), All(i, 0))
  {
    BecomesKnown(StartElection(n, i).(votes := {i} + {v, w}, electing := None), i);
  }

  /** Two nodes that are behind a candidate grant it their vote. */
  lemma Ballots(reach: State -> bool, s: State, v: NodeId, w: NodeId, r: VoteRequest) returns (s': State)
    requires Closed(reach) && reach(s) && |s.nodes| == 5 && v < 5 && w < 5 && v != w
    requires r.candidate != v && r.candidate != w
    requires VoteMsg(r) in s.net && Grants(s.nodes[v], r) && Grants(s.nodes[w], r)
    ensures GoesOn(reach, s, s')
    ensures var ns := s.nodes;
            s'.nodes == ns[v := HandleRequestVote(ns[v], r)][w := HandleRequestVote(ns[w], r)]
    ensures GrantMsg(r.term, r.candidate, v) in s'.net && GrantMsg(r.term, r.candidate, w) in s'.net
  {
    var s1 := Do(reach, s, VoteAt(v, r));
    s' := Do(reach, s1, VoteAt(w, r));
  }

  lemma Campaign(reach: State -> bool, s: State, i: NodeId, v: NodeId, w: NodeId, r: VoteRequest) returns (s': State)
    requires Closed(reach) && reach(s) && |s.nodes| == 5 && i < 5 && v < 5 && w < 5 && i != v && i != w && v != w
    requires var ns := s.nodes;
             && ns[i].role != Leader && ns[i].electing == None
             && r == MakeVoteRequest(StartElection(ns[i], i), i) && Grants(ns[v], r) && Grants(ns[w], r)
    ensures GoesOn(reach, s, s') && |s'.nodes| == 5
    ensures var ns, ns' := s.nodes, s'.nodes;
            && ns'[i] == CountVotes(StartElection(ns[i], i), 5, Peers(5, i), {v, w})
            && ns'[v] == HandleRequestVote(ns[v], r) && ns'[w] == HandleRequestVote(ns[w], r)
            && forall k | 0 <= k < 5 && k != i && k != v && k != w :: ns'[k] == ns[k]
  {
    var s1 := StartStep(reach, s, i);
    var s2 := Ballots(reach, s1, v, w, r);
    s' := CountStep(reach, s2, i, {v, w});
  }

  /** Three of five: a candidate starts an election, two nodes behind it grant their vote. */
  lemma Elect(reach: State -> bool, s: State, i: NodeId, v: NodeId, w: NodeId, term: nat, log: Log)
    returns (s': State)
    requires Closed(reach) && reach(s) && |s.nodes| == 5 && i < 5 && v < 5 && w < 5 && i != v && i != w && v != w
    requires var ns := s.nodes;
             && ns[i].role != Leader && Looks(ns[i], ns[i].role, term, log)
             && Looks(ns[v], ns[v].role, ns[v].persistent.currentTerm, ns[v].persistent.log)
             && Looks(ns[w], ns[w].role, ns[w].persistent.currentTerm, ns[w].persistent.log)
             && ns[v].persistent.currentTerm <= term && ns[w].persistent.currentTerm <= term
             && UpToDate(LastTerm(log), LastIndex(log), ns[v].persistent.log)
             && UpToDate(LastTerm(log), LastIndex(log), ns[w].persistent.log)
    ensures GoesOn(reach, s, s') && |s'.nodes| == 5
    ensures var ns, ns' := s.nodes, s'.nodes;
            && Looks(ns'[i], Leader, term + 1, log) && Knows(ns'[i], All(i, LastIndex(log) + 1), All(i, 0))
            && Looks(ns'[v], Follower, term + 1, ns[v].persistent.log)
            && Looks(ns'[w], Follower, term + 1, ns[w].persistent.log)
            && forall k | 0 <= k < 5 && k != i && k != v && k != w :: ns'[k] == ns[k]
  {
    var ns := s.nodes;
    var r := VoteRequest(term + 1, i, LastIndex(log), LastTerm(log));
    VoteLooks(ns[v], ns[v].role, ns[v].persistent.currentTerm, ns[v].persistent.log, r);
    VoteLooks(ns[w], ns[w].role, ns[w].persistent.currentTerm, ns[w].persistent.log, r);
    WinnerLooks(ns[i], i, v, w, ns[i].role, term, log);
    s' := Campaign(reach, s, i, v, w, r);
  }

  /** A leader sends a peer what follows `prev` and the peer takes it over. */
  lemma Share(reach: State -> bool, s: State, i: NodeId, j: NodeId, term: nat, log: Log, prev: nat,
              next: map<NodeId, nat>, matched: map<NodeId, nat>)
    returns (s': State, reply: AppendReply)
    requires Closed(reach) && reach(s) && |s.nodes| == 5 && i < 5 && j < 5 && i != j && prev < |log|
    requires var ns := s.nodes;
             && Looks(ns[i], Leader, term, log) && Knows(ns[i], next, matched)
             && j in next && next[j] == prev + 1
             && Looks(ns[j], ns[j].role, ns[j].persistent.currentTerm, ns[j].persistent.log)
             && (ns[j].persistent.currentTerm < term
                 || (ns[j].persistent.currentTerm == term && ns[j].role != Leader))
             && prev <= |ns[j].persistent.log|
             && (prev > 0 ==> log[prev - 1].term == ns[j].persistent.log[prev - 1].term)
    requires Contiguous(prev, log[prev..])
    ensures GoesOn(reach, s, s') && |s'.nodes| == 5 && ReplyMsg(reply) in s'.net
    ensures var ns, ns' := s.nodes, s'.nodes;
            && Looks(ns'[j], Follower, term, Merge(ns[j].persistent.log, prev, log[prev..]))
            && forall k | 0 <= k < 5 && k != j :: ns'[k] == ns[k]
    ensures reply.success && reply.request.leader == i && reply.request.dest == j && reply.request.term == term
    ensures reply.request.prevIndex == prev && reply.request.entries == log[prev..]
  {
    var ns := s.nodes;
    var r := MakeAppend(ns[i], i, j);
    AppendLooks(ns[j], ns[j].role, ns[j].persistent.currentTerm, ns[j].persistent.log, r);
    s', reply := Replicate(reach, s, i, j);
  }

  lemma ReplyLooks(n: Node, term: nat, log: Log, next: map<NodeId, nat>, matched: map<NodeId, nat>, r: AppendReply)
    requires Looks(n, Leader, term, log) && Knows(n, next, matched) && r.success && r.request.entries != []
    ensures var n', m := HandleReply(n, r), r.request.prevIndex + |r.request.entries|;
            Looks(n', Leader, term, log) && Knows(n', next[r.request.dest := m + 1], matched[r.request.dest := m])
  {
  }

  lemma CommitLooks(n: Node, term: nat, log: Log, next: map<NodeId, nat>, matched: map<NodeId, nat>,
                    a: NodeId, b: NodeId)
    requires Looks(n, Leader, term, log) && Knows(n, next, matched)
    requires |log| == 2 && log[1].term == term
    requires a != b && a in matched && b in matched && matched[a] >= 2 && matched[b] >= 2
    ensures TryCommit(n, 5).applied == CommandsOf(log)
  {
    SubsetSize({a, b}, Matched(matched, 2));
    assert |{a, b}| == 2;
    assert Supported(n, 5, 2);
    assert log[0..2] == log;
  }

  // ---------- the run ----------

  const X := Entry(1, 1, Other("x"))
  const Y := Entry(1, 2, Other("y"))
  const Z := Entry(2, 1, Other("z"))
  const W := Entry(3, 2, Acquire("a", "r", Exclusive))
  const V := Entry(4, 2, Release("a", "r"))

  predicate Stale(r: AppendReply) {
    && r.success && r.request.leader == 0 && r.request.dest == 1 && r.request.term == 1
    && r.request.prevIndex == 0 && r.request.entries == [X, Y]
  }

  lemma FirstLeader(reach: State -> bool) returns (s: State)
    requires Closed(reach) && reach(InitState(5))
    ensures reach(s) && |s.nodes| == 5
    ensures var ns := s.nodes;
            && Looks(ns[0], Leader, 1, []) && Knows(ns[0], All(0, 1), All(0, 0))
            && Looks(ns[1], Follower, 1, []) && Looks(ns[2], Follower, 1, [])
            && Looks(ns[3], Follower, 0, []) && Looks(ns[4], Follower, 0, [])
  {
    var s0 := InitState(5);
    assert s0.nodes == [Reload(FRESH), Reload(FRESH), Reload(FRESH), Reload(FRESH), Reload(FRESH)];
    assert Looks(Reload(FRESH), Follower, 0, []);
    s := Elect(reach, s0, 0, 1, 2, 0, []);
  }

  lemma FirstProposals(reach: State -> bool) returns (s: State)
    requires Closed(reach) && reach(InitState(5))
    ensures reach(s) && |s.nodes| == 5
    ensures var ns := s.nodes;
            && Looks(ns[0], Leader, 1, [X, Y]) && Knows(ns[0], All(0, 1), All(0, 0))
            && Looks(ns[1], Follower, 1, []) && Looks(ns[2], Follower, 1, [])
            && Looks(ns[3], Follower, 0, []) && Looks(ns[4], Follower, 0, [])
  {
    var s1 := FirstLeader(reach);
    var s2 := ProposeStep(reach, s1, 0, X.command);
    assert [] + [X] == [X] && [X] + [Y] == [X, Y];
    s := ProposeStep(reach, s2, 0, Y.command);
  }

  /** Term 1: node 0 leads, its two entries reach node 1 alone, and that reply is slow. */
  lemma TermOne(reach: State -> bool) returns (s: State, stale: AppendReply)
    requires Closed(reach) && reach(InitState(5))
    ensures reach(s) && |s.nodes| == 5 && ReplyMsg(stale) in s.net && Stale(stale)
    ensures var ns := s.nodes;
            && Looks(ns[0], Leader, 1, [X, Y])
            && Looks(ns[1], Follower, 1, [X, Y])
            && Looks(ns[2], Follower, 1, [])
            && Looks(ns[3], Follower, 0, []) && Looks(ns[4], Follower, 0, [])
  {
    var s1 := FirstProposals(reach);
    s, stale := Share(reach, s1, 0, 1, 1, [X, Y], 0, All(0, 1), All(0, 0));
  }

  /** Term 2: node 2 leads, and its entry replaces all there is, everywhere. */
  lemma TermTwo(reach: State -> bool, s0: State) returns (s: State)
    requires Closed(reach) && reach(s0) && |s0.nodes| == 5
    requires var ns := s0.nodes;
             && Looks(ns[0], Leader, 1, [X, Y]) && Looks(ns[1], Follower, 1, [X, Y])
             && Looks(ns[2], Follower, 1, []) && Looks(ns[3], Follower, 0, []) && Looks(ns[4], Follower, 0, [])
    ensures GoesOn(reach, s0, s) && |s.nodes| == 5
    ensures Looks(s.nodes[2], Leader, 2, [Z])
    ensures Looks(s.nodes[0], Follower, 2, [Z]) && Looks(s.nodes[1], Follower, 2, [Z])
    ensures Looks(s.nodes[3], Follower, 2, [Z]) && Looks(s.nodes[4], Follower, 2, [Z])
  {
    var s0' := Elect(reach, s0, 2, 3, 4, 1, []);
    var s1 := ProposeStep(reach, s0', 2, Z.command);
    assert [] + [Z] == [Z];
    var n, m := All(2, 1), All(2, 0);
    var s2, _ := Share(reach, s1, 2, 0, 2, [Z], 0, n, m);
    var s3, _ := Share(reach, s2, 2, 1, 2, [Z], 0, n, m);
    var s4, _ := Share(reach, s3, 2, 3, 2, [Z], 0, n, m);
    var s5, _ := Share(reach, s4, 2, 4, 2, [Z], 0, n, m);
    s := s5;
  }

  lemma StaleCount(reach: State -> bool, s0: State, stale: AppendReply) returns (s: State)
    requires Closed(reach) && reach(s0) && |s0.nodes| == 5 && ReplyMsg(stale) in s0.net && Stale(stale)
    requires Looks(s0.nodes[2], Leader, 2, [Z])
    requires Looks(s0.nodes[0], Follower, 2, [Z]) && Looks(s0.nodes[1], Follower, 2, [Z])
    requires Looks(s0.nodes[3], Follower, 2, [Z]) && Looks(s0.nodes[4], Follower, 2, [Z])
    ensures GoesOn(reach, s0, s) && |s.nodes| == 5
    ensures Looks(s.nodes[0], Leader, 3, [Z, W])
    ensures Knows(s.nodes[0], All(0, 2)[1 := 3], All(0, 0)[1 := 2])
    ensures Looks(s.nodes[1], Follower, 3, [Z]) && Looks(s.nodes[2], Follower, 3, [Z])
    ensures Looks(s.nodes[3], Follower, 2, [Z]) && Looks(s.nodes[4], Follower, 2, [Z])
  {
    var s1 := Elect(reach, s0, 0, 1, 2, 2, [Z]);
    var s2 := ProposeStep(reach, s1, 0, W.command);
    assert [Z] + [W] == [Z, W];
    ReplyLooks(s2.nodes[0], 3, [Z, W], All(0, 2), All(0, 0), stale);
    s := ReplyStep(reach, s2, stale);
  }

  /** Term 3: node 0 leads again; the reply from term 1 makes it count node 1, which lacks the entry. */
  lemma TermThree(reach: State -> bool, s0: State, stale: AppendReply) returns (s: State)
    requires Closed(reach) && reach(s0) && |s0.nodes| == 5 && ReplyMsg(stale) in s0.net && Stale(stale)
    requires Looks(s0.nodes[2], Leader, 2, [Z])
    requires Looks(s0.nodes[0], Follower, 2, [Z]) && Looks(s0.nodes[1], Follower, 2, [Z])
    requires Looks(s0.nodes[3], Follower, 2, [Z]) && Looks(s0.nodes[4], Follower, 2, [Z])
    ensures GoesOn(reach, s0, s) && |s.nodes| == 5
    ensures s.nodes[0].applied == CommandsOf([Z, W])
    ensures Looks(s.nodes[1], Follower, 3, [Z])
    ensures Looks(s.nodes[3], Follower, 2, [Z]) && Looks(s.nodes[4], Follower, 2, [Z])
  {
    var s1 := StaleCount(reach, s0, stale);
    var n, m := All(0, 2)[1 := 3], All(0, 0)[1 := 2];
    var s2, told := Share(reach, s1, 0, 2, 3, [Z, W], 1, n, m);
    ReplyLooks(s2.nodes[0], 3, [Z, W], n, m, told);
    var s3 := ReplyStep(reach, s2, told);
    CommitLooks(s3.nodes[0], 3, [Z, W], n[2 := 3], m[2 := 2], 1, 2);
    s := CommitStep(reach, s3, 0);
  }

  /** Term 4: node 1 leads with its own log and commits another entry at the same position. */
  lemma TermFour(reach: State -> bool, s0: State) returns (s: State)
    requires Closed(reach) && reach(s0) && |s0.nodes| == 5
    requires Looks(s0.nodes[1], Follower, 3, [Z])
    requires Looks(s0.nodes[3], Follower, 2, [Z]) && Looks(s0.nodes[4], Follower, 2, [Z])
    ensures GoesOn(reach, s0, s) && |s.nodes| == 5
    ensures s.nodes[0] == s0.nodes[0]
    ensures s.nodes[1].applied == CommandsOf([Z, V])
  {
    var s1 := Elect(reach, s0, 1, 3, 4, 3, [Z]);
    var s2 := ProposeStep(reach, s1, 1, V.command);
    assert [Z] + [V] == [Z, V];
    var n, m := All(1, 2), All(1, 0);
    var s3, told := Share(reach, s2, 1, 3, 4, [Z, V], 1, n, m);
    ReplyLooks(s3.nodes[1], 4, [Z, V], n, m, told);
    var s4 := ReplyStep(reach, s3, told);
    var s5, tell := Share(reach, s4, 1, 4, 4, [Z, V], 1, n[3 := 3], m[3 := 2]);
    ReplyLooks(s5.nodes[1], 4, [Z, V], n[3 := 3], m[3 := 2], tell);
    var s6 := ReplyStep(reach, s5, tell);
    CommitLooks(s6.nodes[1], 4, [Z, V], n[3 := 3][4 := 3], m[3 := 2][4 := 2], 3, 4);
    s := CommitStep(reach, s6, 1);
  }

  /** With an untrue reply State Machine Safety fails: there is a run of five nodes at whose end nodes 0
      and 1 have applied different commands at position 1. */
  lemma SafetyNeedsTruthfulReplies() returns (states: seq<State>, actions: seq<Action>)
    ensures Run(5, states, actions) && !AllTruthful(states, actions)
    ensures var ns := states[|states| - 1].nodes;
            && |ns| == 5 && |ns[0].applied| == |ns[1].applied| == 2
            && ns[0].applied[1] != ns[1].applied[1]
  {
    var reach := ReachedClosed();
    var s1, stale := TermOne(reach);
    var s2 := TermTwo(reach, s1);
    var s3 := TermThree(reach, s2, stale);
    var s4 := TermFour(reach, s3);
    states, actions :| Run(5, states, actions) && states[|actions|] == s4;
    assert CommandsOf([Z, W])[1] == W.command && CommandsOf([Z, V])[1] == V.command;
    if AllTruthful(states, actions) {
      StateMachineSafety(5, states, actions, |actions|, |actions|, 0, 1, 1);
    }
  }
}
