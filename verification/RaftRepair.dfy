/** Log repair: a leader whose requests a follower refuses goes back one entry a round, and at the latest
    at the first entry the follower takes its log over. */
module RaftRepair {
  import opened Commands
  import opened RaftSpec
  import opened Cluster
  import opened RaftInvariant
  import opened RaftPreserved
  import opened RaftTheorems
  import opened RaftCommit
  import opened RaftCommitSteps

  function NextIndex(n: Node, j: NodeId): nat {
    if n.leaderState.Some? && j in n.leaderState.value.nextIndex then n.leaderState.value.nextIndex[j] else 1
  }

  /** What node `f` replies to the next request of `l`. */
  function Answer(l: Node, i: NodeId, f: Node, j: NodeId): AppendReply
    requires l.leaderState.Some?
  {
    var r := MakeAppend(l, i, j);
    AppendReply(r, j, HandleAppend(f, r).persistent.currentTerm, Accepts(f, r))
  }

  /** A request carries all of the leader's log from its next index for the peer on, and says truly what
      comes before. */
  lemma NextRequest(l: Node, i: NodeId, j: NodeId)
    requires l.leaderState.Some? && 1 <= NextIndex(l, j) <= |l.persistent.log| + 1
    ensures var r, log := MakeAppend(l, i, j), l.persistent.log;
            && r.prevIndex == NextIndex(l, j) - 1 && log == log[..r.prevIndex] + r.entries && PrevMatches(log, r)
            && r.term == l.persistent.currentTerm && r.leaderCommit == l.commitIndex && r.dest == j && r.leader == i
  {
  }

  /** A refusal of no higher term makes the next request start exactly one entry earlier and changes
      nothing else; a request that starts at the first entry is never refused. */
  lemma Refusal(l: Node, i: NodeId, f: Node, j: NodeId)
    requires l.leaderState.Some? && NextIndex(l, j) >= 1
    requires f.persistent.currentTerm <= l.persistent.currentTerm && !Answer(l, i, f, j).success
    ensures var r, l' := MakeAppend(l, i, j), HandleReply(l, Answer(l, i, f, j));
            && r.prevIndex > 0 && l'.leaderState.Some?
            && l' == l.(leaderState := l'.leaderState)
            && MakeAppend(l', i, j).prevIndex == r.prevIndex - 1
            && NextIndex(l', j) == NextIndex(l, j) - 1
            && l'.leaderState.value.matchIndex == l.leaderState.value.matchIndex
            && (forall k | k != j :: NextIndex(l', k) == NextIndex(l, k))
    ensures var f' := HandleAppend(f, MakeAppend(l, i, j));
            f'.persistent.log == f.persistent.log && f'.persistent.currentTerm == l.persistent.currentTerm
  {
  }

  /** A refusal of a higher term ends the leadership: the node is a follower in that term, without a vote
      and with its log, all of it saved. */
  lemma HigherTermDeposes(l: Node, i: NodeId, f: Node, j: NodeId)
    requires l.leaderState.Some? && f.persistent.currentTerm > l.persistent.currentTerm
    ensures !Answer(l, i, f, j).success
    ensures var l' := HandleReply(l, Answer(l, i, f, j));
            && l'.role == Follower && l'.leaderState == None
            && l'.persistent == l'.disk == Persistent(f.persistent.currentTerm, None, l.persistent.log)
    ensures HandleAppend(f, MakeAppend(l, i, j)) == f
  {
  }

  /** Success of a batch records how far the peer got, and the next request continues there. */
  lemma Success(l: Node, r: AppendReply)
    requires l.leaderState.Some? && r.success && r.request.entries != []
    ensures var l', m := HandleReply(l, r), r.request.prevIndex + |r.request.entries|;
            && l'.leaderState.Some? && l' == l.(leaderState := l'.leaderState)
            && NextIndex(l', r.request.dest) == m + 1
            && r.request.dest in l'.leaderState.value.matchIndex
            && l'.leaderState.value.matchIndex[r.request.dest] == m
  {
  }

  /** A request of no lower term is accepted exactly when the two logs are the same before its entries: the
      node checks one entry, and that is enough. (A request that starts past the end of its own leader's
      log, after a reply of an earlier leadership was consumed, is never accepted.) */
  lemma AcceptedIff(s: State, r: AppendRequest)
    requires Invariant(s) && Enabled(s, AppendAt(r)) && s.nodes[r.dest].persistent.currentTerm <= r.term
    ensures Unmatchable(r) ==> !Accepts(s.nodes[r.dest], r)
    ensures r.term in s.history.termLog
    ensures !Unmatchable(r) ==>
              var log, sent := LogAt(s, r.dest), s.history.termLog[r.term];
              && r.prevIndex <= |sent|
              && (Accepts(s.nodes[r.dest], r) <==> r.prevIndex <= |log| && log[..r.prevIndex] == sent[..r.prevIndex])
  {
    assert NodeAt(s, r.dest) && MessageOk(s, AppendMsg(r)) && TermOk(s, r.term);
    var log, sent := LogAt(s, r.dest), s.history.termLog[r.term];
    if Accepts(s.nodes[r.dest], r) {
      AcceptedIsMatchable(s, r);
      SnapshotFits(s.history.termLog, log, sent, r);
    } else if 0 < r.prevIndex <= |log| && r.prevIndex <= |sent| {
      SameLast(log, sent, r.prevIndex);
    }
  }

  lemma SameLast(a: Log, b: Log, k: nat)
    requires 0 < k <= |a| && k <= |b|
    ensures a[..k] == b[..k] ==> a[k - 1] == b[k - 1]
  {
    assert a[..k][k - 1] == a[k - 1] && b[..k][k - 1] == b[k - 1];
  }

  // ---------- rounds ----------

  /** A leader and a node whose term is not higher. */
  predicate Leads(ns: seq<Node>, i: NodeId, j: NodeId) {
    && i < |ns| && j < |ns| && i != j
    && ns[i].role == Leader && ns[i].leaderState.Some? && NextIndex(ns[i], j) >= 1
    && ns[j].persistent.currentTerm <= ns[i].persistent.currentTerm
  }

  /** The nodes after the leader has sent, the peer handled, and the leader consumed the reply. */
  function RoundNodes(ns: seq<Node>, i: NodeId, j: NodeId): seq<Node>
    requires Leads(ns, i, j)
  {
    ns[j := HandleAppend(ns[j], MakeAppend(ns[i], i, j))][i := HandleReply(ns[i], Answer(ns[i], i, ns[j], j))]
  }

  /** The same as three steps of the cluster. */
  function Round(s: State, i: NodeId, j: NodeId): State
    requires Leads(s.nodes, i, j)
  {
    var reply := Answer(s.nodes[i], i, s.nodes[j], j);
    Next(Next(Next(s, SendAppendAt(i, j)), AppendAt(reply.request)), ReplyAt(reply))
  }

  function Rounds(s: State, i: NodeId, j: NodeId, k: nat): State
    decreases k
  {
    if k == 0 || !Leads(s.nodes, i, j) then s else Rounds(Round(s, i, j), i, j, k - 1)
  }

  lemma RoundKeeps(s: State, i: NodeId, j: NodeId)
    requires Invariant(s) && Leads(s.nodes, i, j)
    ensures Invariant(Round(s, i, j)) && Round(s, i, j).nodes == RoundNodes(s.nodes, i, j)
  {
    var reply := Answer(s.nodes[i], i, s.nodes[j], j);
    NextKeeps(s, SendAppendAt(i, j));
    var s1 := Next(s, SendAppendAt(i, j));
    NextKeeps(s1, AppendAt(reply.request));
    NextKeeps(Next(s1, AppendAt(reply.request)), ReplyAt(reply));
  }

  /** The peer has the leader's log in front, and the leader knows how far to go on. */
  predicate Repaired(ns: seq<Node>, i: NodeId, j: NodeId, log: Log) {
    && i < |ns| && j < |ns|
    && ns[i].persistent.log == log && log <= ns[j].persistent.log
    && NextIndex(ns[i], j) == |log| + 1
  }

  /** An accepted request puts the whole of the leader's log in front of the peer's. */
  lemma AcceptedRepairs(s: State, i: NodeId, j: NodeId)
    requires Invariant(s) && Leads(s.nodes, i, j) && Answer(s.nodes[i], i, s.nodes[j], j).success
    ensures Repaired(RoundNodes(s.nodes, i, j), i, j, LogAt(s, i))
  {
    var l, f, r := s.nodes[i], s.nodes[j], MakeAppend(s.nodes[i], i, j);
    var s1 := Next(s, SendAppendAt(i, j));
    assert NodeAt(s, i);
    NextKeeps(s, SendAppendAt(i, j));
    AcceptedIsMatchable(s1, r);
    AcceptTakesOver(s1, r);
    assert r.prevIndex + |r.entries| == |l.persistent.log|;
  }

  lemma RefusedRound(ns: seq<Node>, i: NodeId, j: NodeId)
    requires Leads(ns, i, j) && !Answer(ns[i], i, ns[j], j).success
    ensures Leads(RoundNodes(ns, i, j), i, j)
    ensures RoundNodes(ns, i, j)[i].persistent.log == ns[i].persistent.log
    ensures NextIndex(RoundNodes(ns, i, j)[i], j) == NextIndex(ns[i], j) - 1
  {
    Refusal(ns[i], i, ns[j], j);
  }

  lemma OneRound(s: State, i: NodeId, j: NodeId) returns (s': State)
    requires Invariant(s) && Leads(s.nodes, i, j)
    ensures Invariant(s') && s'.nodes == RoundNodes(s.nodes, i, j)
    ensures Rounds(s, i, j, 1) == s' && forall k: nat :: Rounds(s, i, j, k + 1) == Rounds(s', i, j, k)
  {
    s' := Round(s, i, j);
    RoundKeeps(s, i, j);
    assert Rounds(s, i, j, 0 + 1) == Rounds(s', i, j, 0);
  }

  /** Repair: whatever the two logs are, at most `nextIndex` rounds end in an accepted request, after which
      the leader's whole log is in front of the peer's. */
  lemma {:induction false} Repair(s: State, i: NodeId, j: NodeId) returns (k: nat)
    requires Invariant(s) && Leads(s.nodes, i, j)
    ensures 1 <= k <= NextIndex(s.nodes[i], j)
    ensures Repaired(Rounds(s, i, j, k).nodes, i, j, LogAt(s, i))
    decreases NextIndex(s.nodes[i], j)
  {
    var s' := OneRound(s, i, j);
    if Answer(s.nodes[i], i, s.nodes[j], j).success {
      AcceptedRepairs(s, i, j);
      k := 1;
    } else {
      RefusedRound(s.nodes, i, j);
      k := Repair(s', i, j);
      k := k + 1;
    }
  }

  // ---------- in every run ----------

  lemma NextStaysOk(s: State, a: Action, i: NodeId)
    requires Enabled(s, a) && i < |s.nodes| && Invariant(s)
    requires forall j :: NextIndex(s.nodes[i], j) >= 1
    ensures |Next(s, a).nodes| == |s.nodes|
    ensures forall j :: NextIndex(Next(s, a).nodes[i], j) >= 1
  {
    if i == Actor(a) {
      forall j
        ensures NextIndex(Next(s, a).nodes[i], j) >= 1
      {
        assert NextIndex(s.nodes[i], j) >= 1;
        match a
        case AppendAt(r) =>
          assert NodeAt(s, i);
          AppendShape(s.nodes[i], r);
        case TryCommitAt(_) => TryCommitShape(s.nodes[i], |s.nodes|);
        case _ =>
      }
    }
  }

  lemma {:induction false} RunNextOk(size: nat, states: seq<State>, actions: seq<Action>, k: nat, i: NodeId)
    requires Run(size, states, actions) && k < |states| && i < size
    ensures i < |states[k].nodes| && forall j :: NextIndex(states[k].nodes[i], j) >= 1
  {
    if k > 0 {
      RunNextOk(size, states, actions, k - 1, i);
      RunKeeps(size, states, actions, k - 1);
      assert Step(states[k - 1], actions[k - 1], states[k]);
      NextStaysOk(states[k - 1], actions[k - 1], i);
    }
  }

  /** At any time of any run a leader can repair the log of any node of no higher term: each round is three
      further steps of the run. */
  lemma RunRepair(size: nat, states: seq<State>, actions: seq<Action>, a: nat, i: NodeId, j: NodeId)
    returns (k: nat)
    requires Run(size, states, actions) && a < |states| && i < size && j < size && i != j
    requires i < |states[a].nodes| && j < |states[a].nodes| && states[a].nodes[i].role == Leader
    requires states[a].nodes[j].persistent.currentTerm <= states[a].nodes[i].persistent.currentTerm
    ensures 1 <= k <= NextIndex(states[a].nodes[i], j)
    ensures Repaired(Rounds(states[a], i, j, k).nodes, i, j, LogAt(states[a], i))
  {
    RunKeeps(size, states, actions, a);
    RunNextOk(size, states, actions, a, i);
    assert NodeAt(states[a], i);
    k := Repair(states[a], i, j);
  }
}
