/** Every step keeps the invariant. First what all steps have in common: one node changes, history only
    grows, and the other nodes, the recorded votes, candidacies, terms and messages keep what they had.
    Then what each handler does to its own node, and from that one lemma an action. */
module RaftPreserved {
  import opened Commands
  import opened RaftSpec
  import opened Cluster
  import opened RaftInvariant

  /** History only grows, and a term's log only by appending. */
  predicate Later(h: History, h': History) {
    && SameTerms(h) && SameTerms(h')
    && (forall b | b in h.votes :: b in h'.votes && h'.votes[b] == h.votes[b])
    && (forall b | b in h.candLog :: b in h'.candLog && h'.candLog[b] == h.candLog[b])
    && (forall t | t in h.leaderOf ::
          t in h'.leaderOf && h'.leaderOf[t] == h.leaderOf[t] && h'.quorum[t] == h.quorum[t]
          && h'.electLog[t] == h.electLog[t])
    && Extends(h.termLog, h'.termLog)
    && (forall b | b in h.acks :: b in h'.acks && h'.acks[b] >= h.acks[b])
  }

  /** The shape of every step: one node changes, and only its own leadership's log grows. */
  predicate StepShape(s: State, i: NodeId, n: Node, h: History) {
    && i < |s.nodes|
    && Later(s.history, h)
    && n.persistent.currentTerm >= s.nodes[i].persistent.currentTerm
    && (n.persistent.currentTerm == s.nodes[i].persistent.currentTerm && s.nodes[i].persistent.votedFor.Some? ==>
          n.persistent.votedFor == s.nodes[i].persistent.votedFor)
    && (forall t | t in s.history.leaderOf ::
          h.termLog[t] == s.history.termLog[t] || s.history.leaderOf[t] == i)
    && (forall t | t in h.leaderOf && t !in s.history.leaderOf :: h.leaderOf[t] == i)
  }

  function Actor(a: Action): NodeId {
    match a
    case AppendAt(r) => r.dest
    case ReplyAt(r) => r.request.leader
    case _ => a.node
  }

  predicate Shaped(s: State, a: Action) {
    Enabled(s, a) && StepShape(s, Actor(a), Next(s, a).nodes[Actor(a)], Next(s, a).history)
  }

  lemma OthersKept(s: State, i: NodeId, n: Node, h: History, j: NodeId)
    requires Invariant(s) && StepShape(s, i, n, h)
    requires j < |s.nodes| && j != i
    ensures NodeOk(s.nodes[j], j, h)
  {
    var m := s.nodes[j];
    assert NodeAt(s, j);
    WellLoggedExtends(s.history.termLog, h.termLog, m.persistent.log);
  }

  lemma VotesKept(s: State, i: NodeId, n: Node, h: History, sent: set<Message>)
    requires Invariant(s) && StepShape(s, i, n, h)
    ensures forall b {:trigger VoteOk(Update(s, i, n, sent, h), b)} |
              b in s.history.votes :: VoteOk(Update(s, i, n, sent, h), b)
  {
    forall b | b in s.history.votes
      ensures VoteOk(Update(s, i, n, sent, h), b)
    {
      assert VoteOk(s, b);
    }
  }

  lemma CandsKept(s: State, i: NodeId, n: Node, h: History, sent: set<Message>)
    requires Invariant(s) && StepShape(s, i, n, h)
    ensures forall b {:trigger CandOk(Update(s, i, n, sent, h), b)} |
              b in s.history.candLog :: CandOk(Update(s, i, n, sent, h), b)
  {
    forall b | b in s.history.candLog
      ensures CandOk(Update(s, i, n, sent, h), b)
    {
      assert CandOk(s, b);
      WellLoggedExtends(s.history.termLog, h.termLog, s.history.candLog[b]);
    }
  }

  lemma SnapshotExtends(log: Log, log': Log, r: AppendRequest)
    requires Snapshot(log, r) && log <= log'
    ensures Snapshot(log', r)
  {
    if r.prevIndex + |r.entries| <= |log| && r.entries == log[r.prevIndex..r.prevIndex + |r.entries|] {
      assert log'[r.prevIndex..r.prevIndex + |r.entries|] == log[r.prevIndex..r.prevIndex + |r.entries|];
    }
  }

  lemma MessagesKept(s: State, i: NodeId, n: Node, h: History, sent: set<Message>)
    requires Invariant(s) && StepShape(s, i, n, h)
    ensures forall m {:trigger MessageOk(Update(s, i, n, sent, h), m)} |
              m in s.net :: MessageOk(Update(s, i, n, sent, h), m)
  {
    forall m | m in s.net
      ensures MessageOk(Update(s, i, n, sent, h), m)
    {
      assert MessageOk(s, m);
      if m.AppendMsg? {
        SnapshotExtends(s.history.termLog[m.append.term], h.termLog[m.append.term], m.append);
      }
    }
  }

  /** The parts a step must supply: its own node, and whatever it adds. */
  lemma StepKeeps(s: State, i: NodeId, n: Node, sent: set<Message>, h: History)
    requires Invariant(s) && StepShape(s, i, n, h)
    requires NodeOk(n, i, h)
    requires var s' := Update(s, i, n, sent, h);
             && (forall b | b in h.votes && b !in s.history.votes :: VoteOk(s', b))
             && (forall b | b in h.candLog && b !in s.history.candLog :: CandOk(s', b))
             && (forall t {:trigger TermOk(s', t)} |
                   t in h.leaderOf && (t in s.history.leaderOf ==> h.termLog[t] != s.history.termLog[t]) ::
                   TermOk(s', t))
             && (forall m | m in sent :: MessageOk(s', m))
    ensures Invariant(Update(s, i, n, sent, h)) && Later(s.history, h)
  {
    var s' := Update(s, i, n, sent, h);
    forall j | 0 <= j < |s'.nodes|
      ensures NodeAt(s', j)
    {
      if j != i {
        OthersKept(s, i, n, h, j);
      }
    }
    VotesKept(s, i, n, h, sent);
    CandsKept(s, i, n, h, sent);
    forall t | t in h.leaderOf
      ensures TermOk(s', t)
    {
      if t in s.history.leaderOf && h.termLog[t] == s.history.termLog[t] {
        assert TermOk(s, t);
        WellLoggedExtends(s.history.termLog, h.termLog, h.termLog[t]);
      }
    }
    MessagesKept(s, i, n, h, sent);
  }

  // ---------- the node's own part of each step ----------

  /** Steps that leave the log alone: the node keeps its office and term, or falls back to follower. */
  predicate Quiet(n: Node, n': Node) {
    var p, p' := n.persistent, n'.persistent;
    && n'.disk == p' && p'.log == p.log
    && (p' == p || (p'.currentTerm > p.currentTerm && p'.votedFor == None && n'.role == Follower))
    && (n'.role == n.role || n'.role == Follower)
    && (n'.role == Leader <==> n'.leaderState.Some?)
    && (n'.electing == None || (n'.electing == n.electing && n'.votes == n.votes))
  }

  predicate Settled(n: Node) {
    n.disk == n.persistent && (n.role == Leader <==> n.leaderState.Some?)
  }

  lemma QuietKeeps(s: State, i: NodeId, n': Node)
    requires Invariant(s) && i < |s.nodes| && Quiet(s.nodes[i], n')
    ensures Invariant(Update(s, i, n', {}, s.history)) && Later(s.history, s.history)
  {
    assert NodeAt(s, i);
    StepKeeps(s, i, n', {}, s.history);
  }

  // ---------- one lemma an action ----------

  lemma StartElectionKeeps(s: State, i: NodeId)
    requires Invariant(s) && Enabled(s, StartElectionAt(i))
    ensures Invariant(Next(s, StartElectionAt(i))) && Shaped(s, StartElectionAt(i))
  {
    var n, h := s.nodes[i], s.history;
    var n' := StartElection(n, i);
    var b := Ballot(n'.persistent.currentTerm, i);
    var h' := h.(votes := h.votes[b := i], candLog := h.candLog[b := n'.persistent.log]);
    assert NodeAt(s, i);
    assert b in h.votes ==> VoteOk(s, b);
    assert b in h.candLog ==> CandOk(s, b);
    assert b.term in h.leaderOf ==> TermOk(s, b.term);
    LastIndexIsLength(h.termLog, n.persistent.log);
    StepKeeps(s, i, n', {VoteMsg(MakeVoteRequest(n', i))}, h');
  }

  lemma LastIndexIsLength(termLog: map<nat, Log>, log: Log)
    requires WellLogged(termLog, log)
    ensures LastIndex(log) == |log|
  {
    if log != [] {
      assert Certified(termLog, log, |log| - 1);
    }
  }

  /** Recording a vote in the current term. */
  lemma GrantKeeps(s: State, i: NodeId, n: Node, c: NodeId)
    requires Invariant(s) && i < |s.nodes| && n == s.nodes[i]
    requires n.persistent.votedFor == None || n.persistent.votedFor == Some(c)
    requires Ballot(n.persistent.currentTerm, c) in s.history.candLog && c != i
    ensures var t := n.persistent.currentTerm;
            var n' := Save(n.(persistent := n.persistent.(votedFor := Some(c))));
            var h' := s.history.(votes := s.history.votes[Ballot(t, i) := c]);
            Invariant(Update(s, i, n', {GrantMsg(t, c, i)}, h')) && Later(s.history, h')
  {
    var h, b := s.history, Ballot(n.persistent.currentTerm, i);
    assert NodeAt(s, i);
    assert b in h.votes ==> VoteOk(s, b);
    StepKeeps(s, i, Save(n.(persistent := n.persistent.(votedFor := Some(c)))), {GrantMsg(b.term, c, i)},
              h.(votes := h.votes[b := c]));
  }

  lemma VoteKeeps(s: State, i: NodeId, r: VoteRequest)
    requires Invariant(s) && Enabled(s, VoteAt(i, r))
    ensures Invariant(Next(s, VoteAt(i, r))) && Shaped(s, VoteAt(i, r))
  {
    var n, h := s.nodes[i], s.history;
    var n1 := CatchUp(n, r.term);
    assert NodeAt(s, i);
    assert MessageOk(s, VoteMsg(r));
    QuietKeeps(s, i, n1);
    var s1 := Update(s, i, n1, {}, h);
    if Grants(n, r) {
      GrantKeeps(s1, i, n1, r.candidate);
      assert s1.nodes[i := HandleRequestVote(n, r)] == s.nodes[i := HandleRequestVote(n, r)];
      assert s1.net == s.net;
    }
  }

  /** A candidate with a majority of a term's votes is that term's first leader. */
  lemma NoOtherLeader(s: State, i: NodeId, granted: set<NodeId>)
    requires Invariant(s) && Enabled(s, CountVotesAt(i, granted)) && Wins(s.nodes[i], |s.nodes|, granted)
    ensures s.nodes[i].persistent.currentTerm !in s.history.leaderOf
    ensures forall v | v in s.nodes[i].votes + granted ::
              var b := Ballot(s.nodes[i].persistent.currentTerm, v);
              b in s.history.votes && s.history.votes[b] == i
    ensures s.nodes[i].votes + granted <= Ids(|s.nodes|)
  {
    var n := s.nodes[i];
    var t := n.persistent.currentTerm;
    var voters := n.votes + granted;
    assert NodeAt(s, i);
    forall v | v in voters
      ensures Ballot(t, v) in s.history.votes && s.history.votes[Ballot(t, v)] == i && v in Ids(|s.nodes|)
    {
      if v in granted {
        assert MessageOk(s, GrantMsg(t, i, v));
      }
      assert VoteOk(s, Ballot(t, v));
    }
    if t in s.history.leaderOf {
      assert TermOk(s, t);
      var v := SharedMember(|s.nodes|, voters, s.history.quorum[t]);
      assert false;
    }
  }

  lemma WinNode(n: Node, n': Node, i: NodeId, h: History, h': History)
    requires NodeOk(n, i, h) && n.role == Candidate
    requires n'.persistent == n.persistent == n'.disk && n'.role == Leader && n'.leaderState.Some?
    requires n'.electing == None
    requires Extends(h.termLog, h'.termLog) && h'.votes == h.votes
    requires var t := n.persistent.currentTerm;
             t in h'.leaderOf && h'.leaderOf[t] == i && t in h'.termLog && h'.termLog[t] == n.persistent.log
    ensures NodeOk(n', i, h')
  {
    WellLoggedExtends(h.termLog, h'.termLog, n.persistent.log);
  }

  /** What a won election writes into the history. */
  function Won(h: History, i: NodeId, t: nat, log: Log, voters: set<NodeId>): History {
    h.(leaderOf := h.leaderOf[t := i], quorum := h.quorum[t := voters],
       electLog := h.electLog[t := log], termLog := h.termLog[t := log])
  }

  lemma WinShape(s: State, i: NodeId, n': Node, voters: set<NodeId>)
    requires Invariant(s) && i < |s.nodes| && n'.persistent == s.nodes[i].persistent
    requires n'.persistent.currentTerm !in s.history.leaderOf
    ensures StepShape(s, i, n', Won(s.history, i, n'.persistent.currentTerm, n'.persistent.log, voters))
  {
  }

  lemma WinTerm(s: State, i: NodeId, n': Node, voters: set<NodeId>)
    requires Invariant(s) && i < |s.nodes| && s.nodes[i].role == Candidate && n'.persistent == s.nodes[i].persistent
    requires var t := n'.persistent.currentTerm;
             && t !in s.history.leaderOf
             && voters <= Ids(|s.nodes|) && |voters| >= Majority(|s.nodes|)
             && forall v | v in voters :: Ballot(t, v) in s.history.votes && s.history.votes[Ballot(t, v)] == i
    ensures var t, log := n'.persistent.currentTerm, n'.persistent.log;
            TermOk(Update(s, i, n', {}, Won(s.history, i, t, log, voters)), t)
  {
    var t, log := n'.persistent.currentTerm, n'.persistent.log;
    assert NodeAt(s, i) && CandOk(s, Ballot(t, i));
    var h' := Won(s.history, i, t, log, voters);
    WellLoggedExtends(s.history.termLog, h'.termLog, log);
    assert Elected(Update(s, i, n', {}, h'), t);
  }

  lemma WinKeeps(s: State, i: NodeId, n: Node, n': Node, voters: set<NodeId>)
    requires Invariant(s) && i < |s.nodes| && n == s.nodes[i] && n.role == Candidate
    requires n.persistent.currentTerm !in s.history.leaderOf
    requires n'.persistent == n.persistent == n'.disk && n'.role == Leader && n'.leaderState.Some?
    requires n'.electing == None
    requires voters <= Ids(|s.nodes|) && |voters| >= Majority(|s.nodes|)
    requires forall v | v in voters ::
               var b := Ballot(n.persistent.currentTerm, v);
               b in s.history.votes && s.history.votes[b] == i
    ensures var h' := Won(s.history, i, n.persistent.currentTerm, n.persistent.log, voters);
            Invariant(Update(s, i, n', {}, h')) && StepShape(s, i, n', h')
  {
    var h' := Won(s.history, i, n.persistent.currentTerm, n.persistent.log, voters);
    assert NodeAt(s, i);
    WinShape(s, i, n', voters);
    WinNode(n, n', i, s.history, h');
    WinTerm(s, i, n', voters);
    StepKeeps(s, i, n', {}, h');
  }

  lemma LostVote(n: Node, size: nat, peers: set<NodeId>, granted: set<NodeId>)
    requires Settled(n) && !Wins(n, size, granted)
    ensures Quiet(n, CountVotes(n, size, peers, granted))
  {
  }

  lemma WonVoteKeeps(s: State, i: NodeId, granted: set<NodeId>)
    requires Invariant(s) && Enabled(s, CountVotesAt(i, granted)) && Wins(s.nodes[i], |s.nodes|, granted)
    ensures Invariant(Next(s, CountVotesAt(i, granted))) && Shaped(s, CountVotesAt(i, granted))
  {
    var n := s.nodes[i];
    assert NodeAt(s, i);
    NoOtherLeader(s, i, granted);
    WinKeeps(s, i, n, CountVotes(n, |s.nodes|, Peers(|s.nodes|, i), granted), n.votes + granted);
  }

  lemma CountVotesKeeps(s: State, i: NodeId, granted: set<NodeId>)
    requires Invariant(s) && Enabled(s, CountVotesAt(i, granted))
    ensures Invariant(Next(s, CountVotesAt(i, granted))) && Shaped(s, CountVotesAt(i, granted))
  {
    var n := s.nodes[i];
    if Wins(n, |s.nodes|, granted) {
      WonVoteKeeps(s, i, granted);
    } else {
      assert NodeAt(s, i);
      LostVote(n, |s.nodes|, Peers(|s.nodes|, i), granted);
      QuietKeeps(s, i, CountVotes(n, |s.nodes|, Peers(|s.nodes|, i), granted));
    }
  }

  lemma MakeAppendSnapshot(n: Node, i: NodeId, j: NodeId)
    requires n.leaderState.Some?
    ensures Snapshot(n.persistent.log, MakeAppend(n, i, j))
  {
  }

  /** A request that fits its term's log may be sent. */
  lemma RequestKeeps(s: State, i: NodeId, r: AppendRequest)
    requires Invariant(s) && i < |s.nodes| && MessageOk(s, AppendMsg(r))
    ensures Invariant(Update(s, i, s.nodes[i], {AppendMsg(r)}, s.history))
  {
    assert NodeAt(s, i);
    StepKeeps(s, i, s.nodes[i], {AppendMsg(r)}, s.history);
  }

  lemma SendAppendKeeps(s: State, i: NodeId, j: NodeId)
    requires Invariant(s) && Enabled(s, SendAppendAt(i, j))
    ensures Invariant(Next(s, SendAppendAt(i, j))) && Shaped(s, SendAppendAt(i, j))
  {
    assert NodeAt(s, i);
    MakeAppendSnapshot(s.nodes[i], i, j);
    RequestKeeps(s, i, MakeAppend(s.nodes[i], i, j));
  }

  lemma MergeShape(n: Node, r: AppendRequest)
    requires Settled(n) && PrevMatches(n.persistent.log, r)
    ensures var n', merged := AdvanceCommit(MergeEntries(n, r), r.leaderCommit), MergeEntries(n, r);
            && n' == merged.(commitIndex := n'.commitIndex, lastApplied := n'.lastApplied, applied := n'.applied)
            && merged.persistent == n.persistent.(log := merged.persistent.log)
            && merged == n.(persistent := merged.persistent, disk := merged.persistent)
  {
  }

  /** What AppendEntries does to everything but the commit and apply counters. */
  lemma AppendShape(n: Node, r: AppendRequest)
    requires Settled(n)
    ensures var n', p := HandleAppend(n, r), n.persistent;
            && n'.disk == n'.persistent && n'.votes == n.votes && n'.electing == n.electing
            && n'.persistent.currentTerm == Max(p.currentTerm, r.term)
            && n'.persistent.votedFor == (if r.term > p.currentTerm then None else p.votedFor)
            && n'.role == (if r.term > p.currentTerm || (r.term == p.currentTerm && n.role == Candidate)
                           then Follower else n.role)
            && (n'.role == Leader <==> n'.leaderState.Some?)
            && (n'.role == Leader ==> n'.leaderState == n.leaderState)
            && n'.persistent.log == (if Accepts(n, r) then MergeEntries(n, r).persistent.log else p.log)
  {
    var n1 := CatchUp(n, r.term);
    if Accepts(n, r) {
      MergeShape(if n1.role == Candidate then n1.(role := Follower) else n1, r);
    }
  }

  /** The log is unchanged or becomes exactly the snapshot of the leader's first `m` entries, which it
      then has in front. */
  predicate TookOver(log: Log, log': Log, leaderLog: Log, m: nat) {
    && m <= |leaderLog|
    && leaderLog[..m] <= log'
    && (log' == log || (log' == leaderLog[..m] && !(leaderLog[..m] <= log)))
  }

  lemma MergedLog(termLog: map<nat, Log>, n: Node, leaderLog: Log, r: AppendRequest)
    requires WellLogged(termLog, n.persistent.log) && WellLogged(termLog, leaderLog)
    requires Snapshot(leaderLog, r) && PrevMatches(n.persistent.log, r)
    ensures var log' := MergeEntries(n, r).persistent.log;
            && TookOver(n.persistent.log, log', leaderLog, r.prevIndex + |r.entries|)
            && WellLogged(termLog, log')
  {
    var log, m := n.persistent.log, r.prevIndex + |r.entries|;
    SnapshotFits(termLog, log, leaderLog, r);
    CutIsContiguous(termLog, leaderLog, r.prevIndex, r.entries);
    PutIsMerge(log, r.prevIndex, r.entries);
    MergeSnapshot(termLog, log, leaderLog, r);
    WellLoggedPrefix(termLog, leaderLog, m);
    if Merge(log, r.prevIndex, r.entries) != log {
      assert Merge(log, r.prevIndex, r.entries) == leaderLog[..m];
    }
  }

  lemma TermLogBound(s: State, t: nat)
    requires Invariant(s) && t in s.history.leaderOf
    ensures TermsAtMost(s.history.electLog[t], t - 1) && TermsAtMost(s.history.termLog[t], t)
  {
    assert TermOk(s, t);
    assert CandOk(s, Ballot(t, s.history.leaderOf[t]));
    assert OwnTail(s.history.electLog[t], s.history.termLog[t], t);
  }

  lemma AppendNode(n: Node, i: NodeId, r: AppendRequest, h: History)
    requires NodeOk(n, i, h) && SameTerms(h) && r.term in h.leaderOf
    requires Snapshot(h.termLog[r.term], r) && WellLogged(h.termLog, h.termLog[r.term])
    requires TermsAtMost(h.termLog[r.term], r.term)
    ensures NodeOk(HandleAppend(n, r), i, h)
  {
    var n' := HandleAppend(n, r);
    AppendShape(n, r);
    if Accepts(n, r) {
      MergedLog(h.termLog, n, h.termLog[r.term], r);
    }
  }

  lemma AckedLater(h: History, b: Ballot, length: nat)
    requires SameTerms(h)
    ensures Later(h, h.(acks := Acked(h, b, length)))
  {
  }

  lemma AppendStep(s: State, r: AppendRequest)
    requires Invariant(s) && Enabled(s, AppendAt(r))
    ensures Shaped(s, AppendAt(r))
    ensures var h, h' := s.history, Next(s, AppendAt(r)).history; h' == h.(acks := h'.acks)
  {
    assert NodeAt(s, r.dest);
    AppendShape(s.nodes[r.dest], r);
    AckedLater(s.history, Ballot(r.term, r.dest), r.prevIndex + |r.entries|);
  }

  lemma AppendKeeps(s: State, r: AppendRequest)
    requires Invariant(s) && Enabled(s, AppendAt(r))
    ensures Invariant(Next(s, AppendAt(r))) && Shaped(s, AppendAt(r))
  {
    var i, n := r.dest, s.nodes[r.dest];
    assert NodeAt(s, i) && MessageOk(s, AppendMsg(r)) && TermOk(s, r.term);
    TermLogBound(s, r.term);
    AppendNode(n, i, r, s.history);
    AppendStep(s, r);
    AcksKeep(s, i, HandleAppend(n, r), AppendReply(r, i, HandleAppend(n, r).persistent.currentTerm, Accepts(n, r)),
             Next(s, AppendAt(r)).history.acks);
  }

  /** A node that accepts a request takes over what the request's term held when it was sent. */
  lemma AcceptTakesOver(s: State, r: AppendRequest)
    requires Invariant(s) && Enabled(s, AppendAt(r)) && Accepts(s.nodes[r.dest], r)
    ensures r.term in s.history.leaderOf && r.term in s.history.termLog
    ensures var n, n', termLog := s.nodes[r.dest], HandleAppend(s.nodes[r.dest], r), s.history.termLog;
            && n'.persistent.currentTerm == r.term
            && n'.persistent.log == MergeEntries(n, r).persistent.log
            && TookOver(n.persistent.log, n'.persistent.log, termLog[r.term], r.prevIndex + |r.entries|)
            && WellLogged(termLog, n'.persistent.log)
  {
    assert NodeAt(s, r.dest) && MessageOk(s, AppendMsg(r)) && TermOk(s, r.term);
    AppendShape(s.nodes[r.dest], r);
    MergedLog(s.history.termLog, s.nodes[r.dest], s.history.termLog[r.term], r);
  }

  lemma AcksKeep(s: State, i: NodeId, n': Node, r: AppendReply, acks: map<Ballot, nat>)
    requires Invariant(s) && i < |s.nodes| && NodeOk(n', i, s.history)
    requires StepShape(s, i, n', s.history.(acks := acks))
    requires r.from == r.request.dest && AppendMsg(r.request) in s.net
    ensures Invariant(Update(s, i, n', {ReplyMsg(r)}, s.history.(acks := acks)))
    ensures Later(s.history, s.history.(acks := acks))
  {
    StepKeeps(s, i, n', {ReplyMsg(r)}, s.history.(acks := acks));
  }

  lemma ReplyKeeps(s: State, r: AppendReply)
    requires Invariant(s) && Enabled(s, ReplyAt(r))
    ensures Invariant(Next(s, ReplyAt(r))) && Shaped(s, ReplyAt(r))
  {
    var i := r.request.leader;
    assert NodeAt(s, i);
    QuietKeeps(s, i, HandleReply(s.nodes[i], r));
  }

  /** Committing and applying move the counters and nothing else. */
  lemma TryCommitShape(n: Node, size: nat)
    ensures var n' := TryCommit(n, size);
            n' == n.(commitIndex := n'.commitIndex, lastApplied := n'.lastApplied, applied := n'.applied)
  {
  }

  lemma TryCommitKeeps(s: State, i: NodeId)
    requires Invariant(s) && Enabled(s, TryCommitAt(i))
    ensures Invariant(Next(s, TryCommitAt(i))) && Shaped(s, TryCommitAt(i))
  {
    assert NodeAt(s, i);
    TryCommitShape(s.nodes[i], |s.nodes|);
    QuietKeeps(s, i, TryCommit(s.nodes[i], |s.nodes|));
  }

  /** A leader's log with one more entry of its own term is well logged against itself. */
  lemma AppendOwn(termLog: map<nat, Log>, t: nat, e: Entry)
    requires t in termLog && WellLogged(termLog, termLog[t])
    requires e.term == t && t >= 1 && e.index == |termLog[t]| + 1
    ensures var log := termLog[t] + [e];
            Extends(termLog, termLog[t := log]) && WellLogged(termLog[t := log], log)
  {
    var log := termLog[t] + [e];
    var termLog' := termLog[t := log];
    WellLoggedExtends(termLog, termLog', termLog[t]);
    forall k | 0 <= k < |log|
      ensures Certified(termLog', log, k)
    {
      if k < |log| - 1 {
        assert Certified(termLog', termLog[t], k);
        assert log[..k + 1] == termLog[t][..k + 1];
      }
    }
  }

  /** The term whose leader appended: elected as before, and its log still ends in its own entries. */
  lemma GrownTerm(s: State, i: NodeId, n': Node, e: Entry, h': History)
    requires Invariant(s) && StepShape(s, i, n', h') && e.term in s.history.leaderOf
    requires h'.termLog[e.term] == s.history.termLog[e.term] + [e] && WellLogged(h'.termLog, h'.termLog[e.term])
    ensures TermOk(Update(s, i, n', {}, h'), e.term)
  {
    assert TermOk(s, e.term);
    assert OwnTail(s.history.electLog[e.term], h'.termLog[e.term], e.term);
  }

  /** What a proposal writes into the history. */
  function Grown(h: History, t: nat, log: Log, acks: map<Ballot, nat>): History {
    h.(termLog := h.termLog[t := log], acks := acks)
  }

  lemma GrownShape(s: State, i: NodeId, n': Node, e: Entry, acks: map<Ballot, nat>)
    requires Invariant(s) && i < |s.nodes| && e.term in s.history.leaderOf && s.history.leaderOf[e.term] == i
    requires n'.persistent.currentTerm == s.nodes[i].persistent.currentTerm
    requires n'.persistent.votedFor == s.nodes[i].persistent.votedFor
    requires n'.persistent.log == s.history.termLog[e.term] + [e]
    requires Later(s.history, s.history.(acks := acks))
    ensures StepShape(s, i, n', Grown(s.history, e.term, n'.persistent.log, acks))
  {
  }

  lemma LeaderNode(n: Node, i: NodeId, h: History, e: Entry, h': History)
    requires NodeOk(n, i, h) && n.role == Leader && e.term == n.persistent.currentTerm
    requires h' == Grown(h, e.term, n.persistent.log + [e], h'.acks) && WellLogged(h'.termLog, n.persistent.log + [e])
    ensures NodeOk(Save(n.(persistent := n.persistent.(log := n.persistent.log + [e]))), i, h')
  {
  }

  lemma LeaderAppends(s: State, i: NodeId, n': Node, e: Entry, acks: map<Ballot, nat>)
    requires Invariant(s) && i < |s.nodes| && s.nodes[i].role == Leader
    requires var p := s.nodes[i].persistent;
             && e.term == p.currentTerm && e.index == |p.log| + 1
             && n' == Save(s.nodes[i].(persistent := p.(log := p.log + [e])))
    requires Later(s.history, s.history.(acks := acks))
    ensures var h' := Grown(s.history, e.term, n'.persistent.log, acks);
            Invariant(Update(s, i, n', {}, h')) && StepShape(s, i, n', h')
  {
    var t, h := e.term, s.history;
    assert NodeAt(s, i) && TermOk(s, t) && CandOk(s, Ballot(t, i));
    AppendOwn(h.termLog, t, e);
    var h' := Grown(h, t, n'.persistent.log, acks);
    LeaderNode(s.nodes[i], i, h, e, h');
    GrownShape(s, i, n', e, acks);
    GrownTerm(s, i, n', e, h');
    StepKeeps(s, i, n', {}, h');
  }

  lemma ProposeKeeps(s: State, i: NodeId, command: Command)
    requires Invariant(s) && Enabled(s, ProposeAt(i, command))
    ensures Invariant(Next(s, ProposeAt(i, command))) && Shaped(s, ProposeAt(i, command))
  {
    var n, h := s.nodes[i], s.history;
    var n' := Propose(n, command);
    var t := n.persistent.currentTerm;
    assert NodeAt(s, i);
    if n.role == Leader {
      LeaderAppends(s, i, n', Entry(t, |n.persistent.log| + 1, command),
                    Acked(h, Ballot(t, i), |n'.persistent.log|));
    } else {
      QuietKeeps(s, i, n');
    }
  }

  lemma CrashKeeps(s: State, i: NodeId, seen: nat)
    requires Invariant(s) && Enabled(s, CrashAt(i, seen))
    ensures Invariant(Next(s, CrashAt(i, seen))) && Shaped(s, CrashAt(i, seen))
  {
    assert NodeAt(s, i);
    QuietKeeps(s, i, Reload(CatchUp(s.nodes[i], seen).disk));
  }
}
