/** The commit invariant, action by action. */
module RaftCommitSteps {
  import opened Commands
  import opened RaftSpec
  import opened Cluster
  import opened RaftInvariant
  import opened RaftPreserved
  import opened RaftCommit
  import opened RaftCommitPreserved

  // ---------- steps that leave the log and the acknowledgements alone ----------

  lemma KeepsAllFromNow(s: State, v: NodeId, log: Log, ct: nat, ct': nat)
    requires CommitInvariant(s) && v < |s.nodes| && ct == s.nodes[v].persistent.currentTerm <= ct'
    requires KeepsAll(s.history, v, log, ct + 1, ct + 1)
    ensures KeepsAll(s.history, v, log, ct' + 1, ct' + 1)
  {
    forall t: nat, n: nat {:trigger Held(s.history, v, t, n)} | Held(s.history, v, t, n) && t < ct' + 1
      ensures Kept(s.history, log, t, n, ct' + 1)
    {
      assert AckOk(s, Ballot(t, v));
      assert Kept(s.history, log, t, n, ct + 1);
    }
  }

  /** The counters may move, the leader state may change, but log and history stay. */
  lemma CountersCommit(s: State, i: NodeId, n': Node, sent: set<Message>)
    requires CommitInvariant(s) && i < |s.nodes| && StepShape(s, i, n', s.history)
    requires Invariant(Update(s, i, n', sent, s.history))
    requires n'.persistent.log == s.nodes[i].persistent.log
    requires LeaderOk(n', i, |s.nodes|, s.history) && CommitOk(n', |s.nodes|, s.history)
    requires forall m | m in sent :: MessageCommitted(Update(s, i, n', sent, s.history), m)
    ensures CommitInvariant(Update(s, i, n', sent, s.history))
  {
    assert NodeCommitted(s, i);
    KeepsAllFromNow(s, i, n'.persistent.log, s.nodes[i].persistent.currentTerm, n'.persistent.currentTerm);
    var s' := Update(s, i, n', sent, s.history);
    var b := Ballot(n'.persistent.currentTerm, i);
    if b in s.history.acks {
      assert AckOk(s, b);
    }
    assert NodeCommitted(s', i);
    StepCommits(s, i, n', sent, s.history);
  }

  lemma CommitOkLater(n: Node, n': Node, size: nat, h: History, h': History)
    requires CommitOk(n, size, h) && Later(h, h')
    requires n'.persistent.log == n.persistent.log && n'.persistent.currentTerm >= n.persistent.currentTerm
    requires n'.commitIndex == n.commitIndex && n'.lastApplied == n.lastApplied && n'.applied == n.applied
    ensures CommitOk(n', size, h')
  {
    CommittedLater(h, h', size, n.persistent.log[..n.commitIndex], n.persistent.currentTerm, n'.persistent.currentTerm);
  }

  lemma CatchUpCommits(s: State, i: NodeId, term: nat)
    requires CommitInvariant(s) && i < |s.nodes|
    ensures CommitInvariant(Update(s, i, CatchUp(s.nodes[i], term), {}, s.history))
  {
    var n := s.nodes[i];
    assert NodeAt(s, i) && NodeCommitted(s, i);
    QuietKeeps(s, i, CatchUp(n, term));
    CommitOkLater(n, CatchUp(n, term), |s.nodes|, s.history, s.history);
    CountersCommit(s, i, CatchUp(n, term), {});
  }

  lemma CrashCommits(s: State, i: NodeId, seen: nat)
    requires CommitInvariant(s) && Enabled(s, CrashAt(i, seen))
    ensures CommitInvariant(Next(s, CrashAt(i, seen)))
  {
    assert NodeAt(s, i);
    CrashKeeps(s, i, seen);
    CountersCommit(s, i, Reload(CatchUp(s.nodes[i], seen).disk), {});
  }

  lemma SendAppendCommits(s: State, i: NodeId, j: NodeId)
    requires CommitInvariant(s) && Enabled(s, SendAppendAt(i, j))
    ensures CommitInvariant(Next(s, SendAppendAt(i, j)))
  {
    var n := s.nodes[i];
    assert NodeAt(s, i) && NodeCommitted(s, i);
    SendAppendKeeps(s, i, j);
    var r := MakeAppend(n, i, j);
    assert j in Peers(|s.nodes|, i);
    assert TermOk(s, n.persistent.currentTerm);
    assert Unmatchable(r) || r.prevIndex + |r.entries| == |n.persistent.log|;
    CountersCommit(s, i, n, {AppendMsg(r)});
  }

  /** What a leader learns from a reply about what a peer holds is true. */
  lemma ReplyLeader(n: Node, size: nat, h: History, r: AppendReply)
    requires var i := r.request.leader;
             LeaderOk(n, i, size, h) && NodeOk(n, i, h) && r.request.dest in Peers(size, i)
    requires r.from == r.request.dest
    requires r.success && r.request.entries != [] && n.role == Leader ==>
               AckOf(h, Ballot(n.persistent.currentTerm, r.from)) >= r.request.prevIndex + |r.request.entries|
    ensures LeaderOk(HandleReply(n, r), r.request.leader, size, h)
  {
  }

  lemma ReplyCounters(n: Node, r: AppendReply)
    ensures var n' := HandleReply(n, r);
            && n'.persistent.log == n.persistent.log && n'.persistent.currentTerm >= n.persistent.currentTerm
            && n'.commitIndex == n.commitIndex && n'.lastApplied == n.lastApplied && n'.applied == n.applied
  {
  }

  /** A request's sender and receiver differ, and a reply comes from the receiver. */
  lemma ReplyParties(s: State, r: AppendReply)
    requires CommitInvariant(s) && Enabled(s, ReplyAt(r))
    ensures r.from == r.request.dest && r.request.dest in Peers(|s.nodes|, r.request.leader)
  {
    assert MessageOk(s, ReplyMsg(r)) && MessageOk(s, AppendMsg(r.request)) && MessageCommitted(s, AppendMsg(r.request));
  }

  /** A reply of the leadership that is still in office is truthful. */
  lemma OwnReplyIsTruthful(s: State, a: Action)
    requires CommitInvariant(s) && Enabled(s, a) && SameLeadership(s, a)
    ensures Truthful(s, a)
  {
    if a.ReplyAt? {
      assert MessageCommitted(s, ReplyMsg(a.reply));
    }
  }

  lemma ReplyCommits(s: State, r: AppendReply)
    requires CommitInvariant(s) && Enabled(s, ReplyAt(r)) && Truthful(s, ReplyAt(r))
    ensures CommitInvariant(Next(s, ReplyAt(r)))
  {
    var i, n := r.request.leader, s.nodes[r.request.leader];
    var n' := HandleReply(n, r);
    assert NodeAt(s, i) && NodeCommitted(s, i);
    ReplyParties(s, r);
    ReplyKeeps(s, r);
    ReplyCounters(n, r);
    CommitOkLater(n, n', |s.nodes|, s.history, s.history);
    ReplyLeader(n, |s.nodes|, s.history, r);
    CountersCommit(s, i, n', {});
  }

  /** An untruthful reply leaves a leader counting what the peer never held. */
  lemma UntruthfulBreaks(s: State, r: AppendReply)
    requires CommitInvariant(s) && Enabled(s, ReplyAt(r)) && !Truthful(s, ReplyAt(r))
    ensures !NodeCommitted(Next(s, ReplyAt(r)), r.request.leader)
  {
    var i := r.request.leader;
    ReplyParties(s, r);
    assert NodeAt(s, i);
    assert HandleReply(s.nodes[i], r).leaderState.value.matchIndex[r.from] == r.request.prevIndex + |r.request.entries|;
  }

  /** The exact condition: consuming a reply keeps the commit invariant if and only if it is truthful. */
  lemma TruthfulIff(s: State, r: AppendReply)
    requires CommitInvariant(s) && Enabled(s, ReplyAt(r))
    ensures CommitInvariant(Next(s, ReplyAt(r))) <==> Truthful(s, ReplyAt(r))
  {
    if Truthful(s, ReplyAt(r)) {
      ReplyCommits(s, r);
    } else {
      UntruthfulBreaks(s, r);
    }
  }

  // ---------- commit and apply ----------

  /** Applying hands exactly the committed commands to the state machine, each once. */
  lemma ApplyOk(n: Node, size: nat, h: History)
    requires n.lastApplied <= n.commitIndex <= |n.persistent.log|
    requires n.applied == CommandsOf(n.persistent.log[..n.lastApplied])
    requires Committed(h, size, n.persistent.log[..n.commitIndex], n.persistent.currentTerm)
    ensures CommitOk(ApplyCommitted(n), size, h)
  {
  }

  /** The commit rule: a supported index was acknowledged by a majority in the leader's term. */
  lemma SupportedIsChosen(s: State, i: NodeId, k: nat)
    requires CommitInvariant(s) && i < |s.nodes| && s.nodes[i].role == Leader
    requires Supported(s.nodes[i], |s.nodes|, k)
    ensures Committed(s.history, |s.nodes|, s.nodes[i].persistent.log[..k], s.nodes[i].persistent.currentTerm)
  {
    var n, h := s.nodes[i], s.history;
    var t, log := n.persistent.currentTerm, n.persistent.log;
    assert NodeAt(s, i) && NodeCommitted(s, i) && TermOk(s, t);
    TermLogBound(s, t);
    var q := Matched(n.leaderState.value.matchIndex, k) + {i};
    forall v | v in q
      ensures Held(h, v, t, k) && v in Ids(|s.nodes|)
    {
      if v == i {
        assert k - 1 >= |h.electLog[t]|;
      }
    }
    assert i !in Matched(n.leaderState.value.matchIndex, k);
    assert CommittedAs(h, |s.nodes|, log[..k], t, k, q);
  }

  lemma TryCommitOk(s: State, i: NodeId)
    requires CommitInvariant(s) && i < |s.nodes|
    ensures CommitOk(TryCommit(s.nodes[i], |s.nodes|), |s.nodes|, s.history)
  {
    var n := s.nodes[i];
    assert NodeCommitted(s, i);
    if n.role == Leader && n.leaderState.Some? {
      var p := CommitPoint(n, |s.nodes|, |n.persistent.log|);
      if p > n.commitIndex {
        SupportedIsChosen(s, i, p);
      }
      ApplyOk(n.(commitIndex := p), |s.nodes|, s.history);
    }
  }

  lemma TryCommitCommits(s: State, i: NodeId)
    requires CommitInvariant(s) && Enabled(s, TryCommitAt(i))
    ensures CommitInvariant(Next(s, TryCommitAt(i)))
  {
    var n := s.nodes[i];
    var n' := TryCommit(n, |s.nodes|);
    assert NodeAt(s, i) && NodeCommitted(s, i);
    TryCommitShape(n, |s.nodes|);
    TryCommitKeeps(s, i);
    TryCommitOk(s, i);
    CountersCommit(s, i, n', {});
  }

  // ---------- elections ----------

  lemma StartElectionNode(s: State, i: NodeId)
    requires CommitInvariant(s) && Enabled(s, StartElectionAt(i))
    requires Later(s.history, Next(s, StartElectionAt(i)).history)
    ensures NodeCommitted(Next(s, StartElectionAt(i)), i)
    ensures var t, log := s.nodes[i].persistent.currentTerm + 1, s.nodes[i].persistent.log;
            KeepsAll(Next(s, StartElectionAt(i)).history, i, log, t, t)
  {
    var n, s' := s.nodes[i], Next(s, StartElectionAt(i));
    var n', h', p := s'.nodes[i], s'.history, n.persistent;
    assert NodeAt(s, i) && NodeCommitted(s, i);
    CommitOkLater(n, n', |s.nodes|, s.history, h');
    AcksDoFit(s);
    KeepsAllLater(s.history, h', i, p.log, p.log, p.currentTerm + 1, p.currentTerm + 1, p.currentTerm + 1);
    NoFutureAck(s, i, p.currentTerm + 1, h');
  }

  lemma StartElectionCommits(s: State, i: NodeId)
    requires CommitInvariant(s) && Enabled(s, StartElectionAt(i))
    ensures CommitInvariant(Next(s, StartElectionAt(i)))
  {
    var s' := Next(s, StartElectionAt(i));
    var n' := s'.nodes[i];
    var b := Ballot(n'.persistent.currentTerm, i);
    StartElectionKeeps(s, i);
    StartElectionNode(s, i);
    NoFutureAck(s, i, b.term, s'.history);
    assert b.term in s'.history.electLog ==> TermOk(s', b.term);
    assert PromiseAt(s', b) && OpenPromiseAt(s', b);
    StepCommits(s, i, n', {VoteMsg(MakeVoteRequest(n', i))}, s'.history);
  }

  /** A node has acknowledged nothing in a term it has not reached. */
  lemma NoFutureAck(s: State, i: NodeId, t: nat, h: History)
    requires CommitInvariant(s) && i < |s.nodes| && t > s.nodes[i].persistent.currentTerm
    requires h.acks == s.history.acks
    ensures AckOf(h, Ballot(t, i)) == 0 && Ballot(t, i) !in h.acks
  {
    assert Ballot(t, i) in s.history.acks ==> AckOk(s, Ballot(t, i));
  }

  /** A log that ends a well-logged log's way has only terms up to its last. */
  lemma LastTermBounds(s: State, log: Log, k: nat)
    requires Invariant(s) && WellLogged(s.history.termLog, log) && k < |log|
    ensures log[k].term <= LastTerm(log)
  {
    var last := |log| - 1;
    var t := log[last].term;
    assert Certified(s.history.termLog, log, last);
    TermLogBound(s, t);
    assert log[..last + 1][k] == s.history.termLog[t][k];
  }

  /** A well-logged log is a prefix of its last term's log, and reaches into that term's own entries. */
  lemma LastTermLog(s: State, log: Log)
    requires Invariant(s) && WellLogged(s.history.termLog, log) && log != []
    ensures var h, w := s.history, LastTerm(log);
            && w in h.termLog && w in h.electLog && w >= 1
            && h.electLog[w] <= log <= h.termLog[w]
  {
    var h, w, last := s.history, LastTerm(log), |log| - 1;
    assert Certified(h.termLog, log, last) && log[..last + 1] == log;
    TermLogBound(s, w);
    assert TermOk(s, w);
    if last < |h.electLog[w]| {
      assert false;
    }
  }

  /** An up-to-date candidate keeps whatever the voter keeps, or a leader in between lacked it. */
  lemma UpToDateKeeps(s: State, log: Log, candLog: Log, t: nat, n: nat, u: nat)
    requires Invariant(s) && WellLogged(s.history.termLog, log) && WellLogged(s.history.termLog, candLog)
    requires TermsAtMost(candLog, u - 1) && UpToDate(LastTerm(candLog), |candLog|, log)
    requires t in s.history.termLog && 1 <= n <= |s.history.termLog[t]| && s.history.termLog[t][n - 1].term == t
    requires s.history.termLog[t][..n] <= log
    ensures Kept(s.history, candLog, t, n, u)
  {
    var h := s.history;
    assert log[n - 1] == h.termLog[t][..n][n - 1];
    LastTermBounds(s, log, n - 1);
    LastIndexIsLength(h.termLog, log);
    LastTermLog(s, log);
    LastTermLog(s, candLog);
    var w := LastTerm(candLog);
    if w == LastTerm(log) {
      assert log <= candLog;
    } else if !(h.termLog[t][..n] <= h.electLog[w]) {
      assert BrokenAt(h, t, n, w);
    }
  }

  /** Granting a vote in a term without a leader makes the promise. */
  lemma VotePromise(s: State, v: NodeId, c: NodeId)
    requires CommitInvariant(s) && v < |s.nodes|
    requires var t, b := s.nodes[v].persistent.currentTerm, Ballot(s.nodes[v].persistent.currentTerm, c);
             && t !in s.history.leaderOf
             && b in s.history.candLog
             && UpToDate(LastTerm(s.history.candLog[b]), |s.history.candLog[b]|, s.nodes[v].persistent.log)
    ensures var u := s.nodes[v].persistent.currentTerm;
            KeepsAll(s.history, v, s.history.candLog[Ballot(u, c)], u, u)
  {
    var h, p, u := s.history, s.nodes[v].persistent, s.nodes[v].persistent.currentTerm;
    var candLog := h.candLog[Ballot(u, c)];
    assert NodeAt(s, v) && NodeCommitted(s, v) && CandOk(s, Ballot(u, c));
    forall t: nat, n: nat {:trigger Held(h, v, t, n)} | Held(h, v, t, n) && t < u
      ensures Kept(h, candLog, t, n, u)
    {
      assert Kept(h, p.log, t, n, u + 1);
      if h.termLog[t][..n] <= p.log {
        UpToDateKeeps(s, p.log, candLog, t, n, u);
      }
    }
  }

  lemma GrantNode(s: State, i: NodeId, n': Node, sent: set<Message>, h': History)
    requires CommitInvariant(s) && i < |s.nodes| && Later(s.history, h') && h'.acks == s.history.acks
    requires var n := s.nodes[i]; n' == Save(n.(persistent := n.persistent.(votedFor := n'.persistent.votedFor)))
    ensures NodeCommitted(Update(s, i, n', sent, h'), i)
  {
    var n, h, p := s.nodes[i], s.history, s.nodes[i].persistent;
    assert NodeAt(s, i) && NodeCommitted(s, i);
    CommitOkLater(n, n', |s.nodes|, h, h');
    AcksDoFit(s);
    KeepsAllLater(h, h', i, p.log, p.log, p.currentTerm + 1, p.currentTerm + 1, p.currentTerm + 1);
    LeaderLater(n, i, |s.nodes|, h, h');
  }

  lemma GrantCommits(s: State, i: NodeId, c: NodeId, s': State)
    requires CommitInvariant(s) && i < |s.nodes|
    requires var n, b := s.nodes[i], Ballot(s.nodes[i].persistent.currentTerm, c);
             && (n.persistent.votedFor == None || n.persistent.votedFor == Some(c)) && c != i
             && b in s.history.candLog
             && UpToDate(LastTerm(s.history.candLog[b]), |s.history.candLog[b]|, n.persistent.log)
             && s' == Update(s, i, Save(n.(persistent := n.persistent.(votedFor := Some(c)))),
                             {GrantMsg(b.term, c, i)},
                             s.history.(votes := s.history.votes[Ballot(b.term, i) := c]))
    ensures CommitInvariant(s')
  {
    var n, h, h' := s.nodes[i], s.history, s'.history;
    var b := Ballot(n.persistent.currentTerm, i);
    assert NodeAt(s, i);
    GrantKeeps(s, i, n, c);
    GrantNode(s, i, s'.nodes[i], {GrantMsg(b.term, c, i)}, h');
    if b.term !in h.leaderOf {
      AcksDoFit(s);
      VotePromise(s, i, c);
      var candLog := h.candLog[Ballot(b.term, c)];
      KeepsAllLater(h, h', i, candLog, candLog, b.term, b.term, b.term);
    }
    if b !in h.votes {
      assert b.term in h.leaderOf ==> TermOk(s, b.term);
      assert PromiseAt(s', b) && OpenPromiseAt(s', b);
    }
    assert b in h.acks ==> AckOk(s, b);
    StepCommits(s, i, s'.nodes[i], {GrantMsg(b.term, c, i)}, h');
  }

  lemma VoteCommits(s: State, i: NodeId, r: VoteRequest)
    requires CommitInvariant(s) && Enabled(s, VoteAt(i, r))
    ensures CommitInvariant(Next(s, VoteAt(i, r)))
  {
    var n := s.nodes[i];
    var n1 := CatchUp(n, r.term);
    var s1 := Update(s, i, n1, {}, s.history);
    assert MessageOk(s, VoteMsg(r));
    CatchUpCommits(s, i, r.term);
    if Grants(n, r) {
      var s' := Next(s, VoteAt(i, r));
      assert s'.nodes == s1.nodes[i := s'.nodes[i]] && s'.net == s1.net + {GrantMsg(r.term, r.candidate, i)};
      GrantCommits(s1, i, r.candidate, s');
    }
  }

  lemma FreshLeader(n: Node, i: NodeId, size: nat, granted: set<NodeId>, h: History)
    requires LastIndex(n.persistent.log) == |n.persistent.log| && LeaderOk(n, i, size, h)
    requires n.persistent.currentTerm in h.electLog && Wins(n, size, granted) ==>
               h.electLog[n.persistent.currentTerm] == n.persistent.log
    ensures LeaderOk(CountVotes(n, size, Peers(size, i), granted), i, size, h)
  {
  }

  lemma CountVotesNode(s: State, i: NodeId, granted: set<NodeId>)
    requires CommitInvariant(s) && Enabled(s, CountVotesAt(i, granted))
    requires Later(s.history, Next(s, CountVotesAt(i, granted)).history)
    ensures NodeCommitted(Next(s, CountVotesAt(i, granted)), i)
  {
    var n, s' := s.nodes[i], Next(s, CountVotesAt(i, granted));
    var n', h' := s'.nodes[i], s'.history;
    var p := n.persistent;
    assert NodeAt(s, i) && NodeCommitted(s, i);
    CommitOkLater(n, n', |s.nodes|, s.history, h');
    AcksDoFit(s);
    KeepsAllLater(s.history, h', i, p.log, p.log, p.currentTerm + 1, p.currentTerm + 1, p.currentTerm + 1);
    LastIndexIsLength(s.history.termLog, p.log);
    LeaderLater(n, i, |s.nodes|, s.history, h');
    FreshLeader(n, i, |s.nodes|, granted, h');
  }

  lemma CountVotesCommits(s: State, i: NodeId, granted: set<NodeId>)
    requires CommitInvariant(s) && Enabled(s, CountVotesAt(i, granted))
    ensures CommitInvariant(Next(s, CountVotesAt(i, granted)))
  {
    var s' := Next(s, CountVotesAt(i, granted));
    var b := Ballot(s.nodes[i].persistent.currentTerm, i);
    assert NodeAt(s, i);
    CountVotesKeeps(s, i, granted);
    CountVotesNode(s, i, granted);
    assert b in s.history.acks ==> AckOk(s, b);
    StepCommits(s, i, s'.nodes[i], {}, s'.history);
  }

  // ---------- logs that grow ----------

  lemma GrownCommitOk(n: Node, n': Node, size: nat, h: History, h': History)
    requires CommitOk(n, size, h) && Later(h, h')
    requires n.persistent.log <= n'.persistent.log && n'.persistent.currentTerm == n.persistent.currentTerm
    requires n'.commitIndex == n.commitIndex && n'.lastApplied == n.lastApplied && n'.applied == n.applied
    ensures CommitOk(n', size, h')
  {
    var log, log' := n.persistent.log, n'.persistent.log;
    assert log'[..n.commitIndex] == log[..n.commitIndex] && log'[..n.lastApplied] == log[..n.lastApplied];
    CommittedLater(h, h', size, log[..n.commitIndex], n.persistent.currentTerm, n.persistent.currentTerm);
  }

  lemma GrownLeader(n: Node, n': Node, i: NodeId, size: nat, h: History, h': History)
    requires NodeOk(n, i, h) && LeaderOk(n, i, size, h) && Later(h, h') && n.role == Leader
    requires var t := n.persistent.currentTerm;
             && n' == n.(persistent := n'.persistent, disk := n'.disk) && n'.persistent.currentTerm == t
             && |n'.persistent.log| >= |n.persistent.log|
             && AckOf(h', Ballot(t, i)) >= |n'.persistent.log|
    ensures LeaderOk(n', i, size, h')
  {
    LeaderLater(n, i, size, h, h');
  }

  /** A leader's log, grown by its own proposals, keeps all it acknowledged. */
  lemma OwnLogKept(h: History, h': History, v: NodeId, log: Log, log': Log, t: nat)
    requires Later(h, h') && AcksFit(h) && KeepsAll(h, v, log, t + 1, t + 1)
    requires forall u: nat | u < t :: AckOf(h', Ballot(u, v)) == AckOf(h, Ballot(u, v))
    requires log <= log' && t in h'.termLog && h'.termLog[t] == log'
    ensures KeepsAll(h', v, log', t + 1, t + 1)
  {
    assert KeepsAll(h, v, log, t, t + 1);
    KeepsAllLater(h, h', v, log, log', t, t + 1, t + 1);
    forall n: nat | Held(h', v, t, n)
      ensures Kept(h', log', t, n, t + 1)
    {
    }
  }

  lemma ProposeNode(s: State, i: NodeId, s': State)
    requires CommitInvariant(s) && i < |s.nodes| && s.nodes[i].role == Leader
    requires Later(s.history, s'.history) && |s'.nodes| == |s.nodes|
    requires var n, n', h, h' := s.nodes[i], s'.nodes[i], s.history, s'.history;
             var t, log := n.persistent.currentTerm, n'.persistent.log;
             && n.persistent.log <= log && |log| == |n.persistent.log| + 1
             && n' == Save(n.(persistent := n.persistent.(log := log)))
             && h'.electLog == h.electLog && t in h'.termLog && h'.termLog[t] == log
             && AcksOnlyAt(h, h', Ballot(t, i)) && AckOf(h', Ballot(t, i)) == |log|
    ensures NodeCommitted(s', i)
  {
    var n, n', h, h' := s.nodes[i], s'.nodes[i], s.history, s'.history;
    var t, log, log' := n.persistent.currentTerm, n.persistent.log, n'.persistent.log;
    assert NodeAt(s, i) && NodeCommitted(s, i);
    AcksDoFit(s);
    OwnLogKept(h, h', i, log, log', t);
    GrownLeader(n, n', i, |s.nodes|, h, h');
    GrownCommitOk(n, n', |s.nodes|, h, h');
  }

  lemma ProposeCommits(s: State, i: NodeId, command: Command)
    requires CommitInvariant(s) && Enabled(s, ProposeAt(i, command))
    ensures CommitInvariant(Next(s, ProposeAt(i, command)))
  {
    var n, s' := s.nodes[i], Next(s, ProposeAt(i, command));
    var b := Ballot(n.persistent.currentTerm, i);
    assert NodeAt(s, i) && NodeCommitted(s, i);
    ProposeKeeps(s, i, command);
    if n.role == Leader {
      assert b in s.history.acks ==> AckOk(s, b);
      assert AckOf(s.history, b) <= |n.persistent.log|;
      ProposeNode(s, i, s');
      StepCommits(s, i, s'.nodes[i], {}, s'.history);
    } else {
      assert s' == s;
    }
  }

  /** A follower that takes over a snapshot gives up a kept prefix only if the sender's leader,
      already when elected, lacked it. */
  lemma SnapshotKeeps(s: State, log: Log, log': Log, r: AppendRequest, t: nat, n: nat)
    requires CommitInvariant(s) && r.term in s.history.leaderOf && t < r.term
    requires TookOver(log, log', s.history.termLog[r.term], r.prevIndex + |r.entries|)
    requires t in s.history.termLog && n <= |s.history.termLog[t]| && s.history.termLog[t][..n] <= log
    ensures Kept(s.history, log', t, n, r.term + 1)
  {
    var h, part := s.history, s.history.termLog[t][..n];
    assert TermOk(s, r.term);
    if log' != log && part <= h.electLog[r.term] {
      assert part <= h.termLog[r.term];
      assert part <= log';
    } else if log' != log {
      assert BrokenAt(h, t, n, r.term);
    }
  }

  lemma AppendKeepsOne(s: State, r: AppendRequest, log': Log, h': History, t: nat, n: nat)
    requires CommitInvariant(s) && r.dest < |s.nodes| && r.term in s.history.leaderOf
    requires s.nodes[r.dest].persistent.currentTerm <= r.term
    requires Later(s.history, h') && h'.termLog == s.history.termLog && h'.electLog == s.history.electLog
    requires TookOver(s.nodes[r.dest].persistent.log, log', s.history.termLog[r.term], r.prevIndex + |r.entries|)
    requires Held(s.history, r.dest, t, n) && t <= r.term
    requires t == r.term ==> n > r.prevIndex + |r.entries|
    ensures Kept(h', log', t, n, r.term + 1)
  {
    var h, i, p := s.history, r.dest, s.nodes[r.dest].persistent;
    var part := h.termLog[t][..n];
    assert NodeCommitted(s, i) && AckOk(s, Ballot(t, i));
    assert Kept(h, p.log, t, n, p.currentTerm + 1);
    if part <= p.log {
      if t < r.term {
        SnapshotKeeps(s, p.log, log', r, t, n);
        KeptLater(h, h', log', log', t, n, r.term + 1, r.term + 1);
      }
    } else {
      var u: nat :| t < u < p.currentTerm + 1 && BrokenAt(h, t, n, u);
      assert BrokenAt(h', t, n, u);
    }
  }

  lemma AppendKeepsAll(s: State, r: AppendRequest, log': Log, h': History)
    requires CommitInvariant(s) && r.dest < |s.nodes| && r.term in s.history.leaderOf
    requires s.nodes[r.dest].persistent.currentTerm <= r.term
    requires Later(s.history, h') && h'.termLog == s.history.termLog && h'.electLog == s.history.electLog
    requires AcksOnlyAt(s.history, h', Ballot(r.term, r.dest))
    requires AckOf(h', Ballot(r.term, r.dest))
             == Max(AckOf(s.history, Ballot(r.term, r.dest)), r.prevIndex + |r.entries|)
    requires TookOver(s.nodes[r.dest].persistent.log, log', s.history.termLog[r.term],
                      r.prevIndex + |r.entries|)
    ensures KeepsAll(h', r.dest, log', r.term + 1, r.term + 1)
  {
    var h, i := s.history, r.dest;
    forall t: nat, n: nat {:trigger Held(h', i, t, n)} | Held(h', i, t, n) && t < r.term + 1
      ensures Kept(h', log', t, n, r.term + 1)
    {
      if t == r.term && n <= r.prevIndex + |r.entries| {
        assert h.termLog[t][..n] <= log';
      } else {
        assert AckOf(h', Ballot(t, i)) == AckOf(h, Ballot(t, i));
        assert Held(h, i, t, n);
        AppendKeepsOne(s, r, log', h', t, n);
      }
    }
  }

  /** A committed prefix survives a snapshot. */
  lemma SnapshotKeepsCommitted(s: State, log: Log, log': Log, r: AppendRequest, k: nat, bound: int)
    requires CommitInvariant(s) && r.term in s.history.leaderOf && bound <= r.term
    requires TookOver(log, log', s.history.termLog[r.term], r.prevIndex + |r.entries|)
    requires k <= |log| && Committed(s.history, |s.nodes|, log[..k], bound)
    ensures k <= |log'| && log'[..k] == log[..k]
  {
    TermHasCommitted(s, log[..k], bound, r.term);
  }

  /** Advancing to a leader commit that the log covers adopts exactly the leader's committed log. */
  lemma AdvanceOk(n: Node, size: nat, h: History, leaderCommit: nat)
    requires CommitOk(n, size, h) && LastIndex(n.persistent.log) == |n.persistent.log|
    requires leaderCommit <= |n.persistent.log|
    requires Committed(h, size, n.persistent.log[..leaderCommit], n.persistent.currentTerm)
    ensures CommitOk(AdvanceCommit(n, leaderCommit), size, h)
  {
    if leaderCommit > n.commitIndex {
      ApplyOk(n.(commitIndex := leaderCommit), size, h);
    }
  }

  lemma AcceptedIsMatchable(s: State, r: AppendRequest)
    requires Invariant(s) && Enabled(s, AppendAt(r)) && Accepts(s.nodes[r.dest], r)
    ensures !Unmatchable(r)
  {
    assert NodeAt(s, r.dest);
    if r.prevIndex > 0 {
      assert Certified(s.history.termLog, s.nodes[r.dest].persistent.log, r.prevIndex - 1);
    }
  }

  lemma MergedCommitOk(s: State, r: AppendRequest, merged: Node)
    requires CommitInvariant(s) && r.dest < |s.nodes| && r.term in s.history.leaderOf
    requires var n := s.nodes[r.dest];
             && n.persistent.currentTerm <= r.term == merged.persistent.currentTerm
             && merged.commitIndex == n.commitIndex && merged.lastApplied == n.lastApplied
             && merged.applied == n.applied
             && TookOver(n.persistent.log, merged.persistent.log, s.history.termLog[r.term],
                         r.prevIndex + |r.entries|)
    ensures CommitOk(merged, |s.nodes|, s.history)
  {
    var n, log, log' := s.nodes[r.dest], s.nodes[r.dest].persistent.log, merged.persistent.log;
    assert NodeCommitted(s, r.dest);
    SnapshotKeepsCommitted(s, log, log', r, n.commitIndex, n.persistent.currentTerm);
    assert log'[..n.lastApplied] == log'[..n.commitIndex][..n.lastApplied] == log[..n.lastApplied];
    CommittedLater(s.history, s.history, |s.nodes|, log[..n.commitIndex], n.persistent.currentTerm, r.term);
  }

  /** Accepting is merging, then advancing the commit index. */
  lemma AcceptIsMergeThenAdvance(n: Node, r: AppendRequest) returns (merged: Node)
    requires Accepts(n, r)
    ensures HandleAppend(n, r) == AdvanceCommit(merged, r.leaderCommit)
    ensures merged.persistent.currentTerm == r.term
    ensures merged.commitIndex == n.commitIndex && merged.lastApplied == n.lastApplied
    ensures merged.applied == n.applied
    ensures merged.persistent.log == MergeEntries(n, r).persistent.log
  {
    var n1 := CatchUp(n, r.term);
    merged := MergeEntries(if n1.role == Candidate then n1.(role := Follower) else n1, r);
  }

  /** What a request says is committed is in front of any log that took it over. */
  lemma SentCommitted(s: State, r: AppendRequest, log: Log)
    requires CommitInvariant(s) && AppendMsg(r) in s.net && !Unmatchable(r) && r.term in s.history.termLog
    requires r.prevIndex + |r.entries| <= |s.history.termLog[r.term]|
    requires s.history.termLog[r.term][..r.prevIndex + |r.entries|] <= log
    ensures r.leaderCommit <= |log| && Committed(s.history, |s.nodes|, log[..r.leaderCommit], r.term)
  {
    assert MessageCommitted(s, AppendMsg(r));
    assert log[..r.leaderCommit] == s.history.termLog[r.term][..r.leaderCommit];
  }

  lemma AppendCommitOk(s: State, r: AppendRequest)
    requires CommitInvariant(s) && Enabled(s, AppendAt(r)) && Accepts(s.nodes[r.dest], r)
    ensures CommitOk(HandleAppend(s.nodes[r.dest], r), |s.nodes|, s.history)
  {
    var n, h := s.nodes[r.dest], s.history;
    AcceptedIsMatchable(s, r);
    AcceptTakesOver(s, r);
    var merged := AcceptIsMergeThenAdvance(n, r);
    SentCommitted(s, r, merged.persistent.log);
    MergedCommitOk(s, r, merged);
    LastIndexIsLength(h.termLog, merged.persistent.log);
    AdvanceOk(merged, |s.nodes|, h, r.leaderCommit);
  }

  lemma RejectedCounters(n: Node, r: AppendRequest)
    requires !Accepts(n, r) && Settled(n)
    ensures var n' := HandleAppend(n, r);
            && n'.commitIndex == n.commitIndex && n'.lastApplied == n.lastApplied && n'.applied == n.applied
            && n'.persistent.log == n.persistent.log
            && n'.persistent.currentTerm >= n.persistent.currentTerm
            && (n'.role == Leader ==> n'.persistent == n.persistent && n.role == Leader)
            && (n'.role == Leader ==> n'.leaderState == n.leaderState)
  {
  }

  lemma RejectCommits(s: State, r: AppendRequest)
    requires CommitInvariant(s) && Enabled(s, AppendAt(r)) && !Accepts(s.nodes[r.dest], r)
    ensures CommitInvariant(Next(s, AppendAt(r)))
  {
    var i, n, n' := r.dest, s.nodes[r.dest], HandleAppend(s.nodes[r.dest], r);
    assert NodeAt(s, i) && NodeCommitted(s, i);
    AppendKeeps(s, r);
    RejectedCounters(n, r);
    CommitOkLater(n, n', |s.nodes|, s.history, s.history);
    CountersCommit(s, i, n', {ReplyMsg(AppendReply(r, i, n'.persistent.currentTerm, false))});
  }

  /** A leader never loses anything to a request of its own term. */
  lemma AcceptingLeader(n: Node, i: NodeId, r: AppendRequest, size: nat, h: History, h': History)
    requires NodeOk(n, i, h) && LeaderOk(n, i, size, h) && Accepts(n, r)
    requires r.term in h.termLog && Later(h, h')
    requires TookOver(n.persistent.log, HandleAppend(n, r).persistent.log, h.termLog[r.term],
                      r.prevIndex + |r.entries|)
    ensures LeaderOk(HandleAppend(n, r), i, size, h')
  {
    AppendShape(n, r);
    LeaderLater(n, i, size, h, h');
  }

  lemma AcceptNode(s: State, r: AppendRequest)
    requires CommitInvariant(s) && Enabled(s, AppendAt(r)) && Accepts(s.nodes[r.dest], r)
    requires Later(s.history, Next(s, AppendAt(r)).history)
    ensures NodeCommitted(Next(s, AppendAt(r)), r.dest)
  {
    var i, n, h, s' := r.dest, s.nodes[r.dest], s.history, Next(s, AppendAt(r));
    var n', h' := s'.nodes[i], s'.history;
    assert NodeAt(s, i) && NodeCommitted(s, i);
    AcceptTakesOver(s, r);
    AppendKeepsAll(s, r, n'.persistent.log, h');
    AppendCommitOk(s, r);
    CommittedLater(h, h', |s.nodes|, n'.persistent.log[..n'.commitIndex], r.term, r.term);
    AcceptingLeader(n, i, r, |s.nodes|, h, h');
  }

  lemma AcceptAcks(s: State, r: AppendRequest)
    requires CommitInvariant(s) && Enabled(s, AppendAt(r)) && Accepts(s.nodes[r.dest], r)
    ensures var h, h', b := s.history, Next(s, AppendAt(r)).history, Ballot(r.term, r.dest);
            && AcksOnlyAt(h, h', b) && h' == h.(acks := h'.acks)
            && r.term in h.termLog && r.prevIndex + |r.entries| <= AckOf(h', b) <= |h.termLog[r.term]|
  {
    AcceptedIsMatchable(s, r);
    assert MessageCommitted(s, AppendMsg(r));
    assert Ballot(r.term, r.dest) in s.history.acks ==> AckOk(s, Ballot(r.term, r.dest));
  }

  lemma AcceptCommits(s: State, r: AppendRequest)
    requires CommitInvariant(s) && Enabled(s, AppendAt(r)) && Accepts(s.nodes[r.dest], r)
    ensures CommitInvariant(Next(s, AppendAt(r)))
  {
    var i, n, s' := r.dest, s.nodes[r.dest], Next(s, AppendAt(r));
    var n', h', b := s'.nodes[i], s'.history, Ballot(r.term, i);
    assert NodeAt(s, i);
    AppendKeeps(s, r);
    AppendShape(n, r);
    AcceptNode(s, r);
    AcceptAcks(s, r);
    StepCommits(s, i, n', {ReplyMsg(AppendReply(r, i, n'.persistent.currentTerm, true))}, h');
  }
}
