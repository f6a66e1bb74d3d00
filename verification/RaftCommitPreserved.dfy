/** What the steps share in keeping the commit invariant: the parts one node's change leaves alone. */
module RaftCommitPreserved {
  import opened RaftSpec
  import opened Cluster
  import opened RaftInvariant
  import opened RaftPreserved
  import opened RaftCommit

  predicate AcksOnlyAt(h: History, h': History, b: Ballot) {
    forall c | c in h'.acks && c != b :: c in h.acks && h'.acks[c] == h.acks[c]
  }

  predicate AcksFit(h: History) {
    forall b {:trigger AckOf(h, b)} | b in h.acks :: b.term in h.termLog && AckOf(h, b) <= |h.termLog[b.term]|
  }

  lemma AcksDoFit(s: State)
    requires CommitInvariant(s)
    ensures AcksFit(s.history)
  {
    forall b | b in s.history.acks
      ensures b.term in s.history.termLog && AckOf(s.history, b) <= |s.history.termLog[b.term]|
    {
      assert AckOk(s, b);
    }
  }

  /** Promises about terms whose acknowledgements did not move carry over. */
  lemma KeepsAllLater(h: History, h': History, v: NodeId, log: Log, log': Log, below: int, bound: int, bound': int)
    requires Later(h, h') && AcksFit(h) && KeepsAll(h, v, log, below, bound)
    requires forall t: nat | t < below :: AckOf(h', Ballot(t, v)) == AckOf(h, Ballot(t, v))
    requires log <= log' && bound <= bound'
    ensures KeepsAll(h', v, log', below, bound')
  {
    forall t: nat, n: nat {:trigger Held(h', v, t, n)} | Held(h', v, t, n) && t < below
      ensures Kept(h', log', t, n, bound')
    {
      assert AckOf(h', Ballot(t, v)) == AckOf(h, Ballot(t, v));
      assert Ballot(t, v) in h.acks;
      assert h.termLog[t] <= h'.termLog[t];
      assert Held(h, v, t, n);
      KeptLater(h, h', log, log', t, n, bound, bound');
    }
  }

  /** One node changes and only its acknowledgement in its current term may grow. */
  ghost predicate CommitShape(s: State, i: NodeId, n: Node, h: History) {
    && CommitInvariant(s)
    && StepShape(s, i, n, h)
    && AcksOnlyAt(s.history, h, Ballot(n.persistent.currentTerm, i))
  }

  lemma AckKept(s: State, i: NodeId, n: Node, sent: set<Message>, h: History, j: NodeId)
    requires CommitShape(s, i, n, h) && j < |s.nodes| && j != i
    ensures AckAt(Update(s, i, n, sent, h), j)
  {
    AcksDoFit(s);
    assert NodeCommitted(s, j);
    var p := s.nodes[j].persistent;
    KeepsAllLater(s.history, h, j, p.log, p.log, p.currentTerm + 1, p.currentTerm + 1, p.currentTerm + 1);
  }

  lemma OtherCommitted(s: State, i: NodeId, n: Node, sent: set<Message>, h: History, j: NodeId)
    requires CommitShape(s, i, n, h) && j < |s.nodes| && j != i
    ensures NodeCommitted(Update(s, i, n, sent, h), j)
  {
    AckKept(s, i, n, sent, h, j);
    assert NodeCommitted(s, j) && NodeAt(s, j);
    var m := s.nodes[j];
    LeaderLater(m, j, |s.nodes|, s.history, h);
    CommittedLater(s.history, h, |s.nodes|, m.persistent.log[..m.commitIndex], m.persistent.currentTerm,
                   m.persistent.currentTerm);
  }

  lemma LeaderLater(n: Node, i: NodeId, size: nat, h: History, h': History)
    requires LeaderOk(n, i, size, h) && NodeOk(n, i, h) && Later(h, h')
    ensures LeaderOk(n, i, size, h')
  {
    if n.role == Leader {
      var t := n.persistent.currentTerm;
      var m := n.leaderState.value.matchIndex;
      forall j | j in m
        ensures m[j] <= AckOf(h', Ballot(t, j))
      {
        assert m[j] <= AckOf(h, Ballot(t, j)) <= AckOf(h', Ballot(t, j));
      }
    }
  }

  /** A recorded vote's promise survives, also when its term elects the candidate. */
  lemma PromiseKept(s: State, i: NodeId, n: Node, sent: set<Message>, h: History, b: Ballot)
    requires CommitShape(s, i, n, h) && b in s.history.votes
    requires Invariant(Update(s, i, n, sent, h))
    ensures PromiseAt(Update(s, i, n, sent, h), b) && OpenPromiseAt(Update(s, i, n, sent, h), b)
  {
    var s' := Update(s, i, n, sent, h);
    assert VoteOk(s, b) && PromiseAt(s, b) && OpenPromiseAt(s, b);
    AcksDoFit(s);
    var c := Ballot(b.term, s.history.votes[b]);
    assert c in s.history.candLog && h.candLog[c] == s.history.candLog[c];
    if b.term in s.history.electLog {
      if b.node in s.history.quorum[b.term] {
        var log := s.history.electLog[b.term];
        KeepsAllLater(s.history, h, b.node, log, log, b.term, b.term, b.term);
      }
    } else {
      var log := s.history.candLog[c];
      KeepsAllLater(s.history, h, b.node, log, log, b.term, b.term, b.term);
      if b.term in h.electLog {
        assert TermOk(s', b.term);
      }
    }
  }

  lemma MessageCommittedKept(s: State, i: NodeId, n: Node, sent: set<Message>, h: History, m: Message)
    requires CommitShape(s, i, n, h) && m in s.net
    ensures MessageCommitted(Update(s, i, n, sent, h), m)
  {
    assert MessageCommitted(s, m);
    match m
    case AppendMsg(r) =>
      if !Unmatchable(r) {
        assert h.termLog[r.term][..r.leaderCommit] == s.history.termLog[r.term][..r.leaderCommit];
        CommittedLater(s.history, h, |s.nodes|, s.history.termLog[r.term][..r.leaderCommit], r.term, r.term);
      }
    case ReplyMsg(r) =>
      assert AckOf(s.history, Ballot(r.request.term, r.from)) <= AckOf(h, Ballot(r.request.term, r.from));
    case _ =>
  }

  /** The parts a step must supply for the commit invariant. */
  lemma StepCommits(s: State, i: NodeId, n: Node, sent: set<Message>, h: History)
    requires CommitShape(s, i, n, h)
    requires var s', b := Update(s, i, n, sent, h), Ballot(n.persistent.currentTerm, i);
             && Invariant(s')
             && NodeCommitted(s', i)
             && (b in h.acks ==> AckOk(s', b))
             && (forall b | b in h.votes && b !in s.history.votes :: PromiseAt(s', b) && OpenPromiseAt(s', b))
             && (forall m | m in sent :: MessageCommitted(s', m))
    ensures CommitInvariant(Update(s, i, n, sent, h))
  {
    var s' := Update(s, i, n, sent, h);
    forall j | 0 <= j < |s'.nodes|
      ensures NodeCommitted(s', j)
    {
      if j != i {
        OtherCommitted(s, i, n, sent, h, j);
      }
    }
    forall b
      ensures PromiseAt(s', b) && OpenPromiseAt(s', b)
    {
      if b in s.history.votes {
        PromiseKept(s, i, n, sent, h, b);
      }
    }
    forall b | b in h.acks
      ensures AckOk(s', b)
    {
      if b != Ballot(n.persistent.currentTerm, i) {
        OldAck(s, i, n, sent, h, b);
      }
    }
    forall m | m in s'.net
      ensures MessageCommitted(s', m)
    {
      if m !in sent {
        MessageCommittedKept(s, i, n, sent, h, m);
      }
    }
  }

  lemma OldAck(s: State, i: NodeId, n: Node, sent: set<Message>, h: History, b: Ballot)
    requires CommitShape(s, i, n, h)
    requires b in h.acks && b != Ballot(n.persistent.currentTerm, i)
    ensures AckOk(Update(s, i, n, sent, h), b)
  {
    assert AckOf(h, b) == AckOf(s.history, b);
    assert AckOk(s, b);
  }
}
