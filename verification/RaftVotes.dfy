/** What single votes, terms and counts promise, for any node and any request. */
module RaftVotes {
  import opened Commands
  import opened RaftSpec

  /** The exact condition of a vote: the candidate's log is up to date, and its term is either new to the
      node or the node's own without a vote for somebody else. */
  lemma VoteIff(n: Node, r: VoteRequest)
    ensures Grants(n, r)
            <==> && UpToDate(r.lastTerm, r.lastIndex, n.persistent.log)
                 && (|| r.term > n.persistent.currentTerm
                     || (r.term == n.persistent.currentTerm
                         && forall c | c != r.candidate :: n.persistent.votedFor != Some(c)))
  {
    if n.persistent.votedFor != None {
      assert n.persistent.votedFor == Some(n.persistent.votedFor.value);
    }
  }

  /** A lost reply does no harm: the same candidate asking again gets the vote again, and nothing changes. */
  lemma AskedAgain(n: Node, r: VoteRequest)
    requires Grants(n, r)
    ensures Grants(HandleRequestVote(n, r), r)
    ensures HandleRequestVote(HandleRequestVote(n, r), r) == HandleRequestVote(n, r)
  {
  }

  /** One vote a term: after a vote every other candidate of that term is refused. */
  lemma OneVote(n: Node, r: VoteRequest, other: VoteRequest)
    requires Grants(n, r) && other.term <= r.term && other.candidate != r.candidate
    ensures !Grants(HandleRequestVote(n, r), other)
  {
  }

  /** Of any two logs the owner of one can get the vote of the other's; both can exactly when the logs end
      in the same term and index. */
  lemma EitherIsUpToDate(a: Log, b: Log)
    ensures UpToDate(LastTerm(a), LastIndex(a), b) || UpToDate(LastTerm(b), LastIndex(b), a)
    ensures UpToDate(LastTerm(a), LastIndex(a), b) && UpToDate(LastTerm(b), LastIndex(b), a)
            <==> LastTerm(a) == LastTerm(b) && LastIndex(a) == LastIndex(b)
  {
  }

  /** A request of a higher term, of either kind, makes any node a follower in that term; one of a lower
      term is refused and changes nothing. */
  lemma TermsRule(n: Node, v: VoteRequest, r: AppendRequest)
    ensures v.term > n.persistent.currentTerm ==>
              var n' := HandleRequestVote(n, v);
              && n'.role == Follower && n'.leaderState == None && n'.persistent.currentTerm == v.term
              && n'.persistent.log == n.persistent.log && n'.disk == n'.persistent
              && n'.persistent.votedFor == if Grants(n, v) then Some(v.candidate) else None
    ensures v.term < n.persistent.currentTerm ==> HandleRequestVote(n, v) == n && !Grants(n, v)
    ensures r.term > n.persistent.currentTerm ==>
              var n' := HandleAppend(n, r);
              && n'.role == Follower && n'.leaderState == None && n'.persistent.currentTerm == r.term
              && n'.persistent.votedFor == None && n'.disk == n'.persistent
    ensures r.term < n.persistent.currentTerm ==> HandleAppend(n, r) == n && !Accepts(n, r)
  {
  }

  /** A candidate that hears from the leader of its own term gives up, whether or not the logs fit, and
      keeps its term and vote. */
  lemma CandidateYields(n: Node, r: AppendRequest)
    requires n.role == Candidate && r.term == n.persistent.currentTerm
    ensures var n' := HandleAppend(n, r);
            && n'.role == Follower && n'.persistent.currentTerm == n.persistent.currentTerm
            && n'.persistent.votedFor == n.persistent.votedFor
  {
  }

  /** A vote of the node's own term leaves its role and leadership alone. */
  lemma VoteInTerm(n: Node, r: VoteRequest)
    requires r.term == n.persistent.currentTerm && n.disk == n.persistent
    ensures var n' := HandleRequestVote(n, r);
            && n'.role == n.role && n'.leaderState == n.leaderState && n'.persistent.log == n.persistent.log
            && n'.persistent.currentTerm == n.persistent.currentTerm && n'.disk == n'.persistent
            && n'.persistent.votedFor == if Grants(n, r) then Some(r.candidate) else n.persistent.votedFor
  {
  }

  /** A candidate counts itself: it needs one vote less than a majority from others, and half of an even
      cluster is not enough. */
  lemma CountsItself(n: Node, me: NodeId, size: nat, granted: set<NodeId>)
    requires me !in granted
    ensures Wins(StartElection(n, me), size, granted) <==> 2 * (|granted| + 1) > size
  {
    assert |{me} + granted| == 1 + |granted|;
  }

  /** A leader commits an entry of its own term as soon as it and the peers known to hold it are more than
      half of the cluster, and applies up to there. */
  lemma MajorityCommits(n: Node, size: nat, k: nat)
    requires n.role == Leader && n.leaderState.Some? && n.commitIndex < k <= |n.persistent.log|
    requires n.persistent.log[k - 1].term == n.persistent.currentTerm
    requires 2 * (1 + |Matched(n.leaderState.value.matchIndex, k)|) > size
    ensures TryCommit(n, size).commitIndex >= k
    ensures n.lastApplied <= n.commitIndex ==> TryCommit(n, size).lastApplied == TryCommit(n, size).commitIndex
  {
    assert Supported(n, size, k);
  }

  /** A candidacy is of the next term, voted for itself and saved before anybody is asked. */
  lemma Candidacy(n: Node, me: NodeId)
    ensures var n', r := StartElection(n, me), MakeVoteRequest(StartElection(n, me), me);
            && n'.role == Candidate && n'.electing == Some(n.persistent.currentTerm + 1)
            && n'.disk == n'.persistent == Persistent(n.persistent.currentTerm + 1, Some(me), n.persistent.log)
            && r.term == n'.persistent.currentTerm && r.candidate == me
            && (forall other, log ::
                  Grants(Reload(Persistent(n.persistent.currentTerm, other, log)), r)
                  <==> UpToDate(LastTerm(n.persistent.log), LastIndex(n.persistent.log), log))
  {
  }

  /** A new leader starts with every peer behind its own last entry and counts nobody's. */
  lemma LeaderStarts(n: Node, size: nat, peers: set<NodeId>, granted: set<NodeId>)
    ensures var n' := CountVotes(n, size, peers, granted);
            if n.role == Candidate && 2 * |n.votes + granted| > size then
              && n'.role == Leader && n'.leaderState.Some?
              && (forall j | j in peers :: j in n'.leaderState.value.nextIndex && j in n'.leaderState.value.matchIndex)
              && (forall j | j in peers ::
                    n'.leaderState.value.nextIndex[j] == LastIndex(n.persistent.log) + 1
                    && n'.leaderState.value.matchIndex[j] == 0)
            else n'.role == n.role && n'.leaderState == n.leaderState
    ensures CountVotes(n, size, peers, granted).persistent == n.persistent
    ensures CountVotes(n, size, peers, granted).electing == None
  {
  }
}
