/** The invariant that holds in every run, whatever replies a coroutine consumes, and what follows
    from it about single states: Election Safety and Log Matching (sections 5.2 and 5.3 of the extended
    Raft paper). */
module RaftInvariant {
  import opened Commands
  import opened RaftSpec
  import opened Cluster

  /** An entry of term `t` at position `k` certifies the log up to it against that term's log. */
  predicate Certified(termLog: map<nat, Log>, log: Log, k: nat) {
    && k < |log|
    && log[k].index == k + 1
    && log[k].term >= 1
    && log[k].term in termLog
    && log[..k + 1] <= termLog[log[k].term]
  }

  predicate WellLogged(termLog: map<nat, Log>, log: Log) {
    forall k | 0 <= k < |log| :: Certified(termLog, log, k)
  }

  predicate TermsAtMost(log: Log, bound: int) {
    forall k | 0 <= k < |log| :: log[k].term <= bound
  }

  predicate NodeOk(n: Node, i: NodeId, h: History) {
    var p := n.persistent;
    var b := Ballot(p.currentTerm, i);
    && n.disk == p
    && (n.role == Leader <==> n.leaderState.Some?)
    && (n.electing.Some? ==> n.votes == {i} && (n.role == Candidate ==> n.electing.value == p.currentTerm))
    && (p.votedFor.Some? ==> b in h.votes && h.votes[b] == p.votedFor.value)
    && (n.role == Candidate ==>
          && p.votedFor == Some(i)
          && b in h.candLog && h.candLog[b] == p.log
          && !(p.currentTerm in h.leaderOf && h.leaderOf[p.currentTerm] == i))
    && (n.role == Leader ==>
          && p.currentTerm in h.leaderOf && h.leaderOf[p.currentTerm] == i
          && p.currentTerm in h.termLog && h.termLog[p.currentTerm] == p.log)
    && WellLogged(h.termLog, p.log)
    && TermsAtMost(p.log, p.currentTerm)
  }

  predicate NodeAt(s: State, i: NodeId) {
    i < |s.nodes| && NodeOk(s.nodes[i], i, s.history)
  }

  predicate VoteOk(s: State, b: Ballot) {
    && b in s.history.votes
    && b.node < |s.nodes|
    && b.term <= s.nodes[b.node].persistent.currentTerm
    && (b.term == s.nodes[b.node].persistent.currentTerm ==>
          s.nodes[b.node].persistent.votedFor == Some(s.history.votes[b]))
    && Ballot(b.term, s.history.votes[b]) in s.history.candLog
  }

  predicate CandOk(s: State, b: Ballot) {
    && b in s.history.candLog
    && b.node < |s.nodes|
    && 1 <= b.term <= s.nodes[b.node].persistent.currentTerm
    && WellLogged(s.history.termLog, s.history.candLog[b])
    && TermsAtMost(s.history.candLog[b], b.term - 1)
  }

  predicate SameTerms(h: History) {
    h.leaderOf.Keys == h.quorum.Keys == h.electLog.Keys == h.termLog.Keys
  }

  predicate Elected(s: State, t: nat) {
    var h := s.history;
    && SameTerms(h) && t in h.leaderOf
    && var leader := h.leaderOf[t];
    && leader < |s.nodes|
    && t <= s.nodes[leader].persistent.currentTerm
    && h.quorum[t] <= Ids(|s.nodes|)
    && |h.quorum[t]| >= Majority(|s.nodes|)
    && (forall v | v in h.quorum[t] :: Ballot(t, v) in h.votes && h.votes[Ballot(t, v)] == leader)
    && Ballot(t, leader) in h.candLog && h.electLog[t] == h.candLog[Ballot(t, leader)]
  }

  /** A term's log is the elected log followed by that term's own entries. */
  predicate OwnTail(electLog: Log, termLog: Log, t: nat) {
    && electLog <= termLog
    && (forall k | |electLog| <= k < |termLog| :: termLog[k].term == t)
  }

  predicate TermOk(s: State, t: nat) {
    && Elected(s, t)
    && OwnTail(s.history.electLog[t], s.history.termLog[t], t)
    && WellLogged(s.history.termLog, s.history.termLog[t])
  }

  /** What an AppendEntries request says about its term's log. A request built from a `nextIndex`
      beyond the log's end (possible only when a stale reply was consumed) matches no log. */
  predicate Snapshot(log: Log, r: AppendRequest) {
    || (&& r.prevIndex + |r.entries| <= |log|
        && r.entries == log[r.prevIndex..r.prevIndex + |r.entries|]
        && (r.prevIndex > 0 ==> r.prevTerm == log[r.prevIndex - 1].term))
    || (r.prevIndex > 0 && r.prevTerm == 0 && r.entries == [])
  }

  predicate MessageOk(s: State, m: Message) {
    var h := s.history;
    match m
    case VoteMsg(r) =>
      var b := Ballot(r.term, r.candidate);
      && b in h.candLog && r.lastIndex == |h.candLog[b]| && r.lastTerm == LastTerm(h.candLog[b])
    case GrantMsg(t, c, v) => Ballot(t, v) in h.votes && h.votes[Ballot(t, v)] == c
    case AppendMsg(r) =>
      r.leader < |s.nodes| && r.dest < |s.nodes| && r.term in h.termLog && Snapshot(h.termLog[r.term], r)
    case ReplyMsg(r) => r.from == r.request.dest && AppendMsg(r.request) in s.net
  }

  predicate Invariant(s: State) {
    var h := s.history;
    && SameTerms(h)
    && (forall i {:trigger NodeAt(s, i)} | 0 <= i < |s.nodes| :: NodeAt(s, i))
    && (forall b {:trigger VoteOk(s, b)} | b in h.votes :: VoteOk(s, b))
    && (forall b {:trigger CandOk(s, b)} | b in h.candLog :: CandOk(s, b))
    && (forall t {:trigger TermOk(s, t)} | t in h.leaderOf :: TermOk(s, t))
    && (forall m {:trigger MessageOk(s, m)} | m in s.net :: MessageOk(s, m))
  }

  // ---------- logs ----------

  predicate Extends(before: map<nat, Log>, after: map<nat, Log>) {
    forall t | t in before :: t in after && before[t] <= after[t]
  }

  lemma WellLoggedExtends(before: map<nat, Log>, after: map<nat, Log>, log: Log)
    requires Extends(before, after) && WellLogged(before, log)
    ensures WellLogged(after, log)
  {
    forall k | 0 <= k < |log|
      ensures Certified(after, log, k)
    {
      assert Certified(before, log, k);
    }
  }

  lemma WellLoggedPrefix(termLog: map<nat, Log>, log: Log, k: nat)
    requires WellLogged(termLog, log) && k <= |log|
    ensures WellLogged(termLog, log[..k])
  {
    forall m | 0 <= m < k
      ensures Certified(termLog, log[..k], m)
    {
      assert Certified(termLog, log, m);
      assert log[..k][..m + 1] == log[..m + 1];
    }
  }

  /** Two well-logged logs that agree on the term at one position agree up to it. */
  lemma LogsMatch(termLog: map<nat, Log>, a: Log, b: Log, k: nat)
    requires WellLogged(termLog, a) && WellLogged(termLog, b)
    requires k < |a| && k < |b| && a[k].term == b[k].term
    ensures a[..k + 1] == b[..k + 1]
  {
    assert Certified(termLog, a, k) && Certified(termLog, b, k);
    var c := termLog[a[k].term];
    assert a[..k + 1] == c[..k + 1] == b[..k + 1];
  }

  lemma SnapshotFits(termLog: map<nat, Log>, log: Log, leaderLog: Log, r: AppendRequest)
    requires WellLogged(termLog, log) && WellLogged(termLog, leaderLog)
    requires Snapshot(leaderLog, r) && PrevMatches(log, r)
    ensures r.prevIndex <= |log| && r.prevIndex + |r.entries| <= |leaderLog|
    ensures r.entries == leaderLog[r.prevIndex..r.prevIndex + |r.entries|]
    ensures log[..r.prevIndex] == leaderLog[..r.prevIndex]
  {
    if r.prevIndex > 0 {
      assert Certified(termLog, log, r.prevIndex - 1);
      LogsMatch(termLog, log, leaderLog, r.prevIndex - 1);
    }
  }

  /** What a leader cuts from its log is contiguous. */
  lemma CutIsContiguous(termLog: map<nat, Log>, log: Log, prev: nat, batch: seq<Entry>)
    requires WellLogged(termLog, log) && prev + |batch| <= |log| && batch == log[prev..prev + |batch|]
    ensures Contiguous(prev, batch)
  {
    forall k | 0 <= k < |batch|
      ensures batch[k].index == prev + 1 + k
    {
      assert Certified(termLog, log, prev + k);
      assert batch[k] == log[prev + k];
    }
  }

  /** What a follower finds agreeing with a snapshot of a term's log is equal to it. */
  lemma AgreeingMatches(termLog: map<nat, Log>, log: Log, leaderLog: Log, prev: nat, batch: seq<Entry>, k: nat)
    requires WellLogged(termLog, log) && WellLogged(termLog, leaderLog)
    requires prev + |batch| <= |leaderLog| && batch == leaderLog[prev..prev + |batch|]
    requires DisagreesAt(log, prev, batch, k) && log[..prev] == leaderLog[..prev]
    ensures log[..prev + k] == leaderLog[..prev + k]
  {
    if k > 0 {
      var last := prev + k - 1;
      assert batch[k - 1] == leaderLog[last];
      assert log[prev + (k - 1)].term == batch[k - 1].term;
      LogsMatch(termLog, log, leaderLog, last);
    }
  }

  /** A batch cut from a log, put behind what comes before a place in it, gives the log back. */
  lemma Rejoin(sent: Log, prev: nat, batch: seq<Entry>, k: nat)
    requires prev <= |sent| && batch == sent[prev..] && k <= |batch|
    ensures sent[..prev + k] + batch[k..] == sent
  {
    assert batch[k..] == sent[prev + k..];
  }

  /** Merging at a place up to which the log is what was sent gives what was sent. */
  lemma MergeSent(log: Log, sent: Log, prev: nat, batch: seq<Entry>, k: nat)
    requires prev <= |sent| && batch == sent[prev..] && DisagreesAt(log, prev, batch, k)
    requires log[..prev + k] == sent[..prev + k]
    ensures if k == |batch| then sent <= log else log[..prev + k] + batch[k..] == sent && !(sent <= log)
  {
    Rejoin(sent, prev, batch, k);
    if k < |batch| {
      assert sent[prev + k] == batch[k];
    }
  }

  lemma MergeCut(termLog: map<nat, Log>, log: Log, leaderLog: Log, prev: nat, batch: seq<Entry>, k: nat)
    requires WellLogged(termLog, log) && WellLogged(termLog, leaderLog)
    requires prev + |batch| <= |leaderLog| && batch == leaderLog[prev..prev + |batch|]
    requires DisagreesAt(log, prev, batch, k) && log[..prev] == leaderLog[..prev]
    ensures var sent := leaderLog[..prev + |batch|];
            if k == |batch| then sent <= log else log[..prev + k] + batch[k..] == sent && !(sent <= log)
  {
    AgreeingMatches(termLog, log, leaderLog, prev, batch, k);
    CutTwice(leaderLog, prev, prev + |batch|, prev + k);
    MergeSent(log, leaderLog[..prev + |batch|], prev, batch, k);
  }

  /** Merging a snapshot of a term's log leaves that snapshot in front: the log is unchanged or
      becomes exactly the snapshot. */
  lemma MergeSnapshot(termLog: map<nat, Log>, log: Log, leaderLog: Log, r: AppendRequest)
    requires WellLogged(termLog, log) && WellLogged(termLog, leaderLog)
    requires Snapshot(leaderLog, r) && PrevMatches(log, r)
    ensures r.prevIndex <= |log| && r.prevIndex + |r.entries| <= |leaderLog|
    ensures var sent := leaderLog[..r.prevIndex + |r.entries|];
            var merged := Merge(log, r.prevIndex, r.entries);
            && sent <= merged
            && (merged == log || (merged == sent && !(sent <= log)))
  {
    SnapshotFits(termLog, log, leaderLog, r);
    var k := Agreeing(log, r.prevIndex, r.entries);
    MergeCut(termLog, log, leaderLog, r.prevIndex, r.entries, k);
  }

  lemma CutTwice(log: Log, from: nat, to: nat, k: nat)
    requires from <= to <= |log| && k <= to
    ensures log[..to][from..] == log[from..to] && log[..to][..k] == log[..k]
  {
  }

  // ---------- majorities ----------

  lemma SharedMember(size: nat, a: set<NodeId>, b: set<NodeId>) returns (v: NodeId)
    requires a <= Ids(size) && b <= Ids(size)
    requires |a| >= Majority(size) && |b| >= Majority(size)
    ensures v in a && v in b
  {
    if a * b == {} {
      assert |a + b| == |a| + |b|;
      SubsetSize(a + b, Ids(size));
      assert false;
    }
    v :| v in a * b;
  }

  lemma {:induction false} SubsetSize(a: set<NodeId>, b: set<NodeId>)
    requires a <= b
    ensures |a| <= |b|
  {
    if a != {} {
      var x :| x in a;
      SubsetSize(a - {x}, b - {x});
    }
  }
}
