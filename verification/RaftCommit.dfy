/** What acknowledgements, votes and commit indices promise once what leaders write to
    `matchIndex` is true. */
module RaftCommit {
  import opened RaftSpec
  import opened Cluster
  import opened RaftInvariant
  import opened RaftPreserved

  /** Node `v`, while in term `t`, held the first `n` entries of that term's log, the last its own. */
  predicate Held(h: History, v: NodeId, t: nat, n: nat) {
    && 1 <= n <= AckOf(h, Ballot(t, v))
    && t in h.termLog && n <= |h.termLog[t]|
    && h.termLog[t][n - 1].term == t
  }

  predicate BrokenAt(h: History, t: nat, n: nat, u: nat) {
    t in h.termLog && n <= |h.termLog[t]| && u in h.electLog && !(h.termLog[t][..n] <= h.electLog[u])
  }

  /** The log has the first `n` entries of term `t`, unless a leader elected between `t` and `bound`
      already lacked them. */
  ghost predicate Kept(h: History, log: Log, t: nat, n: nat, bound: int) {
    && t in h.termLog && n <= |h.termLog[t]|
    && (h.termLog[t][..n] <= log || exists u: nat :: t < u < bound && BrokenAt(h, t, n, u))
  }

  ghost predicate KeepsAll(h: History, v: NodeId, log: Log, below: int, bound: int) {
    forall t: nat, n: nat {:trigger Held(h, v, t, n)} | Held(h, v, t, n) && t < below :: Kept(h, log, t, n, bound)
  }

  /** A node's log keeps all it ever acknowledged. */
  ghost predicate AckAt(s: State, v: NodeId) {
    && v < |s.nodes|
    && var p := s.nodes[v].persistent;
    KeepsAll(s.history, v, p.log, p.currentTerm + 1, p.currentTerm + 1)
  }

  /** A vote promises that the candidate's log keeps all the voter acknowledged in earlier terms. */
  ghost predicate PromiseAt(s: State, b: Ballot) {
    var h := s.history;
    b in h.votes && b.term in h.electLog && b.term in h.quorum ==>
      b.node in h.quorum[b.term] ==> KeepsAll(h, b.node, h.electLog[b.term], b.term, b.term)
  }

  ghost predicate OpenPromiseAt(s: State, b: Ballot) {
    var h := s.history;
    b in h.votes && b.term !in h.electLog && Ballot(b.term, h.votes[b]) in h.candLog ==>
      KeepsAll(h, b.node, h.candLog[Ballot(b.term, h.votes[b])], b.term, b.term)
  }

  predicate AckOk(s: State, b: Ballot) {
    && b.node < |s.nodes|
    && b.term <= s.nodes[b.node].persistent.currentTerm
    && b.term in s.history.termLog
    && AckOf(s.history, b) <= |s.history.termLog[b.term]|
  }

  predicate LeaderOk(n: Node, i: NodeId, size: nat, h: History) {
    var t, log := n.persistent.currentTerm, n.persistent.log;
    n.role == Leader && n.leaderState.Some? && t in h.electLog ==>
      var l := n.leaderState.value;
      && l.matchIndex.Keys == l.nextIndex.Keys == Peers(size, i)
      && (forall j | j in l.matchIndex :: l.matchIndex[j] <= AckOf(h, Ballot(t, j)))
      && (forall j | j in l.nextIndex :: 1 <= l.nextIndex[j])
      && (|log| > |h.electLog[t]| ==> AckOf(h, Ballot(t, i)) >= |log|)
  }

  predicate ChosenBy(h: History, size: nat, t: nat, n: nat, q: set<NodeId>) {
    && q <= Ids(size) && |q| >= Majority(size)
    && forall v | v in q :: Held(h, v, t, n)
  }

  predicate CommittedAs(h: History, size: nat, log: Log, t: nat, n: nat, q: set<NodeId>) {
    ChosenBy(h, size, t, n, q) && |log| <= n && t in h.termLog && log <= h.termLog[t]
  }

  /** The log is a prefix of what some majority acknowledged in one term up to `bound`. */
  ghost predicate Committed(h: History, size: nat, log: Log, bound: int) {
    log == [] || exists t: nat, n: nat, q :: t <= bound && CommittedAs(h, size, log, t, n, q)
  }

  ghost predicate CommitOk(n: Node, size: nat, h: History) {
    && n.lastApplied == n.commitIndex <= |n.persistent.log|
    && n.applied == CommandsOf(n.persistent.log[..n.commitIndex])
    && Committed(h, size, n.persistent.log[..n.commitIndex], n.persistent.currentTerm)
  }

  /** No log has an entry of term 0, so no node accepts such a request. */
  predicate Unmatchable(r: AppendRequest) {
    r.prevIndex > 0 && r.prevTerm == 0
  }

  ghost predicate MessageCommitted(s: State, m: Message) {
    var h := s.history;
    match m
    case AppendMsg(r) =>
      && r.leader != r.dest
      && r.term in h.termLog
      && (Unmatchable(r)
          || (&& r.leaderCommit <= r.prevIndex + |r.entries| <= |h.termLog[r.term]|
              && Committed(h, |s.nodes|, h.termLog[r.term][..r.leaderCommit], r.term)))
    case ReplyMsg(r) =>
      r.success ==> AckOf(s.history, Ballot(r.request.term, r.from)) >= r.request.prevIndex + |r.request.entries|
    case _ => true
  }

  ghost predicate NodeCommitted(s: State, i: NodeId) {
    && i < |s.nodes|
    && AckAt(s, i)
    && LeaderOk(s.nodes[i], i, |s.nodes|, s.history)
    && CommitOk(s.nodes[i], |s.nodes|, s.history)
  }

  ghost predicate CommitInvariant(s: State) {
    && Invariant(s)
    && (forall i {:trigger NodeCommitted(s, i)} | 0 <= i < |s.nodes| :: NodeCommitted(s, i))
    && (forall b {:trigger PromiseAt(s, b)} :: PromiseAt(s, b))
    && (forall b {:trigger OpenPromiseAt(s, b)} :: OpenPromiseAt(s, b))
    && (forall b {:trigger AckOk(s, b)} | b in s.history.acks :: AckOk(s, b))
    && (forall m {:trigger MessageCommitted(s, m)} | m in s.net :: MessageCommitted(s, m))
  }

  // ---------- leader completeness ----------

  /** Entries acknowledged by a majority in one term are in the log of every later term's leader. */
  lemma {:induction false} ElectedWithChosen(s: State, t: nat, n: nat, q: set<NodeId>, u: nat)
    requires CommitInvariant(s) && ChosenBy(s.history, |s.nodes|, t, n, q)
    requires u in s.history.leaderOf && t < u
    ensures t in s.history.termLog && n <= |s.history.termLog[t]|
    ensures s.history.termLog[t][..n] <= s.history.electLog[u]
  {
    var h := s.history;
    assert TermOk(s, u);
    var v := SharedMember(|s.nodes|, q, h.quorum[u]);
    assert Held(h, v, t, n) && PromiseAt(s, Ballot(u, v));
    if !(h.termLog[t][..n] <= h.electLog[u]) {
      var w: nat :| t < w < u && BrokenAt(h, t, n, w);
      ElectedWithChosen(s, t, n, q, w);
    }
  }

  /** So a committed log is in front of the log of its own and every later term. */
  lemma TermHasCommitted(s: State, log: Log, bound: int, u: nat)
    requires CommitInvariant(s) && Committed(s.history, |s.nodes|, log, bound)
    requires u in s.history.leaderOf && bound <= u
    ensures log <= s.history.termLog[u]
  {
    var h := s.history;
    if log != [] {
      var t: nat, n: nat, q :| t <= bound && CommittedAs(h, |s.nodes|, log, t, n, q);
      if t < u {
        ElectedWithChosen(s, t, n, q, u);
        assert TermOk(s, u);
        assert log <= h.termLog[t][..n] <= h.electLog[u] <= h.termLog[u];
      }
    }
  }

  /** Two committed logs never disagree. */
  lemma CommittedAgree(s: State, a: Log, aBound: int, b: Log, bBound: int)
    requires CommitInvariant(s)
    requires Committed(s.history, |s.nodes|, a, aBound) && Committed(s.history, |s.nodes|, b, bBound)
    ensures a <= b || b <= a
  {
    var h := s.history;
    if a != [] && b != [] {
      var t: nat, n: nat, q :| t <= aBound && CommittedAs(h, |s.nodes|, a, t, n, q);
      var t': nat, n': nat, q' :| t' <= bBound && CommittedAs(h, |s.nodes|, b, t', n', q');
      if t <= t' {
        assert CommittedAs(h, |s.nodes|, a, t, n, q);
        TermHasCommitted(s, a, t, t');
      } else {
        assert CommittedAs(h, |s.nodes|, b, t', n', q');
        TermHasCommitted(s, b, t', t);
      }
    }
  }

  // ---------- the promises only become easier to keep ----------

  lemma KeptLater(h: History, h': History, log: Log, log': Log, t: nat, n: nat, bound: int, bound': int)
    requires Later(h, h') && t in h.termLog && n <= |h.termLog[t]|
    requires bound <= bound' && log <= log' && Kept(h, log, t, n, bound)
    ensures t in h'.termLog && n <= |h'.termLog[t]| && Kept(h', log', t, n, bound')
  {
    assert h'.termLog[t][..n] == h.termLog[t][..n];
    if !(h.termLog[t][..n] <= log) {
      var u: nat :| t < u < bound && BrokenAt(h, t, n, u);
      assert BrokenAt(h', t, n, u);
    }
  }

  lemma CommittedLater(h: History, h': History, size: nat, log: Log, bound: int, bound': int)
    requires Later(h, h') && Committed(h, size, log, bound) && bound <= bound'
    ensures Committed(h', size, log, bound')
  {
    if log != [] {
      var t: nat, n: nat, q :| t <= bound && CommittedAs(h, size, log, t, n, q);
      forall v | v in q
        ensures Held(h', v, t, n)
      {
        assert Held(h, v, t, n);
      }
      assert CommittedAs(h', size, log, t, n, q);
    }
  }
}
