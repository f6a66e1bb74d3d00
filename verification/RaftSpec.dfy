/** One Raft node as a value, and every handler as a pure transition on it. */
module RaftSpec {
  import opened Commands

  type NodeId = nat

  datatype Entry = Entry(term: nat, index: nat, command: Command)

  type Log = seq<Entry>

  datatype Role = Follower | Candidate | Leader

  datatype Persistent = Persistent(currentTerm: nat, votedFor: Option<NodeId>, log: Log)

  datatype LeaderState = LeaderState(nextIndex: map<NodeId, nat>, matchIndex: map<NodeId, nat>)

  /** `electing` is the term of the election coroutine that waits for its broadcast, if any;
      `applied` lists the commands handed to the state machine since the process started. */
  datatype Node = Node(
    role: Role,
    persistent: Persistent,
    disk: Persistent,
    commitIndex: nat,
    lastApplied: nat,
    leaderState: Option<LeaderState>,
    votes: set<NodeId>,
    electing: Option<nat>,
    applied: seq<Command>)

  datatype VoteRequest = VoteRequest(term: nat, candidate: NodeId, lastIndex: nat, lastTerm: nat)

  datatype AppendRequest = AppendRequest(
    term: nat,
    leader: NodeId,
    dest: NodeId,
    prevIndex: nat,
    prevTerm: nat,
    entries: seq<Entry>,
    leaderCommit: nat)

  /** The sender of a request remembers it while it waits, so a reply comes with its request. */
  datatype AppendReply = AppendReply(request: AppendRequest, from: NodeId, term: nat, success: bool)

  const FRESH := Persistent(0, None, [])

  function Reload(disk: Persistent): Node {
    Node(Follower, disk, disk, 0, 0, None, {}, None, [])
  }

  function Majority(size: nat): nat {
    size / 2 + 1
  }

  function Max(a: int, b: int): int {
    if a < b then b else a
  }

  function Min(a: int, b: int): int {
    if a < b then a else b
  }

  function LastIndex(log: Log): nat {
    if log == [] then 0 else log[|log| - 1].index
  }

  function LastTerm(log: Log): nat {
    if log == [] then 0 else log[|log| - 1].term
  }

  function CommandsOf(log: Log): (cs: seq<Command>)
    ensures |cs| == |log|
    ensures forall k | 0 <= k < |log| :: cs[k] == log[k].command
  {
    seq(|log|, k requires 0 <= k < |log| => log[k].command)
  }

  function Save(n: Node): Node {
    n.(disk := n.persistent)
  }

  function StepDown(n: Node, newTerm: nat): Node {
    Save(n.(role := Follower, persistent := Persistent(newTerm, None, n.persistent.log), leaderState := None))
  }

  function StartElection(n: Node, me: NodeId): Node {
    var term := n.persistent.currentTerm + 1;
    Save(n.(role := Candidate, persistent := Persistent(term, Some(me), n.persistent.log), votes := {me},
            electing := Some(term)))
  }

  function MakeVoteRequest(n: Node, me: NodeId): VoteRequest {
    VoteRequest(n.persistent.currentTerm, me, LastIndex(n.persistent.log), LastTerm(n.persistent.log))
  }

  predicate UpToDate(lastTerm: nat, lastIndex: nat, log: Log) {
    || lastTerm > LastTerm(log)
    || (lastTerm == LastTerm(log) && lastIndex >= LastIndex(log))
  }

  function CatchUp(n: Node, term: nat): Node {
    if term > n.persistent.currentTerm then StepDown(n, term) else n
  }

  predicate Grants(n: Node, r: VoteRequest) {
    var p := CatchUp(n, r.term).persistent;
    && r.term >= p.currentTerm
    && (p.votedFor == None || p.votedFor == Some(r.candidate))
    && UpToDate(r.lastTerm, r.lastIndex, p.log)
  }

  function HandleRequestVote(n: Node, r: VoteRequest): Node {
    var n1 := CatchUp(n, r.term);
    if Grants(n, r) then Save(n1.(persistent := n1.persistent.(votedFor := Some(r.candidate)))) else n1
  }

  function BecomeLeader(n: Node, peers: set<NodeId>): Node {
    var next := LastIndex(n.persistent.log) + 1;
    n.(role := Leader,
       leaderState := Some(LeaderState(map j | j in peers :: next, map j | j in peers :: 0)))
  }

  predicate Wins(n: Node, size: nat, granted: set<NodeId>) {
    |n.votes + granted| >= Majority(size) && n.role == Candidate
  }

  /** The election coroutine resumes with the peers that granted their vote. */
  function CountVotes(n: Node, size: nat, peers: set<NodeId>, granted: set<NodeId>): Node {
    var n1 := n.(votes := n.votes + granted, electing := None);
    if Wins(n, size, granted) then BecomeLeader(n1, peers) else n1
  }

  function TermAt(log: Log, index: nat): nat {
    if 0 < index <= |log| then log[index - 1].term else 0
  }

  /** The entries behind position `index`. */
  function Suffix(log: Log, index: nat): Log {
    if index < |log| then log[index..] else []
  }

  /** The loop body of the send loop up to its suspension; needs a leader state, else it raises. */
  function MakeAppend(n: Node, me: NodeId, peer: NodeId): AppendRequest
    requires n.leaderState.Some?
  {
    var log := n.persistent.log;
    var nextIndex := n.leaderState.value.nextIndex;
    var next := if peer in nextIndex then nextIndex[peer] else 1;
    var prev := if next == 0 then 0 else next - 1;
    AppendRequest(n.persistent.currentTerm, me, peer, prev, TermAt(log, prev), Suffix(log, prev), n.commitIndex)
  }

  /** How many leading entries of a batch that starts after `prev` agree by term with the log. */
  function Agreeing(log: Log, prev: nat, batch: seq<Entry>): (k: nat)
    ensures k <= |batch| && prev + k <= Max(prev, |log|)
    ensures forall m | 0 <= m < k :: log[prev + m].term == batch[m].term
    ensures k < |batch| && prev + k < |log| ==> log[prev + k].term != batch[k].term
    decreases batch
  {
    if batch == [] || prev >= |log| || log[prev].term != batch[0].term then 0
    else
      var k := Agreeing(log, prev + 1, batch[1..]);
      assert forall m | 0 < m < |batch| :: batch[m] == batch[1..][m - 1];
      k + 1
  }

  /** Where an index that is not past the end points to; zero wraps around to the last entry. */
  function Position(log: Log, index: nat): (k: nat)
    requires index <= |log| && log != []
    ensures k < |log|
  {
    if index == 0 then |log| - 1 else index - 1
  }

  /** The entry loop, one entry: its own index says where it goes. It replaces an entry of another term
      and all that follows, and past the end it is appended. */
  function PutEntry(log: Log, e: Entry): Log {
    if e.index > |log| then log + [e]
    else if log != [] && log[Position(log, e.index)].term != e.term then log[..Position(log, e.index)] + [e]
    else log
  }

  /** An index of zero means the last entry. */
  lemma ZeroIsLast(log: Log, e: Entry)
    requires log != [] && e.index == 0
    ensures PutEntry(log, e) == if log[|log| - 1].term == e.term then log else log[..|log| - 1] + [e]
  {
  }

  /** The loop looks at the last entry of a log that has none. */
  predicate Raises(log: Log, batch: seq<Entry>) {
    log == [] && batch != [] && batch[0].index == 0
  }

  function PutEntries(log: Log, batch: seq<Entry>): Log {
    if batch == [] then log else PutEntry(PutEntries(log, batch[..|batch| - 1]), batch[|batch| - 1])
  }

  /** A batch as a leader builds it: the entries' own indices continue from `prev`. */
  predicate Contiguous(prev: nat, batch: seq<Entry>) {
    forall k | 0 <= k < |batch| :: batch[k].index == prev + 1 + k
  }

  /** The loop in one step, for contiguous batches: an agreeing batch changes nothing, otherwise the rest of the batch
      replaces everything from the first disagreement or the log's end. */
  function Merge(log: Log, prev: nat, batch: seq<Entry>): Log
    requires prev <= |log|
  {
    var k := Agreeing(log, prev, batch);
    if k == |batch| then log else log[..prev + k] + batch[k..]
  }

  // ---------- the entry loop on contiguous batches ----------

  /** The log agrees by term with the first `d` entries of the batch, and not with the next one. */
  predicate DisagreesAt(log: Log, prev: nat, batch: seq<Entry>, d: nat) {
    && d <= |batch| && prev + d <= |log|
    && (forall m | 0 <= m < d :: log[prev + m].term == batch[m].term)
    && (d < |batch| && prev + d < |log| ==> log[prev + d].term != batch[d].term)
  }

  /** A log cut somewhere, with new entries put behind. */
  function PutBehind(log: Log, cut: nat, tail: Log): Log
    requires cut <= |log|
  {
    if tail == [] then log else log[..cut] + tail
  }

  lemma PutOne(log: Log, cut: nat, tail: Log, e: Entry)
    requires cut <= |log| && e.index == cut + |tail| + 1
    requires tail == [] && cut < |log| ==> log[cut].term != e.term
    ensures PutEntry(PutBehind(log, cut, tail), e) == PutBehind(log, cut, tail + [e])
  {
    if tail == [] {
      assert cut == |log| ==> log[..cut] == log;
    } else {
      assert |log[..cut] + tail| == cut + |tail|;
      assert (log[..cut] + tail) + [e] == log[..cut] + (tail + [e]);
    }
  }

  /** A contiguous batch whose first entry has no match in the log replaces the log from there on. */
  lemma {:induction false} PutTail(log: Log, cut: nat, tail: Log)
    requires cut <= |log| && Contiguous(cut, tail)
    requires tail != [] && cut < |log| ==> log[cut].term != tail[0].term
    ensures PutEntries(log, tail) == PutBehind(log, cut, tail)
  {
    if tail != [] {
      var init, e := tail[..|tail| - 1], tail[|tail| - 1];
      PutTail(log, cut, init);
      PutOne(log, cut, init, e);
      assert init + [e] == tail;
    }
  }

  /** A contiguous batch that agrees with the log changes nothing. */
  lemma {:induction false} PutAgreed(log: Log, prev: nat, batch: seq<Entry>)
    requires Contiguous(prev, batch) && prev + |batch| <= |log|
    requires forall m | 0 <= m < |batch| :: log[prev + m].term == batch[m].term
    ensures PutEntries(log, batch) == log
  {
    if batch != [] {
      PutAgreed(log, prev, batch[..|batch| - 1]);
      assert log[prev + (|batch| - 1)].term == batch[|batch| - 1].term;
    }
  }

  lemma {:induction false} PutBoth(log: Log, a: seq<Entry>, b: seq<Entry>)
    ensures PutEntries(log, a + b) == PutEntries(PutEntries(log, a), b)
  {
    if b == [] {
      assert a + b == a;
    } else {
      var init, e := b[..|b| - 1], b[|b| - 1];
      PutBoth(log, a, init);
      assert (a + b)[..|a + b| - 1] == a + init;
    }
  }

  lemma {:induction false} AgreeingIs(log: Log, prev: nat, batch: seq<Entry>, d: nat)
    requires DisagreesAt(log, prev, batch, d)
    ensures Agreeing(log, prev, batch) == d
    decreases d
  {
    if d > 0 {
      assert log[prev + 0].term == batch[0].term;
      AgreeingIs(log, prev + 1, batch[1..], d - 1);
    }
  }

  /** The loop leaves the log alone if the whole batch agrees with it; otherwise it keeps what comes
      before the first disagreement, or the whole log, and puts the rest of the batch behind. */
  lemma MergeIs(log: Log, prev: nat, batch: seq<Entry>, d: nat)
    requires Contiguous(prev, batch) && DisagreesAt(log, prev, batch, d)
    ensures PutEntries(log, batch) == if d == |batch| then log else log[..prev + d] + batch[d..]
  {
    var head, tail := batch[..d], batch[d..];
    assert batch == head + tail;
    PutAgreed(log, prev, head);
    PutBoth(log, head, tail);
    PutTail(log, prev + d, tail);
  }

  /** So on a contiguous batch the loop is the merge at the first disagreement. */
  lemma PutIsMerge(log: Log, prev: nat, batch: seq<Entry>)
    requires prev <= |log| && Contiguous(prev, batch)
    ensures PutEntries(log, batch) == Merge(log, prev, batch)
  {
    MergeIs(log, prev, batch, Agreeing(log, prev, batch));
  }

  lemma MergedHas(log: Log, prev: nat, batch: seq<Entry>, d: nat, m: nat)
    requires DisagreesAt(log, prev, batch, d) && m < |batch|
    ensures var merged := if d == |batch| then log else log[..prev + d] + batch[d..];
            prev + |batch| <= |merged| && merged[prev + m].term == batch[m].term
  {
    if m >= d {
      assert batch[d..][m - d] == batch[m];
    }
  }

  lemma MergedHasAll(log: Log, prev: nat, batch: seq<Entry>, merged: Log)
    requires prev <= |log| && Contiguous(prev, batch) && batch != [] && merged == PutEntries(log, batch)
    ensures prev + |batch| <= |merged| && forall x | 0 <= x < |batch| :: merged[prev + x].term == batch[x].term
  {
    var d := Agreeing(log, prev, batch);
    MergeIs(log, prev, batch, d);
    MergedHas(log, prev, batch, d, 0);
    forall x | 0 <= x < |batch|
      ensures merged[prev + x].term == batch[x].term
    {
      MergedHas(log, prev, batch, d, x);
    }
  }

  /** Redelivery is idempotent, also when an older and shorter part of the batch arrives late. */
  lemma LateBatch(log: Log, prev: nat, batch: seq<Entry>, m: nat)
    requires prev <= |log| && Contiguous(prev, batch) && m <= |batch|
    ensures PutEntries(PutEntries(log, batch), batch[..m]) == PutEntries(log, batch)
  {
    if m > 0 {
      var merged := PutEntries(log, batch);
      MergedHasAll(log, prev, batch, merged);
      PutAgreed(merged, prev, batch[..m]);
    }
  }

  function ApplyCommitted(n: Node): Node {
    if n.lastApplied >= n.commitIndex then n
    else
      var log := n.persistent.log;
      var ready := log[Min(n.lastApplied, |log|)..Min(n.commitIndex, |log|)];
      n.(lastApplied := n.commitIndex, applied := n.applied + CommandsOf(ready))
  }

  predicate PrevMatches(log: Log, r: AppendRequest) {
    r.prevIndex > 0 ==> r.prevIndex <= |log| && log[r.prevIndex - 1].term == r.prevTerm
  }

  predicate Accepts(n: Node, r: AppendRequest) {
    r.term >= n.persistent.currentTerm && PrevMatches(n.persistent.log, r)
  }

  function HandleAppend(n: Node, r: AppendRequest): Node {
    var n1 := CatchUp(n, r.term);
    if r.term < n1.persistent.currentTerm then n1
    else
      var n2 := if n1.role == Candidate then n1.(role := Follower) else n1;
      if !PrevMatches(n2.persistent.log, r) then n2
      else AdvanceCommit(MergeEntries(n2, r), r.leaderCommit)
  }

  function MergeEntries(n: Node, r: AppendRequest): Node {
    if r.entries == [] then n
    else Save(n.(persistent := n.persistent.(log := PutEntries(n.persistent.log, r.entries))))
  }

  function AdvanceCommit(n: Node, leaderCommit: nat): Node {
    if leaderCommit > n.commitIndex
    then ApplyCommitted(n.(commitIndex := Min(leaderCommit, LastIndex(n.persistent.log))))
    else n
  }

  /** The send coroutine resumes; without a leader state the writes raise and nothing changes. */
  function HandleReply(n: Node, r: AppendReply): Node {
    var peer := r.request.dest;
    if r.success then
      if r.request.entries == [] || n.leaderState == None then n
      else
        var matched := r.request.prevIndex + |r.request.entries|;
        n.(leaderState := Some(LeaderState(n.leaderState.value.nextIndex[peer := matched + 1],
                                           n.leaderState.value.matchIndex[peer := matched])))
    else if r.term > n.persistent.currentTerm then StepDown(n, r.term)
    else if n.leaderState == None then n
    else n.(leaderState := Some(n.leaderState.value.(
                                nextIndex := n.leaderState.value.nextIndex[peer := Max(1, r.request.prevIndex)])))
  }

  function Matched(m: map<NodeId, nat>, k: nat): set<NodeId> {
    set j | j in m && m[j] >= k
  }

  /** The current-term majority rule for committing index `k`. */
  predicate Supported(n: Node, size: nat, k: nat) {
    && n.leaderState.Some?
    && 0 < k <= |n.persistent.log|
    && n.persistent.log[k - 1].term == n.persistent.currentTerm
    && 1 + |Matched(n.leaderState.value.matchIndex, k)| >= Majority(size)
  }

  /** The greatest supported index above the commit index, or the commit index itself. */
  function CommitPoint(n: Node, size: nat, k: nat): (p: nat)
    ensures p == n.commitIndex || (n.commitIndex < p <= k && Supported(n, size, p))
    ensures forall q | Max(p, n.commitIndex) < q <= k :: !Supported(n, size, q)
  {
    if k <= n.commitIndex then n.commitIndex
    else if Supported(n, size, k) then k
    else CommitPoint(n, size, k - 1)
  }

  function TryCommit(n: Node, size: nat): Node {
    if n.role != Leader || n.leaderState == None then n
    else ApplyCommitted(n.(commitIndex := CommitPoint(n, size, |n.persistent.log|)))
  }

  function Propose(n: Node, command: Command): Node {
    if n.role != Leader then n
    else
      var p := n.persistent;
      Save(n.(persistent := p.(log := p.log + [Entry(p.currentTerm, |p.log| + 1, command)])))
  }
}
