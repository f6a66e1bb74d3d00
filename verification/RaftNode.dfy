/** A Raft node: an object whose handlers update its fields in place. Every handler
    is proved to perform the transition of the same name in RaftSpec. */
module RaftNode {
  import opened Commands
  import opened RaftSpec

  function Granted(responses: map<NodeId, Option<bool>>): set<NodeId> {
    set j | j in responses && responses[j] == Some(true)
  }

  class RaftNode {
    const nodeId: NodeId
    const cluster: seq<NodeId>
    var role: Role
    var currentTerm: nat
    var votedFor: Option<NodeId>
    var log: Log
    var disk: Persistent
    var commitIndex: nat
    var lastApplied: nat
    var leaderState: Option<LeaderState>
    var votesReceived: set<NodeId>
    var electing: Option<nat>
    var applied: seq<Command>

    function View(): Node
      reads this
    {
      Node(role, Persistent(currentTerm, votedFor, log), disk, commitIndex, lastApplied, leaderState,
           votesReceived, electing, applied)
    }

    function PeerSet(): set<NodeId> {
      (set j | j in cluster) - {nodeId}
    }

    /** Between handlers the disk is up to date, and a leader's next indices are positive. */
    predicate Valid()
      reads this
    {
      && disk == Persistent(currentTerm, votedFor, log)
      && (leaderState.Some? ==> forall j | j in leaderState.value.nextIndex :: leaderState.value.nextIndex[j] >= 1)
    }

    constructor (nodeId: NodeId, cluster: seq<NodeId>, disk: Persistent)
      ensures Valid() && View() == Reload(disk)
      ensures this.nodeId == nodeId && this.cluster == cluster
    {
      this.nodeId, this.cluster := nodeId, cluster;
      role, currentTerm, votedFor, log := Follower, disk.currentTerm, disk.votedFor, disk.log;
      this.disk := disk;
      commitIndex, lastApplied, leaderState, votesReceived, electing, applied := 0, 0, None, {}, None, [];
    }

    method SaveState()
      modifies this`disk
      ensures View() == Save(old(View()))
    {
      disk := Persistent(currentTerm, votedFor, log);
    }

    method StepDown(newTerm: nat)
      modifies this
      ensures Valid() && View() == RaftSpec.StepDown(old(View()), newTerm)
    {
      role, currentTerm, votedFor, leaderState := Follower, newTerm, None, None;
      SaveState();
    }

    method StartElection() returns (r: VoteRequest)
      requires Valid()
      modifies this
      ensures Valid() && View() == RaftSpec.StartElection(old(View()), nodeId)
      ensures r == MakeVoteRequest(View(), nodeId)
    {
      role, currentTerm, votedFor, votesReceived := Candidate, currentTerm + 1, Some(nodeId), {nodeId};
      electing := Some(currentTerm);
      SaveState();
      r := VoteRequest(currentTerm, nodeId, LastIndex(log), LastTerm(log));
    }

    method CollectVotes(responses: map<NodeId, Option<bool>>)
      modifies this`votesReceived
      ensures votesReceived == old(votesReceived) + Granted(responses)
    {
      var left := responses.Keys;
      while left != {}
        invariant left <= responses.Keys
        invariant votesReceived == old(votesReceived) + set j | j in Granted(responses) && j !in left
        decreases left
      {
        var j :| j in left;
        if responses[j] == Some(true) {
          votesReceived := votesReceived + {j};
        }
        left := left - {j};
      }
      assert Granted(responses) == set j | j in Granted(responses) && j !in left;
    }

    method CountVotes(responses: map<NodeId, Option<bool>>)
      requires Valid()
      modifies this
      ensures Valid()
      ensures View() == RaftSpec.CountVotes(old(View()), |cluster|, PeerSet(), Granted(responses))
    {
      electing := None;
      CollectVotes(responses);
      if |votesReceived| >= Majority(|cluster|) {
        if role == Candidate {
          BecomeLeader();
        }
      }
    }

    method BecomeLeader()
      requires Valid()
      modifies this
      ensures Valid() && View() == RaftSpec.BecomeLeader(old(View()), PeerSet())
    {
      role := Leader;
      var last := LastIndex(log);
      var nextIndex, matchIndex: map<NodeId, nat> := map[], map[];
      for k := 0 to |cluster|
        invariant nextIndex.Keys == matchIndex.Keys == (set j | j in cluster[..k]) - {nodeId}
        invariant forall j | j in nextIndex :: nextIndex[j] == last + 1
        invariant forall j | j in matchIndex :: matchIndex[j] == 0
      {
        if cluster[k] != nodeId {
          nextIndex := nextIndex[cluster[k] := last + 1];
          matchIndex := matchIndex[cluster[k] := 0];
        }
        assert cluster[..k + 1] == cluster[..k] + [cluster[k]];
      }
      assert cluster[..|cluster|] == cluster;
      leaderState := Some(LeaderState(nextIndex, matchIndex));
      ghost var l := RaftSpec.BecomeLeader(old(View()), PeerSet()).leaderState.value;
      assert nextIndex == l.nextIndex && matchIndex == l.matchIndex;
    }

    method HandleRequestVote(r: VoteRequest) returns (term: nat, granted: bool)
      requires Valid()
      modifies this
      ensures Valid() && View() == RaftSpec.HandleRequestVote(old(View()), r)
      ensures granted == Grants(old(View()), r) && term == currentTerm
    {
      if r.term > currentTerm {
        StepDown(r.term);
      }
      granted := false;
      if r.term >= currentTerm {
        if votedFor == None || votedFor == Some(r.candidate) {
          if r.lastTerm > LastTerm(log) || (r.lastTerm == LastTerm(log) && r.lastIndex >= LastIndex(log)) {
            granted := true;
            votedFor := Some(r.candidate);
            SaveState();
          }
        }
      }
      term := currentTerm;
    }

    /** Performs the AppendEntries transition and replies; only a batch that makes the entry loop raise
        gets no reply, and then no more has changed than on a request without entries. */
    method HandleAppendEntries(r: AppendRequest) returns (reply: Option<(nat, bool)>)
      requires Valid()
      modifies this
      ensures Valid()
      ensures reply == None <==> Accepts(old(View()), r) && Raises(old(log), r.entries)
      ensures reply == None ==> View() == HandleAppend(old(View()), r.(entries := [], leaderCommit := 0))
      ensures reply != None ==> View() == HandleAppend(old(View()), r)
      ensures reply != None ==> reply == Some((currentTerm, Accepts(old(View()), r)))
    {
      if r.term > currentTerm {
        StepDown(r.term);
      }
      if r.term < currentTerm {
        return Some((currentTerm, false));
      }
      if role == Candidate {
        role := Follower;
      }
      if r.prevIndex > 0 {
        if r.prevIndex > |log| || log[r.prevIndex - 1].term != r.prevTerm {
          return Some((currentTerm, false));
        }
      }
      var raised := AcceptEntries(r);
      if raised {
        return None;
      }
      return Some((currentTerm, true));
    }

    /** The part of the handler after the consistency check. */
    method AcceptEntries(r: AppendRequest) returns (raised: bool)
      requires Valid()
      modifies this
      ensures Valid() && raised == Raises(old(log), r.entries)
      ensures View() == if raised then old(View())
                        else AdvanceCommit(MergeEntries(old(View()), r), r.leaderCommit)
    {
      raised := MergeLoop(r.entries);
      if raised {
        return;
      }
      if r.entries != [] {
        SaveState();
      }
      if r.leaderCommit > commitIndex {
        commitIndex := Min(r.leaderCommit, LastIndex(log));
        ApplyCommitted();
      }
    }

    /** The entry loop of the handler: it keeps what agrees and truncates where terms differ. It can raise
        only at the first entry. */
    method MergeLoop(batch: seq<Entry>) returns (raised: bool)
      modifies this`log
      ensures raised == Raises(old(log), batch)
      ensures log == if raised then old(log) else PutEntries(old(log), batch)
    {
      for m := 0 to |batch|
        invariant log == PutEntries(old(log), batch[..m])
        invariant m > 0 ==> log != [] && !Raises(old(log), batch)
      {
        var entry := batch[m];
        if entry.index <= |log| {
          if log == [] {
            return true;
          }
          var at := Position(log, entry.index);
          var existing := log[at];
          if existing.term != entry.term {
            log := log[..at];
            log := log + [entry];
          }
        } else {
          log := log + [entry];
        }
        assert batch[..m + 1][..m] == batch[..m];
      }
      assert batch[..|batch|] == batch;
      return false;
    }

    method ApplyCommitted()
      modifies this`lastApplied, this`applied
      ensures View() == RaftSpec.ApplyCommitted(old(View()))
    {
      ghost var was, from := applied, lastApplied;
      while lastApplied < commitIndex
        invariant from <= lastApplied <= Max(from, commitIndex)
        invariant applied == was + CommandsOf(log[Min(from, |log|)..Min(lastApplied, |log|)])
        decreases commitIndex - lastApplied
      {
        lastApplied := lastApplied + 1;
        if lastApplied <= |log| {
          ghost var done := log[Min(from, |log|)..lastApplied];
          assert CommandsOf(done) == CommandsOf(done[..|done| - 1]) + [log[lastApplied - 1].command];
          assert done[..|done| - 1] == log[Min(from, |log|)..lastApplied - 1];
          applied := applied + [log[lastApplied - 1].command];
        }
      }
    }

    method PrevLogTerm(prevIndex: nat) returns (prevTerm: nat)
      ensures prevTerm == TermAt(log, prevIndex)
    {
      prevTerm := 0;
      if prevIndex > 0 {
        if prevIndex <= |log| {
          prevTerm := log[prevIndex - 1].term;
        }
      }
    }

    method EntriesFrom(next: nat) returns (entries: seq<Entry>)
      requires next >= 1
      ensures entries == Suffix(log, next - 1)
    {
      entries := [];
      if next <= |log| {
        entries := log[next - 1..];
      }
    }

    method MakeAppend(peer: NodeId) returns (r: AppendRequest)
      requires Valid() && leaderState.Some?
      ensures r == RaftSpec.MakeAppend(View(), nodeId, peer)
    {
      var next: nat := 1;
      if peer in leaderState.value.nextIndex {
        next := leaderState.value.nextIndex[peer];
        assert next >= 1;
      }
      var prevTerm := PrevLogTerm(next - 1);
      var entries := EntriesFrom(next);
      r := AppendRequest(currentTerm, nodeId, peer, next - 1, prevTerm, entries, commitIndex);
    }

    method HandleReply(r: AppendReply)
      requires Valid()
      modifies this
      ensures Valid() && View() == RaftSpec.HandleReply(old(View()), r)
    {
      var peer := r.request.dest;
      if r.success {
        if r.request.entries != [] && leaderState.Some? {
          var matched := r.request.prevIndex + |r.request.entries|;
          var l := leaderState.value;
          leaderState := Some(LeaderState(l.nextIndex[peer := matched + 1], l.matchIndex[peer := matched]));
        }
      } else if r.term > currentTerm {
        StepDown(r.term);
      } else if leaderState.Some? {
        var l := leaderState.value;
        leaderState := Some(l.(nextIndex := l.nextIndex[peer := Max(1, r.request.prevIndex)]));
      }
    }

    method CountMatches(k: nat) returns (count: nat)
      requires leaderState.Some?
      ensures count == 1 + |Matched(leaderState.value.matchIndex, k)|
    {
      var m := leaderState.value.matchIndex;
      count := 1;
      var left := m.Keys;
      ghost var seen: set<NodeId> := {};
      while left != {}
        invariant left <= m.Keys && seen == set j | j in m && j !in left && m[j] >= k
        invariant count == 1 + |seen|
        decreases left
      {
        var j :| j in left;
        if m[j] >= k {
          count := count + 1;
          seen := seen + {j};
        }
        left := left - {j};
      }
      assert seen == Matched(m, k);
    }

    method TryCommit()
      requires Valid()
      modifies this
      ensures Valid() && View() == RaftSpec.TryCommit(old(View()), |cluster|)
    {
      if role != Leader || leaderState == None {
        return;
      }
      ghost var n := View();
      var start := commitIndex;
      var k := start + 1;
      while k < |log| + 1
        invariant start < k <= Max(|log|, start) + 1
        invariant View() == n.(commitIndex := CommitPoint(n, |cluster|, k - 1))
      {
        var entry := log[k - 1];
        if entry.term == currentTerm {
          var count := CountMatches(k);
          if count >= Majority(|cluster|) {
            commitIndex := k;
          }
        }
        k := k + 1;
      }
      ApplyCommitted();
    }

    method Propose(command: Command) returns (ok: bool)
      requires Valid()
      modifies this
      ensures Valid() && View() == RaftSpec.Propose(old(View()), command)
      ensures ok == (old(role) == Leader)
    {
      if role != Leader {
        return false;
      }
      log := log + [Entry(currentTerm, |log| + 1, command)];
      SaveState();
      return true;
    }
  }
}
