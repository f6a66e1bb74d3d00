/** Leader Completeness and State Machine Safety. */
module RaftSafety {
  import opened RaftSpec
  import opened Cluster
  import opened RaftInvariant
  import opened RaftPreserved
  import opened RaftTheorems
  import opened RaftCommit
  import opened RaftCommitSteps

  // Sections 5.4.2 and 5.4.3 of the extended Raft paper, for every run in which what leaders write to
  // `matchIndex` is true; a run in which a reply is consumed by the leadership that sent its request is one.

  lemma NextCommits(s: State, a: Action)
    requires CommitInvariant(s) && Enabled(s, a) && Truthful(s, a)
    ensures CommitInvariant(Next(s, a))
  {
    match a
    case StartElectionAt(i) => StartElectionCommits(s, i);
    case VoteAt(i, r) => VoteCommits(s, i, r);
    case CountVotesAt(i, granted) => CountVotesCommits(s, i, granted);
    case SendAppendAt(i, j) => SendAppendCommits(s, i, j);
    case AppendAt(r) => if Accepts(s.nodes[r.dest], r) { AcceptCommits(s, r); } else { RejectCommits(s, r); }
    case ReplyAt(r) => ReplyCommits(s, r);
    case TryCommitAt(i) => TryCommitCommits(s, i);
    case ProposeAt(i, command) => ProposeCommits(s, i, command);
    case CrashAt(i, seen) => CrashCommits(s, i, seen);
  }

  lemma StepCommitsAll(s: State, a: Action, s': State)
    requires CommitInvariant(s) && Step(s, a, s') && Truthful(s, a)
    ensures CommitInvariant(s')
  {
    NextCommits(s, a);
  }

  lemma {:induction false} RunCommits(size: nat, states: seq<State>, actions: seq<Action>, k: nat)
    requires Run(size, states, actions) && AllTruthful(states, actions) && k < |states|
    ensures CommitInvariant(states[k]) && |states[k].nodes| == size
  {
    if k > 0 {
      RunCommits(size, states, actions, k - 1);
      StepCommitsAll(states[k - 1], actions[k - 1], states[k]);
      RunKeeps(size, states, actions, k);
    }
  }

  /** Over a whole run the commit invariant holds throughout if and only if every reply consumed by a
      leader is truthful. */
  lemma InvariantIffTruthful(size: nat, states: seq<State>, actions: seq<Action>)
    requires Run(size, states, actions)
    ensures (forall k | 0 <= k < |states| :: CommitInvariant(states[k])) <==> AllTruthful(states, actions)
  {
    if AllTruthful(states, actions) {
      forall k | 0 <= k < |states|
        ensures CommitInvariant(states[k])
      {
        RunCommits(size, states, actions, k);
      }
    } else if forall k | 0 <= k < |states| :: CommitInvariant(states[k]) {
      var k :| 0 <= k < |actions| && !Truthful(states[k], actions[k]);
      assert Step(states[k], actions[k], states[k + 1]);
      TruthfulIff(states[k], actions[k].reply);
    }
  }

  /** What a caller can check: a run whose replies are consumed by the leaderships that sent the
      requests is truthful. */
  lemma DisciplinedIsTruthful(size: nat, states: seq<State>, actions: seq<Action>)
    requires Run(size, states, actions) && Disciplined(states, actions)
    ensures AllTruthful(states, actions)
  {
    forall k | 0 <= k < |actions|
      ensures Truthful(states[k], actions[k])
    {
      DisciplinedSoFar(size, states, actions, k);
      assert Step(states[k], actions[k], states[k + 1]);
      OwnReplyIsTruthful(states[k], actions[k]);
    }
  }

  lemma {:induction false} DisciplinedSoFar(size: nat, states: seq<State>, actions: seq<Action>, k: nat)
    requires Run(size, states, actions) && Disciplined(states, actions) && k < |states|
    ensures CommitInvariant(states[k])
  {
    if k > 0 {
      DisciplinedSoFar(size, states, actions, k - 1);
      OwnReplyIsTruthful(states[k - 1], actions[k - 1]);
      StepCommitsAll(states[k - 1], actions[k - 1], states[k]);
    }
  }

  function CommittedLog(s: State, i: NodeId): Log
    requires i < |s.nodes| && s.nodes[i].commitIndex <= |LogAt(s, i)|
  {
    LogAt(s, i)[..s.nodes[i].commitIndex]
  }

  lemma CommittedAt(size: nat, states: seq<State>, actions: seq<Action>, a: nat, m: nat, i: NodeId)
    requires Run(size, states, actions) && AllTruthful(states, actions) && a <= m < |states| && i < size
    ensures i < |states[a].nodes| && states[a].nodes[i].commitIndex <= |LogAt(states[a], i)|
    ensures Committed(states[m].history, size, CommittedLog(states[a], i), states[a].nodes[i].persistent.currentTerm)
  {
    RunCommits(size, states, actions, a);
    assert NodeCommitted(states[a], i);
    RunLater(size, states, actions, a, m);
    var t := states[a].nodes[i].persistent.currentTerm;
    CommittedLater(states[a].history, states[m].history, size, CommittedLog(states[a], i), t, t);
  }

  lemma ElectedHasCommitted(s: State, log: Log, t: nat, u: nat)
    requires CommitInvariant(s) && Committed(s.history, |s.nodes|, log, t)
    requires u in s.history.leaderOf && t < u
    ensures log <= s.history.electLog[u]
  {
    var h := s.history;
    if log != [] {
      var w: nat, n: nat, q :| w <= t && CommittedAs(h, |s.nodes|, log, w, n, q);
      ElectedWithChosen(s, w, n, q, u);
      assert log <= h.termLog[w][..n];
    }
  }

  // ---------- committed entries stay ----------

  /** The node holds the log, and it is committed. */
  ghost predicate Holds(s: State, i: NodeId, log: Log) {
    && i < |s.nodes|
    && log <= LogAt(s, i)
    && Committed(s.history, |s.nodes|, log, s.nodes[i].persistent.currentTerm)
  }

  lemma AppendHolds(s: State, r: AppendRequest, log: Log)
    requires CommitInvariant(s) && Enabled(s, AppendAt(r)) && Holds(s, r.dest, log)
    ensures log <= HandleAppend(s.nodes[r.dest], r).persistent.log
  {
    var i, n := r.dest, s.nodes[r.dest];
    assert NodeAt(s, i);
    AppendShape(n, r);
    if Accepts(n, r) {
      AcceptTakesOver(s, r);
      assert log == LogAt(s, i)[..|log|];
      SnapshotKeepsCommitted(s, LogAt(s, i), HandleAppend(n, r).persistent.log, r, |log|, n.persistent.currentTerm);
    }
  }

  /** Apart from an AppendEntries request, nothing ever shortens the log of the node that acts. */
  lemma ActorKeepsLog(s: State, a: Action)
    requires Enabled(s, a) && !a.AppendAt? && s.nodes[Actor(a)].disk == s.nodes[Actor(a)].persistent
    ensures Actor(a) < |Next(s, a).nodes| && LogAt(s, Actor(a)) <= LogAt(Next(s, a), Actor(a))
  {
    match a
    case TryCommitAt(i) => TryCommitShape(s.nodes[i], |s.nodes|);
    case ReplyAt(r) => ReplyCounters(s.nodes[r.request.leader], r);
    case _ =>
  }

  lemma LogStays(s: State, a: Action, i: NodeId, log: Log)
    requires CommitInvariant(s) && Enabled(s, a) && Holds(s, i, log)
    ensures i < |Next(s, a).nodes| && log <= LogAt(Next(s, a), i)
  {
    assert NodeAt(s, i);
    if a.AppendAt? && a.append.dest == i {
      AppendHolds(s, a.append, log);
    } else if i == Actor(a) {
      ActorKeepsLog(s, a);
    }
  }

  /** Terms never decrease and history only grows, crashes included. */
  lemma StepGrows(s: State, a: Action, i: NodeId)
    requires Invariant(s) && Enabled(s, a) && i < |s.nodes|
    ensures |Next(s, a).nodes| == |s.nodes| && Later(s.history, Next(s, a).history)
    ensures s.nodes[i].persistent.currentTerm <= Next(s, a).nodes[i].persistent.currentTerm
  {
    NextKeeps(s, a);
  }

  lemma StepHolds(s: State, a: Action, s': State, i: NodeId, log: Log)
    requires CommitInvariant(s) && Step(s, a, s') && Holds(s, i, log)
    ensures Holds(s', i, log)
  {
    LogStays(s, a, i, log);
    StepGrows(s, a, i);
    var t, t' := s.nodes[i].persistent.currentTerm, s'.nodes[i].persistent.currentTerm;
    CommittedLater(s.history, s'.history, |s.nodes|, log, t, t');
  }

  lemma RunStepHolds(size: nat, states: seq<State>, actions: seq<Action>, b: nat, i: NodeId, log: Log)
    requires Run(size, states, actions) && AllTruthful(states, actions) && 0 < b < |states|
    requires Holds(states[b - 1], i, log)
    ensures Holds(states[b], i, log)
  {
    RunCommits(size, states, actions, b - 1);
    StepHolds(states[b - 1], actions[b - 1], states[b], i, log);
  }

  lemma {:induction false} RunHolds(size: nat, states: seq<State>, actions: seq<Action>, a: nat, b: nat,
                                    i: NodeId, log: Log)
    requires Run(size, states, actions) && AllTruthful(states, actions) && a <= b < |states|
    requires Holds(states[a], i, log)
    ensures Holds(states[b], i, log)
  {
    if a == b {
      assert states[b] == states[a];
    } else {
      RunHolds(size, states, actions, a, b - 1, i, log);
      RunStepHolds(size, states, actions, b, i, log);
    }
  }

  // ---------- the theorems ----------

  /** In every run, at every node: what is committed is in the log and applied, the state machine was
      handed exactly the committed entries in order, and the disk is up to date. */
  lemma IndexBounds(size: nat, states: seq<State>, actions: seq<Action>, a: nat, i: NodeId)
    requires Run(size, states, actions) && AllTruthful(states, actions) && a < |states| && i < size
    ensures i < |states[a].nodes|
    ensures var n := states[a].nodes[i];
            && n.lastApplied == n.commitIndex <= |n.persistent.log|
            && n.applied == CommandsOf(n.persistent.log[..n.commitIndex])
            && n.disk == n.persistent
  {
    RunCommits(size, states, actions, a);
    assert NodeCommitted(states[a], i) && NodeAt(states[a], i);
  }

  /** Leader Completeness: what any node holds committed at any time is in the log of every leader of
      a later term, whenever that leader is looked at. */
  lemma LeaderCompleteness(size: nat, states: seq<State>, actions: seq<Action>, a: nat, b: nat, i: NodeId, j: NodeId)
    requires Run(size, states, actions) && AllTruthful(states, actions)
    requires a < |states| && b < |states| && i < size
    requires j < |states[b].nodes| && states[b].nodes[j].role == Leader
    ensures i < |states[a].nodes| && states[a].nodes[i].commitIndex <= |LogAt(states[a], i)|
    ensures states[a].nodes[i].persistent.currentTerm < states[b].nodes[j].persistent.currentTerm ==>
              CommittedLog(states[a], i) <= LogAt(states[b], j)
  {
    var m := if a <= b then b else a;
    CommittedAt(size, states, actions, a, m, i);
    RunCommits(size, states, actions, m);
    RunLater(size, states, actions, b, m);
    var t, u := states[a].nodes[i].persistent.currentTerm, states[b].nodes[j].persistent.currentTerm;
    assert NodeAt(states[b], j) && TermOk(states[b], u);
    if t < u {
      ElectedHasCommitted(states[m], CommittedLog(states[a], i), t, u);
    }
  }

  /** State Machine Safety: over a whole run, with crashes, no two nodes ever apply different commands
      at one position. */
  lemma StateMachineSafety(size: nat, states: seq<State>, actions: seq<Action>, a: nat, b: nat,
                           i: NodeId, j: NodeId, k: nat)
    requires Run(size, states, actions) && AllTruthful(states, actions)
    requires a < |states| && b < |states| && i < |states[a].nodes| && j < |states[b].nodes|
    requires k < |states[a].nodes[i].applied| && k < |states[b].nodes[j].applied|
    ensures states[a].nodes[i].applied[k] == states[b].nodes[j].applied[k]
  {
    var m := if a <= b then b else a;
    RunCommits(size, states, actions, a);
    RunCommits(size, states, actions, b);
    RunCommits(size, states, actions, m);
    CommittedAt(size, states, actions, a, m, i);
    CommittedAt(size, states, actions, b, m, j);
    var x, y := CommittedLog(states[a], i), CommittedLog(states[b], j);
    CommittedAgree(states[m], x, states[a].nodes[i].persistent.currentTerm,
                   y, states[b].nodes[j].persistent.currentTerm);
    AppliedIsCommitted(size, states, actions, a, i, k);
    AppliedIsCommitted(size, states, actions, b, j, k);
  }

  lemma AppliedIsCommitted(size: nat, states: seq<State>, actions: seq<Action>, a: nat, i: NodeId, k: nat)
    requires Run(size, states, actions) && AllTruthful(states, actions) && a < |states|
    requires i < |states[a].nodes| == size && k < |states[a].nodes[i].applied|
    ensures states[a].nodes[i].commitIndex <= |LogAt(states[a], i)| && k < states[a].nodes[i].commitIndex
    ensures states[a].nodes[i].applied[k] == CommittedLog(states[a], i)[k].command
  {
    IndexBounds(size, states, actions, a, i);
  }

  /** No entry a node ever held committed is truncated later, not even after a crash has made it
      forget its commit index. */
  lemma CommittedNeverTruncated(size: nat, states: seq<State>, actions: seq<Action>, a: nat, b: nat, i: NodeId)
    requires Run(size, states, actions) && AllTruthful(states, actions) && a <= b < |states|
    requires i < size
    ensures i < |states[a].nodes| && states[a].nodes[i].commitIndex <= |LogAt(states[a], i)|
    ensures i < |states[b].nodes| && CommittedLog(states[a], i) <= LogAt(states[b], i)
  {
    RunCommits(size, states, actions, a);
    CommittedAt(size, states, actions, a, a, i);
    RunHolds(size, states, actions, a, b, i, CommittedLog(states[a], i));
  }

  // ---------- AppendEntries over a run ----------

  /** Every request ever in flight is contiguous, so the loop merges it as above. */
  lemma RequestsContiguous(size: nat, states: seq<State>, actions: seq<Action>, a: nat, r: AppendRequest)
    requires Run(size, states, actions) && a < |states| && AppendMsg(r) in states[a].net
    ensures Contiguous(r.prevIndex, r.entries)
  {
    RunKeeps(size, states, actions, a);
    var s := states[a];
    assert MessageOk(s, AppendMsg(r)) && TermOk(s, r.term);
    if r.entries != [] {
      CutIsContiguous(s.history.termLog, s.history.termLog[r.term], r.prevIndex, r.entries);
    }
  }

  lemma FollowerTakesOver(size: nat, states: seq<State>, actions: seq<Action>, a: nat, b: nat,
                          i: NodeId, j: NodeId, r: AppendRequest)
    requires Run(size, states, actions) && AllTruthful(states, actions) && a < b < |actions|
    requires actions[a] == SendAppendAt(i, j) && Enabled(states[a], actions[a])
    requires r == MakeAppend(states[a].nodes[i], i, j) && actions[b] == AppendAt(r)
    requires Enabled(states[b], actions[b]) && Accepts(states[b].nodes[j], r)
    ensures j < |states[b + 1].nodes| && LogAt(states[a], i) <= LogAt(states[b + 1], j)
    ensures states[b + 1].nodes[j].commitIndex == Max(states[b].nodes[j].commitIndex, r.leaderCommit)
    ensures r.leaderCommit <= |LogAt(states[a], i)|
  {
    assert Step(states[b], actions[b], states[b + 1]);
    RunLater(size, states, actions, a, b);
    assert NodeAt(states[a], i);
    RunCommits(size, states, actions, b);
    RunKeeps(size, states, actions, a);
    IndexBounds(size, states, actions, a, i);
    AcceptTakesOver(states[b], r);
    AcceptedIsMatchable(states[b], r);
    LastIndexIsLength(states[b].history.termLog, LogAt(states[b + 1], j));
    CommitRises(states[b].nodes[j], r);
  }

  lemma FrontCommands(sent: Log, log: Log, c: nat, k: nat)
    requires sent <= log && c <= |sent| && c <= k <= |log|
    ensures CommandsOf(sent[..c]) <= CommandsOf(log[..k])
    ensures k <= |sent| ==> CommandsOf(log[..k]) == CommandsOf(sent[..k])
  {
  }

  /** Follower commit is safe although it takes the minimum with its own last index: a follower that
      accepts a request holds the leader's whole log as it was when the request was sent, its commit
      index rises to exactly the leader's, and it has handed its state machine the leader's committed
      commands and, as far as that log goes, nothing but the leader's. */
  lemma FollowerCommit(size: nat, states: seq<State>, actions: seq<Action>, a: nat, b: nat,
                       i: NodeId, j: NodeId, r: AppendRequest)
    requires Run(size, states, actions) && AllTruthful(states, actions) && a < b < |actions|
    requires actions[a] == SendAppendAt(i, j) && Enabled(states[a], actions[a])
    requires r == MakeAppend(states[a].nodes[i], i, j) && actions[b] == AppendAt(r)
    requires Enabled(states[b], actions[b]) && Accepts(states[b].nodes[j], r)
    ensures j < |states[b + 1].nodes| && LogAt(states[a], i) <= LogAt(states[b + 1], j)
    ensures var sent, c, n := LogAt(states[a], i), states[a].nodes[i].commitIndex, states[b + 1].nodes[j];
            && n.commitIndex == Max(states[b].nodes[j].commitIndex, c) && c <= |sent|
            && CommandsOf(sent[..c]) <= n.applied
            && (n.commitIndex <= |sent| ==> n.applied == CommandsOf(sent[..n.commitIndex]))
  {
    FollowerTakesOver(size, states, actions, a, b, i, j, r);
    RunKeeps(size, states, actions, b);
    IndexBounds(size, states, actions, b + 1, j);
    FrontCommands(LogAt(states[a], i), LogAt(states[b + 1], j), states[a].nodes[i].commitIndex,
                  states[b + 1].nodes[j].commitIndex);
  }

  lemma CommitRises(n: Node, r: AppendRequest)
    requires Accepts(n, r) && r.leaderCommit <= LastIndex(MergeEntries(n, r).persistent.log)
    ensures HandleAppend(n, r).commitIndex == Max(n.commitIndex, r.leaderCommit)
  {
    var merged := AcceptIsMergeThenAdvance(n, r);
  }
}
