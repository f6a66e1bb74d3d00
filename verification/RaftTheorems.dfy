/** Election Safety and Log Matching (sections 5.2 and 5.3 of the extended Raft paper): they hold in
    every run, with crashes, and whatever replies the send coroutines consume. */
module RaftTheorems {
  import opened RaftSpec
  import opened Cluster
  import opened RaftInvariant
  import opened RaftPreserved

  lemma NextKeeps(s: State, a: Action)
    requires Invariant(s) && Enabled(s, a)
    ensures Invariant(Next(s, a)) && Shaped(s, a)
  {
    match a
    case StartElectionAt(i) => StartElectionKeeps(s, i);
    case VoteAt(i, r) => VoteKeeps(s, i, r);
    case CountVotesAt(i, granted) => CountVotesKeeps(s, i, granted);
    case SendAppendAt(i, j) => SendAppendKeeps(s, i, j);
    case AppendAt(r) => AppendKeeps(s, r);
    case ReplyAt(r) => ReplyKeeps(s, r);
    case TryCommitAt(i) => TryCommitKeeps(s, i);
    case ProposeAt(i, command) => ProposeKeeps(s, i, command);
    case CrashAt(i, seen) => CrashKeeps(s, i, seen);
  }

  lemma StepKeepsAll(s: State, a: Action, s': State)
    requires Invariant(s) && Step(s, a, s')
    ensures Invariant(s') && |s'.nodes| == |s.nodes| && Later(s.history, s'.history)
  {
    NextKeeps(s, a);
  }

  lemma {:induction false} RunKeeps(size: nat, states: seq<State>, actions: seq<Action>, k: nat)
    requires Run(size, states, actions) && k < |states|
    ensures Invariant(states[k]) && |states[k].nodes| == size
  {
    if k > 0 {
      RunKeeps(size, states, actions, k - 1);
      StepKeepsAll(states[k - 1], actions[k - 1], states[k]);
    }
  }

  lemma LaterTransitive(h0: History, h1: History, h2: History)
    requires Later(h0, h1) && Later(h1, h2)
    ensures Later(h0, h2)
  {
  }

  lemma {:induction false} RunLater(size: nat, states: seq<State>, actions: seq<Action>, a: nat, b: nat)
    requires Run(size, states, actions) && a <= b < |states|
    ensures Invariant(states[a]) && Invariant(states[b]) && Later(states[a].history, states[b].history)
  {
    RunKeeps(size, states, actions, a);
    if a < b {
      RunLater(size, states, actions, a, b - 1);
      StepKeepsAll(states[b - 1], actions[b - 1], states[b]);
      LaterTransitive(states[a].history, states[b - 1].history, states[b].history);
    }
  }

  predicate LeaderIn(s: State, i: NodeId, term: nat) {
    i < |s.nodes| && s.nodes[i].role == Leader && s.nodes[i].persistent.currentTerm == term
  }

  /** Election Safety: over a whole run, a term has at most one leader. */
  lemma ElectionSafety(size: nat, states: seq<State>, actions: seq<Action>, a: nat, b: nat,
                       i: NodeId, j: NodeId, term: nat)
    requires Run(size, states, actions) && a < |states| && b < |states|
    requires LeaderIn(states[a], i, term) && LeaderIn(states[b], j, term)
    ensures i == j
  {
    if a <= b {
      RunLater(size, states, actions, a, b);
    } else {
      RunLater(size, states, actions, b, a);
    }
    assert NodeAt(states[a], i) && NodeAt(states[b], j);
  }

  function LogAt(s: State, i: NodeId): Log
    requires i < |s.nodes|
  {
    s.nodes[i].persistent.log
  }

  lemma WellLoggedLater(size: nat, states: seq<State>, actions: seq<Action>, a: nat, b: nat, i: NodeId)
    requires Run(size, states, actions) && a <= b < |states| && i < |states[a].nodes|
    ensures WellLogged(states[b].history.termLog, LogAt(states[a], i))
  {
    RunLater(size, states, actions, a, b);
    assert NodeAt(states[a], i);
    WellLoggedExtends(states[a].history.termLog, states[b].history.termLog, LogAt(states[a], i));
  }

  /** Log Matching: two logs, of any nodes at any times of a run, that hold entries of one term at
      one position are identical up to it; and an entry's index is its position. */
  lemma LogMatching(size: nat, states: seq<State>, actions: seq<Action>, a: nat, b: nat,
                    i: NodeId, j: NodeId, k: nat)
    requires Run(size, states, actions) && a < |states| && b < |states|
    requires i < |states[a].nodes| && j < |states[b].nodes|
    requires k < |LogAt(states[a], i)| && k < |LogAt(states[b], j)|
    ensures LogAt(states[a], i)[k].index == k + 1
    ensures LogAt(states[a], i)[k].term == LogAt(states[b], j)[k].term ==>
              LogAt(states[a], i)[..k + 1] == LogAt(states[b], j)[..k + 1]
  {
    var m := if a <= b then b else a;
    WellLoggedLater(size, states, actions, a, m, i);
    WellLoggedLater(size, states, actions, b, m, j);
    assert Certified(states[m].history.termLog, LogAt(states[a], i), k);
    if LogAt(states[a], i)[k].term == LogAt(states[b], j)[k].term {
      LogsMatch(states[m].history.termLog, LogAt(states[a], i), LogAt(states[b], j), k);
    }
  }
}
