/** Nothing is invented: whatever a log, a request or a state machine holds was proposed, and as it was
    proposed. */
module RaftOrigin {
  import opened Commands
  import opened RaftSpec
  import opened Cluster
  import opened RaftInvariant
  import opened RaftPreserved
  import opened RaftTheorems
  import opened RaftSafety

  /** The action proposes the entry: its command, in the leader's term, at the leader's next index. */
  predicate Proposes(s: State, a: Action, e: Entry) {
    && a.ProposeAt? && a.node < |s.nodes| && s.nodes[a.node].role == Leader
    && e == Entry(s.nodes[a.node].persistent.currentTerm, |LogAt(s, a.node)| + 1, a.command)
  }

  ghost predicate Proposed(states: seq<State>, actions: seq<Action>, k: nat, e: Entry) {
    k <= |actions| < |states| && exists m :: 0 <= m < k && Proposes(states[m], actions[m], e)
  }

  ghost predicate AllProposed(states: seq<State>, actions: seq<Action>, k: nat, log: Log) {
    forall e {:trigger Proposed(states, actions, k, e)} | e in log :: Proposed(states, actions, k, e)
  }

  ghost predicate RequestProposed(states: seq<State>, actions: seq<Action>, k: nat, m: Message) {
    m.AppendMsg? ==> AllProposed(states, actions, k, m.append.entries)
  }

  ghost predicate Origins(states: seq<State>, actions: seq<Action>, k: nat) {
    && k < |states|
    && (forall i {:trigger LogAt(states[k], i)} | 0 <= i < |states[k].nodes| ::
          AllProposed(states, actions, k, LogAt(states[k], i)))
    && (forall m {:trigger RequestProposed(states, actions, k, m)} | m in states[k].net ::
          RequestProposed(states, actions, k, m))
  }

  lemma ProposedLater(states: seq<State>, actions: seq<Action>, k: nat, log: Log)
    requires AllProposed(states, actions, k, log) && k < |actions| < |states|
    ensures AllProposed(states, actions, k + 1, log)
  {
    forall e | e in log
      ensures Proposed(states, actions, k + 1, e)
    {
      assert Proposed(states, actions, k, e);
    }
  }

  lemma {:induction false} PutMembers(log: Log, batch: seq<Entry>, e: Entry)
    requires e in PutEntries(log, batch)
    ensures e in log || e in batch
  {
    if batch != [] {
      var init, last := batch[..|batch| - 1], batch[|batch| - 1];
      assert batch == init + [last];
      if e in PutEntries(log, init) {
        PutMembers(log, init, e);
      }
    }
  }

  /** Where a node's entries come from in one step. */
  lemma EntrySource(s: State, a: Action, i: NodeId, e: Entry)
    requires Invariant(s) && Enabled(s, a) && i < |Next(s, a).nodes| && e in LogAt(Next(s, a), i)
    ensures i < |s.nodes|
    ensures || e in LogAt(s, i) || Proposes(s, a, e)
            || (a.AppendAt? && e in a.append.entries && AppendMsg(a.append) in s.net)
  {
    if i == Actor(a) {
      assert NodeAt(s, i);
      match a
      case AppendAt(r) =>
        AppendShape(s.nodes[i], r);
        if Accepts(s.nodes[i], r) && r.entries != [] {
          PutMembers(LogAt(s, i), r.entries, e);
        }
      case TryCommitAt(_) => TryCommitShape(s.nodes[i], |s.nodes|);
      case _ =>
    }
  }

  lemma LogOrigins(states: seq<State>, actions: seq<Action>, k: nat, i: NodeId, e: Entry)
    requires k < |actions| < |states| && Invariant(states[k]) && Step(states[k], actions[k], states[k + 1])
    requires Origins(states, actions, k) && i < |states[k + 1].nodes| && e in LogAt(states[k + 1], i)
    ensures Proposed(states, actions, k + 1, e)
  {
    var s, a := states[k], actions[k];
    EntrySource(s, a, i, e);
    if e in LogAt(s, i) {
      assert Proposed(states, actions, k, e);
    } else if !Proposes(s, a, e) {
      assert RequestProposed(states, actions, k, AppendMsg(a.append));
      assert Proposed(states, actions, k, e);
    }
  }

  lemma RequestOrigins(states: seq<State>, actions: seq<Action>, k: nat, m: Message)
    requires k < |actions| < |states| && Invariant(states[k]) && Step(states[k], actions[k], states[k + 1])
    requires Origins(states, actions, k) && m in states[k + 1].net
    ensures RequestProposed(states, actions, k + 1, m)
  {
    var s, a := states[k], actions[k];
    if m.AppendMsg? {
      if m in s.net {
        assert RequestProposed(states, actions, k, m);
      } else {
        assert a.SendAppendAt? && m.append == MakeAppend(s.nodes[a.node], a.node, a.peer);
        forall e | e in m.append.entries
          ensures Proposed(states, actions, k, e)
        {
          assert e in LogAt(s, a.node);
        }
      }
      ProposedLater(states, actions, k, m.append.entries);
    }
  }

  lemma NodesOrigins(states: seq<State>, actions: seq<Action>, k: nat, i: NodeId)
    requires 0 < k <= |actions| < |states|
    requires Invariant(states[k - 1]) && Step(states[k - 1], actions[k - 1], states[k])
    requires Origins(states, actions, k - 1) && i < |states[k].nodes|
    ensures AllProposed(states, actions, k, LogAt(states[k], i))
  {
    forall e | e in LogAt(states[k], i)
      ensures Proposed(states, actions, k, e)
    {
      LogOrigins(states, actions, k - 1, i, e);
    }
  }

  lemma {:induction false} RunOrigins(size: nat, states: seq<State>, actions: seq<Action>, k: nat)
    requires Run(size, states, actions) && k < |states|
    ensures Origins(states, actions, k)
  {
    if k > 0 {
      RunOrigins(size, states, actions, k - 1);
      RunKeeps(size, states, actions, k - 1);
      assert Step(states[k - 1], actions[k - 1], states[k]);
      forall i | 0 <= i < |states[k].nodes|
        ensures AllProposed(states, actions, k, LogAt(states[k], i))
      {
        NodesOrigins(states, actions, k, i);
      }
      forall m | m in states[k].net
        ensures RequestProposed(states, actions, k, m)
      {
        RequestOrigins(states, actions, k - 1, m);
      }
    }
  }

  /** Every entry in any node's log, at any time of any run, was proposed earlier, by a leader of the
      entry's term, with this command and at this index. */
  lemma EntriesWereProposed(size: nat, states: seq<State>, actions: seq<Action>, a: nat, i: NodeId, k: nat)
    requires Run(size, states, actions) && a < |states|
    requires i < |states[a].nodes| && k < |LogAt(states[a], i)|
    ensures Proposed(states, actions, a, LogAt(states[a], i)[k])
  {
    RunOrigins(size, states, actions, a);
    assert LogAt(states[a], i)[k] in LogAt(states[a], i);
  }

  /** So no state machine is handed a command that no leader was given. */
  lemma AppliedWasProposed(size: nat, states: seq<State>, actions: seq<Action>, a: nat, i: NodeId, k: nat)
    requires Run(size, states, actions) && AllTruthful(states, actions) && a < |states| && i < |states[a].nodes|
    requires k < |states[a].nodes[i].applied|
    ensures exists m, j :: 0 <= m < a && actions[m] == ProposeAt(j, states[a].nodes[i].applied[k])
  {
    RunKeeps(size, states, actions, a);
    IndexBounds(size, states, actions, a, i);
    EntriesWereProposed(size, states, actions, a, i, k);
    var e := LogAt(states[a], i)[k];
    var m :| 0 <= m < a && Proposes(states[m], actions[m], e);
    assert actions[m] == ProposeAt(actions[m].node, states[a].nodes[i].applied[k]);
  }

  /** And a proposal to a leader is there at once, behind everything else. */
  lemma ProposalIsLast(s: State, i: NodeId, command: Command)
    requires Enabled(s, ProposeAt(i, command)) && s.nodes[i].role == Leader
    ensures var s', t := Next(s, ProposeAt(i, command)), s.nodes[i].persistent.currentTerm;
            && i < |s'.nodes| && LogAt(s', i) == LogAt(s, i) + [Entry(t, |LogAt(s, i)| + 1, command)]
            && s'.nodes[i].disk.log == LogAt(s', i)
  {
  }
}
