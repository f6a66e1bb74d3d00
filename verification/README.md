# Distributed lock, queue and consensus service: a verified model

This project models the parts of the system whose correctness cannot be read off one function, and
proves what they promise.

* **Raft.** Each node is an object whose handlers update term, vote, log, commit index and leader
  state in place (`RaftNode`). Every handler is proved to perform a pure transition (`RaftSpec`), and
  a cluster of such nodes takes these transitions one at a time over a network that keeps every
  message ever sent, so delay, loss, reordering and duplication are all covered, with crashes that
  lose everything but the saved state, between handlers or inside one (`Cluster`); the objects
  themselves are taken through any run of it (`RaftCluster`). On top stand
  Election Safety and Log Matching, which hold in every run, and Leader Completeness, State Machine
  Safety and "committed entries are never truncated", which hold in every run in which what a leader
  writes to `match_index` is true; in those runs every node applies all it has committed. In every run
  nothing is applied or logged that was not proposed, and a leader repairs any log within as many rounds
  as its next index says. The condition on replies is exactly what keeps the invariant behind them, and
  a complete run of five nodes shows that the code can break it.
* **Locks.** The command handler that Raft drives: lock table, waiting queues, wait-for graph and the
  recursive depth-first search with its shared `visited` and `path`. The search is proved exact, every
  command sequence keeps the lock table sound and the graph acyclic, a `DEADLOCK` answer always names
  a real circle, and replicas that applied equally much are in the same state, whatever order a
  Python set is walked in and whatever the local clocks say. Queues are first come, first served: the
  queue is at all times the end of the sequence of requests answered `WAITING`. Detection is not complete in every
  state; it is proved complete in exactly those in which the wait-for graph follows every real block,
  and as long as no command loses an edge, with the exact condition for each command.
* **Ring.** Consistent hashing with virtual nodes: a canonical ring, the wrap-around loop and its
  termination, answers in the order of the members' first points clockwise from the key, and minimal
  redistribution of every key's full preference list.
* **Membership.** The heartbeat failure detector and the ring it drives, including the callback that a
  heartbeat only schedules, with the exact condition, over whole runs, under which the ring becomes
  the cluster without its dead nodes.
* **Message store.** Queues over a message table with one file a queue, restarted from its files in any
  directory order; over every run the pending ids are the added and not acknowledged ones, in order.

Node ids of the cluster model are positions in the configured node list. Strings stay strings; clock
readings are real-valued parameters; MD5 is a parameter that takes no two virtual keys of the nodes a
ring is given to one point, and for queue file names the files are a map from queue names.

## The condition on replies

The code after the suspension at `src/consensus/raft.py:296` writes `match_index` without looking at
the term again (`src/consensus/raft.py:298-302`). `Cluster.Truthful` says what is then needed: when a
leader consumes a reply that reports success for a non-empty batch, the peer has held that much of
the log of the leader's current term. `RaftCommitSteps.TruthfulIff` shows that consuming a reply keeps
the commit invariant if and only if this holds, and `RaftSafety.InvariantIffTruthful` says the same of
whole runs. That equivalence is about the invariant, which itself says that recorded matches are true,
so it locates the code's assumption and no more; State Machine Safety follows from the condition one
way, and an untrue reply need not violate it. The commit theorems are stated for all such runs.
Election Safety and Log Matching need no condition.

What a caller can check before the call is `Cluster.SameLeadership`: the node, if it is a leader, is
still the leader of the term in which it sent the request. `RaftSafety.DisciplinedIsTruthful` shows
that this is enough. Replies that arrive after a step-down, refusals of any age, lost and repeated
replies are allowed by both, and stale replies that happen to be true of the new leadership by the
first. `StaleReply.SafetyNeedsTruthfulReplies` builds a run in which an untrue one is consumed and
which ends with two nodes that applied different commands at one position.

## Where the code differs from what is written about it

* `report.md:92` lets a candidate that discovers a higher term become a follower. A candidate that
  reads a higher term in a vote reply ignores it (`src/consensus/raft.py:223-225`); the model does too.
* Figure 2 of the extended Raft paper takes the minimum of the leader's commit index and the last *new*
  entry. The code takes the follower's own last index (`src/consensus/raft.py:437`). That is safe
  because every request carries the leader's whole suffix: `RaftSafety.FollowerCommit`.
* `report.md:100` promises exclusive access to exclusive locks. A shared holder that asks for exclusive
  use is answered ACQUIRED and the lock stays shared (`src/nodes/lock_manager.py:165-170`);
  `LockInvariants.ExclusiveIff` says exactly when that happens, `LockInvariants.UpgradeStaysShared`
  that it does.
* `report.md:266-269` describes detection on every request. Edges are not renewed when a queue is
  served, so real circles can go unnoticed: `MissedDeadlock.DetectionIsIncomplete`.
  `DeadlockCompleteness.CompleteIff` says in exactly which states every verdict is right, and
  `DeadlockCompleteness.SeenIff` which commands lose an edge.
* A heartbeat of a dead node only schedules its return to the ring
  (`src/communication/failure_detector.py:60-62`). A check that runs first and finds the node dead
  again is undone by the late return: `Membership.LateCallback`. `Membership.RunExactIff` has the exact
  condition.
* An entry index of zero makes the entry loop look at the end of the log, or raise when there is none
  (`src/consensus/raft.py:423-424`); the handler is modelled for every batch, and no request in flight
  has such an index: `RaftSafety.RequestsContiguous`.
* `get_pending` with a limit below one still returns one message (`src/nodes/queue_node.py:165-173`).

## Model

| member | source | states |
|---|---|---|
| RaftTheorems.ElectionSafety | src/consensus/raft.py:197-231 | over a whole run, with crashes and restarts, two leaders of one term are the same node |
| RaftTheorems.LogMatching | src/consensus/raft.py:385-433 | entries of one term at one index, in any two logs at any two times of a run, come with identical logs up to there; an entry's index is its position |
| RaftTheorems.NextKeeps | src/consensus/raft.py:197-463 | every step of any node, with any reply consumed, keeps the inductive invariant behind both and only extends what the run has recorded |
| RaftTheorems.RunKeeps | src/consensus/raft.py:197-463 | the invariant holds after every prefix of every run |
| RaftSafety.LeaderCompleteness | src/consensus/raft.py:353-376 | what any node ever held committed is in the log of every leader of a later term |
| RaftSafety.StateMachineSafety | src/consensus/raft.py:330-336 | no two nodes, at any times of a run, apply different commands at one position |
| RaftSafety.CommittedNeverTruncated | src/consensus/raft.py:420-433 | an entry once committed at a node stays in that node's log, also across crashes that forget the commit index |
| RaftSafety.IndexBounds | src/consensus/raft.py:311-336 | at every node at all times everything committed is applied: the two counters are equal and within the log, the state machine got exactly the committed entries in order, and the disk is up to date |
| RaftSafety.NextCommits | src/consensus/raft.py:197-463 | every step that consumes no untrue reply keeps the commit invariant |
| RaftCommitSteps.TruthfulIff | src/consensus/raft.py:296-302 | consuming a reply keeps the commit invariant if and only if what it makes a leader write to `match_index` is true |
| RaftSafety.InvariantIffTruthful | src/consensus/raft.py:296-302 | over a whole run the commit invariant holds throughout if and only if every reply a leader consumes is true in that sense |
| RaftSafety.DisciplinedIsTruthful | src/consensus/raft.py:296-302 | a run in which replies are consumed by the leadership that sent the request is such a run |
| RaftSafety.ActorKeepsLog | src/consensus/raft.py:338-383 | apart from AppendEntries no handler and no crash shortens a log |
| RaftCommit.ElectedWithChosen | src/consensus/raft.py:353-376 | entries a majority acknowledged in one term are in the elected log of every later term's leader |
| RaftCommit.CommittedAgree | src/consensus/raft.py:311-326 | of two committed logs one is a prefix of the other |
| RaftCommitSteps.SupportedIsChosen | src/consensus/raft.py:315-326 | an index the commit rule accepts was acknowledged by a majority in the leader's own term |
| RaftCommitSteps.VotePromise | src/consensus/raft.py:365-375 | a granted vote promises that the candidate keeps all the voter acknowledged, unless a leader in between lacked it |
| RaftCommitSteps.UpToDateKeeps | src/consensus/raft.py:368-371 | the up-to-date comparison of last terms and last indices is enough for that promise |
| RaftCommitSteps.ReplyLeader | src/consensus/raft.py:298-307 | what a leader records about a peer is at most what the peer acknowledged in its term |
| RaftPreserved.AcceptTakesOver | src/consensus/raft.py:410-433 | an accepted request leaves the follower with the leader's log as sent in front; its log is unchanged or becomes exactly that |
| RaftSpec.MergeIs | src/consensus/raft.py:420-429 | for any log and any contiguous batch, the entry-by-entry loop leaves the log unchanged if every entry agrees by term, else the prefix up to the first disagreement or the log's end, followed by the rest of the batch |
| RaftSpec.LateBatch | src/consensus/raft.py:420-429 | redelivering the batch, or any older and shorter part of it, changes nothing |
| RaftSafety.FollowerCommit | src/consensus/raft.py:435-438 | after success the follower holds the leader's log as it was when sent, its commit index is the greater of its own and the leader's, and it has applied the leader's committed commands and, as far as that log goes, the leader's only |
| RaftSafety.RequestsContiguous | src/consensus/raft.py:279-293 | the indices in every request ever in flight continue from its previous index, so the loop merges it that way |
| RaftOrigin.EntriesWereProposed | src/consensus/raft.py:447-458 | every entry of any log at any time of any run was proposed earlier, by a leader of its term, with its command and at its index |
| RaftOrigin.AppliedWasProposed | src/consensus/raft.py:330-336 | no state machine is handed a command that no leader was given |
| RaftRepair.RunRepair | src/consensus/raft.py:264-307 | at any time of any run at most `next_index` rounds of request, answer and reply between a leader and any node of no higher term end with the leader's whole log in front of that node's |
| RaftRepair.Repair | src/consensus/raft.py:264-307 | the same from any state that meets the invariant, whatever the two logs are |
| RaftRepair.NextRequest | src/consensus/raft.py:268-294 | a request carries all of the leader's log from the next index on, says truly what comes before, and carries the leader's commit index |
| RaftRepair.AcceptedIff | src/consensus/raft.py:410-418 | a request in flight of no lower term is accepted exactly when the two logs are the same before its entries |
| RaftRepair.Refusal | src/consensus/raft.py:306-307 | a refusal of no higher term makes the next request start exactly one entry earlier and changes nothing else; a request from the first entry is never refused |
| RaftRepair.HigherTermDeposes | src/consensus/raft.py:303-305 | a refusal of a higher term leaves a follower in that term, without a vote, with its log, all saved |
| RaftRepair.Success | src/consensus/raft.py:298-302 | success of a batch records its end as matched and continues behind it |
| RaftVotes.VoteIff | src/consensus/raft.py:353-383 | a vote is granted exactly when the candidate's log is up to date and the term is new to the node, or is its own and no other candidate has its vote |
| RaftVotes.AskedAgain | src/consensus/raft.py:365-375 | the same candidate asking again gets the vote again and nothing changes |
| RaftVotes.OneVote | src/consensus/raft.py:365-375 | after a vote every other candidate of that or an earlier term is refused |
| RaftVotes.EitherIsUpToDate | src/consensus/raft.py:368-371 | of any two logs the owner of one can get the vote of the other's, both exactly when they end alike |
| RaftVotes.TermsRule | src/consensus/raft.py:338-403 | a request of a higher term makes any node a follower in it, saved; one of a lower term is refused and changes nothing |
| RaftVotes.CandidateYields | src/consensus/raft.py:406-408 | a candidate that hears from the leader of its term gives up and keeps term and vote |
| RaftVotes.CountsItself | src/consensus/raft.py:197-231 | a candidate wins exactly with more than half of the cluster, itself counted |
| RaftVotes.MajorityCommits | src/consensus/raft.py:311-328 | an entry of the leader's term that it and its known holders, more than half of the cluster, have is committed and applied at once |
| RaftSpec.CommitPoint | src/consensus/raft.py:315-326 | the result is the greatest supported index in range, or the old commit index when there is none above it |
| RaftSpec.Agreeing | src/consensus/raft.py:420-429 | how many leading entries of a batch agree by term with the log: all before do, the next one does not |
| RaftNode.RaftNode.constructor | src/consensus/raft.py:73-114 | a started node is a follower with the saved term, vote and log and fresh counters |
| RaftNode.RaftNode.SaveState | src/consensus/raft.py:116-121 | the disk holds the present term, vote and log and nothing else changes |
| RaftNode.RaftNode.StepDown | src/consensus/raft.py:338-351 | performs the step-down transition and leaves the disk up to date |
| RaftNode.RaftNode.StartElection | src/consensus/raft.py:197-219 | performs the candidacy transition, saved before the request with the node's last index and term goes out |
| RaftNode.RaftNode.CollectVotes | src/consensus/raft.py:223-225 | adds exactly the peers that granted, in any order; terms in replies play no part |
| RaftNode.RaftNode.CountVotes | src/consensus/raft.py:223-231 | leads exactly when a majority voted and the node is still a candidate |
| RaftNode.RaftNode.BecomeLeader | src/consensus/raft.py:233-242 | next indices one past the last index and zero matches for exactly the other nodes |
| RaftNode.RaftNode.HandleRequestVote | src/consensus/raft.py:353-383 | performs the vote transition, and grants exactly when term, earlier vote and both last indices allow it |
| RaftNode.RaftNode.HandleAppendEntries | src/consensus/raft.py:385-445 | for any request: performs the AppendEntries transition and reports success exactly when term and previous entry match; a batch on which the loop raises gets no reply and merges nothing |
| RaftNode.RaftNode.AcceptEntries | src/consensus/raft.py:418-438 | merges, saves, and only then advances the commit index and applies; nothing of this when the loop raises |
| RaftNode.RaftNode.MergeLoop | src/consensus/raft.py:422-429 | for any batch the loop equals putting each entry where its own index says, in order, and it raises exactly when the log is empty and the first index is zero |
| RaftNode.RaftNode.ApplyCommitted | src/consensus/raft.py:330-336 | hands the state machine exactly the entries between the two counters, in order |
| RaftNode.RaftNode.PrevLogTerm | src/consensus/raft.py:272-277 | the term at the previous index, or 0 when there is no entry |
| RaftNode.RaftNode.EntriesFrom | src/consensus/raft.py:279-281 | the whole suffix from the next index, or nothing |
| RaftNode.RaftNode.MakeAppend | src/consensus/raft.py:268-294 | builds the request from the peer's next index: previous entry, the whole suffix, the commit index |
| RaftNode.RaftNode.HandleReply | src/consensus/raft.py:298-307 | performs the reply transition, of which RaftRepair says what it means; without a leader state the writes raise and nothing changes |
| RaftNode.RaftNode.CountMatches | src/consensus/raft.py:320-323 | counts the leader and exactly the peers whose match index reaches the entry |
| RaftNode.RaftNode.TryCommit | src/consensus/raft.py:311-328 | the loop ends at the greatest supported index and applies up to it |
| RaftNode.RaftNode.Propose | src/consensus/raft.py:447-458 | a leader appends one entry of its term at the next index and saves; others refuse and change nothing |
| RaftCluster.Perform | src/consensus/raft.py:197-463 | node objects perform any enabled action by calling the handler: their states and the messages sent are those of the cluster's transition |
| RaftCluster.Crash | src/consensus/raft.py:73-114 | a new object started from the disk takes the old one's place, also after a step-down that was saved |
| RaftCluster.RunCluster | src/consensus/raft.py:197-463 | a cluster of node objects taken through the actions of any run ends in its state with its messages; when the replies consumed are true, no two objects have applied different commands at one position |
| StaleReply.SafetyNeedsTruthfulReplies | src/consensus/raft.py:296-302 | a run of five nodes in which an untrue reply is consumed and two nodes apply different commands at position 1 |
| WaitForGraph.Search.Dfs | src/nodes/lock_manager.py:67-83 | the recursive search, for any neighbour order: nothing found means everything visited off the path reaches no cycle; found means a simple cycle at the end of a walk |
| DeadlockDetector.DeadlockDetector.AddWait | src/nodes/lock_manager.py:49-52 | adds exactly the edges to the other holders, in any order |
| DeadlockDetector.DeadlockDetector.RemoveWait | src/nodes/lock_manager.py:54-55 | the waiter's edges go, all others stay |
| DeadlockDetector.DeadlockDetector.RemoveHolder | src/nodes/lock_manager.py:57-61 | every edge to the holder goes, and with it every waiter left without edges |
| DeadlockDetector.DeadlockDetector.DetectCycle | src/nodes/lock_manager.py:63-85 | for every finite graph: a list comes back if and only if a cycle is reachable, and it is a reachable closed walk with distinct inner nodes |
| DeadlockDetector.DeadlockDetector.HasDeadlock | src/nodes/lock_manager.py:87-92 | nothing is found if and only if the graph is acyclic |
| DeadlockDetector.AddAcyclic | src/nodes/lock_manager.py:182-193 | edges added for one client keep the graph acyclic when the search from that client finds nothing |
| DeadlockDetector.ClosesCycleIff | src/nodes/lock_manager.py:182-185 | in an acyclic graph the search finds a cycle if and only if some holder already waits, directly or not, for the client |
| LockManager.LockManager.constructor | src/nodes/lock_manager.py:96-104 | no locks, no edges |
| LockManager.LockManager.ApplyCommand | src/nodes/lock_manager.py:137-145 | state and status are functions of the state before and the command alone, not of the clock or of set order |
| LockManager.LockManager.ApplyAcquire | src/nodes/lock_manager.py:147-203 | grants, queues or refuses as the specification of acquire says, with the edges rolled back on refusal |
| LockManager.LockManager.ApplyRelease | src/nodes/lock_manager.py:205-228 | takes the holder out, serves the queue or drops the lock as the specification of release says |
| LockManager.LockManager.ProcessWaiting | src/nodes/lock_manager.py:230-254 | one grant to the head of the queue, and the served clients' edges go |
| LockManager.LockManager.ServeShared | src/nodes/lock_manager.py:240-252 | removing the shared requests one by one, by equality, equals dropping the maximal shared prefix |
| LockManager.LockManager.SharedRequests | src/nodes/lock_manager.py:241-246 | collects exactly the maximal shared prefix |
| LockInvariants.ReplayKeeps | src/nodes/lock_manager.py:137-254 | after every command sequence: each lock has a holder, an exclusive one exactly one; the wait-for graph is acyclic; every edge is a held lock in the way of a queued conflicting request |
| LockInvariants.ApplyKeeps | src/nodes/lock_manager.py:137-254 | each single command keeps these |
| LockInvariants.DeadlockIff | src/nodes/lock_manager.py:182-193 | DEADLOCK is answered if and only if the request cannot be granted and a holder already waits for the client |
| LockInvariants.DeadlockIsReal | src/nodes/lock_manager.py:185-193 | every DEADLOCK comes with a circle of held locks and conflicting queued requests closed by the pending one |
| LockInvariants.ExclusiveIff | src/nodes/lock_manager.py:160-180 | an acquire answered ACQUIRED for exclusive use gives an exclusive lock held by that client alone if and only if the resource was not already held shared |
| LockInvariants.UpgradeStaysShared | src/nodes/lock_manager.py:160-180 | for any two clients that share a resource: one asks for exclusive use, is answered ACQUIRED, and both still hold a shared lock |
| LockInvariants.GrantServes | src/nodes/lock_manager.py:230-254 | a grant serves exactly the exclusive head or the maximal shared prefix, keeps the rest in order, and the served clients are the holders |
| LockQueues.QueueIsFifo | src/nodes/lock_manager.py:137-254 | after every command sequence the queue of a resource is the end of the sequence of its requests answered WAITING: none is lost, doubled, overtaken or changed |
| LockQueues.QueueStep | src/nodes/lock_manager.py:137-254 | one command leaves a queue alone, puts its own request behind it, or serves requests from its front, whose clients then are the holders with the type they asked for; the release of the last holder does serve |
| LockQueues.QueueWasAsked | src/nodes/lock_manager.py:195-201 | the queue, as clients and types, is a subsequence in order of the acquire commands |
| LockQueues.WaitingQueues | src/nodes/lock_manager.py:195-201 | WAITING puts exactly the request, with its type, behind all others and changes nobody's hold |
| LockQueues.AcquiredIff | src/nodes/lock_manager.py:160-180 | a client that does not hold the resource is granted it exactly when no holder conflicts; one that does is granted it again and no lock changes |
| LockQueues.DeadlockRollsBack | src/nodes/lock_manager.py:185-193 | a refused request leaves all locks alone and drops exactly its client's edges |
| LockQueues.ReleaseLetsGo | src/nodes/lock_manager.py:205-228 | a release by a holder takes it out and leaves the rest of a lock still held; by anybody else it does nothing; a resource nobody holds or waits for is forgotten |
| LockQueues.SharedServedTogether | src/nodes/lock_manager.py:240-254 | for any three clients: two shared requests behind an exclusive lock are granted together when it is released |
| DeadlockCompleteness.CompleteIff | src/nodes/lock_manager.py:182-194 | every further request is answered DEADLOCK exactly when it cannot be granted and would close a real circle of held locks and queued conflicting requests, if and only if the wait-for graph, wherever it leads from a resource's holders to a client, also leads to whoever really blocks that client |
| DeadlockCompleteness.RightForIff | src/nodes/lock_manager.py:182-194 | the same for the requests for one resource |
| DeadlockCompleteness.DetectionIsComplete | src/nodes/lock_manager.py:137-254 | the same after every command sequence |
| DeadlockCompleteness.SeenIff | src/nodes/lock_manager.py:147-254 | from a state in which every real block has its edge a command leads to such a state if and only if it loses no edge: a client refused or granted does not still wait elsewhere, a granted one does not join past a queued conflicting client, and a release neither leaves its client in the way elsewhere, nor serves one that waits elsewhere, nor gives a remaining waiter a blocker without an edge; queueing never loses one |
| DeadlockCompleteness.SeenThroughoutIff | src/nodes/lock_manager.py:137-254 | over a whole command sequence every block has its edge throughout if and only if no command loses one |
| DeadlockCompleteness.LosslessIsComplete | src/nodes/lock_manager.py:137-254 | after commands that lost no edge every further verdict is right |
| MissedDeadlock.UnseenYetComplete | src/nodes/lock_manager.py:230-254 | a lost edge need not matter: three clients on one exclusive lock reach a state that misses an edge and still answers every request rightly |
| MissedDeadlock.DetectionIsIncomplete | src/nodes/lock_manager.py:230-254 | for any three clients and two resources a reachable state in which a request is answered WAITING although two clients then block each other |
| AppliedOrder.AppliedPrefix | src/consensus/raft.py:330-336 | what one node has applied is a prefix of what any node that applied no less has applied |
| ReplicaAgreement.ReplicasAgree | src/nodes/lock_manager.py:137-254 | nodes with equal `last_applied` have the same lock types, holders, queues and wait-for graph, and that state meets the lock invariants |
| ReplicaAgreement.ReplayOn | src/nodes/lock_manager.py:87-145 | the lock manager object fed the applied commands, with any clock readings, reaches that state, and `has_deadlock` then returns None |
| HashRing.BisectLeft | src/nodes/queue_node.py:54-62 | on a sorted ring: everything before the position is smaller, everything from it on is not |
| HashRing.InsortOk | src/nodes/queue_node.py:36-40 | inserting a new point keeps the ring strictly sorted and adds exactly it |
| HashRing.RemoveFirstOk | src/nodes/queue_node.py:47-51 | removing a point keeps the ring strictly sorted and drops exactly it |
| ConsistentHash.Canonical | src/nodes/queue_node.py:32-52 | ring and map depend on the member set alone |
| ConsistentHash.RingIs | src/nodes/queue_node.py:32-41 | the points are exactly those of the `replicas` virtual keys of each member, each mapped to its member |
| ConsistentHash.RingSize | src/nodes/queue_node.py:32-41 | without collisions the ring has `replicas` points for each member |
| ConsistentHash.PreferenceOrder | src/nodes/queue_node.py:66-87 | of two members a key prefers the one of which some point comes, clockwise from the hash, before every point of the other |
| ConsistentHash.ConsistentHash.constructor | src/nodes/queue_node.py:19-27 | a ring of the given members, repeated names counted once; all that is asked of the hash is that their own virtual keys do not collide |
| ConsistentHash.ConsistentHash.AddNode | src/nodes/queue_node.py:32-41 | when the node's virtual keys and those present do not collide, the ring stays strictly sorted, its points are the map's keys and the virtual keys of the members, now with the node |
| ConsistentHash.ConsistentHash.RemoveNode | src/nodes/queue_node.py:43-52 | the same, now without the node; every point to remove is found |
| ConsistentHash.ConsistentHash.JoinAndLeave | src/nodes/queue_node.py:32-52 | adding a new node and removing it restores ring, map and member set exactly |
| ConsistentHash.ConsistentHash.GetNode | src/nodes/queue_node.py:54-64 | nothing on an empty ring, else the owner of the smallest point at or after the key's hash, or of the smallest point of all when there is none |
| ConsistentHash.ConsistentHash.GetNodesForKey | src/nodes/queue_node.py:66-87 | the wrap-around loop ends; as many different members as asked for or there are, in the order of their first points clockwise from the key's hash, ahead of all members not returned |
| ConsistentHash.MeetsAll | src/nodes/queue_node.py:75-85 | one round of the ring meets every member and nobody else |
| ConsistentHash.PreferenceIsAll | src/nodes/queue_node.py:66-87 | with at least one replica a preference list has every member once, so exactly `min(count, members)` different ones are returned |
| ConsistentHash.MinimalRedistribution | src/nodes/queue_node.py:43-52 | when a node leaves, every key's preference list is the old one with that node deleted; read backwards for a node that joins |
| ConsistentHash.OnlyItsKeysMove | src/nodes/queue_node.py:54-64 | the first preference changes only for keys the leaving or joining node owns |
| FailureDetector.CheckClassifies | src/communication/failure_detector.py:97-120 | the status is always the classification of the missed heartbeats, and a check never improves it, whatever the clock does |
| FailureDetector.OverdueIs | src/communication/failure_detector.py:101-102 | the count of missed heartbeats is the number of whole intervals passed since the last one |
| FailureDetector.AliveOnClock | src/communication/failure_detector.py:97-120 | a node that is alive turns dead exactly when the dead span has passed since its last heartbeat, and suspected exactly when the suspect span has and the dead span has not |
| FailureDetector.FailureDetector.constructor | src/communication/failure_detector.py:24-41 | nothing is watched at first |
| FailureDetector.FailureDetector.RegisterNode | src/communication/failure_detector.py:43-45 | watches a new node as alive, never the node itself and never twice |
| FailureDetector.FailureDetector.RecordHeartbeat | src/communication/failure_detector.py:50-62 | a watched node is alive with nothing missed, and a return is reported exactly when it was not alive |
| FailureDetector.FailureDetector.CheckNodes | src/communication/failure_detector.py:97-120 | every node takes its turn, in any order, is dead or suspected by the clock, and exactly the changes of status are reported |
| Membership.CheckExactIff | src/nodes/queue_node.py:244-252 | after a check, running all scheduled callbacks leaves exactly the dead nodes off the ring if and only if no node whose return was still scheduled was overdue by the dead threshold |
| Membership.RunTracks | src/nodes/queue_node.py:244-252 | in every run of such checks: a watched node is off the ring exactly while it is dead or its return is scheduled, and all others are on it |
| Membership.RunExactIff | src/nodes/queue_node.py:216-252 | over a whole run the ring, once what is scheduled has run, is at every moment the cluster without its dead nodes if and only if every check was of that kind |
| Membership.RingIsSurvivors | src/nodes/queue_node.py:216-252 | when no return is outstanding a cluster node is absent if and only if it is dead, and the ring equals one rebuilt from the survivors |
| Membership.LateCallback | src/communication/failure_detector.py:57-62 | for every configuration a run from the start, with a clock that never goes back, in which a check overtakes a scheduled return and a dead node ends on the ring |
| Membership.RunNode | src/nodes/queue_node.py:216-252 | a node object, built for any cluster and taken through any events, goes through a run of the model; if its checks were of that kind and nothing is scheduled, its ring is the cluster without the dead |
| Membership.WatchOthers | src/nodes/base_node.py:39-40 | every other cluster node is watched, alive since now, and never the node itself |
| Membership.QueueNode.constructor | src/nodes/queue_node.py:216-224 | a started node watches all others and has all cluster nodes on its ring |
| Membership.QueueNode.OnNodeStatusChange | src/nodes/queue_node.py:244-252 | the dead leave the ring, those back from the dead join it, other changes do nothing |
| Membership.QueueNode.HandleHeartbeat | src/communication/failure_detector.py:50-62 | records the heartbeat and schedules, but does not run, the callback |
| Membership.QueueNode.RunScheduled | src/communication/failure_detector.py:60-62 | runs the oldest scheduled callback |
| Membership.QueueNode.CheckNodes | src/communication/failure_detector.py:97-120 | after a check and its callbacks the ring has lost exactly the newly dead |
| MessageStore.PendingIsAddedUnacked | src/nodes/queue_node.py:157-195 | over every run in which no id is added twice, a queue's pending ids are exactly the added ones not acknowledged since, in the order added |
| MessageStore.RunStore | src/nodes/queue_node.py:123-195 | the store object itself, taken through any such run with crashes and restarts, ends with those pending ids in every queue, each message with the queue and payload it was added with |
| MessageStore.MessageStore.constructor | src/nodes/queue_node.py:109-114 | starting over any directory reads its files in some order; over an empty one the store is empty |
| MessageStore.MessageStore.SaveQueue | src/nodes/queue_node.py:143-155 | the queue's file is its known messages in order; other files stay |
| MessageStore.MessageStore.Add | src/nodes/queue_node.py:157-160 | for any message: it takes its id's place in the table, goes to the end of its queue, and that queue is saved; on a sound store and with a fresh id one id becomes pending, last, no other queue changes, and the files agree |
| MessageStore.MessageStore.Ack | src/nodes/queue_node.py:175-182 | a known message is acknowledged and its queue saved; in any store every queue's pending ids are the old ones without that id |
| MessageStore.MessageStore.Nack | src/nodes/queue_node.py:184-189 | counts an attempt and saves; in any store every queue's pending ids stay |
| MessageStore.MessageStore.GetPending | src/nodes/queue_node.py:165-173 | in any store the first pending messages in order, as many as the limit, but at least one if there is one |
| MessageStore.MessageStore.GetQueueSize | src/nodes/queue_node.py:191-195 | in any store the number of pending ids |
| MessageStore.MessageStore.Consume | src/nodes/queue_node.py:366-374 | in any store hands out the first pending messages, counts one attempt for each and changes nothing else in the table; all stay pending, and no file is written |
| MessageStore.MessageStore.Restart | src/nodes/queue_node.py:108-114 | a crash and a restart from any files: the store is what reading them in some order gives; on a sound store every queue's pending ids are as before, and what is known is unchanged but for delivery attempts |
| MessageStore.MessageStore.Load | src/nodes/queue_node.py:123-141 | for any files: the result is that of reading them one after the other in some order, later messages replacing earlier ones of their id; from sound files each queue's pending ids are its file's unacknowledged ones in order |
| MessageStore.MessageStore.LoadFile | src/nodes/queue_node.py:131-139 | one file read message by message, in file order |

## Left out

Raft:

- RaftSafety.StateMachineSafety: asks that replies be truthful, as above; without it the code does not keep it.
- Failing saves and loads: the original logs the error and goes on, which can lose a vote or an entry; saves are atomic and durable here (`src/consensus/raft.py:107-121`).
- Liveness, election timeouts, heartbeat timing: an election may start at any time a node is not leader; nothing is claimed about progress. An election that is still waiting for its replies is not overtaken by another of the same node, as in the original's single election loop.
- The rest of a send loop after a step-down raises on the missing leader state; here that coroutine simply has no further effect.
- `current_leader`, routing of requests to the leader, client replies and `pending_requests`: no claim about what a client is told or when.
- A command handler that raises: handlers of unknown or malformed commands are not modelled beyond the ignored action.
- Membership changes of the Raft cluster and log compaction, which the original does not have.

Locks:

- Completeness of deadlock detection in every state: false of the code, see `MissedDeadlock.DetectionIsIncomplete`; `DeadlockCompleteness.CompleteIff` has the exact condition.
- DeadlockCompleteness.LosslessIsComplete: a sufficient condition only; the exact one on the state is in `DeadlockCompleteness.CompleteIff`.
- Lock objects are values in a map instead of shared references; nothing else in the original keeps a reference to one between commands.
- `request_id`, metrics, and commands with missing fields or an unknown lock type, which raise in the original.
- Python's recursion limit for the depth-first search.

Queue:

- MessageStore.PendingIsAddedUnacked: for ids that are not added twice; `publish` adds without looking (`src/nodes/queue_node.py:274-275`), and an id added twice stands in its queue twice.
- A crash inside an operation: with atomic writes the file is the one from before, so the restart is as if the operation had not begun.
- Delivery across nodes: messages are placed by message id and consumed by queue name, so no end-to-end statement holds; redelivery and subscriber loops are not modelled.
- ConsistentHash.ConsistentHash.AddNode: asks that the virtual keys on the ring and of the new node do not collide; with a collision the original raises when the second of the two is removed.
- MessageStore.MessageStore.Consume: one clock reading for all messages of a call.
- MD5 collisions between queue file names, partial file writes, and unreadable files, which the original skips.
- Membership.QueueNode.CheckNodes: a callback that a check awaits runs directly after the check's loop here; the callback touches only the ring and the loop only the detector.

Not modelled at all: the cache node and its coherence protocol, the phi-accrual detector (floating-point statistics), HTTP transport, JSON encoding, configuration, logging, metrics and the REST interface.
