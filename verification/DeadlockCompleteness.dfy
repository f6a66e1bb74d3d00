/** When detection is complete: the exact condition on a state, and a simpler sufficient one, that every
    real block has its edge, with exactly which commands lose an edge. */
module DeadlockCompleteness {
  import opened Commands
  import opened WaitForGraph
  import opened DeadlockDetector
  import opened LockSpec
  import opened LockInvariants

  /** Every held lock in the way of a queued conflicting request is an edge of the wait-for graph. */
  ghost predicate Seen(st: LockState) {
    forall w, h {:trigger Justified(st.locks, w, h)} :: Justified(st.locks, w, h) ==> h in Succ(st.graph, w)
  }

  /** Clients each of which is blocked by the next one. */
  ghost predicate IsChain(locks: map<Resource, Lock>, chain: seq<Client>) {
    chain != [] && forall k | 0 <= k < |chain| - 1 :: Justified(locks, chain[k], chain[k + 1])
  }

  /** Some holder is really blocked, directly or through others, by the client. */
  ghost predicate BlockedBack(locks: map<Resource, Lock>, holders: set<Client>, c: Client) {
    exists chain :: IsChain(locks, chain) && chain[0] in holders && chain[|chain| - 1] == c
  }

  /** The verdict on a request is right: DEADLOCK if and only if the request cannot be granted and would
      close a real circle. */
  ghost predicate Right(st: LockState, c: Client, r: Resource, t: LockType) {
    ApplyAcquire(st, c, r, t).1 == Deadlock
    <==> !CanAcquire(LockOr(st, r, t), c, t) && BlockedBack(st.locks, LockOr(st, r, t).holders, c)
  }

  ghost predicate Complete(st: LockState) {
    forall c, r, t :: Right(st, c, r, t)
  }

  /** Where the graph leads from the holders of a resource to a client, it also leads to whoever really
      blocks that client next: by its edge or on another way. */
  ghost predicate FollowsAt(st: LockState, r: Resource, w: Client, h: Client) {
    r in st.locks && h !in st.locks[r].holders
    && WaitsBack(st.graph, st.locks[r].holders, w) && Justified(st.locks, w, h)
    ==> WaitsBack(st.graph, st.locks[r].holders, h)
  }

  ghost predicate FollowsFrom(st: LockState, r: Resource) {
    forall w, h {:trigger FollowsAt(st, r, w, h)} :: FollowsAt(st, r, w, h)
  }

  ghost predicate Follows(st: LockState) {
    forall r :: FollowsFrom(st, r)
  }

  // ---------- the exact condition ----------

  /** What the graph says is real. */
  lemma WalkIsReal(st: LockState, holders: set<Client>, c: Client)
    requires StateOk(st) && WaitsBack(st.graph, holders, c)
    ensures BlockedBack(st.locks, holders, c)
  {
    var w :| w != [] && w[0] in holders && Walks(st.graph, w, w[0], c);
    assert IsChain(st.locks, w) by {
      forall k | 0 <= k < |w| - 1
        ensures Justified(st.locks, w[k], w[k + 1])
      {
        assert w[k + 1] in Succ(st.graph, w[k]);
      }
    }
  }

  lemma HolderWaitsBack(g: Graph, holders: set<Client>, h: Client)
    requires h in holders
    ensures WaitsBack(g, holders, h)
  {
    assert Walks(g, [h], h, h);
    assert [h] != [] && [h][0] in holders;
  }

  /** Along a chain of real blocks every client is reached in the graph. */
  lemma {:induction false} ChainIsFollowed(st: LockState, r: Resource, chain: seq<Client>, k: nat)
    requires r in st.locks && FollowsFrom(st, r)
    requires IsChain(st.locks, chain) && chain[0] in st.locks[r].holders && k < |chain|
    ensures WaitsBack(st.graph, st.locks[r].holders, chain[k])
  {
    if chain[k] in st.locks[r].holders {
      HolderWaitsBack(st.graph, st.locks[r].holders, chain[k]);
    } else {
      ChainIsFollowed(st, r, chain, k - 1);
      assert Justified(st.locks, chain[k - 1], chain[k - 1 + 1]);
      assert FollowsAt(st, r, chain[k - 1], chain[k]);
    }
  }

  lemma FollowsIsRight(st: LockState, c: Client, r: Resource, t: LockType)
    requires StateOk(st) && FollowsFrom(st, r)
    ensures Right(st, c, r, t)
  {
    var holders := LockOr(st, r, t).holders;
    DeadlockIff(st, c, r, t);
    if WaitsBack(st.graph, holders, c) {
      WalkIsReal(st, holders, c);
    }
    if BlockedBack(st.locks, holders, c) {
      var chain :| IsChain(st.locks, chain) && chain[0] in holders && chain[|chain| - 1] == c;
      ChainIsFollowed(st, r, chain, |chain| - 1);
    }
  }

  /** A block that the graph does not follow makes a verdict wrong: the blocking client only has to ask
      for the resource the way started from. */
  lemma RightFollows(st: LockState, r: Resource, w: Client, h: Client)
    requires StateOk(st) && Right(st, h, r, Exclusive)
    ensures FollowsAt(st, r, w, h)
  {
    if r in st.locks && h !in st.locks[r].holders {
      var holders := st.locks[r].holders;
      if WaitsBack(st.graph, holders, w) && Justified(st.locks, w, h) {
        assert LockOk(st.locks[r]);
        DeadlockIff(st, h, r, Exclusive);
        WalkIsReal(st, holders, w);
        var chain :| IsChain(st.locks, chain) && chain[0] in holders && chain[|chain| - 1] == w;
        assert IsChain(st.locks, chain + [h]);
        assert (chain + [h])[0] in holders && (chain + [h])[|chain + [h]| - 1] == h;
      }
    }
  }

  /** One resource: every request for it gets the right verdict if and only if the graph follows the
      blocks from its holders. */
  lemma RightForIff(st: LockState, r: Resource)
    requires StateOk(st)
    ensures (forall c, t :: Right(st, c, r, t)) <==> FollowsFrom(st, r)
  {
    if FollowsFrom(st, r) {
      forall c, t
        ensures Right(st, c, r, t)
      {
        FollowsIsRight(st, c, r, t);
      }
    }
    if forall c, t :: Right(st, c, r, t) {
      forall w, h
        ensures FollowsAt(st, r, w, h)
      {
        RightFollows(st, r, w, h);
      }
    }
  }

  /** The exact condition: every request gets the right verdict if and only if the graph follows every
      real block. */
  lemma CompleteIff(st: LockState)
    requires StateOk(st)
    ensures Complete(st) <==> Follows(st)
  {
    forall r
      ensures (forall c, t :: Right(st, c, r, t)) <==> FollowsFrom(st, r)
    {
      RightForIff(st, r);
    }
    if Follows(st) {
      forall c, r, t
        ensures Right(st, c, r, t)
      {
        assert FollowsFrom(st, r);
      }
    }
  }

  /** So after any command sequence every further request is answered DEADLOCK exactly when it closes a
      real circle if and only if the graph then follows every real block. */
  lemma DetectionIsComplete(commands: seq<Command>)
    ensures Complete(Replay(commands)) <==> Follows(Replay(commands))
  {
    ReplayKeeps(commands);
    CompleteIff(Replay(commands));
  }

  /** If every block has its edge the graph follows them all. */
  lemma SeenIsComplete(st: LockState)
    requires StateOk(st) && Seen(st)
    ensures Follows(st) && Complete(st)
  {
    forall r, w, h
      ensures FollowsAt(st, r, w, h)
    {
      SeenFollows(st, r, w, h);
    }
    CompleteIff(st);
  }

  lemma SeenFollows(st: LockState, r: Resource, w: Client, h: Client)
    requires Seen(st)
    ensures FollowsAt(st, r, w, h)
  {
    if r in st.locks && WaitsBack(st.graph, st.locks[r].holders, w) && Justified(st.locks, w, h) {
      var walk :| walk != [] && walk[0] in st.locks[r].holders && Walks(st.graph, walk, walk[0], w);
      WalkOn(st.graph, walk, h);
    }
  }

  lemma WalkOn(g: Graph, walk: seq<Client>, h: Client)
    requires IsWalk(g, walk) && h in Succ(g, walk[|walk| - 1])
    ensures Walks(g, walk + [h], walk[0], h)
  {
  }

  // ---------- which commands lose an edge ----------

  /** The client has a queued request that somebody's lock is in the way of. */
  ghost predicate StillWaits(locks: map<Resource, Lock>, c: Client) {
    exists h, r, k: nat :: Blocks(locks, c, h, r, k)
  }

  /** The client joins the holders past a queued conflicting request of a client that does not
      otherwise wait for it. */
  ghost predicate JoinsPast(locks: map<Resource, Lock>, c: Client, r: Resource) {
    && r in locks && c !in locks[r].holders
    && exists w, k: nat :: QueuedAgainst(locks[r], w, c, k) && !Justified(locks, w, c)
  }

  predicate QueuedAgainst(lock: Lock, w: Client, c: Client, k: nat) {
    k < |lock.waiting| && w != c && lock.waiting[k].client == w && Conflicts(lock, lock.waiting[k].lockType)
  }

  /** A granted request loses an edge of its client or of one it joins past, a refused one of its
      client, and a queued one none. */
  ghost predicate AcquireLoses(st: LockState, c: Client, r: Resource, t: LockType) {
    var lock := LockOr(st, r, t);
    if CanAcquire(lock, c, t) then StillWaits(st.locks, c) || JoinsPast(st.locks, c, r)
    else WaitsBack(st.graph, lock.holders, c) && StillWaits(st.locks, c)
  }

  /** The clients a release serves from the queue. */
  function Served(st: LockState, c: Client, r: Resource): set<Client>
    requires r in st.locks
  {
    var lock := st.locks[r];
    if lock.holders - {c} != {} then {} else Clients(lock.waiting[..GrantCount(lock.waiting)])
  }

  /** The client is in somebody's way with another resource. */
  ghost predicate BlocksElsewhere(locks: map<Resource, Lock>, h: Client, r: Resource) {
    exists w, r', k: nat :: r' != r && Blocks(locks, w, h, r', k)
  }

  ghost predicate WaitsElsewhere(locks: map<Resource, Lock>, ws: set<Client>, r: Resource) {
    exists w, h, r', k: nat :: w in ws && r' != r && Blocks(locks, w, h, r', k)
  }

  /** Of the requests that a grant leaves in the queue the `k`-th is `w`'s, and conflicts with what `h`
      is served. */
  predicate LeftBehind(lock: Lock, w: Client, h: Client, k: nat) {
    var n := GrantCount(lock.waiting);
    && n + k < |lock.waiting| && lock.waiting[n + k].client == w
    && h in Clients(lock.waiting[..n]) && h != w
    && !(lock.waiting[0].lockType == Shared && lock.waiting[n + k].lockType == Shared)
  }

  /** A request that stays queued is now blocked by a client just served, without an edge that says so:
      its own edges or those to the releasing client just went, or there was none. */
  ghost predicate NewlyBlocked(locks: map<Resource, Lock>, c: Client, r: Resource) {
    && r in locks && locks[r].holders == {c}
    && exists w, h, k: nat ::
         && LeftBehind(locks[r], w, h, k)
         && (w in Clients(locks[r].waiting[..GrantCount(locks[r].waiting)]) || h == c || !Justified(locks, w, h))
  }

  ghost predicate ReleaseLoses(st: LockState, c: Client, r: Resource) {
    && r in st.locks && c in st.locks[r].holders
    && (|| BlocksElsewhere(st.locks, c, r)
        || WaitsElsewhere(st.locks, Served(st, c, r), r)
        || NewlyBlocked(st.locks, c, r))
  }

  ghost predicate Loses(st: LockState, command: Command) {
    match command
    case Acquire(c, r, t) => AcquireLoses(st, c, r, t)
    case Release(c, r) => ReleaseLoses(st, c, r)
    case Other(_) => false
  }

  lemma WaitSees(st: LockState, c: Client, r: Resource, t: LockType)
    requires StateOk(st) && Seen(st) && ApplyAcquire(st, c, r, t).1 == Waiting
    ensures Seen(ApplyAcquire(st, c, r, t).0)
  {
    var lock, st' := st.locks[r], ApplyAcquire(st, c, r, t).0;
    forall w, h | Justified(st'.locks, w, h)
      ensures h in Succ(st'.graph, w)
    {
      var r', k: nat :| Blocks(st'.locks, w, h, r', k);
      if r' == r && k == |lock.waiting| {
        assert h in lock.holders - {c};
      } else {
        assert Blocks(st.locks, w, h, r', k);
        assert Justified(st.locks, w, h);
      }
    }
  }

  lemma DeadlockSees(st: LockState, c: Client, r: Resource, t: LockType)
    requires StateOk(st) && Seen(st) && ApplyAcquire(st, c, r, t).1 == Deadlock
    ensures Seen(ApplyAcquire(st, c, r, t).0) <==> !StillWaits(st.locks, c)
  {
    var st' := ApplyAcquire(st, c, r, t).0;
    assert st'.locks == st.locks && st'.graph == DropWaiter(st.graph, c);
    if StillWaits(st.locks, c) {
      var h, r', k: nat :| Blocks(st.locks, c, h, r', k);
      assert Justified(st'.locks, c, h);
    } else {
      forall w, h | Justified(st'.locks, w, h)
        ensures h in Succ(st'.graph, w)
      {
        assert Justified(st.locks, w, h);
      }
    }
  }

  lemma GrantSees(st: LockState, c: Client, r: Resource, t: LockType)
    requires StateOk(st) && Seen(st) && ApplyAcquire(st, c, r, t).1 == Acquired
    ensures Seen(ApplyAcquire(st, c, r, t).0) <==> !StillWaits(st.locks, c) && !JoinsPast(st.locks, c, r)
  {
    var st' := ApplyAcquire(st, c, r, t).0;
    var lock := LockOr(st, r, t);
    assert st'.locks == st.locks[r := GrantTo(lock, c, t)] && st'.graph == DropWaiter(st.graph, c);
    if StillWaits(st.locks, c) {
      var h, r', k: nat :| Blocks(st.locks, c, h, r', k);
      assert LockOk(st.locks[r']);
      assert Blocks(st'.locks, c, h, r', k);
      assert Justified(st'.locks, c, h);
    } else if JoinsPast(st.locks, c, r) {
      var w, k: nat :| QueuedAgainst(st.locks[r], w, c, k) && !Justified(st.locks, w, c);
      assert LockOk(st.locks[r]);
      assert Blocks(st'.locks, w, c, r, k);
      assert Justified(st'.locks, w, c);
    } else {
      forall w, h | Justified(st'.locks, w, h)
        ensures h in Succ(st'.graph, w)
      {
        GrantedBlock(st, c, r, t, w, h);
      }
    }
  }

  lemma GrantedBlock(st: LockState, c: Client, r: Resource, t: LockType, w: Client, h: Client)
    requires StateOk(st) && CanAcquire(LockOr(st, r, t), c, t)
    requires !StillWaits(st.locks, c) && !JoinsPast(st.locks, c, r)
    requires Justified(st.locks[r := GrantTo(LockOr(st, r, t), c, t)], w, h)
    ensures w != c && Justified(st.locks, w, h)
  {
    var locks' := st.locks[r := GrantTo(LockOr(st, r, t), c, t)];
    var r', k: nat :| Blocks(locks', w, h, r', k);
    assert r in st.locks ==> LockOk(st.locks[r]);
    if r' == r && h == c && c !in st.locks[r].holders {
      assert QueuedAgainst(st.locks[r], w, c, k);
    } else {
      assert Blocks(st.locks, w, h, r', k);
    }
  }

  lemma ReleaseSees(st: LockState, c: Client, r: Resource)
    requires StateOk(st) && Seen(st)
    ensures Seen(ApplyRelease(st, c, r)) <==> !ReleaseLoses(st, c, r)
  {
    if r in st.locks && c in st.locks[r].holders {
      if ReleaseLoses(st, c, r) {
        ReleaseHides(st, c, r);
      } else {
        forall w, h | Justified(ApplyRelease(st, c, r).locks, w, h)
          ensures h in Succ(ApplyRelease(st, c, r).graph, w)
        {
          ReleasedBlock(st, c, r, w, h);
        }
      }
    }
  }

  /** The graph after a release: the edges to the client and those of the served clients are gone. */
  lemma ReleasedEdges(st: LockState, c: Client, r: Resource, w: Client, h: Client)
    requires r in st.locks && c in st.locks[r].holders
    ensures h in Succ(ApplyRelease(st, c, r).graph, w)
            <==> h in Succ(st.graph, w) && h != c && w !in Served(st, c, r)
  {
    var lock := st.locks[r].(holders := st.locks[r].holders - {c});
    assert ApplyRelease(st, c, r).graph == DropHolder(st.graph, c) - Served(st, c, r);
  }

  lemma ReleasedLocks(st: LockState, c: Client, r: Resource, x: Resource)
    requires r in st.locks && c in st.locks[r].holders && x != r
    ensures x in ApplyRelease(st, c, r).locks <==> x in st.locks
    ensures x in st.locks ==> ApplyRelease(st, c, r).locks[x] == st.locks[x]
  {
  }

  lemma Hidden(st: LockState, c: Client, r: Resource, w: Client, h: Client)
    requires StateOk(st) && r in st.locks && c in st.locks[r].holders
    requires Justified(ApplyRelease(st, c, r).locks, w, h)
    requires w in Served(st, c, r) || h == c || !Justified(st.locks, w, h)
    ensures !Seen(ApplyRelease(st, c, r))
  {
    ReleasedEdges(st, c, r, w, h);
  }

  /** After the release of its last holder, a resource's new holders block exactly those left behind. */
  lemma LeftIsBlocked(st: LockState, c: Client, r: Resource, w: Client, h: Client, k: nat)
    requires r in st.locks && st.locks[r].holders == {c}
    ensures Blocks(ApplyRelease(st, c, r).locks, w, h, r, k) <==> LeftBehind(st.locks[r], w, h, k)
  {
    var lock := st.locks[r].(holders := st.locks[r].holders - {c});
    assert lock.holders == {};
    if lock.waiting != [] {
      assert Grant(lock).holders == Clients(lock.waiting[..GrantCount(lock.waiting)]);
    }
  }

  lemma ReleaseHides(st: LockState, c: Client, r: Resource)
    requires StateOk(st) && ReleaseLoses(st, c, r)
    ensures !Seen(ApplyRelease(st, c, r))
  {
    var locks', served := ApplyRelease(st, c, r).locks, Served(st, c, r);
    if BlocksElsewhere(st.locks, c, r) {
      var w, x, k: nat :| x != r && Blocks(st.locks, w, c, x, k);
      ReleasedLocks(st, c, r, x);
      assert Blocks(locks', w, c, x, k);
      Hidden(st, c, r, w, c);
    } else if WaitsElsewhere(st.locks, served, r) {
      var w, h, x, k: nat :| w in served && x != r && Blocks(st.locks, w, h, x, k);
      ReleasedLocks(st, c, r, x);
      assert Blocks(locks', w, h, x, k);
      Hidden(st, c, r, w, h);
    } else {
      var w, h, k: nat :|
        LeftBehind(st.locks[r], w, h, k) && (w in served || h == c || !Justified(st.locks, w, h));
      LeftIsBlocked(st, c, r, w, h, k);
      Hidden(st, c, r, w, h);
    }
  }

  lemma ReleasedBlock(st: LockState, c: Client, r: Resource, w: Client, h: Client)
    requires StateOk(st) && Seen(st) && r in st.locks && c in st.locks[r].holders && !ReleaseLoses(st, c, r)
    requires Justified(ApplyRelease(st, c, r).locks, w, h)
    ensures h in Succ(ApplyRelease(st, c, r).graph, w)
  {
    var locks', served := ApplyRelease(st, c, r).locks, Served(st, c, r);
    var x, k: nat :| Blocks(locks', w, h, x, k);
    ReleasedEdges(st, c, r, w, h);
    if x != r {
      ReleasedLocks(st, c, r, x);
      assert Blocks(st.locks, w, h, x, k);
    } else if st.locks[r].holders == {c} {
      LeftIsBlocked(st, c, r, w, h, k);
    } else {
      assert st.locks[r].holders - {c} != {};
      assert Blocks(st.locks, w, h, r, k);
    }
    assert Justified(st.locks, w, h);
  }

  /** From a state in which every block is seen, the next state is one too if and only if the command
      loses no edge. */
  lemma SeenIff(st: LockState, command: Command)
    requires StateOk(st) && Seen(st)
    ensures Seen(Apply(st, command).0) <==> !Loses(st, command)
  {
    match command
    case Acquire(c, r, t) =>
      DeadlockIff(st, c, r, t);
      match ApplyAcquire(st, c, r, t).1 {
        case Waiting => WaitSees(st, c, r, t);
        case Deadlock => DeadlockSees(st, c, r, t);
        case Acquired => GrantSees(st, c, r, t);
        case _ =>
      }
    case Release(c, r) => ReleaseSees(st, c, r);
    case Other(_) =>
  }

  // ---------- every command sequence ----------

  ghost predicate SeenAfter(commands: seq<Command>, k: nat) {
    k <= |commands| && Seen(Replay(commands[..k]))
  }

  ghost predicate LosesAt(commands: seq<Command>, k: nat) {
    k < |commands| && Loses(Replay(commands[..k]), commands[k])
  }

  lemma SeenNext(commands: seq<Command>, k: nat)
    requires k < |commands| && SeenAfter(commands, k)
    ensures SeenAfter(commands, k + 1) <==> !LosesAt(commands, k)
  {
    ReplayKeeps(commands[..k]);
    assert commands[..k + 1][..k] == commands[..k];
    SeenIff(Replay(commands[..k]), commands[k]);
  }

  lemma {:induction false} SeenUpTo(commands: seq<Command>, n: nat)
    requires n <= |commands|
    ensures (forall k: nat | k <= n :: SeenAfter(commands, k)) <==> (forall k: nat | k < n :: !LosesAt(commands, k))
  {
    if n == 0 {
      NothingSeen(commands);
    } else {
      SeenUpTo(commands, n - 1);
      if SeenAfter(commands, n - 1) {
        SeenNext(commands, n - 1);
      }
    }
  }

  lemma NothingSeen(commands: seq<Command>)
    ensures SeenAfter(commands, 0)
  {
    assert Replay(commands[..0]) == EMPTY;
  }

  /** Over a whole command sequence every block is seen throughout if and only if no command loses one. */
  lemma SeenThroughoutIff(commands: seq<Command>)
    ensures (forall k: nat | k <= |commands| :: SeenAfter(commands, k))
            <==> (forall k: nat | k < |commands| :: !LosesAt(commands, k))
  {
    SeenUpTo(commands, |commands|);
  }

  /** So detection is complete after commands that lost no edge. */
  lemma LosslessIsComplete(commands: seq<Command>)
    requires forall k: nat | k < |commands| :: !LosesAt(commands, k)
    ensures Complete(Replay(commands))
  {
    SeenThroughoutIff(commands);
    assert SeenAfter(commands, |commands|);
    assert commands[..|commands|] == commands;
    ReplayKeeps(commands);
    SeenIsComplete(Replay(commands));
  }
}
