/** The lock manager: an object whose commands mutate the lock table and the detector in place.
    Requests carry a local clock reading, and sets are walked in any order; neither shows in View. */
module LockManager {
  import opened Commands
  import opened WaitForGraph
  import opened DeadlockDetector
  import opened LockSpec
  import opened Sequences

  datatype LockRequest = LockRequest(client: Client, resource: Resource, lockType: LockType, timestamp: real)

  datatype LockRecord = LockRecord(lockType: LockType, holders: set<Client>, waiting: seq<LockRequest>)

  function Erase(waiting: seq<LockRequest>): (ws: seq<Waiter>)
    ensures |ws| == |waiting|
    ensures forall k | 0 <= k < |ws| :: ws[k] == Waiter(waiting[k].client, waiting[k].lockType)
  {
    seq(|waiting|, k requires 0 <= k < |waiting| => Waiter(waiting[k].client, waiting[k].lockType))
  }

  function LockView(lock: LockRecord): Lock {
    Lock(lock.lockType, lock.holders, Erase(lock.waiting))
  }

  function TableView(locks: map<Resource, LockRecord>): map<Resource, Lock> {
    map r | r in locks :: LockView(locks[r])
  }

  function ServeOne(lock: LockRecord, request: LockRequest): (lock': LockRecord)
    requires request in lock.waiting
    ensures lock.waiting[0] == request ==> lock'.waiting == lock.waiting[1..]
  {
    lock.(waiting := RemoveFirst(lock.waiting, request), holders := lock.holders + {request.client})
  }

  class LockManager {
    var locks: map<Resource, LockRecord>
    const detector: DeadlockDetector

    constructor ()
      ensures View() == EMPTY && fresh(detector)
    {
      locks := map[];
      detector := new DeadlockDetector();
    }

    function View(): LockState
      reads this, detector
    {
      LockState(TableView(locks), detector.graph)
    }

    method ApplyCommand(command: Command, now: real) returns (status: Status)
      modifies this, detector
      ensures (View(), status) == Apply(old(View()), command)
    {
      match command {
        case Acquire(c, r, t) =>
          status := ApplyAcquire(c, r, t, now);
        case Release(c, r) =>
          status := ApplyRelease(c, r);
        case Other(_) =>
          status := Ignored;
      }
    }

    method ApplyAcquire(c: Client, r: Resource, lockType: LockType, now: real) returns (status: Status)
      modifies this, detector
      ensures (View(), status) == LockSpec.ApplyAcquire(old(View()), c, r, lockType)
    {
      ghost var before := View();
      if r !in locks {
        locks := locks[r := LockRecord(lockType, {}, [])];
      }
      var lock := locks[r];
      var canAcquire := false;
      if lock.holders == {} {
        canAcquire := true;
        lock := lock.(lockType := lockType);
      } else if lock.lockType == Shared && lockType == Shared {
        canAcquire := true;
      } else if c in lock.holders {
        canAcquire := true;
      }
      if canAcquire {
        lock := lock.(holders := lock.holders + {c});
        locks := locks[r := lock];
        detector.RemoveWait(c);
        assert View().locks == before.locks[r := LockView(lock)];
        return Acquired;
      }
      assert r in before.locks && View().locks == before.locks;
      detector.AddWait(c, lock.holders);
      var cycle := detector.DetectCycle(c);
      if cycle.Some? {
        detector.RemoveWait(c);
        return Deadlock;
      }
      var request := LockRequest(c, r, lockType, now);
      lock := lock.(waiting := lock.waiting + [request]);
      locks := locks[r := lock];
      assert Erase(lock.waiting) == before.locks[r].waiting + [Waiter(c, lockType)];
      assert View().locks == before.locks[r := LockView(lock)];
      return Waiting;
    }

    method ApplyRelease(c: Client, r: Resource) returns (status: Status)
      modifies this, detector
      ensures View() == LockSpec.ApplyRelease(old(View()), c, r) && status == Released
    {
      status := Released;
      ghost var before := View();
      if r !in locks {
        return;
      }
      var lock := locks[r];
      if c !in lock.holders {
        return;
      }
      lock := lock.(holders := lock.holders - {c});
      locks := locks[r := lock];
      detector.RemoveHolder(c);
      assert View().locks == before.locks[r := LockView(lock)];
      if lock.holders == {} && lock.waiting != [] {
        lock := ProcessWaiting(lock);
        locks := locks[r := lock];
        assert View().locks == before.locks[r := LockView(lock)];
      }
      if lock.holders == {} && lock.waiting == [] {
        locks := locks - {r};
        assert View().locks == before.locks - {r};
      }
    }

    /** Serves the head of the queue. */
    method ProcessWaiting(lock: LockRecord) returns (lock': LockRecord)
      requires lock.waiting != []
      modifies detector
      ensures LockView(lock') == Grant(LockView(lock))
      ensures detector.graph
              == old(detector.graph) - Clients(Erase(lock.waiting)[..GrantCount(Erase(lock.waiting))])
    {
      var next := lock.waiting[0];
      if next.lockType == Exclusive {
        lock' := LockRecord(Exclusive, lock.holders + {next.client}, lock.waiting[1..]);
        detector.RemoveWait(next.client);
        assert Erase(lock'.waiting) == Erase(lock.waiting)[1..];
        assert Erase(lock.waiting)[..1] == [Erase(lock.waiting)[0]];
        assert Clients([Erase(lock.waiting)[0]]) == {next.client};
      } else {
        lock' := ServeShared(lock);
        lock' := lock'.(lockType := Shared);
        assert Erase(lock'.waiting) == Erase(lock.waiting)[SharedPrefix(Erase(lock.waiting))..];
      }
    }

    /** The maximal shared prefix is served; each request is removed by equality, one at a time. */
    method ServeShared(lock: LockRecord) returns (lock': LockRecord)
      modifies detector
      ensures var ws := Erase(lock.waiting);
              var n := SharedPrefix(ws);
              && lock' == LockRecord(lock.lockType, lock.holders + Clients(ws[..n]), lock.waiting[n..])
              && detector.graph == old(detector.graph) - Clients(ws[..n])
    {
      ghost var ws := Erase(lock.waiting);
      var served := SharedRequests(lock.waiting);
      lock' := lock;
      assert Clients(ws[..0]) == {};
      for k := 0 to |served|
        invariant lock' == LockRecord(lock.lockType, lock.holders + Clients(ws[..k]), lock.waiting[k..])
        invariant detector.graph == old(detector.graph) - Clients(ws[..k])
      {
        var request := served[k];
        assert request == lock'.waiting[0] && lock'.waiting[1..] == lock.waiting[k + 1..];
        lock' := ServeOne(lock', request);
        detector.RemoveWait(request.client);
        ClientsGrow(ws, k);
        DropMore(old(detector.graph), Clients(ws[..k]), request.client);
      }
    }

    method SharedRequests(waiting: seq<LockRequest>) returns (served: seq<LockRequest>)
      ensures served == waiting[..SharedPrefix(Erase(waiting))]
    {
      served := [];
      for k := 0 to |waiting|
        invariant served == waiting[..k] && k <= SharedPrefix(Erase(waiting))
      {
        if waiting[k].lockType != Shared {
          break;
        }
        assert Erase(waiting)[k].lockType == Shared;
        served := served + [waiting[k]];
      }
    }
  }

  lemma DropMore(g: Graph, served: set<Client>, c: Client)
    ensures DropWaiter(g - served, c) == g - (served + {c})
  {
  }

  lemma ClientsGrow(ws: seq<Waiter>, k: nat)
    requires k < |ws|
    ensures Clients(ws[..k + 1]) == Clients(ws[..k]) + {ws[k].client}
  {
    assert ws[..k + 1] == ws[..k] + [ws[k]];
  }
}
