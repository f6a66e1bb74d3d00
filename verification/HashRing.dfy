/** Sorted rings of hash points: insertion, removal, and the clockwise order of owners. */
module HashRing {
  import opened Sequences

  predicate Ascending(s: seq<int>) {
    forall i, j | 0 <= i < j < |s| :: s[i] < s[j]
  }

  /** The leftmost position at which `x` could stand. */
  function BisectLeft(s: seq<int>, x: int): (k: nat)
    requires Ascending(s)
    ensures k <= |s|
    ensures forall i | 0 <= i < k :: s[i] < x
    ensures forall i | k <= i < |s| :: s[i] >= x
  {
    if s == [] || s[0] >= x then 0
    else
      assert forall i | 0 < i < |s| :: s[i] == s[1..][i - 1];
      1 + BisectLeft(s[1..], x)
  }

  function Insort(s: seq<int>, x: int): seq<int> {
    if s == [] || x < s[0] then [x] + s else [s[0]] + Insort(s[1..], x)
  }

  lemma ConsAscending(x: int, s: seq<int>)
    requires Ascending(s) && forall y | y in Elements(s) :: x < y
    ensures Ascending([x] + s) && Elements([x] + s) == {x} + Elements(s)
  {
    assert forall k | 0 <= k < |s| :: s[k] in Elements(s);
  }

  lemma TailAscending(s: seq<int>)
    requires Ascending(s) && s != []
    ensures Ascending(s[1..]) && Elements(s[1..]) == Elements(s) - {s[0]}
    ensures forall y | y in Elements(s[1..]) :: s[0] < y
  {
    assert s == [s[0]] + s[1..];
    forall k | 0 <= k < |s[1..]|
      ensures s[1..][k] > s[0]
    {
      assert s[0] < s[k + 1];
    }
  }

  lemma {:induction false} InsortOk(s: seq<int>, x: int)
    requires Ascending(s) && x !in s
    ensures Ascending(Insort(s, x)) && Elements(Insort(s, x)) == Elements(s) + {x}
  {
    if s == [] {
    } else {
      TailAscending(s);
      if x < s[0] {
        ConsAscending(x, s);
      } else {
        InsortOk(s[1..], x);
        ConsAscending(s[0], Insort(s[1..], x));
      }
    }
  }

  lemma {:induction false} RemoveFirstOk(s: seq<int>, x: int)
    requires Ascending(s) && x in s
    ensures Ascending(RemoveFirst(s, x)) && Elements(RemoveFirst(s, x)) == Elements(s) - {x}
  {
    TailAscending(s);
    if s[0] != x {
      RemoveFirstOk(s[1..], x);
      ConsAscending(s[0], RemoveFirst(s[1..], x));
    }
  }

  /** An ascending sequence is determined by its elements. */
  lemma {:induction false} AscendingUnique(s: seq<int>, s': seq<int>)
    requires Ascending(s) && Ascending(s') && Elements(s) == Elements(s')
    ensures s == s'
  {
    assert (s != [] ==> s[0] in Elements(s)) && (s' != [] ==> s'[0] in Elements(s'));
    if s != [] {
      TailAscending(s);
      TailAscending(s');
      assert s[0] in Elements(s') && s'[0] in Elements(s);
      assert s[0] == s'[0];
      AscendingUnique(s[1..], s'[1..]);
      assert s == [s[0]] + s[1..] && s' == [s'[0]] + s'[1..];
    }
  }

  /** The ring read clockwise from the first point at or after `h`. */
  function Clockwise(points: seq<int>, h: int): (w: seq<int>)
    requires Ascending(points)
    ensures |w| == |points|
  {
    var k := BisectLeft(points, h);
    points[k..] + points[..k]
  }

  /** Clockwise from `h`: first the points at or after it, ascending, then those before it, ascending. */
  predicate Before(h: int, p: int, q: int) {
    if (p >= h) == (q >= h) then p < q else p >= h
  }

  lemma ClockwiseOrder(points: seq<int>, h: int, a: nat, b: nat)
    requires Ascending(points) && a < b < |points|
    ensures Before(h, Clockwise(points, h)[a], Clockwise(points, h)[b])
  {
    var k := BisectLeft(points, h);
    var p := if a < |points| - k then points[k + a] else points[k + a - |points|];
    var q := if b < |points| - k then points[k + b] else points[k + b - |points|];
    assert Clockwise(points, h)[a] == p && Clockwise(points, h)[b] == q;
  }

  predicate Owned(owner: map<int, string>, walk: seq<int>) {
    forall k | 0 <= k < |walk| :: walk[k] in owner
  }

  function Owners(owner: map<int, string>, walk: seq<int>): (os: seq<string>)
    requires Owned(owner, walk)
    ensures |os| == |walk|
    ensures forall k | 0 <= k < |walk| :: os[k] == owner[walk[k]]
  {
    seq(|walk|, k requires 0 <= k < |walk| => owner[walk[k]])
  }

  /** Each value once, in order of first occurrence. */
  function Dedupe(s: seq<string>): seq<string> {
    if s == [] then []
    else
      var d, last := Dedupe(s[..|s| - 1]), s[|s| - 1];
      if last in d then d else d + [last]
  }

  lemma {:induction false} DedupeOk(s: seq<string>)
    ensures Distinct(Dedupe(s)) && Elements(Dedupe(s)) == Elements(s)
    ensures s != [] ==> Dedupe(s) != [] && Dedupe(s)[0] == s[0]
  {
    if s != [] {
      var init, last := s[..|s| - 1], s[|s| - 1];
      DedupeOk(init);
      assert s == init + [last];
      assert Elements(s) == Elements(init) + {last};
      var d := Dedupe(init);
      assert Elements(d + [last]) == Elements(d) + {last};
      assert last in d <==> last in Elements(d);
    }
  }

  /** Of two values the one that is listed first occurs before every occurrence of the other. */
  lemma {:induction false} DedupeOrder(s: seq<string>, i: nat, j: nat) returns (a: nat)
    requires i < j < |Dedupe(s)|
    ensures a < |s| && s[a] == Dedupe(s)[i] && forall b | 0 <= b < |s| && s[b] == Dedupe(s)[j] :: a < b
  {
    var init := s[..|s| - 1];
    if j < |Dedupe(init)| {
      a := DedupeOrder(init, i, j);
    } else {
      var d := Dedupe(init);
      DedupeOk(init);
      assert d[i] in Elements(d) && d[i] in init;
      a :| 0 <= a < |init| && init[a] == d[i];
      forall b | 0 <= b < |init|
        ensures init[b] != s[|s| - 1]
      {
        assert init[b] in Elements(init) && init[b] in Elements(d);
      }
    }
  }

  lemma {:induction false} DedupePrefix(s: seq<string>, k: nat)
    requires k <= |s|
    ensures Dedupe(s[..k]) <= Dedupe(s)
  {
    if k < |s| {
      DedupePrefix(s[..|s| - 1], k);
      assert s[..|s| - 1][..k] == s[..k];
    } else {
      assert s[..k] == s;
    }
  }

  lemma {:induction false} DistinctSize(s: seq<string>)
    requires Distinct(s)
    ensures |Elements(s)| == |s|
  {
    if s != [] {
      var init, last := s[..|s| - 1], s[|s| - 1];
      DistinctSize(init);
      assert Elements(s) == Elements(init) + {last};
      forall k | 0 <= k < |init|
        ensures init[k] != last
      {
        assert s[k] != s[|s| - 1];
      }
    }
  }

  // ---------- deletion of one owner ----------

  lemma {:induction false} DedupeWithout(s: seq<string>, n: string)
    ensures Dedupe(Without(s, n)) == Without(Dedupe(s), n)
  {
    if s != [] {
      var init, last := s[..|s| - 1], s[|s| - 1];
      assert s == init + [last];
      DedupeWithout(init, n);
      WithoutSnoc(init, last, n);
      if last != n {
        WithoutMember(Dedupe(init), n, last);
      }
      if last in Dedupe(init) {
        assert Dedupe(s) == Dedupe(init);
      } else {
        WithoutSnoc(Dedupe(init), last, n);
      }
      if last == n {
        assert Without(s, n) == Without(init, n);
      }
    }
  }

  lemma {:induction false} WithoutMember(s: seq<string>, n: string, x: string)
    ensures x in Without(s, n) <==> x in s && x != n
  {
    if s != [] {
      WithoutMember(s[..|s| - 1], n, x);
      assert s == s[..|s| - 1] + [s[|s| - 1]];
    }
  }

  /** The points of a walk that another node than `n` owns. */
  function Others(owner: map<int, string>, walk: seq<int>, n: string): seq<int>
    requires Owned(owner, walk)
  {
    if walk == [] then []
    else
      var last := walk[|walk| - 1];
      Others(owner, walk[..|walk| - 1], n) + (if owner[last] == n then [] else [last])
  }

  lemma {:induction false} OthersMember(owner: map<int, string>, walk: seq<int>, n: string, p: int)
    requires Owned(owner, walk)
    ensures p in Others(owner, walk, n) <==> p in walk && p in owner && owner[p] != n
  {
    if walk != [] {
      var init, last := walk[..|walk| - 1], walk[|walk| - 1];
      OthersMember(owner, init, n, p);
      assert walk == init + [last];
    }
  }

  lemma SnocAscending(s: seq<int>, x: int)
    requires Ascending(s) && forall y | y in s :: y < x
    ensures Ascending(s + [x])
  {
    assert forall k | 0 <= k < |s| :: s[k] in s;
  }

  lemma {:induction false} OthersAscending(owner: map<int, string>, walk: seq<int>, n: string)
    requires Ascending(walk) && Owned(owner, walk)
    ensures Ascending(Others(owner, walk, n))
  {
    if walk != [] {
      var init, last := walk[..|walk| - 1], walk[|walk| - 1];
      OthersAscending(owner, init, n);
      forall p | p in Others(owner, init, n)
        ensures p < last
      {
        OthersMember(owner, init, n, p);
        var k :| 0 <= k < |init| && init[k] == p;
        assert walk[k] < walk[|walk| - 1];
      }
      SnocAscending(Others(owner, init, n), last);
    }
  }

  lemma {:induction false} OthersJoin(owner: map<int, string>, a: seq<int>, b: seq<int>, n: string)
    requires Owned(owner, a) && Owned(owner, b)
    ensures Owned(owner, a + b)
    ensures Others(owner, a + b, n) == Others(owner, a, n) + Others(owner, b, n)
  {
    if b == [] {
      assert a + b == a;
    } else {
      var init, last := b[..|b| - 1], b[|b| - 1];
      OthersJoin(owner, a, init, n);
      assert a + b == (a + init) + [last] && b == init + [last];
    }
  }

  lemma {:induction false} OwnersOfOthers(owner: map<int, string>, owner': map<int, string>, walk: seq<int>, n: string)
    requires Owned(owner, walk)
    requires forall p | p in owner && owner[p] != n :: p in owner' && owner'[p] == owner[p]
    ensures Owned(owner', Others(owner, walk, n))
    ensures Owners(owner', Others(owner, walk, n)) == Without(Owners(owner, walk), n)
  {
    if walk != [] {
      var init, last := walk[..|walk| - 1], walk[|walk| - 1];
      OwnersOfOthers(owner, owner', init, n);
      assert Owners(owner, walk)[..|walk| - 1] == Owners(owner, init);
      var o := Others(owner, init, n);
      if owner[last] == n {
        assert Others(owner, walk, n) == o;
      } else {
        assert Others(owner, walk, n) == o + [last];
        assert Owners(owner', o + [last]) == Owners(owner', o) + [owner'[last]];
      }
    }
  }

  lemma BisectSplit(low: seq<int>, high: seq<int>, h: int)
    requires Ascending(low + high)
    requires (forall y | y in low :: y < h) && (forall y | y in high :: y >= h)
    ensures BisectLeft(low + high, h) == |low|
  {
    var s := low + high;
    forall i | |low| <= i < |s|
      ensures s[i] >= h
    {
      assert s[i] == high[i - |low|] && high[i - |low|] in high;
    }
    forall i | 0 <= i < |low|
      ensures s[i] < h
    {
      assert s[i] == low[i] && low[i] in low;
    }
    var k := BisectLeft(s, h);
    var x, y := if k < |s| then s[k] else h, if |low| < |s| then s[|low|] else h;
    assert k == |low|;
  }

  /** Deleting one owner's points and then walking is walking and then deleting them. */
  lemma ClockwiseOthers(owner: map<int, string>, points: seq<int>, h: int, n: string)
    requires Ascending(points) && Owned(owner, points)
    ensures Ascending(Others(owner, points, n)) && Owned(owner, Clockwise(points, h))
    ensures Clockwise(Others(owner, points, n), h) == Others(owner, Clockwise(points, h), n)
  {
    var k := BisectLeft(points, h);
    var low, high := points[..k], points[k..];
    assert points == low + high;
    OthersAscending(owner, points, n);
    OthersJoin(owner, low, high, n);
    OthersJoin(owner, high, low, n);
    forall p
      ensures p in Others(owner, low, n) ==> p < h
      ensures p in Others(owner, high, n) ==> p >= h
    {
      OthersMember(owner, low, n, p);
      OthersMember(owner, high, n, p);
    }
    BisectSplit(Others(owner, low, n), Others(owner, high, n), h);
  }
}
