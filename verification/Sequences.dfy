/** Sequence operations that the ring, the lock manager and the message store share. */
module Sequences {

  function Elements<T>(s: seq<T>): set<T> {
    set x | x in s
  }

  predicate Distinct<T(==)>(s: seq<T>) {
    forall i, j | 0 <= i < j < |s| :: s[i] != s[j]
  }

  /** Python's list.remove: the first equal element goes. */
  function RemoveFirst<T(==)>(s: seq<T>, x: T): seq<T>
    requires x in s
  {
    if s[0] == x then s[1..] else [s[0]] + RemoveFirst(s[1..], x)
  }

  /** All equal elements go. */
  function Without<T(==)>(s: seq<T>, x: T): seq<T> {
    if s == [] then []
    else Without(s[..|s| - 1], x) + (if s[|s| - 1] == x then [] else [s[|s| - 1]])
  }

  lemma WithoutSnoc<T>(s: seq<T>, last: T, x: T)
    ensures Without(s + [last], x) == Without(s, x) + (if last == x then [] else [last])
  {
    assert (s + [last])[..|s|] == s;
  }
}
