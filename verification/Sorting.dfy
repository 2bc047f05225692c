/** Sorting a slice in place by cpu, then memory, then falling usage rate. */
module Sorting {

  datatype Key = Key(cpu: int, memory: int, rate: real)

  predicate Before(a: Key, b: Key) {
    if a.cpu != b.cpu then a.cpu < b.cpu
    else if a.memory != b.memory then a.memory < b.memory
    else a.rate > b.rate
  }

  /** The comparator is a strict weak order, as the sort requires: irreflexive, and any key is on
      one side of a strictly ordered pair. */
  lemma BeforeIsStrictWeakOrder(a: Key, b: Key, c: Key)
    ensures !Before(a, a)
    ensures Before(a, b) ==> !Before(b, a)
    ensures Before(a, b) ==> Before(a, c) || Before(c, b)
  {}

  ghost predicate SortedBy<T>(s: seq<T>, key: T -> Key) {
    forall i, j | 0 <= i < j < |s| :: !Before(key(s[j]), key(s[i]))
  }

  /** Sorted, except that the element at `k` may belong further left. */
  ghost predicate SortedBut<T>(s: seq<T>, key: T -> Key, k: int) {
    forall i, j | 0 <= i < j < |s| && j != k :: !Before(key(s[j]), key(s[i]))
  }

  lemma SwapDown<T>(s: seq<T>, key: T -> Key, k: nat)
    requires 0 < k < |s| && SortedBut(s, key, k) && Before(key(s[k]), key(s[k - 1]))
    ensures SortedBut(s[k := s[k - 1]][k - 1 := s[k]], key, k - 1)
    ensures multiset(s[k := s[k - 1]][k - 1 := s[k]]) == multiset(s)
  {}

  lemma SettledAt<T>(s: seq<T>, key: T -> Key, k: nat)
    requires k < |s| && SortedBut(s, key, k) && (k > 0 ==> !Before(key(s[k]), key(s[k - 1])))
    ensures SortedBy(s, key)
  {}

  /** Move the element at `n` left to its place in the sorted part before it. */
  method SinkInto<T>(a: array<T>, n: nat, key: T -> Key)
    requires n < a.Length && SortedBy(a[..n], key)
    modifies a
    ensures multiset(a[..n + 1]) == multiset(old(a[..n + 1])) && a[n + 1..] == old(a[n + 1..])
    ensures SortedBy(a[..n + 1], key)
  {
    var k := n;
    while k > 0 && Before(key(a[k]), key(a[k - 1]))
      invariant 0 <= k <= n
      invariant multiset(a[..n + 1]) == multiset(old(a[..n + 1])) && a[n + 1..] == old(a[n + 1..])
      invariant SortedBut(a[..n + 1], key, k)
    {
      ghost var was := a[..n + 1];
      SwapDown(was, key, k);
      a[k], a[k - 1] := a[k - 1], a[k];
      assert a[..n + 1] == was[k := was[k - 1]][k - 1 := was[k]];
      k := k - 1;
    }
    SettledAt(a[..n + 1], key, k);
  }

  method SortSlice<T>(a: array<T>, key: T -> Key)
    modifies a
    ensures multiset(a[..]) == multiset(old(a[..]))
    ensures SortedBy(a[..], key)
  {
    for n := 0 to a.Length
      invariant multiset(a[..]) == multiset(old(a[..]))
      invariant SortedBy(a[..n], key)
    {
      ghost var head, tail := a[..n + 1], a[n + 1..];
      assert a[..] == head + tail;
      SinkInto(a, n, key);
      assert a[..] == a[..n + 1] + tail;
    }
    assert a[..a.Length] == a[..];
  }
}
