/** The library's stable sort, as the insertions it is equivalent to.  `order` is the comparison callback. */
module StableSort {
  predicate Sorted<T>(s: seq<T>, order: (T, T) -> int) {
    forall i, j :: 0 <= i < j < |s| ==> order(s[i], s[j]) <= 0
  }

  function Insert<T>(s: seq<T>, x: T, order: (T, T) -> int): (r: seq<T>)
    ensures |r| == |s| + 1
  {
    if s == [] || order(s[|s| - 1], x) <= 0 then s + [x]
    else Insert(s[..|s| - 1], x, order) + [s[|s| - 1]]
  }

  function Sort<T>(s: seq<T>, order: (T, T) -> int): (r: seq<T>)
    ensures |r| == |s|
  {
    if s == [] then [] else Insert(Sort(s[..|s| - 1], order), s[|s| - 1], order)
  }

  /** What is inserted goes right after the last element not above it. */
  lemma {:induction false} InsertAt<T>(s: seq<T>, x: T, order: (T, T) -> int, k: nat)
    requires k <= |s|
    requires k > 0 ==> order(s[k - 1], x) <= 0
    requires forall i :: k <= i < |s| ==> order(s[i], x) > 0
    ensures Insert(s, x, order) == s[..k] + [x] + s[k..]
  {
    if k < |s| {
      var n := |s| - 1;
      InsertAt(s[..n], x, order, k);
      assert s[..n][..k] == s[..k];
      assert s[k..] == s[..n][k..] + [s[n]];
    } else {
      assert s[..k] == s && s[k..] == [];
    }
  }

  lemma {:induction false} SortOfSorted<T>(s: seq<T>, order: (T, T) -> int)
    requires Sorted(s, order)
    ensures Sort(s, order) == s
  {
    if s != [] {
      var n := |s| - 1;
      SortOfSorted(s[..n], order);
      if n > 0 { assert order(s[n - 1], s[n]) <= 0; }
      assert s == s[..n] + [s[n]];
    }
  }

  /** `all` is `s` with `x` put in at `k`. */
  predicate IsInsertion<T(==)>(all: seq<T>, s: seq<T>, x: T, k: nat) {
    && |all| == |s| + 1 && k <= |s| && all[k] == x
    && (forall i :: 0 <= i < k ==> all[i] == s[i])
    && (forall i :: k < i < |all| ==> all[i] == s[i - 1])
  }

  /** An element appended to a sorted list ends up right after the last one not above it. */
  lemma {:induction false} AppendedAt<T>(s: seq<T>, x: T, order: (T, T) -> int) returns (k: nat)
    requires Sorted(s, order)
    ensures IsInsertion(Sort(s + [x], order), s, x, k)
    ensures k > 0 ==> order(s[k - 1], x) <= 0
    ensures forall i :: k <= i < |s| ==> order(s[i], x) > 0
  {
    SortOfSorted(s, order);
    assert (s + [x])[..|s|] == s;
    k := InsertedAt(s, x, order);
  }

  lemma {:induction false} InsertedAt<T>(s: seq<T>, x: T, order: (T, T) -> int) returns (k: nat)
    ensures IsInsertion(Insert(s, x, order), s, x, k)
    ensures k > 0 ==> order(s[k - 1], x) <= 0
    ensures forall i :: k <= i < |s| ==> order(s[i], x) > 0
  {
    if s == [] || order(s[|s| - 1], x) <= 0 {
      k := |s|;
    } else {
      k := InsertedAt(s[..|s| - 1], x, order);
    }
  }

  lemma SortTwo<T>(a: T, b: T, order: (T, T) -> int)
    requires order(a, b) > 0
    ensures Sort([a] + [b], order) == [b, a]
  {
    var two := [a] + [b];
    assert two[..1] == [a] && [a][..0] == [];
    assert Sort([a], order) == [a];
    assert Insert([], b, order) == [b];
  }
}
