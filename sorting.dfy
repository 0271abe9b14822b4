/** In-place insertion sort by an integer key, the model of `Array.prototype.sort` with a
    comparator `(a, b) => key(a) - key(b)`. */
module Sorting {
  /** Keys never decrease from left to right. */
  predicate Ascending<T>(s: seq<T>, key: T -> int)
  {
    forall i, j :: 0 <= i < j < |s| ==> key(s[i]) <= key(s[j])
  }

  /** The first `n` elements of `s` are in ascending key order. */
  ghost predicate AscendingUpTo<T>(s: seq<T>, n: int, key: T -> int)
    requires n <= |s|
  {
    forall k, l :: 0 <= k < l < n ==> key(s[k]) <= key(s[l])
  }

  /** Sorts `a` in place by `key`. */
  method SortByKey<T>(a: array<T>, key: T -> int)
    modifies a
    ensures Ascending(a[..], key)
    ensures multiset(a[..]) == multiset(old(a[..]))
  {
    if a.Length == 0 {
      return;
    }
    var i := 1;
    while i < a.Length
      invariant 1 <= i <= a.Length
      invariant AscendingUpTo(a[..], i, key)
      invariant multiset(a[..]) == multiset(old(a[..]))
    {
      InsertByKey(a, i, key);
      i := i + 1;
    }
  }

  /** `[...s].sort(...)`: a sorted copy, leaving `s` alone. */
  method SortedByKey<T>(s: seq<T>, key: T -> int) returns (t: seq<T>)
    ensures Ascending(t, key)
    ensures multiset(t) == multiset(s)
    ensures forall x :: x in t <==> x in s
  {
    var a := new T[|s|](i requires 0 <= i < |s| => s[i]);
    assert a[..] == s;
    SortByKey(a, key);
    t := a[..];
    assert forall x :: x in t <==> x in multiset(s);
  }

  /** One insertion step: the cell at `i` moves left past every cell with a larger key. */
  method InsertByKey<T>(a: array<T>, i: int, key: T -> int)
    requires 1 <= i < a.Length && AscendingUpTo(a[..], i, key)
    modifies a
    ensures AscendingUpTo(a[..], i + 1, key)
    ensures multiset(a[..]) == multiset(old(a[..]))
  {
    var j := i;
    while j > 0 && key(a[j - 1]) > key(a[j])
      invariant 0 <= j <= i
      invariant multiset(a[..]) == multiset(old(a[..]))
      invariant Inserting(a[..], i, j, key)
    {
      ghost var b := a[..];
      Swap(a, j - 1, j);
      assert a[..] == b[j - 1 := b[j]][j := b[j - 1]];
      SwapKeepsInserting(b, i, j, key);
      j := j - 1;
    }
    InsertingDone(a[..], i, j, key);
  }

  /** Midway through inserting the element at `i`: it now sits at `j`, the first `i + 1`
      elements are in order apart from it, and it is smaller than everything to its right. */
  ghost predicate Inserting<T>(s: seq<T>, i: int, j: int, key: T -> int)
    requires 0 <= j <= i < |s|
  {
    (forall k, l :: 0 <= k < l <= i && k != j && l != j ==> key(s[k]) <= key(s[l]))
    && (forall l :: j < l <= i ==> key(s[j]) < key(s[l]))
  }

  /** Moving the element one place left, past a larger key, keeps the insertion going. */
  lemma SwapKeepsInserting<T>(s: seq<T>, i: int, j: int, key: T -> int)
    requires 0 < j <= i < |s| && Inserting(s, i, j, key) && key(s[j - 1]) > key(s[j])
    ensures Inserting(s[j - 1 := s[j]][j := s[j - 1]], i, j - 1, key)
  {
  }

  /** The insertion ends when the element meets a key no larger than its own, or the front. */
  lemma InsertingDone<T>(s: seq<T>, i: int, j: int, key: T -> int)
    requires 0 <= j <= i < |s| && Inserting(s, i, j, key)
    requires j == 0 || key(s[j - 1]) <= key(s[j])
    ensures AscendingUpTo(s, i + 1, key)
  {
  }

  /** Exchanges two cells of `a`. */
  method Swap<T>(a: array<T>, p: int, q: int)
    requires 0 <= p < a.Length && 0 <= q < a.Length
    modifies a
    ensures a[p] == old(a[q]) && a[q] == old(a[p])
    ensures forall k :: 0 <= k < a.Length && k != p && k != q ==> a[k] == old(a[k])
    ensures multiset(a[..]) == multiset(old(a[..]))
  {
    a[p], a[q] := a[q], a[p];
  }

  /** The first element of a sequence in ascending order has the least key. */
  lemma FirstIsLeast<T>(s: seq<T>, key: T -> int)
    requires Ascending(s, key) && s != []
    ensures forall x :: x in s ==> key(s[0]) <= key(x)
  {
    forall x | x in s
      ensures key(s[0]) <= key(x)
    {
      var j :| 0 <= j < |s| && s[j] == x;
      if j > 0 {
        assert key(s[0]) <= key(s[j]);
      }
    }
  }
}
