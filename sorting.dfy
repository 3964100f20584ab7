/** A stable in-place sort driven by a comparator, as `Array.prototype.sort(comparator)`
    is: a negative or zero answer keeps `a` before `b`, a positive one puts `a` after `b`.
    The functional `StableSort` specifies it; an insertion sort on the array refines it. */
module Sorting {
  import Seqs

  /** Inserting `x` after every element that the comparator does not put after it: the step
      of a stable insertion sort. */
  function Insert<T>(cmp: (T, T) -> int, s: seq<T>, x: T): (r: seq<T>)
    ensures |r| == |s| + 1
  {
    if s == [] then [x]
    else if cmp(s[|s| - 1], x) > 0 then Insert(cmp, s[..|s| - 1], x) + [s[|s| - 1]]
    else s + [x]
  }

  /** The stable sort of `s` by the comparator. */
  function StableSort<T>(cmp: (T, T) -> int, s: seq<T>): (r: seq<T>)
    ensures |r| == |s|
  {
    if s == [] then [] else Insert(cmp, StableSort(cmp, s[..|s| - 1]), s[|s| - 1])
  }

  /** An insertion adds exactly the inserted element. */
  lemma {:induction false} InsertMultiset<T>(cmp: (T, T) -> int, s: seq<T>, x: T)
    ensures multiset(Insert(cmp, s, x)) == multiset(s) + multiset{x}
  {
    if s != [] && cmp(s[|s| - 1], x) > 0 {
      InsertMultiset(cmp, s[..|s| - 1], x);
      assert s == s[..|s| - 1] + [s[|s| - 1]];
    }
  }

  /** No pair of elements is out of order for the comparator. */
  ghost predicate SortedBy<T>(cmp: (T, T) -> int, s: seq<T>) {
    forall i, j :: 0 <= i < j < |s| ==> cmp(s[i], s[j]) <= 0
  }

  /** The comparator puts `u` after `v` exactly when `u` ranks above `v`. */
  ghost predicate RankedBy<T(!new)>(cmp: (T, T) -> int, rank: T -> int) {
    forall u, v :: cmp(u, v) > 0 <==> rank(u) > rank(v)
  }

  /** The comparator never puts an element after another with the same key. */
  ghost predicate KeepsTies<T(!new)>(cmp: (T, T) -> int, key: T -> int) {
    forall u, v :: cmp(u, v) > 0 ==> key(u) != key(v)
  }

  function KeyIs<T>(key: T -> int, k: int): T -> bool {
    (d: T) => key(d) == k
  }

  /** The elements whose key is `k`, in order: equal keys keep their relative order exactly
      when this is preserved for every `k`. */
  function WithKey<T>(key: T -> int, k: int, s: seq<T>): seq<T> {
    Seqs.Filter(s, KeyIs(key, k))
  }

  /** Inserting into a sorted list gives a sorted list. */
  lemma {:induction false} InsertSorted<T(!new)>(cmp: (T, T) -> int, rank: T -> int, s: seq<T>, x: T)
    requires RankedBy(cmp, rank)
    requires SortedBy(cmp, s)
    ensures SortedBy(cmp, Insert(cmp, s, x))
  {
    if s != [] {
      var init, last := s[..|s| - 1], s[|s| - 1];
      if cmp(last, x) > 0 {
        InsertSorted(cmp, rank, init, x);
        InsertMultiset(cmp, init, x);
        var ins := Insert(cmp, init, x);
        forall i | 0 <= i < |ins|
          ensures cmp(ins[i], last) <= 0
        {
          assert ins[i] in multiset(ins);
          if ins[i] != x {
            assert ins[i] in init;
          }
        }
      } else {
        forall i | 0 <= i < |s|
          ensures cmp(s[i], x) <= 0
        {
          assert rank(s[i]) <= rank(last) by {
            if i < |s| - 1 {
              assert cmp(s[i], s[|s| - 1]) <= 0;
            }
          }
        }
      }
    }
  }

  /** Inserting `x` keeps the order of the elements with any key, `x` coming last among its
      equals. */
  lemma {:induction false} InsertStable<T(!new)>(cmp: (T, T) -> int, key: T -> int, s: seq<T>, x: T, k: int)
    requires KeepsTies(cmp, key)
    ensures WithKey(key, k, Insert(cmp, s, x)) == WithKey(key, k, s) + WithKey(key, k, [x])
  {
    if s != [] {
      var init, last := s[..|s| - 1], s[|s| - 1];
      assert s == init + [last];
      Seqs.FilterConcat(init, [last], KeyIs(key, k));
      if cmp(last, x) > 0 {
        InsertStable(cmp, key, init, x, k);
        Seqs.FilterConcat(Insert(cmp, init, x), [last], KeyIs(key, k));
        assert key(x) == k ==> key(last) != k;
      } else {
        Seqs.FilterConcat(s, [x], KeyIs(key, k));
      }
    }
  }

  /** The stable sort is a permutation of its input, is in comparator order, and keeps the
      input order among elements with equal keys. */
  lemma {:induction false} StableSortCorrect<T(!new)>(cmp: (T, T) -> int, rank: T -> int, key: T -> int, s: seq<T>)
    requires RankedBy(cmp, rank) && KeepsTies(cmp, key)
    ensures multiset(StableSort(cmp, s)) == multiset(s)
    ensures SortedBy(cmp, StableSort(cmp, s))
    ensures forall k :: WithKey(key, k, StableSort(cmp, s)) == WithKey(key, k, s)
  {
    if s != [] {
      var init, last := s[..|s| - 1], s[|s| - 1];
      assert s == init + [last];
      StableSortCorrect(cmp, rank, key, init);
      InsertMultiset(cmp, StableSort(cmp, init), last);
      InsertSorted(cmp, rank, StableSort(cmp, init), last);
      forall k
        ensures WithKey(key, k, StableSort(cmp, s)) == WithKey(key, k, s)
      {
        InsertStable(cmp, key, StableSort(cmp, init), last, k);
        Seqs.FilterConcat(init, [last], KeyIs(key, k));
      }
    }
  }

  /** Where insertion puts `x`: after the last element that the comparator does not put
      after `x`, before the run of elements it puts after `x`. */
  lemma {:induction false} InsertAt<T>(cmp: (T, T) -> int, s: seq<T>, x: T, j: nat)
    requires j <= |s|
    requires j == 0 || cmp(s[j - 1], x) <= 0
    requires forall k :: j <= k < |s| ==> cmp(s[k], x) > 0
    ensures Insert(cmp, s, x) == s[..j] + [x] + s[j..]
  {
    if j < |s| {
      var init := s[..|s| - 1];
      assert init[..j] == s[..j] && init[j..] + [s[|s| - 1]] == s[j..];
      InsertAt(cmp, init, x, j);
    } else {
      assert s[..j] == s;
    }
  }

  /** The stable sort of four elements when the comparator puts `a` after `b`, `d` and
      after nothing else, and `c` after `d` only: `b, d, a, c`. */
  lemma SortFour<T>(cmp: (T, T) -> int, a: T, b: T, c: T, d: T)
    requires cmp(a, b) > 0 && cmp(a, c) <= 0 && cmp(a, d) > 0
    requires cmp(b, d) <= 0 && cmp(c, d) > 0
    ensures StableSort(cmp, [a, b, c, d]) == [b, d, a, c]
  {
    assert [a, b, c, d][..3] == [a, b, c] && [a, b, c][..2] == [a, b] && [a, b][..1] == [a] && [a][..0] == [];
    assert [b, a, c][..2] == [b, a] && [b, a][..1] == [b] && [b][..0] == [];
    assert StableSort(cmp, [a]) == [a];
    assert Insert(cmp, [a], b) == [b, a];
    assert StableSort(cmp, [a, b]) == [b, a];
    assert StableSort(cmp, [a, b, c]) == [b, a, c];
    assert Insert(cmp, [b], d) == [b, d];
    assert Insert(cmp, [b, a], d) == [b, d, a];
    assert Insert(cmp, [b, a, c], d) == [b, d, a, c];
  }

  /** One step of the in-place sort: `a[i]` moves left past every element of the sorted
      prefix `a[..i]` that the comparator puts after it. */
  method InsertInPlace<T>(a: array<T>, i: nat, cmp: (T, T) -> int)
    requires i < a.Length
    modifies a
    ensures a[..i + 1] == Insert(cmp, old(a[..i]), old(a[i]))
    ensures a[i + 1..] == old(a[i + 1..])
  {
    ghost var sorted := a[..i];
    var x := a[i];
    var j := i;
    while j > 0 && cmp(a[j - 1], x) > 0
      invariant 0 <= j <= i
      invariant forall k {:trigger a[k]} :: 0 <= k < j ==> a[k] == sorted[k]
      invariant forall k {:trigger a[k]} :: j < k <= i ==> a[k] == sorted[k - 1]
      invariant forall k :: i < k < a.Length ==> a[k] == old(a[k])
      invariant forall k :: j <= k < i ==> cmp(sorted[k], x) > 0
    {
      a[j] := a[j - 1];
      j := j - 1;
    }
    a[j] := x;
    Assemble(a[..], sorted, x, j);
    InsertAt(cmp, sorted, x, j);
  }

  lemma Assemble<T>(b: seq<T>, sorted: seq<T>, x: T, j: nat)
    requires j <= |sorted| < |b|
    requires forall k {:trigger b[k]} :: 0 <= k < j ==> b[k] == sorted[k]
    requires b[j] == x
    requires forall k {:trigger b[k]} :: j < k <= |sorted| ==> b[k] == sorted[k - 1]
    ensures b[..|sorted| + 1] == sorted[..j] + [x] + sorted[j..]
  {
    assert forall k :: 0 <= k <= |sorted| ==> b[k] == (sorted[..j] + [x] + sorted[j..])[k];
  }

  /** `array.sort(cmp)`: an insertion sort of the whole array, which leaves the stable sort
      of its old contents. */
  method SortInPlace<T>(a: array<T>, cmp: (T, T) -> int)
    modifies a
    ensures a[..] == StableSort(cmp, old(a[..]))
  {
    ghost var input := a[..];
    var i := 0;
    while i < a.Length
      invariant 0 <= i <= a.Length
      invariant a[..i] == StableSort(cmp, input[..i])
      invariant a[i..] == input[i..]
    {
      assert input[..i + 1][..i] == input[..i];
      assert StableSort(cmp, input[..i + 1]) == Insert(cmp, StableSort(cmp, input[..i]), input[i]);
      InsertInPlace(a, i, cmp);
      assert a[i + 1..] == input[i + 1..];
      i := i + 1;
    }
    assert input[..a.Length] == input;
  }
}
