/** `Array.prototype.filter` and `Array.prototype.sort`, as the handlers use them, and their laws. */
module Lists {

  /** The elements of `s` that satisfy `keep`, in their original order. */
  function Filter<T>(s: seq<T>, keep: T -> bool): (r: seq<T>)
    ensures |r| <= |s|
    ensures forall i :: 0 <= i < |r| ==> keep(r[i])
  {
    if s == [] then []
    else if keep(s[0]) then [s[0]] + Filter(s[1..], keep)
    else Filter(s[1..], keep)
  }

  /** An element is in the result exactly when it is in the input and kept. */
  lemma {:induction false} FilterMembers<T>(s: seq<T>, keep: T -> bool, x: T)
    ensures x in Filter(s, keep) <==> x in s && keep(x)
  {
    if s != [] {
      FilterMembers(s[1..], keep, x);
      assert s == [s[0]] + s[1..];
    }
  }

  /** Filtering distributes over concatenation, so the kept elements keep their relative order. */
  lemma {:induction false} FilterConcat<T>(a: seq<T>, b: seq<T>, keep: T -> bool)
    ensures Filter(a + b, keep) == Filter(a, keep) + Filter(b, keep)
  {
    if a == [] {
      assert a + b == b;
    } else {
      HeadTailConcat(a, b);
      FilterConcat(a[1..], b, keep);
      var h := if keep(a[0]) then [a[0]] else [];
      assert Filter(a + b, keep) == h + (Filter(a[1..], keep) + Filter(b, keep));
      assert Filter(a, keep) == h + Filter(a[1..], keep);
      ConcatAssoc(h, Filter(a[1..], keep), Filter(b, keep));
    }
  }

  /** The head and tail of a concatenation whose first part is not empty. */
  lemma HeadTailConcat<T>(p: seq<T>, q: seq<T>)
    requires p != []
    ensures (p + q)[0] == p[0] && (p + q)[1..] == p[1..] + q
  {
  }

  /** When every element is kept, filtering changes nothing. */
  lemma {:induction false} FilterKeepsAll<T>(s: seq<T>, keep: T -> bool)
    requires forall i :: 0 <= i < |s| ==> keep(s[i])
    ensures Filter(s, keep) == s
  {
    if s != [] {
      FilterKeepsAll(s[1..], keep);
    }
  }

  // ---------------------------------------------------------------------
  // `Array.prototype.sort` with a comparator `(a, b) => key(b) - key(a)`

  /** Non-increasing in the key. */
  predicate SortedDesc<T>(s: seq<T>, key: T -> int) {
    forall i, j :: 0 <= i < j < |s| ==> key(s[i]) >= key(s[j])
  }

  /** Places `x` after every element of `sorted` whose key is at least its own, scanning from the end. */
  function InsertDesc<T>(sorted: seq<T>, x: T, key: T -> int): seq<T> {
    if sorted == [] || key(sorted[|sorted| - 1]) >= key(x) then sorted + [x]
    else InsertDesc(sorted[..|sorted| - 1], x, key) + [sorted[|sorted| - 1]]
  }

  /** The reference sort: insert each element, in order, into the sort of those before it. */
  function SortDesc<T>(s: seq<T>, key: T -> int): seq<T> {
    if s == [] then [] else InsertDesc(SortDesc(s[..|s| - 1], key), s[|s| - 1], key)
  }

  /** Keeps the elements whose key is `k`. */
  function KeyIs<T>(key: T -> int, k: int): T -> bool {
    (x: T) => key(x) == k
  }

  lemma {:induction false} InsertPermutes<T>(sorted: seq<T>, x: T, key: T -> int)
    ensures multiset(InsertDesc(sorted, x, key)) == multiset(sorted) + multiset{x}
  {
    if !(sorted == [] || key(sorted[|sorted| - 1]) >= key(x)) {
      var init, last := sorted[..|sorted| - 1], sorted[|sorted| - 1];
      InsertPermutes(init, x, key);
      assert sorted == init + [last];
    }
  }

  lemma {:induction false} InsertKeepsSorted<T>(sorted: seq<T>, x: T, key: T -> int)
    requires SortedDesc(sorted, key)
    ensures SortedDesc(InsertDesc(sorted, x, key), key)
  {
    if !(sorted == [] || key(sorted[|sorted| - 1]) >= key(x)) {
      var init, last := sorted[..|sorted| - 1], sorted[|sorted| - 1];
      InsertKeepsSorted(init, x, key);
      InsertPermutes(init, x, key);
      var r := InsertDesc(init, x, key);
      forall i | 0 <= i < |r| ensures key(r[i]) >= key(last) {
        assert r[i] in multiset(init) + multiset{x};
        if r[i] != x {
          assert r[i] in init;
        }
      }
    }
  }

  lemma {:induction false} InsertStable<T>(sorted: seq<T>, x: T, key: T -> int, k: int)
    ensures Filter(InsertDesc(sorted, x, key), KeyIs(key, k)) == Filter(sorted, KeyIs(key, k)) + Filter([x], KeyIs(key, k))
  {
    var keep := KeyIs(key, k);
    if sorted == [] || key(sorted[|sorted| - 1]) >= key(x) {
      FilterConcat(sorted, [x], keep);
    } else {
      var init, last := sorted[..|sorted| - 1], sorted[|sorted| - 1];
      InsertStable(init, x, key, k);
      FilterConcat(InsertDesc(init, x, key), [last], keep);
      FilterConcat(init, [last], keep);
      assert sorted == init + [last];
      if key(x) == k {
        assert Filter([last], keep) == [];
      }
    }
  }

  /** The sort is a permutation of its input. */
  lemma {:induction false} SortPermutes<T>(s: seq<T>, key: T -> int)
    ensures multiset(SortDesc(s, key)) == multiset(s)
  {
    if s != [] {
      SortPermutes(s[..|s| - 1], key);
      InsertPermutes(SortDesc(s[..|s| - 1], key), s[|s| - 1], key);
      assert s == s[..|s| - 1] + [s[|s| - 1]];
    }
  }

  /** The sort is non-increasing in the key. */
  lemma {:induction false} SortIsSorted<T>(s: seq<T>, key: T -> int)
    ensures SortedDesc(SortDesc(s, key), key)
  {
    if s != [] {
      SortIsSorted(s[..|s| - 1], key);
      InsertKeepsSorted(SortDesc(s[..|s| - 1], key), s[|s| - 1], key);
    }
  }

  /** The sort is stable: the elements sharing a key keep their input order. */
  lemma {:induction false} SortIsStable<T>(s: seq<T>, key: T -> int, k: int)
    ensures Filter(SortDesc(s, key), KeyIs(key, k)) == Filter(s, KeyIs(key, k))
  {
    if s != [] {
      var init, last := s[..|s| - 1], s[|s| - 1];
      SortIsStable(init, key, k);
      InsertStable(SortDesc(init, key), last, key, k);
      FilterConcat(init, [last], KeyIs(key, k));
      assert s == init + [last];
    }
  }

  /** The sort in place: an insertion sort that moves an element left past strictly smaller keys only. */
  method SortInPlace<T>(a: array<T>, key: T -> int)
    modifies a
    ensures a[..] == SortDesc(old(a[..]), key)
  {
    var i := 0;
    while i < a.Length
      invariant 0 <= i <= a.Length
      invariant a[..i] == SortDesc(old(a[..])[..i], key)
      invariant a[i..] == old(a[..])[i..]
    {
      InsertInPlace(a, i, key);
      assert old(a[..])[..i + 1][..i] == old(a[..])[..i];
      i := i + 1;
    }
    assert a[..] == a[..a.Length];
    assert old(a[..]) == old(a[..])[..a.Length];
  }

  /** One step of the insertion sort: `a[i]` moves into the prefix `a[..i]`, shifting the smaller keys right. */
  method InsertInPlace<T>(a: array<T>, i: nat, key: T -> int)
    requires i < a.Length
    modifies a
    ensures a[..i + 1] == InsertDesc(old(a[..i]), old(a[i]), key)
    ensures a[i + 1..] == old(a[i + 1..])
  {
    ghost var sorted := a[..i];
    var x := a[i];
    var j := MakeRoom(a, i, key, sorted, x);
    a[j] := x;
    InsertStop(sorted, x, key, j);
    Spliced(a[..i + 1], sorted, x, j);
  }

  /**
   * Shifts right, one place, the elements at the end of the sorted prefix
   * whose key is smaller than that of `x`, and returns the gap left for `x`.
   */
  method MakeRoom<T>(a: array<T>, i: nat, key: T -> int, ghost sorted: seq<T>, x: T) returns (j: nat)
    requires i < a.Length && |sorted| == i
    requires forall k :: 0 <= k < i ==> a[k] == sorted[k]
    modifies a
    ensures j <= i
    ensures forall k :: 0 <= k < j ==> a[k] == sorted[k]
    ensures forall k :: j < k <= i ==> a[k] == sorted[k - 1]
    ensures forall k :: i < k < a.Length ==> a[k] == old(a[k])
    ensures j == 0 || key(sorted[j - 1]) >= key(x)
    ensures InsertDesc(sorted, x, key) == InsertDesc(sorted[..j], x, key) + sorted[j..]
  {
    j := i;
    assert sorted[..j] == sorted && sorted[j..] == [];
    while j > 0 && key(a[j - 1]) < key(x)
      invariant 0 <= j <= i
      invariant forall k :: 0 <= k < j ==> a[k] == sorted[k]
      invariant forall k :: j < k <= i ==> a[k] == sorted[k - 1]
      invariant forall k :: i < k < a.Length ==> a[k] == old(a[k])
      invariant InsertDesc(sorted, x, key) == InsertDesc(sorted[..j], x, key) + sorted[j..]
    {
      InsertShift(sorted, x, key, j);
      ShiftOne(a, i, j, sorted);
      j := j - 1;
    }
  }

  /** Copies `a[j - 1]` into the gap at `j`, so the gap moves one place left. */
  method ShiftOne<T>(a: array<T>, i: nat, j: nat, ghost sorted: seq<T>)
    requires 0 < j <= i < a.Length && |sorted| == i
    requires forall k :: 0 <= k < j ==> a[k] == sorted[k]
    requires forall k :: j < k <= i ==> a[k] == sorted[k - 1]
    modifies a
    ensures forall k :: 0 <= k < j - 1 ==> a[k] == sorted[k]
    ensures forall k :: j - 1 < k <= i ==> a[k] == sorted[k - 1]
    ensures forall k :: 0 <= k < a.Length && k != j ==> a[k] == old(a[k])
  {
    a[j] := a[j - 1];
  }

  /** A sequence that agrees index by index with `sorted` with `x` spliced in at `j` is that splice. */
  lemma Spliced<T>(s: seq<T>, sorted: seq<T>, x: T, j: nat)
    requires j <= |sorted| && |s| == |sorted| + 1
    requires forall k :: 0 <= k < j ==> s[k] == sorted[k]
    requires s[j] == x
    requires forall k :: j < k < |s| ==> s[k] == sorted[k - 1]
    ensures s == sorted[..j] + [x] + sorted[j..]
  {
  }

  lemma InsertShift<T>(sorted: seq<T>, x: T, key: T -> int, j: nat)
    requires 0 < j <= |sorted| && key(sorted[j - 1]) < key(x)
    requires InsertDesc(sorted, x, key) == InsertDesc(sorted[..j], x, key) + sorted[j..]
    ensures InsertDesc(sorted, x, key) == InsertDesc(sorted[..j - 1], x, key) + sorted[j - 1..]
  {
    InsertUnfoldAt(sorted, x, key, j);
    SliceFrom(sorted, j - 1);
    ConcatAssoc(InsertDesc(sorted[..j - 1], x, key), [sorted[j - 1]], sorted[j..]);
  }

  lemma InsertUnfoldAt<T>(sorted: seq<T>, x: T, key: T -> int, j: nat)
    requires 0 < j <= |sorted| && key(sorted[j - 1]) < key(x)
    ensures InsertDesc(sorted[..j], x, key) == InsertDesc(sorted[..j - 1], x, key) + [sorted[j - 1]]
  {
    var p := sorted[..j];
    assert p[|p| - 1] == sorted[j - 1];
    assert p[..|p| - 1] == sorted[..j - 1];
  }

  lemma SliceFrom<T>(s: seq<T>, k: nat)
    requires k < |s|
    ensures s[k..] == [s[k]] + s[k + 1..]
  {
  }

  lemma ConcatAssoc<T>(a: seq<T>, b: seq<T>, c: seq<T>)
    ensures (a + b) + c == a + (b + c)
  {
  }

  lemma InsertStop<T>(sorted: seq<T>, x: T, key: T -> int, j: nat)
    requires j <= |sorted| && (j == 0 || key(sorted[j - 1]) >= key(x))
    requires InsertDesc(sorted, x, key) == InsertDesc(sorted[..j], x, key) + sorted[j..]
    ensures InsertDesc(sorted, x, key) == sorted[..j] + [x] + sorted[j..]
  {
  }
}
