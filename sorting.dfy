/** The stable sort behind MongoDB's `.sort(...)` results and JavaScript's
    `Array.prototype.sort`: elements ordered by a comparator, ties kept in their
    original order. It is specified by insertion, and `SortInPlace` is the in-place
    insertion sort on an array that computes it. */
module Sorting {

  /** `le(x, y)`: x may come before y. A comparator that is total and transitive. */
  ghost predicate TotalPreorder<T(!new)>(le: (T, T) -> bool) {
    (forall x, y :: le(x, y) || le(y, x))
    && (forall x, y, z :: le(x, y) && le(y, z) ==> le(x, z))
  }

  predicate SortedBy<T>(s: seq<T>, le: (T, T) -> bool) {
    forall i, j :: 0 <= i < j < |s| ==> le(s[i], s[j])
  }

  /** Insert `x` after the last element that may precede it. */
  function Insert<T>(s: seq<T>, x: T, le: (T, T) -> bool): (r: seq<T>)
    ensures |r| == |s| + 1
  {
    if s == [] then [x]
    else if le(s[|s| - 1], x) then s + [x]
    else Insert(s[..|s| - 1], x, le) + [s[|s| - 1]]
  }

  lemma {:induction false} InsertPermutes<T>(s: seq<T>, x: T, le: (T, T) -> bool)
    ensures multiset(Insert(s, x, le)) == multiset(s) + multiset{x}
    decreases |s|
  {
    if s != [] && !le(s[|s| - 1], x) {
      var init, last := s[..|s| - 1], s[|s| - 1];
      InsertPermutes(init, x, le);
      assert s == init + [last];
      assert multiset(s) == multiset(init) + multiset{last};
    }
  }

  /** The stable sort of `s` by `le`. */
  function Sort<T>(s: seq<T>, le: (T, T) -> bool): (r: seq<T>)
    ensures |r| == |s|
  {
    if s == [] then [] else Insert(Sort(s[..|s| - 1], le), s[|s| - 1], le)
  }

  lemma {:induction false} InsertSorted<T(!new)>(s: seq<T>, x: T, le: (T, T) -> bool)
    requires TotalPreorder(le)
    requires SortedBy(s, le)
    ensures SortedBy(Insert(s, x, le), le)
    decreases |s|
  {
    if s != [] && !le(s[|s| - 1], x) {
      var init, last := s[..|s| - 1], s[|s| - 1];
      InsertSorted(init, x, le);
      var r := Insert(init, x, le);
      InsertPermutes(init, x, le);
      forall y | y in r
        ensures le(y, last)
      {
        assert y in multiset(r);
        if y != x {
          assert y in multiset(init);
          var k :| 0 <= k < |init| && init[k] == y;
          assert s[k] == y;
        }
      }
    }
  }

  /** The sort orders by `le` and is a permutation of its input. */
  lemma {:induction false} SortSorted<T(!new)>(s: seq<T>, le: (T, T) -> bool)
    requires TotalPreorder(le)
    ensures SortedBy(Sort(s, le), le)
    ensures multiset(Sort(s, le)) == multiset(s)
    decreases |s|
  {
    if s != [] {
      var init, last := s[..|s| - 1], s[|s| - 1];
      SortSorted(init, le);
      InsertSorted(Sort(init, le), last, le);
      InsertPermutes(Sort(init, le), last, le);
      assert s == init + [last];
    }
  }

  /** A list that is already in order is left as it is (ties are not reordered). */
  lemma {:induction false} SortOfSorted<T>(s: seq<T>, le: (T, T) -> bool)
    requires SortedBy(s, le)
    ensures Sort(s, le) == s
    decreases |s|
  {
    if s != [] {
      var init := s[..|s| - 1];
      assert SortedBy(init, le);
      SortOfSorted(init, le);
      assert s == init + [s[|s| - 1]];
    }
  }

  /** Inserting `x` lands it at `j` when everything from `j` on may not precede it and
      the element before `j` may. */
  lemma {:induction false} InsertAt<T>(s: seq<T>, x: T, j: nat, le: (T, T) -> bool)
    requires j <= |s|
    requires forall k :: j <= k < |s| ==> !le(s[k], x)
    requires j == 0 || le(s[j - 1], x)
    ensures Insert(s, x, le) == s[..j] + [x] + s[j..]
    decreases |s|
  {
    if s != [] {
      var init, last := s[..|s| - 1], s[|s| - 1];
      if j == |s| {
        assert s[..j] == s;
        assert le(last, x);
      } else {
        assert !le(last, x);
        assert Insert(s, x, le) == Insert(init, x, le) + [last];
        assert forall k :: j <= k < |init| ==> init[k] == s[k];
        assert j == 0 || init[j - 1] == s[j - 1];
        InsertAt(init, x, j, le);
        assert init[..j] == s[..j];
        assert init[j..] + [last] == s[j..];
      }
    }
  }

  /** One pass of the insertion sort: `a[i]` is moved down into the sorted prefix
      `a[..i]`; the elements after `i` are not touched. */
  method InsertStep<T>(a: array<T>, i: nat, le: (T, T) -> bool)
    requires i < a.Length
    modifies a
    ensures a[..i + 1] == Insert(old(a[..i]), old(a[i]), le)
    ensures a[i + 1..] == old(a[i + 1..])
  {
    ghost var sorted := a[..i];
    ghost var rest := a[i + 1..];
    var x := a[i];
    var j := i;
    while j > 0 && !le(a[j - 1], x)
      invariant 0 <= j <= i
      invariant a[..j] == sorted[..j]
      invariant a[j + 1..i + 1] == sorted[j..]
      invariant forall k :: j <= k < i ==> !le(sorted[k], x)
      invariant a[i + 1..] == rest
    {
      a[j] := a[j - 1];
      j := j - 1;
    }
    a[j] := x;
    InsertAt(sorted, x, j, le);
    assert a[..i + 1] == sorted[..j] + [x] + sorted[j..];
  }

  /** `a.sort(compare)`: sorts the array in place, stably. */
  method SortInPlace<T>(a: array<T>, le: (T, T) -> bool)
    modifies a
    ensures a[..] == Sort(old(a[..]), le)
  {
    ghost var input := a[..];
    var i := 0;
    while i < a.Length
      invariant 0 <= i <= a.Length
      invariant a[..i] == Sort(input[..i], le)
      invariant a[i..] == input[i..]
    {
      InsertStep(a, i, le);
      assert input[..i + 1][..i] == input[..i];
      i := i + 1;
    }
    assert input[..a.Length] == input;
    assert a[..] == a[..a.Length];
  }
}
