/** The `Array.prototype` operations the pages use on the lists they hold:
    `filter`, `map`, `findIndex`, removal by index and replacement at an index. */
module Lists {

  /** `s.filter(p)` */
  function Filter<T>(s: seq<T>, p: T -> bool): (r: seq<T>)
    ensures |r| <= |s|
    ensures forall i :: 0 <= i < |r| ==> p(r[i])
    ensures forall i :: 0 <= i < |r| ==> r[i] in s
    ensures forall i :: 0 <= i < |s| && p(s[i]) ==> s[i] in r
  {
    if s == [] then [] else (if p(s[0]) then [s[0]] else []) + Filter(s[1..], p)
  }

  lemma {:induction false} FilterAppend<T>(s: seq<T>, t: seq<T>, p: T -> bool)
    ensures Filter(s + t, p) == Filter(s, p) + Filter(t, p)
    decreases |s|
  {
    if s == [] {
      assert s + t == t;
    } else {
      assert (s + t)[1..] == s[1..] + t;
      FilterAppend(s[1..], t, p);
    }
  }

  /** Keeping the elements that satisfy `p` and those that do not splits the list:
      the two counts add up to its length. */
  lemma {:induction false} FilterPartition<T>(s: seq<T>, p: T -> bool)
    ensures |Filter(s, p)| + |Filter(s, x => !p(x))| == |s|
    decreases |s|
  {
    if s != [] {
      FilterPartition(s[1..], p);
    }
  }

  /** Filters by predicates that agree on every element give the same list. */
  lemma {:induction false} FilterSame<T>(s: seq<T>, p: T -> bool, q: T -> bool)
    requires forall x :: p(x) == q(x)
    ensures Filter(s, p) == Filter(s, q)
    decreases |s|
  {
    if s != [] {
      FilterSame(s[1..], p, q);
    }
  }

  /** A filter that keeps every element returns the list unchanged. */
  lemma {:induction false} FilterAll<T>(s: seq<T>, p: T -> bool)
    requires forall i :: 0 <= i < |s| ==> p(s[i])
    ensures Filter(s, p) == s
    decreases |s|
  {
    if s != [] {
      FilterAll(s[1..], p);
    }
  }

  /** `s.map(f)` */
  function Map<T, U>(s: seq<T>, f: T -> U): (r: seq<U>)
    ensures |r| == |s|
    ensures forall i :: 0 <= i < |s| ==> r[i] == f(s[i])
  {
    seq(|s|, i requires 0 <= i < |s| => f(s[i]))
  }

  /** `map` works element by element: it distributes over concatenation. */
  lemma MapAppend<T, U>(s: seq<T>, t: seq<T>, f: T -> U)
    ensures Map(s + t, f) == Map(s, f) + Map(t, f)
  {
  }

  /** Mapping two orderings of the same elements gives two orderings of the same
      images, each as often as its source. */
  lemma {:induction false} MapPermutes<T, U>(s: seq<T>, t: seq<T>, f: T -> U)
    requires multiset(s) == multiset(t)
    ensures multiset(Map(s, f)) == multiset(Map(t, f))
    decreases |s|
  {
    if s == [] {
      assert |t| == |multiset(t)| == 0;
    } else {
      var x := s[0];
      assert x in multiset(t);
      var j :| 0 <= j < |t| && t[j] == x;
      var rest := t[..j] + t[j + 1..];
      assert t == t[..j] + [x] + t[j + 1..];
      assert s == [x] + s[1..];
      assert multiset(t) == multiset(t[..j]) + multiset{x} + multiset(t[j + 1..]);
      assert multiset(s) == multiset{x} + multiset(s[1..]);
      assert multiset(rest) == multiset(t[..j]) + multiset(t[j + 1..]);
      assert multiset(s[1..]) == multiset(s) - multiset{x};
      assert multiset(rest) == multiset(t) - multiset{x};
      MapPermutes(s[1..], rest, f);
      MapAppend([x], s[1..], f);
      MapAppend(t[..j] + [x], t[j + 1..], f);
      MapAppend(t[..j], [x], f);
      MapAppend(t[..j], t[j + 1..], f);
    }
  }

  /** `s.filter((_, j) => j !== i)`: the list without the element at index `i`
      (unchanged when `i` is not an index of the list). */
  function RemoveAt<T>(s: seq<T>, i: int): (r: seq<T>)
    decreases |s|
  {
    if s == [] then [] else (if i == 0 then [] else [s[0]]) + RemoveAt(s[1..], i - 1)
  }

  lemma {:induction false} RemoveAtSlices<T>(s: seq<T>, i: int)
    ensures 0 <= i < |s| ==> RemoveAt(s, i) == s[..i] + s[i + 1..]
    ensures !(0 <= i < |s|) ==> RemoveAt(s, i) == s
    decreases |s|
  {
    if s != [] {
      RemoveAtSlices(s[1..], i - 1);
      if i == 0 {
        assert s[..0] + s[1..] == s[1..];
      } else if 0 < i < |s| {
        assert s[..i] + s[i + 1..] == [s[0]] + (s[1..][..i - 1] + s[1..][i..]);
      } else {
        assert s == [s[0]] + s[1..];
      }
    }
  }

  /** Removing an element shortens the list by one and shifts the later elements down. */
  lemma RemoveAtShifts<T>(s: seq<T>, i: int)
    requires 0 <= i < |s|
    ensures |RemoveAt(s, i)| == |s| - 1
    ensures forall j :: 0 <= j < i ==> RemoveAt(s, i)[j] == s[j]
    ensures forall j :: i <= j < |s| - 1 ==> RemoveAt(s, i)[j] == s[j + 1]
  {
    RemoveAtSlices(s, i);
  }

  /** `s.findIndex(p)`: the first index whose element satisfies `p`, or -1. */
  function FindIndex<T>(s: seq<T>, p: T -> bool): (r: int)
    ensures -1 <= r < |s|
    ensures r == -1 <==> forall j :: 0 <= j < |s| ==> !p(s[j])
    ensures r >= 0 ==> p(s[r]) && forall j :: 0 <= j < r ==> !p(s[j])
  {
    if s == [] then -1
    else if p(s[0]) then 0
    else var k := FindIndex(s[1..], p); if k == -1 then -1 else k + 1
  }

  /** `copy[i] = v` on a copy of the list (an index past the end cannot occur where it is used). */
  function ReplaceAt<T>(s: seq<T>, i: int, v: T): (r: seq<T>)
    ensures |r| == |s|
    ensures forall j :: 0 <= j < |s| && j != i ==> r[j] == s[j]
    ensures 0 <= i < |s| ==> r[i] == v
  {
    if 0 <= i < |s| then s[i := v] else s
  }
}
