/** In-place sorting of slices with a Less and a Swap, as the Go library's sort package does it. */
module Sorting {
  ghost predicate StrictTotalOrder<T(!new)>(less: (T, T) -> bool) {
    && (forall a :: !less(a, a))
    && (forall a, b, c :: less(a, b) && less(b, c) ==> less(a, c))
    && (forall a, b :: a == b || less(a, b) || less(b, a))
  }

  ghost predicate Sorted<T>(less: (T, T) -> bool, s: seq<T>) {
    forall i, j :: 0 <= i < j < |s| ==> !less(s[j], s[i])
  }

  function Insert<T>(less: (T, T) -> bool, x: T, s: seq<T>): (r: seq<T>)
    ensures |r| == |s| + 1
  {
    if s == [] || less(x, s[0]) then [x] + s else [s[0]] + Insert(less, x, s[1..])
  }

  /** The sorted rearrangement of s. */
  function Sort<T>(less: (T, T) -> bool, s: seq<T>): (r: seq<T>)
    ensures |r| == |s|
  {
    if s == [] then [] else Insert(less, s[0], Sort(less, s[1..]))
  }

  lemma {:induction false} InsertAdds<T>(less: (T, T) -> bool, x: T, s: seq<T>)
    ensures multiset(Insert(less, x, s)) == multiset{x} + multiset(s)
  {
    if s != [] && !less(x, s[0]) {
      assert s == [s[0]] + s[1..];
      InsertAdds(less, x, s[1..]);
    }
  }

  /** Sorting rearranges: nothing is lost, added or merged. */
  lemma {:induction false} SortPermutes<T>(less: (T, T) -> bool, s: seq<T>)
    ensures multiset(Sort(less, s)) == multiset(s)
  {
    if s != [] {
      assert s == [s[0]] + s[1..];
      SortPermutes(less, s[1..]);
      InsertAdds(less, s[0], Sort(less, s[1..]));
    }
  }

  lemma InsertSorted<T(!new)>(less: (T, T) -> bool, x: T, s: seq<T>)
    requires StrictTotalOrder(less) && Sorted(less, s)
    ensures Sorted(less, Insert(less, x, s))
  {
    if s != [] && !less(x, s[0]) {
      InsertSorted(less, x, s[1..]);
      var t := Insert(less, x, s[1..]);
      InsertAdds(less, x, s[1..]);
      forall j | 0 <= j < |t| ensures !less(t[j], s[0]) {
        assert t[j] in multiset(t);
        if t[j] != x {
          assert t[j] in multiset(s[1..]);
        }
      }
    }
  }

  lemma {:induction false} SortSorts<T(!new)>(less: (T, T) -> bool, s: seq<T>)
    requires StrictTotalOrder(less)
    ensures Sorted(less, Sort(less, s))
  {
    if s != [] {
      SortSorts(less, s[1..]);
      InsertSorted(less, s[0], Sort(less, s[1..]));
    }
  }

  lemma SameFirst<T(!new)>(less: (T, T) -> bool, s: seq<T>, t: seq<T>)
    requires StrictTotalOrder(less) && s != [] && t != []
    requires Sorted(less, s) && Sorted(less, t)
    requires s[0] in t && t[0] in s
    ensures s[0] == t[0]
  {
  }

  lemma RestOfPermutation<T>(s: seq<T>, t: seq<T>)
    requires s != [] && t != [] && s[0] == t[0] && multiset(s) == multiset(t)
    ensures multiset(s[1..]) == multiset(t[1..])
  {
    assert s == [s[0]] + s[1..] && t == [t[0]] + t[1..];
    assert multiset(s[1..]) == multiset(s) - multiset{s[0]};
    assert multiset(t[1..]) == multiset(t) - multiset{t[0]};
  }

  /** Under a strict total order a sorted rearrangement is unique, so an unstable sort is still a function. */
  lemma {:induction false} SortedPermutationUnique<T(!new)>(less: (T, T) -> bool, s: seq<T>, t: seq<T>)
    requires StrictTotalOrder(less)
    requires Sorted(less, s) && Sorted(less, t)
    requires multiset(s) == multiset(t)
    ensures s == t
  {
    assert |multiset(s)| == |s| && |multiset(t)| == |t|;
    if s != [] {
      assert s[0] in multiset(t) && t[0] in multiset(s);
      SameFirst(less, s, t);
      RestOfPermutation(s, t);
      SortedPermutationUnique(less, s[1..], t[1..]);
    }
  }

  /** Two slices sort to the same sequence exactly when they are permutations of each other. */
  lemma SortEqualIffPermutation<T(!new)>(less: (T, T) -> bool, s: seq<T>, t: seq<T>)
    requires StrictTotalOrder(less)
    ensures Sort(less, s) == Sort(less, t) <==> multiset(s) == multiset(t)
  {
    SortSorts(less, s);
    SortSorts(less, t);
    SortPermutes(less, s);
    SortPermutes(less, t);
    if multiset(s) == multiset(t) {
      SortedPermutationUnique(less, Sort(less, s), Sort(less, t));
    }
  }

  lemma SortIdempotent<T(!new)>(less: (T, T) -> bool, s: seq<T>)
    requires StrictTotalOrder(less)
    ensures Sort(less, Sort(less, s)) == Sort(less, s)
  {
    SortPermutes(less, s);
    SortEqualIffPermutation(less, Sort(less, s), s);
  }

  method Swap<T>(a: array<T>, i: nat, j: nat)
    requires i < a.Length && j < a.Length
    modifies a
    ensures a[..] == old(a[..])[i := old(a[j])][j := old(a[i])]
    ensures multiset(a[..]) == multiset(old(a[..]))
  {
    a[i], a[j] := a[j], a[i];
  }

  /** Everything before `hi` is sorted once the element at `j` is disregarded, and nothing after it is smaller. */
  ghost predicate SortedAround<T>(less: (T, T) -> bool, s: seq<T>, j: nat, hi: nat)
    requires j <= hi < |s|
  {
    && (forall p, q :: 0 <= p < q <= hi && p != j && q != j ==> !less(s[q], s[p]))
    && (forall q :: j < q <= hi ==> !less(s[q], s[j]))
  }

  /** The insertion sort that sort.Sort runs on short slices. */
  method SortInPlace<T(!new)>(less: (T, T) -> bool, a: array<T>)
    requires StrictTotalOrder(less)
    modifies a
    ensures a[..] == Sort(less, old(a[..]))
  {
    var i := 1;
    while i < a.Length
      invariant 1 <= i
      invariant multiset(a[..]) == multiset(old(a[..]))
      invariant forall p, q :: 0 <= p < q < i && q < a.Length ==> !less(a[q], a[p])
    {
      var j := i;
      assert SortedAround(less, a[..], j, i);
      while j > 0 && less(a[j], a[j - 1])
        invariant 0 <= j <= i < a.Length
        invariant multiset(a[..]) == multiset(old(a[..]))
        invariant SortedAround(less, a[..], j, i)
      {
        Swap(a, j, j - 1);
        j := j - 1;
      }
      assert forall p, q :: 0 <= p < q <= i ==> !less(a[q], a[p]) by {
        Settled(less, a[..], j, i);
      }
      i := i + 1;
    }
    assert Sorted(less, a[..]);
    SortSorts(less, old(a[..]));
    SortPermutes(less, old(a[..]));
    SortedPermutationUnique(less, a[..], Sort(less, old(a[..])));
  }

  lemma Settled<T(!new)>(less: (T, T) -> bool, s: seq<T>, j: nat, hi: nat)
    requires StrictTotalOrder(less)
    requires j <= hi < |s| && SortedAround(less, s, j, hi)
    requires j == 0 || !less(s[j], s[j - 1])
    ensures forall p, q :: 0 <= p < q <= hi ==> !less(s[q], s[p])
  {
  }
}
