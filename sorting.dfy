/**
 * `Array.prototype.sort` with a comparator, modelled as an in-place insertion
 * sort driven by a relation `le` ("may come before"). The comparator functions
 * of the source map onto `le` as `le(a, b) <==> compare(a, b) <= 0`.
 */
module Sorting {

  /** Any two values are comparable one way or the other. */
  ghost predicate Total<T(!new)>(le: (T, T) -> bool)
  {
    forall x, y :: le(x, y) || le(y, x)
  }

  ghost predicate Transitive<T(!new)>(le: (T, T) -> bool)
  {
    forall x, y, z :: le(x, y) && le(y, z) ==> le(x, z)
  }

  /** Each element may come before its successor. */
  ghost predicate Sorted<T>(s: seq<T>, le: (T, T) -> bool)
  {
    forall k :: 0 < k < |s| ==> le(s[k - 1], s[k])
  }

  /** With a transitive order, neighbour-wise order gives order between any two positions. */
  lemma {:induction false} SortedPairwise<T(!new)>(s: seq<T>, le: (T, T) -> bool, i: int, j: int)
    requires Sorted(s, le) && Transitive(le)
    requires 0 <= i < j < |s|
    ensures le(s[i], s[j])
    decreases j - i
  {
    if i + 1 < j {
      SortedPairwise(s, le, i, j - 1);
    }
  }

  method SwapWithPrevious<T>(a: array<T>, j: int)
    requires 0 < j < a.Length
    modifies a
    ensures a[j - 1] == old(a[j]) && a[j] == old(a[j - 1])
    ensures forall k :: 0 <= k < a.Length && k != j - 1 && k != j ==> a[k] == old(a[k])
    ensures multiset(a[..]) == multiset(old(a[..]))
  {
    a[j - 1], a[j] := a[j], a[j - 1];
  }

  /** Sorts `a` in place: the result is ordered by `le` and a permutation of the input. */
  method SortBy<T(!new)>(a: array<T>, le: (T, T) -> bool)
    requires Total(le)
    modifies a
    ensures Sorted(a[..], le)
    ensures multiset(a[..]) == multiset(old(a[..]))
  {
    var i := 1;
    while i < a.Length
      invariant 0 < i <= a.Length || a.Length == 0
      invariant forall k :: 0 < k < i && k < a.Length ==> le(a[k - 1], a[k])
      invariant multiset(a[..]) == multiset(old(a[..]))
    {
      var j := i;
      while j > 0 && !le(a[j - 1], a[j])
        invariant 0 <= j <= i
        invariant forall k :: 0 < k <= i && k != j ==> le(a[k - 1], a[k])
        invariant 0 < j < i ==> le(a[j - 1], a[j + 1])
        invariant multiset(a[..]) == multiset(old(a[..]))
      {
        SwapWithPrevious(a, j);
        j := j - 1;
      }
      i := i + 1;
    }
  }

  /**
   * Copies `s` into a fresh array and sorts it there, as the source does when it
   * sorts an array it has just built.
   */
  method SortedCopy<T(!new)>(s: seq<T>, le: (T, T) -> bool) returns (r: seq<T>)
    requires Total(le)
    ensures Sorted(r, le)
    ensures multiset(r) == multiset(s)
  {
    if s == [] {
      return [];
    }
    var a := new T[|s|](k requires 0 <= k < |s| => s[k]);
    assert a[..] == s;
    SortBy(a, le);
    r := a[..];
  }
}
