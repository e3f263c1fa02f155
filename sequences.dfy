/** Order-preserving selection (`Array.prototype.filter`) and the subsequence relation. */
module Sequences {

  /** `a` is obtained from `b` by deleting elements, without reordering. */
  predicate IsSubseq<T(==)>(a: seq<T>, b: seq<T>)
    decreases |b|
  {
    if a == [] then true
    else if b == [] then false
    else (a[0] == b[0] && IsSubseq(a[1..], b[1..])) || IsSubseq(a, b[1..])
  }

  /** `s.filter(p)`: the elements satisfying `p`, in their original order. */
  function Filter<T>(s: seq<T>, p: T -> bool): seq<T>
  {
    if s == [] then []
    else if p(s[0]) then [s[0]] + Filter(s[1..], p)
    else Filter(s[1..], p)
  }

  /** Filtering keeps the relative order of the kept elements. */
  lemma {:induction false} FilterIsSubseq<T>(s: seq<T>, p: T -> bool)
    ensures IsSubseq(Filter(s, p), s)
  {
    if s != [] {
      FilterIsSubseq(s[1..], p);
      var rest := Filter(s[1..], p);
      if p(s[0]) {
        assert ([s[0]] + rest)[1..] == rest;
      }
    }
  }

  /** Filtering keeps every occurrence of a satisfying element and drops every other element. */
  lemma {:induction false} FilterCount<T(!new)>(s: seq<T>, p: T -> bool)
    ensures forall x :: multiset(Filter(s, p))[x] == if p(x) then multiset(s)[x] else 0
  {
    if s != [] {
      FilterCount(s[1..], p);
      assert s == [s[0]] + s[1..];
    }
  }

  /** An element survives filtering exactly when it occurs and satisfies `p`. */
  lemma FilterMembers<T(!new)>(s: seq<T>, p: T -> bool)
    ensures forall x :: x in Filter(s, p) <==> x in s && p(x)
  {
    FilterCount(s, p);
    forall x
      ensures x in Filter(s, p) <==> x in s && p(x)
    {
      assert x in Filter(s, p) <==> multiset(Filter(s, p))[x] > 0;
      assert x in s <==> multiset(s)[x] > 0;
    }
  }

  lemma {:induction false} SubseqOfEmpty<T>(a: seq<T>)
    requires IsSubseq(a, [])
    ensures a == []
  {
  }

  /** A subsequence of a subsequence is a subsequence. */
  lemma {:induction false} SubseqTransitive<T>(a: seq<T>, b: seq<T>, c: seq<T>)
    requires IsSubseq(a, b) && IsSubseq(b, c)
    ensures IsSubseq(a, c)
    decreases |c|, |b|
  {
    if a == [] {
    } else if c == [] {
      SubseqOfEmpty(b);
    } else if b == [] {
    } else if b[0] == c[0] && IsSubseq(b[1..], c[1..]) {
      if a[0] == b[0] && IsSubseq(a[1..], b[1..]) {
        SubseqTransitive(a[1..], b[1..], c[1..]);
      } else {
        SubseqTransitive(a, b[1..], c[1..]);
      }
    } else {
      SubseqTransitive(a, b, c[1..]);
    }
  }

  /** Every element of a subsequence is an element of the sequence. */
  lemma {:induction false} SubseqMembers<T>(a: seq<T>, b: seq<T>)
    requires IsSubseq(a, b)
    ensures forall x :: x in a ==> x in b
    decreases |b|
  {
    if a == [] {
    } else if b == [] {
    } else if a[0] == b[0] && IsSubseq(a[1..], b[1..]) {
      SubseqMembers(a[1..], b[1..]);
      assert a == [a[0]] + a[1..];
    } else {
      SubseqMembers(a, b[1..]);
    }
  }

  /** Every sequence is a subsequence of itself. */
  lemma {:induction false} SubseqReflexive<T>(s: seq<T>)
    ensures IsSubseq(s, s)
  {
    if s != [] {
      SubseqReflexive(s[1..]);
    }
  }

  /** Filtering a sequence extended by one element extends the filtered sequence by at most that element. */
  lemma {:induction false} FilterAppend<T(!new)>(s: seq<T>, x: T, p: T -> bool)
    ensures Filter(s + [x], p) == Filter(s, p) + (if p(x) then [x] else [])
  {
    if s == [] {
      assert [x][1..] == [];
    } else {
      var t := s + [x];
      assert t[0] == s[0] && t[1..] == s[1..] + [x];
      FilterAppend(s[1..], x, p);
      var tail := Filter(s[1..], p) + (if p(x) then [x] else []);
      assert Filter(t, p) == (if p(s[0]) then [s[0]] + tail else tail);
    }
  }

  /** The distinct elements of `s`, each at the position of its first occurrence. */
  function Dedup<T(==,!new)>(s: seq<T>): (r: seq<T>)
    ensures forall x :: x in r <==> x in s
    ensures forall i, j :: 0 <= i < j < |r| ==> r[i] != r[j]
  {
    if s == [] then []
    else
      var r := Dedup(s[..|s| - 1]);
      assert s == s[..|s| - 1] + [s[|s| - 1]];
      if s[|s| - 1] in r then r else r + [s[|s| - 1]]
  }
}
