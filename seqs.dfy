/** Generic sequence vocabulary shared by every part of the model: the optional value that
    stands for JavaScript's `null`/`undefined`, `Array.prototype.filter`, order-preserving
    subsequences, and the duplicate removal that a JavaScript `Set` performs while keeping
    first-insertion order. */
module Seqs {

  datatype Option<T> = None | Some(value: T)

  function GetOr<T>(o: Option<T>, default: T): T
  {
    match o
    case Some(v) => v
    case None => default
  }

  /** `s.filter(p)`: the elements of `s` that satisfy `p`, in their original order. */
  function Filter<T>(s: seq<T>, p: T -> bool): seq<T>
  {
    if s == [] then [] else
    var rest := Filter(s[1..], p);
    if p(s[0]) then [s[0]] + rest else rest
  }

  /** The filter keeps exactly the elements that satisfy the predicate. */
  lemma {:induction false} FilterMembers<T>(s: seq<T>, p: T -> bool)
    ensures |Filter(s, p)| <= |s|
    ensures forall x :: x in Filter(s, p) <==> x in s && p(x)
  {
    if s != [] {
      FilterMembers(s[1..], p);
      assert forall x :: x in s <==> x == s[0] || x in s[1..];
    }
  }

  /** `a` is obtained from `b` by deleting elements, keeping the order of the rest. */
  predicate IsSubsequence<T(==)>(a: seq<T>, b: seq<T>)
    decreases |b|
  {
    a == [] ||
    (b != [] && ((a[0] == b[0] && IsSubsequence(a[1..], b[1..])) || IsSubsequence(a, b[1..])))
  }

  predicate NoDups<T(==)>(s: seq<T>)
  {
    forall i, j :: 0 <= i < j < |s| ==> s[i] != s[j]
  }

  /** Index of the first occurrence of `x` in `s` (or `|s|` when there is none). */
  function IndexOf<T(==)>(s: seq<T>, x: T): (k: nat)
    ensures k <= |s|
    ensures k < |s| <==> x in s
    ensures k < |s| ==> s[k] == x
    ensures forall i :: 0 <= i < k ==> s[i] != x
  {
    if s == [] then 0 else if s[0] == x then 0 else 1 + IndexOf(s[1..], x)
  }

  /** `Array.from(new Set(s))`: each distinct element once, in order of first occurrence. */
  function Dedup<T(==,!new)>(s: seq<T>): (r: seq<T>)
    ensures NoDups(r)
    ensures forall x :: x in r <==> x in s
    decreases |s|
  {
    if s == [] then [] else
    var d := Dedup(s[..|s| - 1]);
    var last := s[|s| - 1];
    assert forall x :: x in s <==> x in s[..|s| - 1] || x == last;
    if last in d then d else d + [last]
  }

  lemma {:induction false} FilterIsSubsequence<T(!new)>(s: seq<T>, p: T -> bool)
    ensures IsSubsequence(Filter(s, p), s)
  {
    if s != [] {
      FilterIsSubsequence(s[1..], p);
      if !p(s[0]) && Filter(s, p) != [] {
        assert IsSubsequence(Filter(s, p), s[1..]);
      }
    }
  }

  lemma {:induction false} FilterKeepsAll<T(!new)>(s: seq<T>, p: T -> bool)
    requires forall i :: 0 <= i < |s| ==> p(s[i])
    ensures Filter(s, p) == s
  {
    if s != [] {
      FilterKeepsAll(s[1..], p);
    }
  }

  /** Two predicates that agree on the elements of `s` keep the same elements. */
  lemma {:induction false} FilterCongruent<T(!new)>(s: seq<T>, p: T -> bool, q: T -> bool)
    requires forall i :: 0 <= i < |s| ==> p(s[i]) == q(s[i])
    ensures Filter(s, p) == Filter(s, q)
  {
    if s != [] {
      FilterCongruent(s[1..], p, q);
    }
  }

  /** Filtering keeps exactly as many copies of each element as the input had, or none. */
  lemma {:induction false} FilterMultiplicity<T(!new)>(s: seq<T>, p: T -> bool, x: T)
    ensures multiset(Filter(s, p))[x] == if p(x) then multiset(s)[x] else 0
  {
    if s != [] {
      FilterMultiplicity(s[1..], p, x);
      assert s == [s[0]] + s[1..];
    }
  }

  lemma {:induction false} FilterAppend<T(!new)>(a: seq<T>, b: seq<T>, p: T -> bool)
    ensures Filter(a + b, p) == Filter(a, p) + Filter(b, p)
  {
    if a == [] {
      assert a + b == b;
    } else {
      assert (a + b)[1..] == a[1..] + b;
      FilterAppend(a[1..], b, p);
    }
  }

  lemma {:induction false} IsSubsequenceTransitive<T>(a: seq<T>, b: seq<T>, c: seq<T>)
    requires IsSubsequence(a, b) && IsSubsequence(b, c)
    ensures IsSubsequence(a, c)
    decreases |c|
  {
    if a != [] && c != [] {
      if b[0] == c[0] && IsSubsequence(b[1..], c[1..]) {
        if a[0] == b[0] && IsSubsequence(a[1..], b[1..]) {
          IsSubsequenceTransitive(a[1..], b[1..], c[1..]);
        } else {
          IsSubsequenceTransitive(a, b[1..], c[1..]);
        }
      } else {
        IsSubsequenceTransitive(a, b, c[1..]);
      }
    }
  }

  /** The elements of `Dedup(s)` are listed in order of their first occurrence in `s`. */
  lemma {:induction false} DedupFirstOccurrenceOrder<T(!new)>(s: seq<T>)
    ensures forall i, j :: 0 <= i < j < |Dedup(s)| ==> IndexOf(s, Dedup(s)[i]) < IndexOf(s, Dedup(s)[j])
    decreases |s|
  {
    if s != [] {
      var pre := s[..|s| - 1];
      var last := s[|s| - 1];
      assert s == pre + [last];
      DedupFirstOccurrenceOrder(pre);
      IndexOfPrefix(pre, last);
      var d0 := Dedup(pre);
      forall i, j | 0 <= i < j < |Dedup(s)|
        ensures IndexOf(s, Dedup(s)[i]) < IndexOf(s, Dedup(s)[j])
      {
        assert Dedup(s)[i] == d0[i] && Dedup(s)[i] in pre;
        if j < |d0| {
          assert Dedup(s)[j] == d0[j] && Dedup(s)[j] in pre;
        } else {
          assert Dedup(s)[j] == last && last !in pre;
        }
      }
    }
  }

  /** Appending an element does not move the first occurrence of anything already present. */
  lemma {:induction false} IndexOfPrefix<T>(pre: seq<T>, x: T)
    ensures forall y :: y in pre ==> IndexOf(pre + [x], y) == IndexOf(pre, y)
    ensures x !in pre ==> IndexOf(pre + [x], x) == |pre|
  {
    forall y | y in pre
      ensures IndexOf(pre + [x], y) == IndexOf(pre, y)
    {
      IndexOfAppend(pre, [x], y);
    }
    if x !in pre {
      IndexOfAppend(pre, [x], x);
    }
  }

  lemma {:induction false} IndexOfAppend<T>(a: seq<T>, b: seq<T>, y: T)
    ensures IndexOf(a + b, y) == if y in a then IndexOf(a, y) else |a| + IndexOf(b, y)
  {
    if a != [] {
      assert (a + b)[1..] == a[1..] + b;
      IndexOfAppend(a[1..], b, y);
    } else {
      assert a + b == b;
    }
  }

  lemma {:induction false} FilterNone<T(!new)>(s: seq<T>, p: T -> bool)
    requires forall i :: 0 <= i < |s| ==> !p(s[i])
    ensures Filter(s, p) == []
  {
    if s != [] {
      FilterNone(s[1..], p);
    }
  }

  /** Filtering keeps the relative order of the elements it keeps. */
  lemma {:induction false} FilterIndexOrder<T(!new)>(s: seq<T>, p: T -> bool, i: int, j: int)
    requires NoDups(s) && 0 <= i < j < |s| && p(s[i]) && p(s[j])
    ensures IndexOf(Filter(s, p), s[i]) < IndexOf(Filter(s, p), s[j])
  {
    var rest := Filter(s[1..], p);
    FilterMembers(s[1..], p);
    assert s[j] in s[1..] && s[j] != s[0];
    if i == 0 {
      assert s[j] in rest;
    } else {
      assert s[i] in s[1..] && s[i] != s[0];
      assert s[i] == s[1..][i - 1] && s[j] == s[1..][j - 1];
      FilterIndexOrder(s[1..], p, i - 1, j - 1);
    }
  }

  lemma {:induction false} SubsequenceMembers<T>(a: seq<T>, b: seq<T>)
    requires IsSubsequence(a, b)
    ensures forall x :: x in a ==> x in b
    decreases |b|
  {
    if a != [] {
      if a[0] == b[0] && IsSubsequence(a[1..], b[1..]) {
        SubsequenceMembers(a[1..], b[1..]);
        assert forall x :: x in a ==> x == a[0] || x in a[1..];
      } else {
        SubsequenceMembers(a, b[1..]);
      }
    }
  }

  lemma {:induction false} NoDupsTail<T>(b: seq<T>)
    requires NoDups(b) && b != []
    ensures NoDups(b[1..])
    ensures b[0] !in b[1..]
  {
    forall x, y | 0 <= x < y < |b[1..]| ensures b[1..][x] != b[1..][y] {
      assert b[1..][x] == b[x + 1] && b[1..][y] == b[y + 1];
    }
    forall k | 0 <= k < |b[1..]| ensures b[1..][k] != b[0] {
      assert b[1..][k] == b[k + 1];
    }
  }

  /** The elements of a subsequence of a duplicate-free list occur in it in the same order. */
  lemma {:induction false} SubsequenceIndexOrder<T>(a: seq<T>, b: seq<T>, i: int, j: int)
    requires IsSubsequence(a, b) && NoDups(b) && 0 <= i < j < |a|
    ensures IndexOf(b, a[i]) < IndexOf(b, a[j])
    decreases |b|
  {
    NoDupsTail(b);
    if a[0] == b[0] && IsSubsequence(a[1..], b[1..]) {
      SubsequenceMembers(a[1..], b[1..]);
      assert a[j] == a[1..][j - 1] && a[j] in b[1..];
      assert IndexOf(b, a[j]) == 1 + IndexOf(b[1..], a[j]);
      if i > 0 {
        assert a[i] == a[1..][i - 1] && a[i] in b[1..];
        assert IndexOf(b, a[i]) == 1 + IndexOf(b[1..], a[i]);
        SubsequenceIndexOrder(a[1..], b[1..], i - 1, j - 1);
      }
    } else {
      SubsequenceMembers(a, b[1..]);
      SubsequenceIndexOrder(a, b[1..], i, j);
    }
  }

  /** Appending to the input of `Dedup` appends to its output unless the element was seen. */
  lemma {:induction false} DedupSnoc<T(!new)>(s: seq<T>, x: T)
    ensures Dedup(s + [x]) == if x in Dedup(s) then Dedup(s) else Dedup(s) + [x]
  {
    assert (s + [x])[..|s + [x]| - 1] == s;
  }
}
