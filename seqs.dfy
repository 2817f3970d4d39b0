/** Array.prototype.filter and summation over sequences, with the facts the
    model needs about them: order preservation, multiplicities, idempotence,
    commutation, and invariance of sums under reordering. */
module Seqs {

  /** `r` is `s` with some elements left out and the rest in their original order. */
  ghost predicate IsSubsequence<T>(r: seq<T>, s: seq<T>)
    decreases |s|
  {
    r == [] || (s != [] && ((r[0] == s[0] && IsSubsequence(r[1..], s[1..])) || IsSubsequence(r, s[1..])))
  }

  /** The elements of `s` that satisfy `p`, in their order in `s`. */
  function Filter<T(!new)>(s: seq<T>, p: T -> bool): (r: seq<T>)
    ensures |r| <= |s|
    ensures forall i :: 0 <= i < |r| ==> p(r[i])
  {
    if s == [] then []
    else
      assert s == [s[0]] + s[1..];
      var rest := Filter(s[1..], p);
      if p(s[0]) then
        assert ([s[0]] + rest)[1..] == rest;
        [s[0]] + rest
      else rest
  }

  /** Every sequence is a subsequence of itself. */
  lemma {:induction false} IsSubsequenceOfSelf<T>(s: seq<T>)
    ensures IsSubsequence(s, s)
  {
    if s != [] {
      IsSubsequenceOfSelf(s[1..]);
    }
  }

  /** A subsequence of a subsequence of `s` is a subsequence of `s`. */
  lemma {:induction false} SubsequenceTransitive<T>(r: seq<T>, q: seq<T>, s: seq<T>)
    requires IsSubsequence(r, q) && IsSubsequence(q, s)
    ensures IsSubsequence(r, s)
    decreases |s|
  {
    if r != [] {
      if q[0] == s[0] && IsSubsequence(q[1..], s[1..]) {
        if r[0] == q[0] && IsSubsequence(r[1..], q[1..]) {
          SubsequenceTransitive(r[1..], q[1..], s[1..]);
        } else {
          SubsequenceTransitive(r, q[1..], s[1..]);
        }
      } else {
        SubsequenceTransitive(r, q, s[1..]);
      }
    }
  }

  /** Each element passing the test occurs in the result as often as in the
      input; the others do not occur at all. */
  lemma {:induction false} FilterMultiset<T(!new)>(s: seq<T>, p: T -> bool)
    ensures forall x :: multiset(Filter(s, p))[x] == if p(x) then multiset(s)[x] else 0
  {
    if s != [] {
      FilterMultiset(s[1..], p);
      assert s == [s[0]] + s[1..];
      FilterStep(s, p);
    }
  }

  /** A filter result is an order-preserving subsequence of its input. */
  lemma {:induction false} FilterIsSubsequence<T(!new)>(s: seq<T>, p: T -> bool)
    ensures IsSubsequence(Filter(s, p), s)
  {
    if s != [] {
      FilterIsSubsequence(s[1..], p);
      var r := Filter(s, p);
      if p(s[0]) {
        assert r[0] == s[0] && r[1..] == Filter(s[1..], p);
      }
    }
  }

  lemma {:induction false} FilterKeepsAll<T(!new)>(s: seq<T>, p: T -> bool)
    requires forall i :: 0 <= i < |s| ==> p(s[i])
    ensures Filter(s, p) == s
  {
    if s != [] {
      FilterKeepsAll(s[1..], p);
      assert s == [s[0]] + s[1..];
    }
  }

  /** Filtering twice with the same test changes nothing the second time. */
  lemma FilterIdempotent<T(!new)>(s: seq<T>, p: T -> bool)
    ensures Filter(Filter(s, p), p) == Filter(s, p)
  {
    FilterKeepsAll(Filter(s, p), p);
  }

  /** Two filters give the same sequence in either order. */
  lemma {:induction false} FilterCommute<T(!new)>(s: seq<T>, p: T -> bool, q: T -> bool)
    ensures Filter(Filter(s, p), q) == Filter(Filter(s, q), p)
  {
    if s != [] {
      FilterCommute(s[1..], p, q);
      FilterStep(s, p);
      FilterStep(s, q);
      FilterStep(Filter(s, p), q);
      FilterStep(Filter(s, q), p);
    }
  }

  /** One step of the filter on a non-empty sequence. */
  lemma FilterStep<T(!new)>(s: seq<T>, p: T -> bool)
    ensures s != [] ==> Filter(s, p) == (if p(s[0]) then [s[0]] else []) + Filter(s[1..], p)
  {
  }

  /** Filtering a sequence with a first element `h`. */
  lemma FilterCons<T(!new)>(h: T, t: seq<T>, p: T -> bool)
    ensures Filter([h] + t, p) == (if p(h) then [h] else []) + Filter(t, p)
  {
    assert ([h] + t)[0] == h && ([h] + t)[1..] == t;
  }

  /** A filter result is empty exactly when no element passes the test. */
  lemma FilterEmpty<T(!new)>(s: seq<T>, p: T -> bool)
    ensures Filter(s, p) == [] <==> forall i :: 0 <= i < |s| ==> !p(s[i])
  {
    FilterMultiset(s, p);
    if Filter(s, p) == [] {
      forall i | 0 <= i < |s| ensures !p(s[i]) {
        assert s[i] in multiset(s);
      }
    } else {
      var r := Filter(s, p);
      assert r[0] in multiset(r);
      assert r[0] in multiset(s);
    }
  }

  /** The sum of `f` over the elements of `s`. */
  function Sum<T>(s: seq<T>, f: T -> int): int
  {
    if s == [] then 0 else f(s[0]) + Sum(s[1..], f)
  }

  lemma {:induction false} SumConcat<T>(a: seq<T>, b: seq<T>, f: T -> int)
    ensures Sum(a + b, f) == Sum(a, f) + Sum(b, f)
  {
    if a != [] {
      assert (a + b)[0] == a[0] && (a + b)[1..] == a[1..] + b;
      SumConcat(a[1..], b, f);
    } else {
      assert a + b == b;
    }
  }

  /** Sums depend only on the multiset of elements, not on their order. */
  lemma {:induction false} SumPermutation<T>(a: seq<T>, b: seq<T>, f: T -> int)
    requires multiset(a) == multiset(b)
    ensures Sum(a, f) == Sum(b, f)
    decreases |a|
  {
    if a != [] {
      assert a[0] in multiset(b);
      var i :| 0 <= i < |b| && b[i] == a[0];
      var rest := b[..i] + b[i + 1..];
      SumRemove(b, i, f);
      MultisetRemove(b, i);
      MultisetRemove(a, 0);
      assert a[..0] + a[1..] == a[1..];
      SumPermutation(a[1..], rest, f);
    } else {
      assert |b| == |multiset(b)|;
    }
  }

  /** The sum is the removed element plus the sum of the others. */
  lemma SumRemove<T>(b: seq<T>, i: int, f: T -> int)
    requires 0 <= i < |b|
    ensures Sum(b, f) == f(b[i]) + Sum(b[..i] + b[i + 1..], f)
  {
    assert b == b[..i] + [b[i]] + b[i + 1..];
    SumConcat(b[..i] + [b[i]], b[i + 1..], f);
    SumConcat(b[..i], [b[i]], f);
    SumConcat(b[..i], b[i + 1..], f);
  }

  lemma MultisetRemove<T>(b: seq<T>, i: int)
    requires 0 <= i < |b|
    ensures multiset(b[..i] + b[i + 1..]) == multiset(b) - multiset{b[i]}
  {
    assert b == b[..i] + [b[i]] + b[i + 1..];
  }

  /** The sum over a filter plus the sum over the rest is the whole sum. */
  lemma {:induction false} SumSplit<T(!new)>(s: seq<T>, p: T -> bool, f: T -> int)
    ensures Sum(s, f) == Sum(Filter(s, p), f) + Sum(Filter(s, x => !p(x)), f)
  {
    if s != [] {
      SumSplit(s[1..], p, f);
      FilterStep(s, p);
      FilterStep(s, x => !p(x));
    }
  }
}

/** Array.prototype.sort with a comparator, modelled as a stable insertion sort:
    `le(a, b)` holds when the comparator does not put `b` before `a`. For a
    comparator that is a total preorder every stable sort gives this result. */
module Sorting {
  import opened Seqs

  function Insert<T>(x: T, s: seq<T>, le: (T, T) -> bool): (r: seq<T>)
    ensures multiset(r) == multiset(s) + multiset{x}
    ensures |r| == |s| + 1
  {
    if s == [] || le(x, s[0]) then [x] + s
    else
      assert s == [s[0]] + s[1..];
      [s[0]] + Insert(x, s[1..], le)
  }

  function SortBy<T>(s: seq<T>, le: (T, T) -> bool): (r: seq<T>)
    ensures multiset(r) == multiset(s)
    ensures |r| == |s|
  {
    if s == [] then []
    else
      assert s == [s[0]] + s[1..];
      Insert(s[0], SortBy(s[1..], le), le)
  }

  ghost predicate SortedBy<T>(s: seq<T>, le: (T, T) -> bool) {
    forall i, j :: 0 <= i < j < |s| ==> le(s[i], s[j])
  }

  /** `le` is a total preorder on the elements of `s`. */
  ghost predicate TotalPreorderOn<T>(s: seq<T>, le: (T, T) -> bool) {
    && (forall a, b :: a in s && b in s ==> le(a, b) || le(b, a))
    && (forall a, b, c :: a in s && b in s && c in s && le(a, b) && le(b, c) ==> le(a, c))
  }

  lemma {:induction false} InsertSorted<T>(x: T, s: seq<T>, le: (T, T) -> bool, all: seq<T>)
    requires x in all && forall y :: y in s ==> y in all
    requires TotalPreorderOn(all, le) && SortedBy(s, le)
    ensures SortedBy(Insert(x, s, le), le)
  {
    if s != [] && !le(x, s[0]) {
      InsertSorted(x, s[1..], le, all);
      var r := Insert(x, s, le);
      var rest := Insert(x, s[1..], le);
      assert r == [s[0]] + rest;
      forall j | 1 <= j < |r| ensures le(r[0], r[j]) {
        assert r[j] in multiset(rest);
        assert r[j] == x || r[j] in multiset(s[1..]);
        if r[j] != x {
          var k :| 0 <= k < |s[1..]| && s[1..][k] == r[j];
          assert s[k + 1] == r[j];
        }
      }
    } else if s != [] {
      var r := Insert(x, s, le);
      assert forall j :: 1 <= j < |r| ==> r[j] == s[j - 1];
      forall j | 1 <= j < |r| ensures le(r[0], r[j]) {
        assert j == 1 || le(s[0], s[j - 1]);
      }
    }
  }

  /** With a comparator that is a total preorder, the result is in order. */
  lemma {:induction false} SortBySorted<T>(s: seq<T>, le: (T, T) -> bool)
    requires TotalPreorderOn(s, le)
    ensures SortedBy(SortBy(s, le), le)
  {
    if s != [] {
      assert TotalPreorderOn(s[1..], le);
      SortBySorted(s[1..], le);
      var t := SortBy(s[1..], le);
      forall y | y in t ensures y in s {
        assert y in multiset(t);
      }
      InsertSorted(s[0], t, le, s);
    }
  }

  /** Sorting a sequence that is already in order leaves it unchanged. */
  lemma {:induction false} SortByOfSorted<T>(s: seq<T>, le: (T, T) -> bool)
    requires SortedBy(s, le)
    ensures SortBy(s, le) == s
  {
    if s != [] {
      assert SortedBy(s[1..], le);
      SortByOfSorted(s[1..], le);
      assert s == [s[0]] + s[1..];
    }
  }

  /** Inserting `x` keeps the relative order of the elements of any class `p`
      whose members the comparator never separates. */
  lemma {:induction false} InsertStable<T(!new)>(x: T, s: seq<T>, le: (T, T) -> bool, p: T -> bool)
    requires forall a, b :: p(a) && p(b) ==> le(a, b)
    ensures Filter(Insert(x, s, le), p) == (if p(x) then [x] else []) + Filter(s, p)
  {
    if s != [] && !le(x, s[0]) {
      InsertStable(x, s[1..], le, p);
      var u := Insert(x, s[1..], le);
      FilterCons(s[0], u, p);
      FilterCons(s[0], s[1..], p);
      assert s == [s[0]] + s[1..];
      assert !(p(x) && p(s[0]));
    } else {
      FilterCons(x, s, p);
    }
  }

  /** Stability: the elements of a class `p` that the comparator treats as equal
      keep their relative order. */
  lemma {:induction false} SortByStable<T(!new)>(s: seq<T>, le: (T, T) -> bool, p: T -> bool)
    requires forall a, b :: p(a) && p(b) ==> le(a, b)
    ensures Filter(SortBy(s, le), p) == Filter(s, p)
  {
    if s != [] {
      SortByStable(s[1..], le, p);
      InsertStable(s[0], SortBy(s[1..], le), le, p);
      FilterStep(s, p);
    }
  }
}
