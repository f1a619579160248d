/** Filters, sums and permutations of sequences. */
module Sequences {

  predicate Distinct<A(==)>(s: seq<A>) {
    forall i, j :: 0 <= i < j < |s| ==> s[i] != s[j]
  }

  ghost predicate Permutation<A>(s: seq<A>, t: seq<A>) {
    multiset(s) == multiset(t)
  }

  /** The elements of a permutation are the same. */
  lemma PermutationMembers<A>(s: seq<A>, t: seq<A>)
    requires Permutation(s, t)
    ensures |s| == |t|
    ensures forall x :: x in s <==> x in t
  {
    assert |multiset(s)| == |multiset(t)|;
    forall x
      ensures x in s <==> x in t
    {
      assert x in s <==> x in multiset(s);
      assert x in t <==> x in multiset(t);
    }
  }

  ghost function Elements<A(!new)>(s: seq<A>): set<A> {
    set x | x in s
  }

  lemma {:induction false} DistinctSize<A(!new)>(s: seq<A>)
    requires Distinct(s)
    ensures |Elements(s)| == |s|
  {
    if s != [] {
      var front := s[..|s| - 1];
      var last := s[|s| - 1];
      DistinctSize(front);
      assert s == front + [last];
      assert Elements(s) == Elements(front) + {last};
    }
  }

  lemma DistinctSnoc<A>(s: seq<A>, x: A)
    ensures Distinct(s + [x]) <==> Distinct(s) && x !in s
  {
    var all := s + [x];
    if Distinct(all) {
      forall i, j | 0 <= i < j < |s| ensures s[i] != s[j] {
        assert all[i] != all[j];
      }
      forall i | 0 <= i < |s| ensures s[i] != x {
        assert all[i] != all[|s|];
      }
    }
  }

  /** A list without repetitions is as long as the set of its elements. */
  lemma DistinctCount<A(!new)>(s: seq<A>, elements: set<A>)
    requires Distinct(s) && forall x :: x in s <==> x in elements
    ensures |s| == |elements|
  {
    DistinctSize(s);
    assert Elements(s) == elements;
  }

  /** A set inside another is no larger, and as large only when it is the other. */
  lemma SubsetSize<A>(a: set<A>, b: set<A>)
    requires a <= b
    ensures |a| <= |b| && (|a| == |b| <==> a == b)
  {
    assert b == a + (b - a);
    assert |b| == |a| + |b - a|;
    assert |b - a| == 0 ==> b - a == {};
  }

  // ----- Removing one element

  lemma Take1<A>(s: seq<A>)
    requires s != []
    ensures s == [s[0]] + s[1..] && multiset(s) == multiset{s[0]} + multiset(s[1..])
  {
    assert s == [s[0]] + s[1..];
  }

  /** A permutation of `s` holds the first element of `s` somewhere; without it, it permutes the rest. */
  lemma Pull<A>(s: seq<A>, t: seq<A>) returns (k: nat)
    requires s != [] && Permutation(s, t)
    ensures k < |t| && t[k] == s[0]
    ensures Permutation(s[1..], t[..k] + t[k + 1..])
    ensures t == t[..k] + [t[k]] + t[k + 1..]
  {
    PermutationMembers(s, t);
    assert s[0] in s;
    k :| 0 <= k < |t| && t[k] == s[0];
    assert t == t[..k] + [t[k]] + t[k + 1..];
    Take1(s);
    assert multiset(t) == multiset(t[..k]) + multiset{t[k]} + multiset(t[k + 1..]);
    assert multiset(t[..k] + t[k + 1..]) == multiset(t) - multiset{t[k]};
  }

  // ----- Sums

  function Sum<A>(f: A -> int, s: seq<A>): int {
    if s == [] then 0 else f(s[0]) + Sum(f, s[1..])
  }

  lemma {:induction false} SumConcat<A>(f: A -> int, s: seq<A>, t: seq<A>)
    ensures Sum(f, s + t) == Sum(f, s) + Sum(f, t)
  {
    if s == [] {
      assert s + t == t;
    } else {
      assert (s + t)[1..] == s[1..] + t;
      SumConcat(f, s[1..], t);
    }
  }

  lemma {:induction false} SumPermuted<A>(f: A -> int, s: seq<A>, t: seq<A>)
    requires Permutation(s, t)
    ensures Sum(f, s) == Sum(f, t)
  {
    if s == [] {
      PermutationMembers(s, t);
    } else {
      var k := Pull(s, t);
      SumPermuted(f, s[1..], t[..k] + t[k + 1..]);
      SumConcat(f, t[..k], t[k + 1..]);
      SumConcat(f, t[..k], [t[k]]);
      SumConcat(f, t[..k] + [t[k]], t[k + 1..]);
      assert Sum(f, [t[k]]) == f(t[k]);
    }
  }

  // ----- Filters

  function Filter<A>(p: A -> bool, s: seq<A>): (r: seq<A>)
    ensures |r| <= |s|
  {
    if s == [] then []
    else if p(s[0]) then [s[0]] + Filter(p, s[1..])
    else Filter(p, s[1..])
  }

  lemma {:induction false} FilterMember<A>(p: A -> bool, s: seq<A>, x: A)
    ensures x in Filter(p, s) <==> x in s && p(x)
  {
    if s != [] {
      Take1(s);
      FilterMember(p, s[1..], x);
    }
  }

  lemma {:induction false} FilterConcat<A>(p: A -> bool, s: seq<A>, t: seq<A>)
    ensures Filter(p, s + t) == Filter(p, s) + Filter(p, t)
  {
    if s == [] {
      assert s + t == t;
    } else {
      assert (s + t)[1..] == s[1..] + t;
      FilterConcat(p, s[1..], t);
    }
  }

  lemma FilterSnoc<A>(p: A -> bool, s: seq<A>, x: A)
    ensures Filter(p, s + [x]) == if p(x) then Filter(p, s) + [x] else Filter(p, s)
  {
    FilterConcat(p, s, [x]);
    assert Filter(p, [x]) == if p(x) then [x] else [];
  }

  lemma {:induction false} FilterMultiset<A>(p: A -> bool, s: seq<A>, x: A)
    ensures multiset(Filter(p, s))[x] == if p(x) then multiset(s)[x] else 0
  {
    if s != [] {
      Take1(s);
      FilterMultiset(p, s[1..], x);
    }
  }

  lemma {:induction false} FilterDistinct<A>(p: A -> bool, s: seq<A>)
    requires Distinct(s)
    ensures Distinct(Filter(p, s))
  {
    if s != [] {
      FilterDistinct(p, s[1..]);
      FilterMember(p, s[1..], s[0]);
      assert forall i :: 0 < i < |s| ==> s[0] != s[i];
    }
  }

  lemma FilterPermuted<A(!new)>(p: A -> bool, s: seq<A>, t: seq<A>)
    requires Permutation(s, t)
    ensures Permutation(Filter(p, s), Filter(p, t))
  {
    forall x: A
      ensures multiset(Filter(p, s))[x] == multiset(Filter(p, t))[x]
    {
      FilterMultiset(p, s, x);
      FilterMultiset(p, t, x);
    }
  }

  // ----- Relations between every two positions

  ghost predicate Pairwise<A>(r: (A, A) -> bool, s: seq<A>) {
    forall i, j :: 0 <= i < j < |s| ==> r(s[i], s[j])
  }

  ghost predicate Symmetric<A(!new)>(r: (A, A) -> bool) {
    forall x, y :: r(x, y) ==> r(y, x)
  }

  lemma {:induction false} Twice<A>(s: seq<A>, x: A)
    requires multiset(s)[x] >= 2
    ensures exists i, j :: 0 <= i < j < |s| && s[i] == x && s[j] == x
  {
    Take1(s);
    if s[0] == x {
      assert x in s[1..];
      var j :| 0 <= j < |s[1..]| && s[1..][j] == x;
      assert s[0] == x && s[j + 1] == x;
    } else {
      Twice(s[1..], x);
      var i, j :| 0 <= i < j < |s[1..]| && s[1..][i] == x && s[1..][j] == x;
      assert s[i + 1] == x && s[j + 1] == x;
    }
  }

  lemma TwoPositions<A>(s: seq<A>, i: nat, j: nat)
    requires i < j < |s|
    ensures s[i] == s[j] ==> multiset(s)[s[i]] >= 2
  {
    assert s == s[..i] + [s[i]] + s[i + 1..];
    assert s[j] in s[i + 1..];
  }

  /** A symmetric relation that holds between every two positions holds in every order. */
  lemma PairwisePermuted<A(!new)>(r: (A, A) -> bool, s: seq<A>, t: seq<A>)
    requires Permutation(s, t) && Symmetric(r) && Pairwise(r, s)
    ensures Pairwise(r, t)
  {
    PermutationMembers(s, t);
    forall i, j | 0 <= i < j < |t|
      ensures r(t[i], t[j])
    {
      TwoPositions(t, i, j);
      if t[i] == t[j] {
        Twice(s, t[i]);
      } else {
        assert t[i] in s && t[j] in s;
        var a :| 0 <= a < |s| && s[a] == t[i];
        var b :| 0 <= b < |s| && s[b] == t[j];
        if a < b {
          assert r(s[a], s[b]);
        } else {
          assert r(s[b], s[a]);
        }
      }
    }
  }

  // ----- Concatenations of lists

  /** The lists of the first `n` elements, one after the other. */
  function Concat<A, B>(f: A -> seq<B>, xs: seq<A>, n: nat): seq<B>
    requires n <= |xs|
  {
    if n == 0 then [] else Concat(f, xs, n - 1) + f(xs[n - 1])
  }

  function FlatMap<A, B>(f: A -> seq<B>, xs: seq<A>): seq<B> {
    Concat(f, xs, |xs|)
  }

  /** `r` is `before` followed by the lists of the first `k` elements. */
  ghost predicate Collected<A, B>(f: A -> seq<B>, xs: seq<A>, k: nat, before: seq<B>, r: seq<B>) {
    k <= |xs| && r == before + Concat(f, xs, k)
  }

  lemma CollectedNone<A, B>(f: A -> seq<B>, xs: seq<A>, before: seq<B>)
    ensures Collected(f, xs, 0, before, before)
  {
    assert before + [] == before;
  }

  lemma CollectedNext<A, B>(f: A -> seq<B>, xs: seq<A>, k: nat, before: seq<B>, r: seq<B>, next: seq<B>)
    requires k < |xs| && Collected(f, xs, k, before, r) && next == r + f(xs[k])
    ensures Collected(f, xs, k + 1, before, next)
  {
    assert before + Concat(f, xs, k) + f(xs[k]) == before + (Concat(f, xs, k) + f(xs[k]));
  }

  lemma {:induction false} ConcatLength<A, B>(f: A -> seq<B>, xs: seq<A>, n: nat, size: nat)
    requires n <= |xs| && forall i :: 0 <= i < n ==> |f(xs[i])| == size
    ensures |Concat(f, xs, n)| == n * size
  {
    if n > 0 {
      ConcatLength(f, xs, n - 1, size);
      assert n * size == (n - 1) * size + size;
    }
  }

  lemma FlatMapLength<A, B>(f: A -> seq<B>, xs: seq<A>, size: nat)
    requires forall i :: 0 <= i < |xs| ==> |f(xs[i])| == size
    ensures |FlatMap(f, xs)| == |xs| * size
  {
    ConcatLength(f, xs, |xs|, size);
  }

  lemma {:induction false} ConcatMember<A, B>(f: A -> seq<B>, xs: seq<A>, n: nat, y: B)
    requires n <= |xs|
    ensures y in Concat(f, xs, n) <==> exists i :: 0 <= i < n && y in f(xs[i])
  {
    if n > 0 {
      ConcatMember(f, xs, n - 1, y);
    }
  }

  lemma FlatMapMember<A, B>(f: A -> seq<B>, xs: seq<A>, y: B)
    ensures y in FlatMap(f, xs) <==> exists i :: 0 <= i < |xs| && y in f(xs[i])
  {
    ConcatMember(f, xs, |xs|, y);
  }

  lemma ConcatDistinct<A>(s: seq<A>, t: seq<A>)
    requires Distinct(s) && Distinct(t)
    requires forall x :: x in s ==> x !in t
    ensures Distinct(s + t)
  {
    forall i, j | 0 <= i < j < |s + t|
      ensures (s + t)[i] != (s + t)[j]
    {
      if i < |s| <= j {
        assert s[i] in s && t[j - |s|] in t;
      }
    }
  }

  /** Distinct lists that share no element concatenate to a distinct list. */
  lemma {:induction false} ConcatsDistinct<A, B>(f: A -> seq<B>, xs: seq<A>, n: nat)
    requires n <= |xs| && forall i :: 0 <= i < n ==> Distinct(f(xs[i]))
    requires forall i, j, y :: 0 <= i < j < n && y in f(xs[i]) ==> y !in f(xs[j])
    ensures Distinct(Concat(f, xs, n))
  {
    if n > 0 {
      var front, last := Concat(f, xs, n - 1), f(xs[n - 1]);
      ConcatsDistinct(f, xs, n - 1);
      forall y | y in front
        ensures y !in last
      {
        ConcatMember(f, xs, n - 1, y);
      }
      ConcatDistinct(front, last);
    }
  }

  lemma FlatMapDistinct<A, B>(f: A -> seq<B>, xs: seq<A>)
    requires forall i :: 0 <= i < |xs| ==> Distinct(f(xs[i]))
    requires forall i, j, y :: 0 <= i < j < |xs| && y in f(xs[i]) ==> y !in f(xs[j])
    ensures Distinct(FlatMap(f, xs))
  {
    ConcatsDistinct(f, xs, |xs|);
  }

  // ----- Distinct lists with the same elements

  lemma {:induction false} DistinctPermutation<A(!new)>(s: seq<A>, t: seq<A>)
    requires Distinct(s) && Distinct(t) && (forall x :: x in s <==> x in t)
    ensures Permutation(s, t)
  {
    forall x: A
      ensures multiset(s)[x] == multiset(t)[x]
    {
      CountDistinct(s, x);
      CountDistinct(t, x);
    }
  }

  /** A distinct list inside another of the same length permutes it. */
  lemma FillsUp<A(!new)>(s: seq<A>, t: seq<A>)
    requires Distinct(s) && Distinct(t) && |s| == |t| && forall x :: x in s ==> x in t
    ensures Permutation(s, t)
  {
    DistinctSize(s);
    DistinctSize(t);
    SubsetSize(Elements(s), Elements(t));
    forall x
      ensures x in s <==> x in t
    {
      assert x in s <==> x in Elements(s);
      assert x in t <==> x in Elements(t);
    }
    DistinctPermutation(s, t);
  }

  lemma {:induction false} CountDistinct<A>(s: seq<A>, x: A)
    requires Distinct(s)
    ensures multiset(s)[x] == if x in s then 1 else 0
  {
    if s != [] {
      Take1(s);
      CountDistinct(s[1..], x);
      assert forall i :: 0 < i < |s| ==> s[0] != s[i];
    }
  }

  /** A list is distinct exactly when it holds nothing twice, exactly when its set of elements is as large. */
  lemma DistinctCounts<A(!new)>(s: seq<A>)
    ensures Distinct(s) <==> forall x :: multiset(s)[x] <= 1
  {
    if Distinct(s) {
      forall x: A
        ensures multiset(s)[x] <= 1
      {
        CountDistinct(s, x);
      }
    }
    if forall x :: multiset(s)[x] <= 1 {
      forall i, j | 0 <= i < j < |s|
        ensures s[i] != s[j]
      {
        TwoPositions(s, i, j);
      }
    }
  }

  lemma {:induction false} ElementsSize<A(!new)>(s: seq<A>)
    ensures |Elements(s)| <= |s|
    ensures |Elements(s)| == |s| <==> Distinct(s)
  {
    if Distinct(s) {
      DistinctSize(s);
    } else {
      var i, j :| 0 <= i < j < |s| && s[i] == s[j];
      var rest := s[..i] + s[i + 1..];
      assert s[j] == rest[j - 1];
      assert forall x :: x in s <==> x in rest by {
        assert s == s[..i] + [s[i]] + s[i + 1..];
      }
      assert Elements(s) == Elements(rest);
      ElementsSize(rest);
    }
    if s != [] && !Distinct(s) {
      assert |Elements(s)| < |s|;
    }
  }
}
