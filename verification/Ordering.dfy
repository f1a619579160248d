/** Sorting records by a text key under a strict total order of texts, such as `localeCompare`. */
module Ordering {
  import opened JsText
  import opened Sequences

  ghost predicate StrictTotal(before: (Text, Text) -> bool) {
    (forall s :: !before(s, s))
    && (forall s, t, u :: before(s, t) && before(t, u) ==> before(s, u))
    && (forall s, t :: s == t || before(s, t) || before(t, s))
  }

  function InsertBy<A>(before: (Text, Text) -> bool, key: A -> Text, x: A, xs: seq<A>): (r: seq<A>)
    ensures |r| == |xs| + 1
  {
    if xs == [] then [x]
    else if before(key(x), key(xs[|xs| - 1])) then InsertBy(before, key, x, xs[..|xs| - 1]) + [xs[|xs| - 1]]
    else xs + [x]
  }

  /** A stable sort: an element goes after those it is not before. */
  function SortBy<A>(before: (Text, Text) -> bool, key: A -> Text, xs: seq<A>): (r: seq<A>)
    ensures |r| == |xs|
  {
    if xs == [] then [] else InsertBy(before, key, xs[|xs| - 1], SortBy(before, key, xs[..|xs| - 1]))
  }

  lemma {:induction false} InsertByPermutes<A(!new)>(before: (Text, Text) -> bool, key: A -> Text, x: A, xs: seq<A>)
    ensures Permutation(InsertBy(before, key, x, xs), xs + [x])
  {
    if xs != [] && before(key(x), key(xs[|xs| - 1])) {
      InsertByPermutes(before, key, x, xs[..|xs| - 1]);
      assert xs == xs[..|xs| - 1] + [xs[|xs| - 1]];
    }
  }

  lemma {:induction false} SortByPermutes<A(!new)>(before: (Text, Text) -> bool, key: A -> Text, xs: seq<A>)
    ensures Permutation(SortBy(before, key, xs), xs)
  {
    if xs != [] {
      SortByPermutes(before, key, xs[..|xs| - 1]);
      InsertByPermutes(before, key, xs[|xs| - 1], SortBy(before, key, xs[..|xs| - 1]));
      assert xs == xs[..|xs| - 1] + [xs[|xs| - 1]];
    }
  }

  /** Nothing is before what stands ahead of it. */
  ghost predicate SortedBy<A>(before: (Text, Text) -> bool, key: A -> Text, xs: seq<A>) {
    forall i, j :: 0 <= i < j < |xs| ==> !before(key(xs[j]), key(xs[i]))
  }

  lemma NotBefore(before: (Text, Text) -> bool, s: Text, t: Text, u: Text)
    requires StrictTotal(before) && !before(t, s) && !before(u, t)
    ensures !before(u, s)
  {}

  lemma {:induction false} InsertBySorted<A(!new)>(before: (Text, Text) -> bool, key: A -> Text, x: A, xs: seq<A>)
    requires StrictTotal(before) && SortedBy(before, key, xs)
    ensures SortedBy(before, key, InsertBy(before, key, x, xs))
  {
    if xs != [] {
      var front, last := xs[..|xs| - 1], xs[|xs| - 1];
      var r := InsertBy(before, key, x, xs);
      if before(key(x), key(last)) {
        InsertBySorted(before, key, x, front);
        InsertByPermutes(before, key, x, front);
        PermutationMembers(InsertBy(before, key, x, front), front + [x]);
        forall i | 0 <= i < |r| - 1 ensures !before(key(last), key(r[i])) {
          assert r[i] in InsertBy(before, key, x, front);
          var j :| 0 <= j < |front + [x]| && (front + [x])[j] == r[i];
          assert j < |front| ==> !before(key(last), key(xs[j]));
        }
      } else {
        forall i | 0 <= i < |xs| ensures !before(key(x), key(xs[i])) {
          if i < |xs| - 1 {
            NotBefore(before, key(xs[i]), key(last), key(x));
          }
        }
      }
    }
  }

  lemma {:induction false} SortBySorted<A(!new)>(before: (Text, Text) -> bool, key: A -> Text, xs: seq<A>)
    requires StrictTotal(before)
    ensures SortedBy(before, key, SortBy(before, key, xs))
  {
    if xs != [] {
      var front := xs[..|xs| - 1];
      SortBySorted(before, key, front);
      InsertBySorted(before, key, xs[|xs| - 1], SortBy(before, key, front));
    }
  }

  /** Elements with the same key are the same. */
  ghost predicate KeysTell<A(!new)>(key: A -> Text, xs: seq<A>) {
    forall x, y :: x in xs && y in xs && key(x) == key(y) ==> x == y
  }

  lemma FirstOfSorted<A>(before: (Text, Text) -> bool, key: A -> Text, xs: seq<A>, x: A)
    requires StrictTotal(before) && SortedBy(before, key, xs) && x in xs
    ensures !before(key(x), key(xs[0]))
  {
    var k :| 0 <= k < |xs| && xs[k] == x;
  }

  lemma {:induction false} SortedByUnique<A(!new)>(before: (Text, Text) -> bool, key: A -> Text, a: seq<A>, b: seq<A>)
    requires StrictTotal(before) && SortedBy(before, key, a) && SortedBy(before, key, b)
    requires KeysTell(key, a) && Permutation(a, b)
    ensures a == b
  {
    PermutationMembers(a, b);
    if a != [] {
      assert a[0] in b && b[0] in a;
      FirstOfSorted(before, key, a, b[0]);
      FirstOfSorted(before, key, b, a[0]);
      assert a[0] == b[0];
      Take1(a);
      Take1(b);
      assert multiset(a[1..]) == multiset(a) - multiset{a[0]};
      assert multiset(b[1..]) == multiset(b) - multiset{b[0]};
      SortedByUnique(before, key, a[1..], b[1..]);
    }
  }

  /** A sorted list is its own sort. */
  lemma SortOfSorted<A(!new)>(before: (Text, Text) -> bool, key: A -> Text, xs: seq<A>)
    requires StrictTotal(before) && SortedBy(before, key, xs) && KeysTell(key, xs)
    ensures SortBy(before, key, xs) == xs
  {
    SortBySorted(before, key, xs);
    SortByPermutes(before, key, xs);
    SortedByUnique(before, key, xs, SortBy(before, key, xs));
  }

  /** Elements that their keys tell apart sort to one list, whatever order they came in. */
  lemma SortByForgets<A(!new)>(before: (Text, Text) -> bool, key: A -> Text, a: seq<A>, b: seq<A>)
    requires StrictTotal(before) && KeysTell(key, a) && Permutation(a, b)
    ensures SortBy(before, key, a) == SortBy(before, key, b)
  {
    SortBySorted(before, key, a);
    SortBySorted(before, key, b);
    SortByPermutes(before, key, a);
    SortByPermutes(before, key, b);
    PermutationMembers(SortBy(before, key, a), a);
    SortedByUnique(before, key, SortBy(before, key, a), SortBy(before, key, b));
  }

  ghost function KeysDiffer<A>(key: A -> Text): (A, A) -> bool {
    (a, b) => key(a) != key(b)
  }

  lemma DifferentKeysTell<A(!new)>(key: A -> Text, xs: seq<A>)
    requires Pairwise(KeysDiffer(key), xs)
    ensures KeysTell(key, xs)
  {
    forall x, y | x in xs && y in xs && x != y ensures key(x) != key(y) {
      var i :| 0 <= i < |xs| && xs[i] == x;
      var j :| 0 <= j < |xs| && xs[j] == y;
      assert if i < j then KeysDiffer(key)(xs[i], xs[j]) else KeysDiffer(key)(xs[j], xs[i]);
    }
  }

  /** Records with different keys sort to one list, whatever order they came in. */
  lemma SortByPermuted<A(!new)>(before: (Text, Text) -> bool, key: A -> Text, a: seq<A>, b: seq<A>)
    requires StrictTotal(before) && Pairwise(KeysDiffer(key), a) && Permutation(a, b)
    ensures SortBy(before, key, a) == SortBy(before, key, b)
  {
    DifferentKeysTell(key, a);
    SortByForgets(before, key, a, b);
  }

  // ----- Texts in the code-unit order of `Array.prototype.sort`

  lemma LessTotal()
    ensures StrictTotal(Less)
  {
    forall s ensures !Less(s, s) {
      LessIrreflexive(s);
    }
    forall s, t, u | Less(s, t) && Less(t, u) ensures Less(s, u) {
      LessTransitive(s, t, u);
    }
    forall s, t ensures s == t || Less(s, t) || Less(t, s) {
      if s != t {
        LessConnected(s, t);
      }
    }
  }

  function Itself(t: Text): Text {
    t
  }

  function SortTexts(ts: seq<Text>): (r: seq<Text>)
    ensures multiset(r) == multiset(ts)
  {
    SortByPermutes(Less, Itself, ts);
    SortBy(Less, Itself, ts)
  }

  lemma SortSorted(ts: seq<Text>)
    requires SortedBy(Less, Itself, ts)
    ensures SortTexts(ts) == ts
  {
    LessTotal();
    SortOfSorted(Less, Itself, ts);
  }

  /** Sorting texts forgets their order and nothing else. */
  lemma SortForgetsOrder(a: seq<Text>, b: seq<Text>)
    ensures SortTexts(a) == SortTexts(b) <==> Permutation(a, b)
  {
    if Permutation(a, b) {
      LessTotal();
      SortByForgets(Less, Itself, a, b);
    }
    assert multiset(SortTexts(a)) == multiset(a) && multiset(SortTexts(b)) == multiset(b);
  }

  // ----- Maps

  function Map<A, B>(f: A -> B, s: seq<A>): (r: seq<B>)
    ensures |r| == |s|
  {
    seq(|s|, i requires 0 <= i < |s| => f(s[i]))
  }

  lemma MapNext<A, B(!new)>(f: A -> B, s: seq<A>, i: nat)
    requires i < |s|
    ensures Map(f, s[..i + 1]) == Map(f, s[..i]) + [f(s[i])]
    ensures Elements(Map(f, s[..i + 1])) == Elements(Map(f, s[..i])) + {f(s[i])}
  {
    assert Map(f, s[..i + 1]) == Map(f, s[..i]) + [f(s[i])];
  }

  lemma {:induction false} MapPermuted<A, B>(f: A -> B, s: seq<A>, t: seq<A>)
    requires Permutation(s, t)
    ensures Permutation(Map(f, s), Map(f, t))
  {
    if s == [] {
      PermutationMembers(s, t);
    } else {
      var k := Pull(s, t);
      var rest := t[..k] + t[k + 1..];
      MapPermuted(f, s[1..], rest);
      assert Map(f, s) == [f(s[0])] + Map(f, s[1..]);
      assert Map(f, t) == Map(f, t[..k]) + [f(t[k])] + Map(f, t[k + 1..]);
      assert Map(f, rest) == Map(f, t[..k]) + Map(f, t[k + 1..]);
    }
  }

  /** Mapping elements to others with the same keys and sorting can be done in either order. */
  lemma {:induction false} InsertByMapped<A,
    B>(before: (Text, Text) -> bool, f: A -> B, key: A -> Text, keyOf: B -> Text, x: A, xs: seq<A>)
    requires keyOf(f(x)) == key(x) && forall i :: 0 <= i < |xs| ==> keyOf(f(xs[i])) == key(xs[i])
    ensures InsertBy(before, keyOf, f(x), Map(f, xs)) == Map(f, InsertBy(before, key, x, xs))
  {
    if xs != [] {
      var front, last := xs[..|xs| - 1], xs[|xs| - 1];
      InsertByMapped(before, f, key, keyOf, x, front);
      assert Map(f, xs)[..|xs| - 1] == Map(f, front);
      assert keyOf(f(last)) == key(last);
    }
  }

  lemma {:induction false} SortByMapped<A(!new), B>(before: (Text, Text) -> bool, f: A -> B, key: A -> Text,
                                                    keyOf: B -> Text, xs: seq<A>)
    requires forall i :: 0 <= i < |xs| ==> keyOf(f(xs[i])) == key(xs[i])
    ensures SortBy(before, keyOf, Map(f, xs)) == Map(f, SortBy(before, key, xs))
  {
    if xs != [] {
      var front, last := xs[..|xs| - 1], xs[|xs| - 1];
      var sorted := SortBy(before, key, front);
      SortByMapped(before, f, key, keyOf, front);
      assert Map(f, xs)[..|xs| - 1] == Map(f, front);
      SortByPermutes(before, key, front);
      PermutationMembers(sorted, front);
      forall i | 0 <= i < |sorted| ensures keyOf(f(sorted[i])) == key(sorted[i]) {
        assert sorted[i] in sorted && sorted[i] in front;
        var j :| 0 <= j < |front| && front[j] == sorted[i];
        assert keyOf(f(xs[j])) == key(xs[j]);
      }
      InsertByMapped(before, f, key, keyOf, last, sorted);
    }
  }
}
