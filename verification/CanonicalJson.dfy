/** The sorted-key printer that every hash and signature rests on. */
module CanonicalJson {
  import opened JsText
  import opened Json
  import opened Sequences
  import opened Ordering

  ghost predicate DistinctKeys(members: seq<Member>) {
    forall i, j :: 0 <= i < j < |members| ==> members[i].key != members[j].key
  }

  /** No object, at any depth, holds a key twice. */
  ghost predicate WellFormed(v: Json) {
    match v
    case Arr(items) => forall i :: 0 <= i < |items| ==> WellFormed(items[i])
    case Obj(members) => DistinctKeys(members) && forall i :: 0 <= i < |members| ==> WellFormed(members[i].value)
    case _ => true
  }

  /** Equality of JSON values when the order of object members, at every level, is ignored. */
  ghost predicate Same(v: Json, w: Json)
    decreases v
  {
    match (v, w)
    case (Arr(a), Arr(b)) => |a| == |b| && forall i :: 0 <= i < |a| ==> Same(a[i], b[i])
    case (Obj(a), Obj(b)) => |a| == |b| && forall i :: 0 <= i < |a| ==> SameMember(a[i], b)
    case _ => v == w
  }

  /** Some member of `b` has the key of `m` and a value that is the same. */
  ghost predicate SameMember(m: Member, b: seq<Member>)
    decreases m, 0
  {
    exists j :: 0 <= j < |b| && b[j].key == m.key && Same(m.value, b[j].value)
  }

  // ----- Sorting members by key

  function KeyOf(m: Member): Text {
    m.key
  }

  function SortMembers(ms: seq<Member>): (r: seq<Member>)
    ensures multiset(r) == multiset(ms)
    ensures |r| == |ms|
  {
    SortByPermutes(Less, KeyOf, ms);
    SortBy(Less, KeyOf, ms)
  }

  function NormalizeMembers(ms: seq<Member>): (r: seq<Member>)
    ensures |r| == |ms|
    ensures forall i :: 0 <= i < |ms| ==> r[i] == Member(ms[i].key, Normalize(ms[i].value))
    decreases ms, 0
  {
    if ms == [] then [] else [Member(ms[0].key, Normalize(ms[0].value))] + NormalizeMembers(ms[1..])
  }

  function NormalizeItems(vs: seq<Json>): (r: seq<Json>)
    ensures |r| == |vs|
    ensures forall i :: 0 <= i < |vs| ==> r[i] == Normalize(vs[i])
    decreases vs, 0
  {
    if vs == [] then [] else [Normalize(vs[0])] + NormalizeItems(vs[1..])
  }

  /** The value with the members of every object sorted by key. */
  function Normalize(v: Json): Json
    decreases v, 1
  {
    match v
    case Arr(items) => Arr(NormalizeItems(items))
    case Obj(members) => Obj(SortMembers(NormalizeMembers(members)))
    case _ => v
  }

  /** `canonical(value)`; `CanonicalArray` and `CanonicalObject` state the printer's own equations. */
  function Canonical(v: Json): Text {
    Stringify(Normalize(v))
  }

  // ----- Members with distinct keys

  lemma DistinctKeysTell(ms: seq<Member>)
    requires DistinctKeys(ms)
    ensures KeysTell(KeyOf, ms)
  {
    forall x, y | x in ms && y in ms && x != y ensures KeyOf(x) != KeyOf(y) {
      var i :| 0 <= i < |ms| && ms[i] == x;
      var j :| 0 <= j < |ms| && ms[j] == y;
      assert if i < j then ms[i].key != ms[j].key else ms[j].key != ms[i].key;
    }
  }

  lemma DistinctMembers(ms: seq<Member>)
    requires DistinctKeys(ms)
    ensures Distinct(ms)
  {
    forall i, j | 0 <= i < j < |ms| ensures ms[i] != ms[j] {
      assert ms[i].key != ms[j].key;
    }
  }

  // ----- Normal forms are equal exactly when the values are the same up to key order

  lemma {:induction false} NormalizeComplete(v: Json, w: Json)
    requires Normalize(v) == Normalize(w)
    ensures Same(v, w)
    decreases v
  {
    match (v, w)
    case (Arr(a), Arr(b)) =>
      assert NormalizeItems(a) == NormalizeItems(b);
      forall i | 0 <= i < |a| ensures Same(a[i], b[i]) {
        assert NormalizeItems(a)[i] == NormalizeItems(b)[i];
        NormalizeComplete(a[i], b[i]);
      }
    case (Obj(a), Obj(b)) =>
      var na, nb := NormalizeMembers(a), NormalizeMembers(b);
      assert SortMembers(na) == SortMembers(nb);
      forall i | 0 <= i < |a| ensures SameMember(a[i], b) {
        assert na[i] in multiset(na) && na[i] in multiset(nb);
        var j :| 0 <= j < |nb| && nb[j] == na[i];
        NormalizeComplete(a[i].value, b[j].value);
      }
    case _ =>
  }

  /** Lists of equal length with distinct keys, one within the other, sort to the same list. */
  lemma SortsAgree(a: seq<Member>, b: seq<Member>)
    requires DistinctKeys(a) && DistinctKeys(b) && |a| == |b|
    requires forall i :: 0 <= i < |a| ==> a[i] in b
    ensures SortMembers(a) == SortMembers(b)
  {
    DistinctMembers(a);
    DistinctMembers(b);
    FillsUp(a, b);
    DistinctKeysTell(a);
    LessTotal();
    SortByForgets(Less, KeyOf, a, b);
  }

  lemma {:induction false} NormalizeSound(v: Json, w: Json)
    requires WellFormed(v) && WellFormed(w) && Same(v, w)
    ensures Normalize(v) == Normalize(w)
    decreases v
  {
    match (v, w)
    case (Arr(a), Arr(b)) =>
      forall i | 0 <= i < |a| ensures NormalizeItems(a)[i] == NormalizeItems(b)[i] {
        NormalizeSound(a[i], b[i]);
      }
      assert NormalizeItems(a) == NormalizeItems(b);
    case (Obj(a), Obj(b)) =>
      forall i | 0 <= i < |a| ensures NormalizeMembers(a)[i] in NormalizeMembers(b) {
        assert SameMember(a[i], b);
        var j :| 0 <= j < |b| && b[j].key == a[i].key && Same(a[i].value, b[j].value);
        NormalizeSound(a[i].value, b[j].value);
        assert NormalizeMembers(b)[j] == NormalizeMembers(a)[i];
      }
      SortsAgree(NormalizeMembers(a), NormalizeMembers(b));
    case _ =>
  }

  /** Two values print to the same canonical text exactly when they are equal up to object key order. */
  lemma CanonicalUnambiguous(v: Json, w: Json)
    requires WellFormed(v) && WellFormed(w)
    ensures Canonical(v) == Canonical(w) <==> Same(v, w)
  {
    if Canonical(v) == Canonical(w) {
      StringifyInjective(Normalize(v), Normalize(w));
      NormalizeComplete(v, w);
    }
    if Same(v, w) {
      NormalizeSound(v, w);
    }
  }

  /** Parsing a canonical text gives the value back, up to key order. */
  lemma ParseCanonical(v: Json)
    requires WellFormed(v)
    ensures Parse(Canonical(v)) == Some(Normalize(v))
    ensures WellFormed(Normalize(v)) && Same(Normalize(v), v)
  {
    ParseInverse(Normalize(v));
    NormalizeWellFormed(v);
    NormalizeTwice(v);
    NormalizeComplete(Normalize(v), v);
  }

  ghost predicate OtherKey(a: Member, b: Member) {
    a.key != b.key
  }

  /** Sorting keeps keys distinct and members well-formed. */
  lemma SortedWellFormed(ms: seq<Member>)
    requires WellFormed(Obj(ms))
    ensures WellFormed(Obj(SortMembers(ms)))
  {
    var sorted := SortMembers(ms);
    PairwisePermuted(OtherKey, ms, sorted);
    forall k | 0 <= k < |sorted| ensures WellFormed(sorted[k].value) {
      assert sorted[k] in multiset(sorted) && sorted[k] in multiset(ms);
      var i :| 0 <= i < |ms| && ms[i] == sorted[k];
    }
  }

  lemma {:induction false} NormalizeWellFormed(v: Json)
    requires WellFormed(v)
    ensures WellFormed(Normalize(v))
  {
    match v
    case Arr(items) =>
      forall i | 0 <= i < |items| ensures WellFormed(NormalizeItems(items)[i]) {
        NormalizeWellFormed(items[i]);
      }
    case Obj(members) =>
      var ns := NormalizeMembers(members);
      forall i | 0 <= i < |ns| ensures WellFormed(ns[i].value) {
        NormalizeWellFormed(members[i].value);
      }
      SortedWellFormed(ns);
    case _ =>
  }

  lemma SortTwice(ms: seq<Member>)
    requires DistinctKeys(ms)
    ensures SortMembers(SortMembers(ms)) == SortMembers(ms)
  {
    LessTotal();
    SortBySorted(Less, KeyOf, ms);
    DistinctKeysTell(ms);
    PermutationMembers(SortMembers(ms), ms);
    SortOfSorted(Less, KeyOf, SortMembers(ms));
  }

  lemma {:induction false} NormalizeTwice(v: Json)
    requires WellFormed(v)
    ensures Normalize(Normalize(v)) == Normalize(v)
  {
    match v
    case Arr(items) =>
      forall i | 0 <= i < |items| ensures NormalizeItems(NormalizeItems(items))[i] == NormalizeItems(items)[i] {
        NormalizeTwice(items[i]);
      }
      assert NormalizeItems(NormalizeItems(items)) == NormalizeItems(items);
    case Obj(members) =>
      var ns := NormalizeMembers(members);
      forall i | 0 <= i < |ns| ensures NormalizeMembers(ns)[i] == ns[i] {
        NormalizeTwice(members[i].value);
      }
      assert NormalizeMembers(ns) == ns;
      NormalizeSorted(ns);
      SortTwice(ns);
    case _ =>
  }

  // ----- The printer's equations

  /** Canonical texts joined by commas. */
  function JoinCanonical(vs: seq<Json>): Text {
    if vs == [] then []
    else if |vs| == 1 then Canonical(vs[0])
    else Canonical(vs[0]) + [44] + JoinCanonical(vs[1..])
  }

  /** `"key":canonical(value)` for each member, joined by commas. */
  function JoinCanonicalMembers(ms: seq<Member>): Text {
    if ms == [] then []
    else if |ms| == 1 then Quote(ms[0].key) + [58] + Canonical(ms[0].value)
    else Quote(ms[0].key) + [58] + Canonical(ms[0].value) + [44] + JoinCanonicalMembers(ms[1..])
  }

  lemma {:induction false} StringifyNormalizedItems(vs: seq<Json>)
    ensures StringifyItems(NormalizeItems(vs)) == JoinCanonical(vs)
  {
    if |vs| > 1 {
      StringifyNormalizedItems(vs[1..]);
      assert NormalizeItems(vs)[1..] == NormalizeItems(vs[1..]);
    }
  }

  lemma {:induction false} StringifyNormalizedMembers(ms: seq<Member>)
    ensures StringifyMembers(NormalizeMembers(ms)) == JoinCanonicalMembers(ms)
  {
    if |ms| > 1 {
      StringifyNormalizedMembers(ms[1..]);
      assert NormalizeMembers(ms)[1..] == NormalizeMembers(ms[1..]);
    }
  }

  function NormalMember(m: Member): Member {
    Member(m.key, Normalize(m.value))
  }

  lemma NormalizedIsMapped(ms: seq<Member>)
    ensures NormalizeMembers(ms) == Map(NormalMember, ms)
  {
    assert forall i :: 0 <= i < |ms| ==> Map(NormalMember, ms)[i] == NormalMember(ms[i]);
  }

  /** Normalizing and sorting members can be done in either order. */
  lemma NormalizeSorted(ms: seq<Member>)
    ensures NormalizeMembers(SortMembers(ms)) == SortMembers(NormalizeMembers(ms))
  {
    NormalizedIsMapped(ms);
    NormalizedIsMapped(SortMembers(ms));
    SortByMapped(Less, NormalMember, KeyOf, KeyOf, ms);
  }

  lemma CanonicalArray(items: seq<Json>)
    ensures Canonical(Arr(items)) == [91] + JoinCanonical(items) + [93]
  {
    StringifyNormalizedItems(items);
  }

  lemma CanonicalObject(members: seq<Member>)
    ensures Canonical(Obj(members)) == [123] + JoinCanonicalMembers(SortMembers(members)) + [125]
  {
    StringifyNormalizedMembers(SortMembers(members));
    NormalizeSorted(members);
  }

  // ----- Records: objects written with the same keys in the same order

  lemma RecordsAgree(a: seq<Member>, b: seq<Member>)
    requires |a| == |b| && forall i :: 0 <= i < |a| ==> a[i].key == b[i].key
    requires DistinctKeys(a)
    ensures Same(Obj(a), Obj(b)) <==> forall i :: 0 <= i < |a| ==> Same(a[i].value, b[i].value)
  {
    if Same(Obj(a), Obj(b)) {
      forall i | 0 <= i < |a| ensures Same(a[i].value, b[i].value) {
        assert SameMember(a[i], b);
        var j :| 0 <= j < |b| && b[j].key == a[i].key && Same(a[i].value, b[j].value);
        assert a[j].key == a[i].key;
      }
    }
    if forall i :: 0 <= i < |a| ==> Same(a[i].value, b[i].value) {
      forall i | 0 <= i < |a| ensures SameMember(a[i], b) {
        assert b[i].key == a[i].key && Same(a[i].value, b[i].value);
      }
    }
  }
}
