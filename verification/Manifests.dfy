/** Manifests: records with fixed keys in which some parts stand as digests of their canonical text. */
module Manifests {
  import opened JsText
  import opened Json
  import opened CanonicalJson
  import opened Ordering
  import opened Sequences

  /** The object with these keys and values, in order. */
  function Record(keys: seq<Text>, values: seq<Json>): Json
    requires |keys| == |values|
  {
    Obj(Fields(keys, values))
  }

  function Fields(keys: seq<Text>, values: seq<Json>): (ms: seq<Member>)
    requires |keys| == |values|
    ensures |ms| == |keys|
    ensures forall i :: 0 <= i < |keys| ==> ms[i] == Member(keys[i], values[i])
  {
    seq(|keys|, i requires 0 <= i < |keys| => Member(keys[i], values[i]))
  }

  ghost predicate AllWellFormed(values: seq<Json>) {
    forall i :: 0 <= i < |values| ==> WellFormed(values[i])
  }

  ghost predicate AllSame(a: seq<Json>, b: seq<Json>) {
    |a| == |b| && forall i :: 0 <= i < |a| ==> Same(a[i], b[i])
  }

  lemma RecordWellFormed(keys: seq<Text>, values: seq<Json>)
    requires |keys| == |values| && Distinct(keys) && AllWellFormed(values)
    ensures WellFormed(Record(keys, values))
  {}

  /** Records over the same keys print alike exactly when their values are the same. */
  lemma RecordPinned(keys: seq<Text>, a: seq<Json>, b: seq<Json>)
    requires |keys| == |a| == |b| && Distinct(keys) && AllWellFormed(a) && AllWellFormed(b)
    ensures Canonical(Record(keys, a)) == Canonical(Record(keys, b)) <==> AllSame(a, b)
  {
    RecordWellFormed(keys, a);
    RecordWellFormed(keys, b);
    CanonicalUnambiguous(Record(keys, a), Record(keys, b));
    var fa, fb := Fields(keys, a), Fields(keys, b);
    assert forall i :: 0 <= i < |keys| ==> fa[i].key == fb[i].key;
    RecordsAgree(fa, fb);
    assert forall i :: 0 <= i < |keys| ==> (Same(fa[i].value, fb[i].value) <==> Same(a[i], b[i]));
  }

  lemma RecordValues(keys: seq<Text>, a: seq<Json>, b: seq<Json>)
    requires |keys| == |a| == |b| && Distinct(keys) && Same(Record(keys, a), Record(keys, b))
    ensures AllSame(a, b)
  {
    var fa, fb := Fields(keys, a), Fields(keys, b);
    RecordsAgree(fa, fb);
    assert forall i :: 0 <= i < |keys| ==> (Same(fa[i].value, fb[i].value) <==> Same(a[i], b[i]));
  }

  lemma SameSplit(a: seq<Json>, c: seq<Json>, b: seq<Json>, d: seq<Json>)
    requires |a| == |b| && AllSame(a + c, b + d)
    ensures AllSame(a, b) && AllSame(c, d)
  {
    forall i | 0 <= i < |a| ensures Same(a[i], b[i]) {
      assert (a + c)[i] == a[i] && (b + d)[i] == b[i];
    }
    forall i | 0 <= i < |c| ensures Same(c[i], d[i]) {
      assert (a + c)[|a| + i] == c[i] && (b + d)[|b| + i] == d[i];
    }
  }

  lemma WellFormedJoin(a: seq<Json>, b: seq<Json>)
    requires AllWellFormed(a) && AllWellFormed(b)
    ensures AllWellFormed(a + b)
  {}

  /** The values under exactly these keys, in the order of the keys; `None` for anything else. */
  function ReadRecord(keys: seq<Text>, v: Json): (r: Option<seq<Json>>)
    ensures r.Some? ==> |r.value| == |keys|
  {
    if v.Obj? && |v.members| == |keys| && (forall i :: 0 <= i < |keys| ==> Lookup(v.members, keys[i]).Some?) then
      Some(seq(|keys|, i requires 0 <= i < |keys| => Lookup(v.members, keys[i]).value))
    else None
  }

  lemma {:induction false} LookupField(keys: seq<Text>, values: seq<Json>, i: nat)
    requires |keys| == |values| && Distinct(keys) && i < |keys|
    ensures Lookup(Fields(keys, values), keys[i]) == Some(values[i])
  {
    var n := |keys| - 1;
    if i < n {
      LookupField(keys[..n], values[..n], i);
      assert Fields(keys, values)[..n] == Fields(keys[..n], values[..n]);
    }
  }

  /** Reading a record gives back what it was made of. */
  lemma ReadRecordInverse(keys: seq<Text>, values: seq<Json>)
    requires |keys| == |values| && Distinct(keys)
    ensures ReadRecord(keys, Record(keys, values)) == Some(values)
  {
    forall i | 0 <= i < |keys|
      ensures Lookup(Fields(keys, values), keys[i]) == Some(values[i])
    {
      LookupField(keys, values, i);
    }
    assert ReadRecord(keys, Record(keys, values)).value == values;
  }

  /** Every item read, or nothing. */
  function ReadAll<A>(read: Json -> Option<A>, items: seq<Json>): Option<seq<A>> {
    if items == [] then Some([])
    else if read(items[0]).None? || ReadAll(read, items[1..]).None? then None
    else Some([read(items[0]).value] + ReadAll(read, items[1..]).value)
  }

  lemma {:induction false} ReadAllInverse<A>(read: Json -> Option<A>, write: A -> Json, xs: seq<A>)
    requires forall i :: 0 <= i < |xs| ==> read(write(xs[i])) == Some(xs[i])
    ensures ReadAll(read, Map(write, xs)) == Some(xs)
  {
    if xs != [] {
      assert Map(write, xs)[1..] == Map(write, xs[1..]);
      ReadAllInverse(read, write, xs[1..]);
      assert xs == [xs[0]] + xs[1..];
    }
  }

  // ----- Lists of identities: records of two texts

  ghost predicate Pairs<A(!new)>(keys: seq<Text>, first: A -> Text, second: A -> Text, write: A -> Json) {
    |keys| == 2 && Distinct(keys) && forall x :: write(x) == Record(keys, [Str(first(x)), Str(second(x))])
  }

  lemma PairsWellFormed<A(!new)>(keys: seq<Text>, first: A -> Text, second: A -> Text, write: A -> Json, xs: seq<A>)
    requires Pairs(keys, first, second, write)
    ensures WellFormed(Arr(Map(write, xs)))
  {
    var vs := Map(write, xs);
    forall i | 0 <= i < |vs| ensures WellFormed(vs[i]) {
      var values := [Str(first(xs[i])), Str(second(xs[i]))];
      assert WellFormed(values[0]) && WellFormed(values[1]);
      RecordWellFormed(keys, values);
      assert vs[i] == write(xs[i]);
    }
  }

  /** Lists of pairs that are the same have the same texts, in order. */
  lemma SamePairs<A(!new)>(keys: seq<Text>, first: A -> Text, second: A -> Text, write: A -> Json, a: seq<A>, b: seq<A>)
    requires Pairs(keys, first, second, write) && Same(Arr(Map(write, a)), Arr(Map(write, b)))
    ensures |a| == |b| && forall i :: 0 <= i < |a| ==> first(a[i]) == first(b[i]) && second(a[i]) == second(b[i])
  {
    var va, vb := Map(write, a), Map(write, b);
    forall i | 0 <= i < |a| ensures first(a[i]) == first(b[i]) && second(a[i]) == second(b[i]) {
      var ra, rb := [Str(first(a[i])), Str(second(a[i]))], [Str(first(b[i])), Str(second(b[i]))];
      assert Same(va[i], vb[i]) && va[i] == write(a[i]) && vb[i] == write(b[i]);
      RecordValues(keys, ra, rb);
      assert Same(ra[0], rb[0]) && Same(ra[1], rb[1]);
    }
  }

  // ----- Digests

  ghost predicate Collision(sha: Text -> Text, s: Text, t: Text) {
    s != t && sha(s) == sha(t)
  }

  function Digest(sha: Text -> Text, v: Json): Text {
    sha(Canonical(v))
  }

  lemma DigestPins(sha: Text -> Text, v: Json, w: Json)
    requires WellFormed(v) && WellFormed(w) && Digest(sha, v) == Digest(sha, w)
    ensures Same(v, w) || Collision(sha, Canonical(v), Canonical(w))
  {
    CanonicalUnambiguous(v, w);
  }

  /** What a manifest holds for each part: the digest of a hashed part, the part itself otherwise. */
  function Entries(sha: Text -> Text, hashed: seq<bool>, parts: seq<Json>): (values: seq<Json>)
    requires |hashed| == |parts|
    ensures |values| == |parts|
    ensures forall i :: 0 <= i < |parts| ==> values[i] == if hashed[i] then Str(Digest(sha, parts[i])) else parts[i]
  {
    seq(|parts|, i requires 0 <= i < |parts| => if hashed[i] then Str(Digest(sha, parts[i])) else parts[i])
  }

  function Manifest(sha: Text -> Text, keys: seq<Text>, hashed: seq<bool>, parts: seq<Json>): Json
    requires |keys| == |hashed| == |parts|
  {
    Record(keys, Entries(sha, hashed, parts))
  }

  lemma EntriesWellFormed(sha: Text -> Text, hashed: seq<bool>, parts: seq<Json>)
    requires |hashed| == |parts| && AllWellFormed(parts)
    ensures AllWellFormed(Entries(sha, hashed, parts))
  {}

  /**
   * At `k` the two manifests rest on different texts with one digest: a hashed part, or (at the end) the manifests
   * themselves.
   */
  ghost predicate CollidesAt(sha: Text -> Text, keys: seq<Text>, hashed: seq<bool>, a: seq<Json>, b: seq<Json>, k: nat)
    requires |keys| == |hashed| == |a| == |b|
  {
    if k < |keys| then hashed[k] && Collision(sha, Canonical(a[k]), Canonical(b[k]))
    else Collision(sha, Canonical(Manifest(sha, keys, hashed, a)), Canonical(Manifest(sha, keys, hashed, b)))
  }

  lemma PartsPinned(sha: Text -> Text, hashed: seq<bool>, a: seq<Json>, b: seq<Json>, n: nat) returns (k: nat)
    requires |hashed| == |a| == |b| && AllWellFormed(a) && AllWellFormed(b)
    requires AllSame(Entries(sha, hashed, a), Entries(sha, hashed, b)) && n <= |a|
    ensures (forall i :: n <= i < |a| ==> Same(a[i], b[i]))
         || (k < |a| && hashed[k] && Collision(sha, Canonical(a[k]), Canonical(b[k])))
    decreases |a| - n
  {
    k := 0;
    if n < |a| {
      var ea, eb := Entries(sha, hashed, a), Entries(sha, hashed, b);
      assert Same(ea[n], eb[n]);
      if hashed[n] {
        assert ea[n] == Str(Digest(sha, a[n])) && eb[n] == Str(Digest(sha, b[n]));
        DigestPins(sha, a[n], b[n]);
      }
      if Same(a[n], b[n]) {
        k := PartsPinned(sha, hashed, a, b, n + 1);
      } else {
        k := n;
      }
    }
  }

  /** Manifests with one digest have the same parts, every one of them, or a collision is exhibited. */
  lemma ManifestPins(sha: Text -> Text, keys: seq<Text>, hashed: seq<bool>, a: seq<Json>, b: seq<Json>) returns (k: nat)
    requires |keys| == |hashed| == |a| == |b| && Distinct(keys) && AllWellFormed(a) && AllWellFormed(b)
    requires Digest(sha, Manifest(sha, keys, hashed, a)) == Digest(sha, Manifest(sha, keys, hashed, b))
    ensures AllSame(a, b) || CollidesAt(sha, keys, hashed, a, b, k)
  {
    EntriesWellFormed(sha, hashed, a);
    EntriesWellFormed(sha, hashed, b);
    RecordPinned(keys, Entries(sha, hashed, a), Entries(sha, hashed, b));
    if AllSame(Entries(sha, hashed, a), Entries(sha, hashed, b)) {
      k := PartsPinned(sha, hashed, a, b, 0);
    } else {
      k := |keys|;
    }
  }

  // ----- Telling literal keys apart

  /** The length of a key and its tenth unit, enough to tell the keys of one manifest apart. */
  function Mark(t: Text): (int, int) {
    (|t|, if |t| > 9 then t[9] as int else 0)
  }

  lemma MarksDiffer(keys: seq<Text>)
    requires forall i, j :: 0 <= i < j < |keys| ==> Mark(keys[i]) != Mark(keys[j])
    ensures Distinct(keys)
  {
    forall i, j | 0 <= i < j < |keys| ensures keys[i] != keys[j] {
      assert Mark(keys[i]) != Mark(keys[j]);
    }
  }
}
