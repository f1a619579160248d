/** Submissions round-trip, and a payload hash pins the manifest, the authority and the artifacts. */
module SubmissionProperties {
  import opened JsText
  import opened Json
  import opened CanonicalJson
  import opened Sequences
  import opened Ordering
  import opened Manifests
  import opened Base64
  import opened Runtime
  import opened CampaignPlan
  import opened Submission

  // ----- Reading back a printed submission

  lemma ItemKeysDistinct()
    ensures Distinct(ItemKeys()) && Distinct(IdentityKeys())
  {
    var k, i := ItemKeys(), IdentityKeys();
    assert k[0][0] == 112 && k[1][0] == 104 && |k[0]| == 4 && |k[1]| == 4 && |k[2]| == 11;
    assert i[0][0] == 112 && i[1][0] == 104;
  }

  lemma PayloadKeysDistinct()
    ensures Distinct(PayloadKeys())
  {
    var k := PayloadKeys();
    assert |k[0]| == 8 && |k[1]| == 9 && |k[2]| == 9 && k[1][1] == 114 && k[2][1] == 117;
  }

  lemma AttestationKeysDistinct()
    ensures Distinct(AttestationKeys())
  {
    var k := AttestationKeys();
    assert |k[0]| == 9 && |k[1]| == 9 && |k[2]| == 11 && |k[3]| == 9;
    assert k[0][1] == 108 && k[1][1] == 117 && k[3][1] == 105;
  }

  lemma BundleKeysDistinct()
    ensures Distinct(BundleKeys())
  {
    var k := BundleKeys();
    assert |k[0]| == 6 && |k[1]| == 8 && |k[2]| == 9 && |k[3]| == 11;
  }

  lemma ItemRoundTrip(i: Item)
    ensures ItemOf(ItemJson(i)) == Some(i)
  {
    ItemKeysDistinct();
    ReadRecordInverse(ItemKeys(), [Str(i.path), Str(i.hash), Str(i.bytesBase64)]);
  }

  lemma BundleRoundTrip(b: Bundle)
    ensures BundleOf(BundleJson(b)) == Some(b)
  {
    BundleKeysDistinct();
    AttestationKeysDistinct();
    var attestation := [b.algorithm, b.authority, b.payloadHash, b.signature];
    ReadRecordInverse(BundleKeys(),
                      [b.schema, b.manifest, Arr(Map(ItemJson, b.items)), Record(AttestationKeys(), attestation)]);
    ReadRecordInverse(AttestationKeys(), attestation);
    forall i | 0 <= i < |b.items| ensures ItemOf(ItemJson(b.items[i])) == Some(b.items[i]) {
      ItemRoundTrip(b.items[i]);
    }
    ReadAllInverse(ItemOf, ItemJson, b.items);
  }

  lemma KeysLettered()
    ensures All(Lettered, ItemKeys()) && All(Lettered, AttestationKeys()) && All(Lettered, BundleKeys())
  {
    var i, a, b := ItemKeys(), AttestationKeys(), BundleKeys();
    assert i[0][0] == 112 && i[1][0] == 104 && i[2][0] == 98;
    assert a[0][0] == 97 && a[1][0] == 97 && a[2][0] == 112 && a[3][0] == 115;
    assert b[0][0] == 115 && b[1][0] == 109 && b[2][0] == 97 && b[3][0] == 97;
  }

  lemma ItemsStorable(items: seq<Item>)
    ensures Storable(Arr(Map(ItemJson, items)))
  {
    ItemKeysDistinct();
    KeysLettered();
    forall i | 0 <= i < |items| ensures Storable(ItemJson(items[i])) {
      RecordStorable(ItemKeys(), [Str(items[i].path), Str(items[i].hash), Str(items[i].bytesBase64)]);
    }
    MapStorable(ItemJson, items);
  }

  /** What the builder prints is a value a program can hold when the manifest is one. */
  lemma BundleStorable(b: Bundle)
    requires Storable(b.manifest) && b.schema.Str? && b.algorithm.Str? && b.authority.Str?
    requires b.payloadHash.Str? && b.signature.Str?
    ensures Storable(BundleJson(b))
  {
    BundleKeysDistinct();
    AttestationKeysDistinct();
    KeysLettered();
    ItemsStorable(b.items);
    var attestation := [b.algorithm, b.authority, b.payloadHash, b.signature];
    RecordStorable(AttestationKeys(), attestation);
    RecordStorable(BundleKeys(),
                   [b.schema, b.manifest, Arr(Map(ItemJson, b.items)), Record(AttestationKeys(), attestation)]);
  }

  // ----- What is built verifies

  /** The key that verifies belongs to the key that signs. */
  ghost predicate KeysMatch(r: Rules) {
    forall t :: r.verified(t, r.signed(t))
  }

  lemma EncodedItemOk(p: Platform, x: Part)
    requires Faithful(p) && PartOk(p, x)
    ensures ItemOk(p, Encoded(p)(x))
  {
    assert p.decode64(Encode(x.bytes)) == x.bytes && IsHash(p.sha(x.bytes));
  }

  lemma EncodedItemsOk(p: Platform, parts: seq<Part>)
    requires Faithful(p) && All(PartsOk(p), parts) && Distinct(Map(LowerPath, parts))
    ensures All(ItemsOk(p), Map(Encoded(p), parts)) && Distinct(Map(LowerItem, Map(Encoded(p), parts)))
  {
    var items := Map(Encoded(p), parts);
    forall i | 0 <= i < |items| ensures ItemsOk(p)(items[i]) {
      assert PartsOk(p)(parts[i]);
      EncodedItemOk(p, parts[i]);
    }
    var names, lower := Map(LowerItem, items), Map(LowerPath, parts);
    forall i | 0 <= i < |names| ensures names[i] == lower[i] {
      assert items[i] == Encoded(p)(parts[i]);
    }
    assert names == lower;
  }

  lemma BuiltAccepted(p: Platform, r: Rules, manifest: Json, parts: seq<Part>, authority: Text)
    requires Faithful(p) && KeysMatch(r) && Buildable(p, r, manifest, parts, authority)
    ensures BundleAccepted(p, r, BundleFor(p, r, manifest, parts, authority))
  {
    EncodedItemsOk(p, SortBy(r.before, PartPath, parts));
  }

  lemma BuiltParses(p: Platform, b: Bundle)
    requires Faithful(p) && Storable(BundleJson(b))
    ensures JsonBytes(p, BundleJson(b)) != [] && ValueIn(p, JsonBytes(p, BundleJson(b))) == Some(BundleJson(b))
    ensures BundleIn(p, JsonBytes(p, BundleJson(b))) == Some(b)
  {
    JsonRoundTrip(p, BundleJson(b));
    BundleRoundTrip(b);
  }

  /**
   * Everything the builder returns is verified under the matching key exactly when it is within the size bound,
   * with the manifest's submission id, the hash of its bytes and its number of artifacts.
   */
  lemma RoundTrip(p: Platform, r: Rules, manifest: Json, parts: seq<Part>, authority: Text)
    requires Faithful(p) && KeysMatch(r) && Buildable(p, r, manifest, parts, authority) && Storable(manifest)
    ensures var bytes := JsonBytes(p, BundleJson(BundleFor(p, r, manifest, parts, authority)));
            (Accepts(p, r, bytes) <==> |bytes| <= MAX_SUBMISSION_BYTES)
            && BundleIn(p, bytes) == Some(BundleFor(p, r, manifest, parts, authority))
            && |BundleIn(p, bytes).value.items| == |parts| && BundleIn(p, bytes).value.manifest == manifest
  {
    var b := BundleFor(p, r, manifest, parts, authority);
    BuiltAccepted(p, r, manifest, parts, authority);
    BundleStorable(b);
    BuiltParses(p, b);
  }

  // ----- What a payload hash pins

  /** Every string a bundle's contents are made of comes without repeated keys. */
  ghost predicate WellFormedBundle(b: Bundle) {
    WellFormed(b.manifest) && WellFormed(b.authority)
  }

  function PathOf(i: Item): Text {
    i.path
  }

  function HashOf(i: Item): Text {
    i.hash
  }

  lemma IdentityPairs()
    ensures Pairs(IdentityKeys(), PathOf, HashOf, IdentityJson)
  {
    ItemKeysDistinct();
  }

  /** The same paths and hashes, in order. */
  ghost predicate SameIdentities(a: seq<Item>, b: seq<Item>) {
    |a| == |b| && forall i :: 0 <= i < |a| ==> a[i].path == b[i].path && a[i].hash == b[i].hash
  }

  lemma IdentitiesDetermine(a: seq<Item>, b: seq<Item>)
    requires Same(Arr(Map(IdentityJson, a)), Arr(Map(IdentityJson, b)))
    ensures SameIdentities(a, b)
  {
    IdentityPairs();
    SamePairs(IdentityKeys(), PathOf, HashOf, IdentityJson, a, b);
    assert forall i :: 0 <= i < |a| ==> PathOf(a[i]) == PathOf(b[i]) && HashOf(a[i]) == HashOf(b[i]);
  }

  lemma ThreeValues(keys: seq<Text>, a: seq<Json>, b: seq<Json>)
    requires |keys| == |a| == |b| == 3 && Distinct(keys)
    requires WellFormed(a[0]) && WellFormed(a[1]) && WellFormed(a[2])
    requires WellFormed(b[0]) && WellFormed(b[1]) && WellFormed(b[2])
    requires Canonical(Record(keys, a)) == Canonical(Record(keys, b))
    ensures Same(a[0], b[0]) && Same(a[1], b[1]) && Same(a[2], b[2])
  {
    RecordPinned(keys, a, b);
  }

  /** Equal payload texts come from the same manifest, the same authority and the same list of paths and hashes. */
  lemma PayloadDetermines(a: Bundle, b: Bundle)
    requires WellFormedBundle(a) && WellFormedBundle(b)
    requires PayloadText(a.manifest, a.items, a.authority) == PayloadText(b.manifest, b.items, b.authority)
    ensures Same(a.manifest, b.manifest) && Same(a.authority, b.authority) && SameIdentities(a.items, b.items)
  {
    PayloadKeysDistinct();
    IdentityPairs();
    PairsWellFormed(IdentityKeys(), PathOf, HashOf, IdentityJson, a.items);
    PairsWellFormed(IdentityKeys(), PathOf, HashOf, IdentityJson, b.items);
    ThreeValues(PayloadKeys(), [a.manifest, Arr(Map(IdentityJson, a.items)), a.authority],
                [b.manifest, Arr(Map(IdentityJson, b.items)), b.authority]);
    IdentitiesDetermine(a.items, b.items);
  }

  function ItemBytes(p: Platform, i: Item): Octets {
    p.decode64(i.bytesBase64)
  }

  /** The same artifacts: paths and bytes, in order. */
  ghost predicate SameArtifacts(p: Platform, a: seq<Item>, b: seq<Item>) {
    |a| == |b| && forall i :: 0 <= i < |a| ==> a[i].path == b[i].path && ItemBytes(p, a[i]) == ItemBytes(p, b[i])
  }

  /**
   * Different bytes behind the `k`-th artifacts with one digest, or (at the end) different payload texts with one
   * digest.
   */
  ghost predicate CollidesAt(p: Platform, a: Bundle, b: Bundle, k: nat) {
    if k < |a.items| && k < |b.items| then
      ItemBytes(p, a.items[k]) != ItemBytes(p, b.items[k])
      && p.sha(ItemBytes(p, a.items[k])) == p.sha(ItemBytes(p, b.items[k]))
    else
      Collision(TextDigest(p), PayloadText(a.manifest, a.items, a.authority),
                PayloadText(b.manifest, b.items, b.authority))
  }

  /**
   * Two accepted submissions with one payload hash carry the same manifest, authority and ordered artifacts,
   * or a digest collision between them is exhibited.
   */
  lemma PayloadHashPins(p: Platform, r: Rules, a: Bundle, b: Bundle) returns (k: nat)
    requires BundleAccepted(p, r, a) && BundleAccepted(p, r, b) && WellFormedBundle(a) && WellFormedBundle(b)
    requires a.payloadHash == b.payloadHash
    ensures (Same(a.manifest, b.manifest) && Same(a.authority, b.authority) && SameArtifacts(p, a.items, b.items))
            || CollidesAt(p, a, b, k)
  {
    var ta, tb := PayloadText(a.manifest, a.items, a.authority), PayloadText(b.manifest, b.items, b.authority);
    if ta == tb {
      PayloadDetermines(a, b);
      if !SameArtifacts(p, a.items, b.items) {
        k :| 0 <= k < |a.items| && ItemBytes(p, a.items[k]) != ItemBytes(p, b.items[k]);
        assert ItemsOk(p)(a.items[k]) && ItemsOk(p)(b.items[k]);
      } else {
        k := 0;
      }
    } else {
      k := |a.items| + |b.items|;
    }
  }

  /** Accepted submissions hold their artifacts in the one encoding: equal bytes mean equal items. */
  lemma SameItems(p: Platform, r: Rules, a: Bundle, b: Bundle)
    requires BundleAccepted(p, r, a) && BundleAccepted(p, r, b) && SameArtifacts(p, a.items, b.items)
    ensures a.items == b.items
  {
    forall i | 0 <= i < |a.items| ensures a.items[i] == b.items[i] {
      assert ItemsOk(p)(a.items[i]) && ItemsOk(p)(b.items[i]);
    }
  }
}
