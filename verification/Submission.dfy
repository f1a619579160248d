/** P3 submissions: signed bundles of a manifest and artifacts. */
module Submission {
  import opened JsText
  import opened Json
  import opened CanonicalJson
  import opened Sequences
  import opened Ordering
  import opened Manifests
  import opened Base64
  import opened Runtime
  import opened Paths
  import opened CampaignPlan

  datatype Part = Part(path: Text, bytes: Octets)

  datatype Item = Item(path: Text, hash: Text, bytesBase64: Text)

  /** The manifest's own rules, the authority's pattern, the order of paths, and the two halves of a key pair. */
  datatype Rules = Rules(manifestOk: Json -> bool, submitter: Text -> bool, before: (Text, Text) -> bool,
                         signed: Text -> Text, verified: (Text, Text) -> bool)

  const MAX_ARTIFACT_BYTES: nat := 64 * 1024 * 1024
  const MAX_SUBMISSION_BYTES: nat := 256 * 1024 * 1024

  // ----- Artifact paths

  predicate ValidSegment(s: Text) {
    s != [] && s != [46] && s != [46, 46] && All(IsPathUnit, s)
  }

  predicate ValidPath(t: Text) {
    1 <= |t| <= 240 && t[0] != SLASH && 92 !in t && All(ValidSegment, Segments(t))
  }

  // ----- The bundle as a record

  function PartPath(x: Part): Text {
    x.path
  }

  function Encoded(p: Platform): Part -> Item {
    (x: Part) => Item(x.path, p.sha(x.bytes), Encode(x.bytes))
  }

  function ItemKeys(): seq<Text> {
    [T("path"), T("hash"), T("bytesBase64")]
  }

  function ItemJson(i: Item): Json {
    Record(ItemKeys(), [Str(i.path), Str(i.hash), Str(i.bytesBase64)])
  }

  function ItemOf(v: Json): Option<Item> {
    match ReadRecord(ItemKeys(), v)
    case None => None
    case Some(f) => if f[0].Str? && f[1].Str? && f[2].Str? then Some(Item(f[0].s, f[1].s, f[2].s)) else None
  }

  function IdentityKeys(): seq<Text> {
    [T("path"), T("hash")]
  }

  function IdentityJson(i: Item): Json {
    Record(IdentityKeys(), [Str(i.path), Str(i.hash)])
  }

  function PayloadKeys(): seq<Text> {
    [T("manifest"), T("artifacts"), T("authority")]
  }

  /** What the signature covers. */
  function Payload(manifest: Json, items: seq<Item>, authority: Json): Json {
    Record(PayloadKeys(), [manifest, Arr(Map(IdentityJson, items)), authority])
  }

  function PayloadText(manifest: Json, items: seq<Item>, authority: Json): Text {
    Canonical(Payload(manifest, items, authority))
  }

  function TextDigest(p: Platform): Text -> Text {
    t => p.sha(p.utf8(t))
  }

  function AttestationKeys(): seq<Text> {
    [T("algorithm"), T("authority"), T("payloadHash"), T("signature")]
  }

  function BundleKeys(): seq<Text> {
    [T("schema"), T("manifest"), T("artifacts"), T("attestation")]
  }

  /** A bundle with its attestation, as the verifier reads it. */
  datatype Bundle = Bundle(schema: Json, manifest: Json, items: seq<Item>, algorithm: Json, authority: Json,
                           payloadHash: Json, signature: Json)

  function BundleJson(b: Bundle): Json {
    Record(BundleKeys(),
           [b.schema, b.manifest, Arr(Map(ItemJson, b.items)),
            Record(AttestationKeys(), [b.algorithm, b.authority, b.payloadHash, b.signature])])
  }

  function BundleOf(v: Json): Option<Bundle> {
    match ReadRecord(BundleKeys(), v)
    case None => None
    case Some(f) =>
      if f[2].Arr? then
        (match (ReadAll(ItemOf, f[2].items), ReadRecord(AttestationKeys(), f[3]))
         case (Some(items), Some(a)) => Some(Bundle(f[0], f[1], items, a[0], a[1], a[2], a[3]))
         case _ => None)
      else None
  }

  // ----- Building

  /** `assertArtifactPublishable`: bytes that are text are publishable text. */
  predicate ArtifactPublishable(p: Platform, bytes: Octets) {
    p.strict(bytes).None? || !p.prohibitedValue(p.strict(bytes).value)
  }

  predicate PartOk(p: Platform, x: Part) {
    ValidPath(x.path) && 1 <= |x.bytes| <= MAX_ARTIFACT_BYTES && ArtifactPublishable(p, x.bytes)
  }

  function LowerPath(x: Part): Text {
    Lower(x.path)
  }

  function BundleFor(p: Platform, r: Rules, manifest: Json, parts: seq<Part>, authority: Text): Bundle {
    var items := Map(Encoded(p), SortBy(r.before, PartPath, parts));
    var text := PayloadText(manifest, items, Str(authority));
    Bundle(Str(T("mgds.p3-bundle/v1")), manifest, items, Str(T("Ed25519")), Str(authority), Str(TextDigest(p)(text)),
           Str(r.signed(text)))
  }

  function PartsOk(p: Platform): Part -> bool {
    x => PartOk(p, x)
  }

  /** Everything the builder demands before it returns. */
  ghost predicate Buildable(p: Platform, r: Rules, manifest: Json, parts: seq<Part>, authority: Text) {
    Publishable(p, manifest) && r.manifestOk(manifest) && r.submitter(authority) && 1 <= |parts| <= 1024
    && All(PartsOk(p), SortBy(r.before, PartPath, parts)) && Distinct(Map(LowerPath, SortBy(r.before, PartPath, parts)))
    && Publishable(p, BundleJson(BundleFor(p, r, manifest, parts, authority)))
  }

  lemma FineNext(ok: Part -> bool, parts: seq<Part>, n: nat)
    requires n < |parts|
    ensures All(ok, parts[..n + 1]) && Distinct(Map(LowerPath, parts[..n + 1])) <==>
            All(ok, parts[..n]) && Distinct(Map(LowerPath, parts[..n])) && ok(parts[n])
            && LowerPath(parts[n]) !in Map(LowerPath, parts[..n])
  {
    MapNext(LowerPath, parts, n);
    DistinctSnoc(Map(LowerPath, parts[..n]), LowerPath(parts[n]));
    AllSnoc(ok, parts, n);
  }

  lemma {:induction false} FinePrefix(ok: Part -> bool, parts: seq<Part>, n: nat)
    requires n <= |parts| && All(ok, parts) && Distinct(Map(LowerPath, parts))
    ensures All(ok, parts[..n]) && Distinct(Map(LowerPath, parts[..n]))
    decreases |parts| - n
  {
    if n < |parts| {
      FinePrefix(ok, parts, n + 1);
      FineNext(ok, parts, n);
    } else {
      assert parts[..n] == parts;
    }
  }

  /** The loop over the sorted artifacts; `ok` is what one of them has to meet. */
  method EncodeParts(encode: Part -> Item, ok: Part -> bool, parts: seq<Part>) returns (r: Option<seq<Item>>)
    ensures r.Some? <==> All(ok, parts) && Distinct(Map(LowerPath, parts))
    ensures r.Some? ==> r.value == Map(encode, parts)
  {
    var seen: set<Text> := {};
    var items: seq<Item> := [];
    for i := 0 to |parts|
      invariant All(ok, parts[..i]) && Distinct(Map(LowerPath, parts[..i]))
      invariant seen == Elements(Map(LowerPath, parts[..i]))
      invariant items == Map(encode, parts[..i])
    {
      FineNext(ok, parts, i);
      if All(ok, parts) && Distinct(Map(LowerPath, parts)) {
        FinePrefix(ok, parts, i + 1);
      }
      MapNext(LowerPath, parts, i);
      MapNext(encode, parts, i);
      if !ok(parts[i]) || LowerPath(parts[i]) in seen {
        return None;
      }
      seen := seen + {LowerPath(parts[i])};
      items := items + [encode(parts[i])];
    }
    assert parts[..|parts|] == parts;
    r := Some(items);
  }

  datatype Built = Built(bundle: Bundle, bytes: Octets, bundleHash: Text)

  /** The builder: `None` is a thrown error. */
  method BuildP3Submission(p: Platform, r: Rules, manifest: Json, parts: seq<Part>, authority: Text)
    returns (built: Option<Built>)
    ensures built.Some? <==> Buildable(p, r, manifest, parts, authority)
    ensures built.Some? ==>
              var b := BundleFor(p, r, manifest, parts, authority); var bytes := JsonBytes(p, BundleJson(b));
              built.value == Built(b, bytes, p.sha(bytes))
  {
    if !Publishable(p, manifest) || !r.manifestOk(manifest) || !r.submitter(authority) {
      return None;
    }
    var items := EncodeParts(Encoded(p), PartsOk(p), SortBy(r.before, PartPath, parts));
    if items.None? || |items.value| == 0 || |items.value| > 1024 {
      return None;
    }
    var text := PayloadText(manifest, items.value, Str(authority));
    var b := Bundle(Str(T("mgds.p3-bundle/v1")), manifest, items.value, Str(T("Ed25519")), Str(authority),
                    Str(TextDigest(p)(text)), Str(r.signed(text)));
    if !Publishable(p, BundleJson(b)) {
      return None;
    }
    var bytes := JsonBytes(p, BundleJson(b));
    built := Some(Built(b, bytes, p.sha(bytes)));
  }

  // ----- Verifying

  datatype Verdict = Verdict(submissionId: Option<Json>, bundleHash: Text, artifacts: nat)

  predicate ItemOk(p: Platform, i: Item) {
    var bytes := p.decode64(i.bytesBase64);
    ValidPath(i.path) && IsHash(i.hash) && bytes != [] && Encode(bytes) == i.bytesBase64 && p.sha(bytes) == i.hash
    && ArtifactPublishable(p, bytes)
  }

  function ItemsOk(p: Platform): Item -> bool {
    i => ItemOk(p, i)
  }

  function LowerItem(i: Item): Text {
    Lower(i.path)
  }

  /** The attestation is an Ed25519 signature over the payload these contents make. */
  predicate Attested(p: Platform, r: Rules, b: Bundle) {
    var text := PayloadText(b.manifest, b.items, b.authority);
    b.algorithm == Str(T("Ed25519")) && b.payloadHash == Str(TextDigest(p)(text))
    && b.signature.Str? && r.verified(text, b.signature.s)
  }

  ghost predicate BundleAccepted(p: Platform, r: Rules, b: Bundle) {
    b.schema == Str(T("mgds.p3-bundle/v1")) && b.items != [] && r.manifestOk(b.manifest)
    && All(ItemsOk(p), b.items) && Distinct(Map(LowerItem, b.items)) && Attested(p, r, b)
  }

  /** The value in these bytes, when they are UTF-8 JSON. */
  function ValueIn(p: Platform, bytes: Octets): Option<Json> {
    match p.strict(bytes)
    case None => None
    case Some(text) => p.parse(text)
  }

  function BundleIn(p: Platform, bytes: Octets): Option<Bundle> {
    match ValueIn(p, bytes)
    case None => None
    case Some(v) => BundleOf(v)
  }

  ghost predicate Accepts(p: Platform, r: Rules, bytes: Octets) {
    1 <= |bytes| <= MAX_SUBMISSION_BYTES
    && BundleIn(p, bytes).Some? && Publishable(p, ValueIn(p, bytes).value)
    && BundleAccepted(p, r, BundleIn(p, bytes).value)
  }

  lemma ItemsNext(ok: Item -> bool, items: seq<Item>, n: nat)
    requires n < |items|
    ensures All(ok, items[..n + 1]) && Distinct(Map(LowerItem, items[..n + 1])) <==>
            All(ok, items[..n]) && Distinct(Map(LowerItem, items[..n])) && ok(items[n])
            && LowerItem(items[n]) !in Map(LowerItem, items[..n])
  {
    MapNext(LowerItem, items, n);
    DistinctSnoc(Map(LowerItem, items[..n]), LowerItem(items[n]));
    AllSnoc(ok, items, n);
  }

  lemma {:induction false} ItemsPrefix(ok: Item -> bool, items: seq<Item>, n: nat)
    requires n <= |items| && All(ok, items) && Distinct(Map(LowerItem, items))
    ensures All(ok, items[..n]) && Distinct(Map(LowerItem, items[..n]))
    decreases |items| - n
  {
    if n < |items| {
      ItemsPrefix(ok, items, n + 1);
      ItemsNext(ok, items, n);
    } else {
      assert items[..n] == items;
    }
  }

  /** The verifier's loop over the artifacts. */
  method CheckItems(ok: Item -> bool, items: seq<Item>) returns (fine: bool)
    ensures fine <==> All(ok, items) && Distinct(Map(LowerItem, items))
  {
    var seen: set<Text> := {};
    for i := 0 to |items|
      invariant All(ok, items[..i]) && Distinct(Map(LowerItem, items[..i]))
      invariant seen == Elements(Map(LowerItem, items[..i]))
    {
      ItemsNext(ok, items, i);
      if All(ok, items) && Distinct(Map(LowerItem, items)) {
        ItemsPrefix(ok, items, i + 1);
      }
      MapNext(LowerItem, items, i);
      if !ok(items[i]) || LowerItem(items[i]) in seen {
        return false;
      }
      seen := seen + {LowerItem(items[i])};
    }
    assert items[..|items|] == items;
    return true;
  }

  /** The verifier: `None` is a thrown error. */
  method VerifyP3Submission(p: Platform, r: Rules, bytes: Octets) returns (verdict: Option<Verdict>)
    ensures verdict.Some? <==> Accepts(p, r, bytes)
    ensures verdict.Some? ==>
              var b := BundleIn(p, bytes).value;
              verdict.value == Verdict(Property(b.manifest, T("submissionId")), p.sha(bytes), |b.items|)
  {
    if bytes == [] || |bytes| > MAX_SUBMISSION_BYTES {
      return None;
    }
    var v := ValueIn(p, bytes);
    if v.None? {
      return None;
    }
    var b := BundleOf(v.value);
    if b.None? || b.value.schema != Str(T("mgds.p3-bundle/v1")) || b.value.items == []
       || !r.manifestOk(b.value.manifest) || !Publishable(p, v.value) {
      return None;
    }
    var fine := CheckItems(ItemsOk(p), b.value.items);
    if !fine || !Attested(p, r, b.value) {
      return None;
    }
    verdict := Some(Verdict(Property(b.value.manifest, T("submissionId")), p.sha(bytes), |b.value.items|));
  }
}
