/** What the builder of evidence bundles returns, the verifier accepts. */
module EvidenceAgreement {
  import opened JsText
  import opened Json
  import opened Sequences
  import opened Ordering
  import opened Manifests
  import opened Base64
  import opened Runtime
  import opened CampaignPlan
  import opened Evidence
  import Crc32
  import Words
  import PngGrammar
  import PngScanner

  // ----- Reading back a printed bundle

  lemma EntryKeysDistinct()
    ensures Distinct(EntryKeys())
  {
    var k := EntryKeys();
    assert |k[0]| == 8 && |k[1]| == 12 && |k[2]| == 5 && |k[3]| == 4;
  }

  lemma ArtifactKeysDistinct()
    ensures Distinct(ArtifactKeys())
  {
    var k := ArtifactKeys();
    assert k[0][0] == 114 && k[1][0] == 104 && |k[2]| == 11;
  }

  lemma PrivacyKeysDistinct()
    ensures Distinct(PrivacyKeys())
  {
    var k := PrivacyKeys();
    assert |k[0]| == 14 && |k[1]| == 16;
  }

  lemma BundleKeysDistinct()
    ensures Distinct(BundleKeys())
  {
    var k := BundleKeys();
    assert |k[0]| == 6 && |k[1]| == 5 && |k[2]| == 6 && |k[3]| == 6 && |k[4]| == 9 && |k[5]| == 7 && |k[6]| == 12;
    assert k[0][1] == 99 && k[2][1] == 108 && k[3][1] == 118;
  }

  lemma KeysLettered()
    ensures All(Lettered, EntryKeys()) && All(Lettered, ArtifactKeys()) && All(Lettered, PrivacyKeys())
    ensures All(Lettered, BundleKeys())
  {
    var e, a, p, b := EntryKeys(), ArtifactKeys(), PrivacyKeys(), BundleKeys();
    assert e[0][0] == 115 && e[1][0] == 112 && e[2][0] == 101 && e[3][0] == 104;
    assert a[0][0] == 114 && a[1][0] == 104 && a[2][0] == 98 && p[0][0] == 99 && p[1][0] == 114;
    assert b[0][0] == 115 && b[1][0] == 114 && b[2][0] == 115 && b[3][0] == 101 && b[4][0] == 97 && b[5][0] == 112
           && b[6][0] == 114;
  }

  lemma EntryRoundTrip(e: Entry)
    ensures EntryOf(EventLedger.EntryJson(e)) == Some(e)
  {
    var values := [Num(e.sequence), Str(e.previousHash), e.event, Str(e.hash)];
    EntryKeysDistinct();
    ReadRecordInverse(EntryKeys(), values);
    assert EventLedger.EntryJson(e).members == Fields(EntryKeys(), values);
  }

  lemma ArtifactRoundTrip(a: Artifact)
    ensures ArtifactOf(ArtifactJson(a)) == Some(a)
  {
    ArtifactKeysDistinct();
    ReadRecordInverse(ArtifactKeys(), [Str(a.role), Str(a.hash), Str(a.bytesBase64)]);
  }

  /** A bundle is read back from its record. */
  lemma BundleRoundTrip(b: Bundle)
    ensures BundleOf(BundleJson(b)) == Some(b)
  {
    BundleKeysDistinct();
    PrivacyKeysDistinct();
    var privacy := [Str(b.classification), Str(b.redactionVersion)];
    var values := [Str(b.schema), Str(b.runId), Str(b.slotId), Arr(Map(EventLedger.EntryJson, b.events)),
                   Arr(Map(ArtifactJson, b.artifacts)),
                   Record(PrivacyKeys(), privacy), Str(b.replayStatus)];
    ReadRecordInverse(BundleKeys(), values);
    ReadRecordInverse(PrivacyKeys(), privacy);
    forall i | 0 <= i < |b.events| ensures EntryOf(EventLedger.EntryJson(b.events[i])) == Some(b.events[i]) {
      EntryRoundTrip(b.events[i]);
    }
    ReadAllInverse(EntryOf, EventLedger.EntryJson, b.events);
    forall i | 0 <= i < |b.artifacts| ensures ArtifactOf(ArtifactJson(b.artifacts[i])) == Some(b.artifacts[i]) {
      ArtifactRoundTrip(b.artifacts[i]);
    }
    ReadAllInverse(ArtifactOf, ArtifactJson, b.artifacts);
  }

  // ----- What the builder prints is a value a program can hold

  /** The events argument: an array of values. */
  ghost predicate StorableEvents(events: seq<Json>) {
    |events| <= MAX_ARRAY_LENGTH && AllStorable(events)
  }

  lemma EntryStorable(e: Entry)
    requires 0 <= e.sequence <= MAX_SAFE_INTEGER && Storable(e.event)
    ensures Storable(EventLedger.EntryJson(e))
  {
    var values := [Num(e.sequence), Str(e.previousHash), e.event, Str(e.hash)];
    EntryKeysDistinct();
    KeysLettered();
    RecordStorable(EntryKeys(), values);
    assert EventLedger.EntryJson(e).members == Fields(EntryKeys(), values);
  }

  lemma LedgerStorable(p: Platform, events: seq<Json>)
    requires StorableEvents(events)
    ensures Storable(Arr(Map(EventLedger.EntryJson, EventLedger.AppendAll(Hex(p), events))))
  {
    var es := EventLedger.AppendAll(Hex(p), events);
    EventLedger.AppendAllVerified(Hex(p), events);
    forall i | 0 <= i < |es| ensures Storable(EventLedger.EntryJson(es[i])) {
      assert EventLedger.Linked(Hex(p), EventLedger.BodyText, es, i);
      EntryStorable(es[i]);
    }
    MapStorable(EventLedger.EntryJson, es);
  }

  lemma ArtifactsStorable(artifacts: seq<Artifact>)
    ensures Storable(Arr(Map(ArtifactJson, artifacts)))
  {
    ArtifactKeysDistinct();
    KeysLettered();
    forall i | 0 <= i < |artifacts| ensures Storable(ArtifactJson(artifacts[i])) {
      var a := artifacts[i];
      RecordStorable(ArtifactKeys(), [Str(a.role), Str(a.hash), Str(a.bytesBase64)]);
    }
    MapStorable(ArtifactJson, artifacts);
  }

  lemma BundleStorable(b: Bundle)
    requires Storable(Arr(Map(EventLedger.EntryJson, b.events)))
    ensures Storable(BundleJson(b))
  {
    BundleKeysDistinct();
    PrivacyKeysDistinct();
    KeysLettered();
    ArtifactsStorable(b.artifacts);
    var privacy := [Str(b.classification), Str(b.redactionVersion)];
    RecordStorable(PrivacyKeys(), privacy);
    RecordStorable(BundleKeys(),
                   [Str(b.schema), Str(b.runId), Str(b.slotId), Arr(Map(EventLedger.EntryJson, b.events)),
                    Arr(Map(ArtifactJson, b.artifacts)), Record(PrivacyKeys(), privacy), Str(b.replayStatus)]);
  }

  // ----- The schema

  lemma HexOfHash(p: Platform, t: Text)
    requires Faithful(p)
    ensures IsHex64(Hex(p)(t))
  {
    var d := p.sha(p.utf8(t));
    assert IsHash(d);
    assert forall i :: 0 <= i < 64 ==> d[7..][i] == d[i + 7];
  }

  /** Every entry of a chain is numbered from one and carries hashes of the right shape. */
  lemma ChainShape(p: Platform, events: seq<Json>)
    requires Faithful(p)
    ensures All(ValidEntry, EventLedger.AppendAll(Hex(p), events)) <==> forall i :: 0 <= i < |events| ==> events[i].Obj?
  {
    var es := EventLedger.AppendAll(Hex(p), events);
    EventLedger.AppendAllVerified(Hex(p), events);
    forall i | 0 <= i < |es|
      ensures ValidEntry(es[i]) <==> events[i].Obj?
    {
      EntryShape(p, es, i);
    }
    if All(ValidEntry, es) {
      forall i | 0 <= i < |events| ensures events[i].Obj? {
        assert ValidEntry(es[i]);
      }
    }
  }

  lemma EntryShape(p: Platform, es: seq<Entry>, i: nat)
    requires Faithful(p) && EventLedger.Verified(Hex(p), es) && i < |es|
    ensures es[i].sequence >= 1 && IsHex64(es[i].previousHash) && IsHex64(es[i].hash)
  {
    assert EventLedger.Linked(Hex(p), EventLedger.BodyText, es, i);
    HexOfHash(p, EventLedger.BodyText(es[i]));
    if i > 0 {
      assert EventLedger.Linked(Hex(p), EventLedger.BodyText, es, i - 1);
      HexOfHash(p, EventLedger.BodyText(es[i - 1]));
    }
  }

  lemma ArtifactShape(p: Platform, parts: seq<Part>, role: Text)
    requires Faithful(p)
    ensures ValidArtifact(Encoded(p, parts)(role)) <==> IsRole(role)
  {
    EncodeIsBase64(BytesOf(parts, role));
    assert IsHash(p.sha(BytesOf(parts, role)));
  }

  lemma ArtifactsShape(p: Platform, parts: seq<Part>, roles: seq<Text>)
    requires Faithful(p)
    ensures All(ValidArtifact, Map(Encoded(p, parts), roles)) <==> All(IsRole, roles)
  {
    var artifacts := Map(Encoded(p, parts), roles);
    forall i | 0 <= i < |roles|
      ensures artifacts[i] == Encoded(p, parts)(roles[i]) && (ValidArtifact(artifacts[i]) <==> IsRole(roles[i]))
    {
      ArtifactShape(p, parts, roles[i]);
    }
    if All(ValidArtifact, artifacts) {
      forall i | 0 <= i < |roles| ensures IsRole(roles[i]) {
        assert ValidArtifact(artifacts[i]);
      }
    }
  }

  /** What the caller has to bring for a bundle to fit the schema. */
  ghost predicate Presentable(slot: Slot, events: seq<Json>) {
    16 <= |slot.slotId| <= 512 && slot.requiredEvidence != [] && All(IsRole, SortTexts(slot.requiredEvidence))
    && forall i :: 0 <= i < |events| ==> events[i].Obj?
  }

  lemma SchemaExactly(p: Platform, slot: Slot, runId: Text, events: seq<Json>, parts: seq<Part>)
    requires Faithful(p) && IsRunName(runId) && events != []
    ensures SchemaOk(BundleFor(p, slot, runId, events, parts)) <==> Presentable(slot, events)
  {
    ChainShape(p, events);
    ArtifactsShape(p, parts, SortTexts(slot.requiredEvidence));
    assert |multiset(SortTexts(slot.requiredEvidence))| == |multiset(slot.requiredEvidence)|;
  }

  // ----- The artifacts

  /** A PNG starts with a byte that cannot start a UTF-8 text. */
  ghost predicate PngIsBinary(c: Contents) {
    forall bytes :: c.png(bytes) ==> bytes != [] && bytes[0] == 137
  }

  /** An encoded artifact is accepted exactly when its content fits its role. */
  lemma ArtifactExactly(p: Platform, c: Contents, events: seq<Entry>, buildTarget: Text, parts: seq<Part>, role: Text)
    requires Faithful(p) && PngIsBinary(c) && PartOk(p, role, BytesOf(parts, role))
    ensures ArtifactOk(p, c, events, buildTarget, Encoded(p, parts)(role)) <==>
            RoleContent(p, c, role, BytesOf(parts, role), events, buildTarget)
  {
    var bytes := BytesOf(parts, role);
    EncodeIsBase64(bytes);
    assert p.decode64(Encode(bytes)) == bytes && IsHash(p.sha(bytes));
    if role == T("screenshot") && c.png(bytes) {
      assert p.strict(bytes) == None;
    }
  }

  /** Every required role has content that fits it. */
  ghost predicate ContentsFit(p: Platform, c: Contents, slot: Slot, events: seq<Json>, parts: seq<Part>) {
    forall i :: 0 <= i < |slot.requiredEvidence| ==>
      RoleContent(p, c, slot.requiredEvidence[i], BytesOf(parts, slot.requiredEvidence[i]),
                  EventLedger.AppendAll(Hex(p), events), slot.buildTarget)
  }

  ghost predicate DigestsDiffer(p: Platform, slot: Slot, parts: seq<Part>) {
    forall i, j :: 0 <= i < j < |slot.requiredEvidence| ==>
      p.sha(BytesOf(parts, slot.requiredEvidence[i])) != p.sha(BytesOf(parts, slot.requiredEvidence[j]))
  }

  function Fitting(p: Platform, c: Contents, parts: seq<Part>, events: seq<Entry>, buildTarget: Text): Text -> bool {
    role => RoleContent(p, c, role, BytesOf(parts, role), events, buildTarget)
  }

  lemma AllPermuted<A(!new)>(f: A -> bool, s: seq<A>, t: seq<A>)
    requires Permutation(s, t)
    ensures All(f, s) <==> All(f, t)
  {
    PermutationMembers(s, t);
    if All(f, s) {
      forall i | 0 <= i < |t| ensures f(t[i]) {
        assert t[i] in s;
      }
    }
    if All(f, t) {
      forall i | 0 <= i < |s| ensures f(s[i]) {
        assert s[i] in t;
      }
    }
  }

  lemma AcceptingExactly(p: Platform, c: Contents, parts: seq<Part>, events: seq<Entry>, buildTarget: Text,
                         roles: seq<Text>)
    requires Faithful(p) && PngIsBinary(c) && All(Sound(p, parts), roles)
    ensures All(Accepting(p, c, events, buildTarget), Map(Encoded(p, parts), roles)) <==>
              All(Fitting(p, c, parts, events, buildTarget), roles)
  {
    var artifacts := Map(Encoded(p, parts), roles);
    forall i | 0 <= i < |roles|
      ensures Accepting(p, c, events, buildTarget)(artifacts[i]) <==>
                Fitting(p, c, parts, events, buildTarget)(roles[i])
    {
      assert Sound(p, parts)(roles[i]);
      ArtifactExactly(p, c, events, buildTarget, parts, roles[i]);
    }
    if All(Accepting(p, c, events, buildTarget), artifacts) {
      forall i | 0 <= i < |roles| ensures Fitting(p, c, parts, events, buildTarget)(roles[i]) {
        assert Accepting(p, c, events, buildTarget)(artifacts[i]);
      }
    }
  }

  ghost function DigestDiffers(p: Platform, parts: seq<Part>): (Text, Text) -> bool {
    (r, s) => p.sha(BytesOf(parts, r)) != p.sha(BytesOf(parts, s))
  }

  lemma HashesDiffer(p: Platform, parts: seq<Part>, roles: seq<Text>)
    ensures Distinct(Map(HashOf, Map(Encoded(p, parts), roles))) <==> Pairwise(DigestDiffers(p, parts), roles)
  {
    var hashes := Map(HashOf, Map(Encoded(p, parts), roles));
    assert forall i :: 0 <= i < |roles| ==> hashes[i] == p.sha(BytesOf(parts, roles[i]));
    if Distinct(hashes) {
      forall i, j | 0 <= i < j < |roles| ensures DigestDiffers(p, parts)(roles[i], roles[j]) {
        assert hashes[i] != hashes[j];
      }
    }
    if Pairwise(DigestDiffers(p, parts), roles) {
      forall i, j | 0 <= i < j < |hashes| ensures hashes[i] != hashes[j] {
        assert DigestDiffers(p, parts)(roles[i], roles[j]);
      }
    }
  }

  lemma PairwiseEither(p: Platform, parts: seq<Part>, s: seq<Text>, t: seq<Text>)
    requires Permutation(s, t)
    ensures Pairwise(DigestDiffers(p, parts), s) <==> Pairwise(DigestDiffers(p, parts), t)
  {
    if Pairwise(DigestDiffers(p, parts), s) {
      PairwisePermuted(DigestDiffers(p, parts), s, t);
    }
    if Pairwise(DigestDiffers(p, parts), t) {
      PairwisePermuted(DigestDiffers(p, parts), t, s);
    }
  }

  lemma RolesOfEncoded(p: Platform, parts: seq<Part>, roles: seq<Text>)
    ensures Map(RoleOf, Map(Encoded(p, parts), roles)) == roles
  {
    var names := Map(RoleOf, Map(Encoded(p, parts), roles));
    assert forall i :: 0 <= i < |roles| ==> names[i] == roles[i];
  }

  lemma ArtifactsExactly(p: Platform, c: Contents, slot: Slot, events: seq<Json>, parts: seq<Part>)
    requires Faithful(p) && PngIsBinary(c) && All(Sound(p, parts), SortTexts(slot.requiredEvidence))
             && Distinct(SortTexts(slot.requiredEvidence))
    ensures ArtifactsOk(Accepting(p, c, EventLedger.AppendAll(Hex(p), events), slot.buildTarget),
                        Map(Encoded(p, parts), SortTexts(slot.requiredEvidence)))
       <==> ContentsFit(p, c, slot, events, parts) && DigestsDiffer(p, slot, parts)
  {
    var required, sorted := slot.requiredEvidence, SortTexts(slot.requiredEvidence);
    var ledger := EventLedger.AppendAll(Hex(p), events);
    AcceptingExactly(p, c, parts, ledger, slot.buildTarget, sorted);
    AllPermuted(Fitting(p, c, parts, ledger, slot.buildTarget), sorted, required);
    HashesDiffer(p, parts, sorted);
    PairwiseEither(p, parts, sorted, required);
    RolesOfEncoded(p, parts, sorted);
    FittingIsContents(p, c, slot, events, parts);
  }

  lemma FittingIsContents(p: Platform, c: Contents, slot: Slot, events: seq<Json>, parts: seq<Part>)
    ensures All(Fitting(p, c, parts, EventLedger.AppendAll(Hex(p), events), slot.buildTarget), slot.requiredEvidence)
       <==> ContentsFit(p, c, slot, events, parts)
    ensures Pairwise(DigestDiffers(p, parts), slot.requiredEvidence) <==> DigestsDiffer(p, slot, parts)
  {
    var f := Fitting(p, c, parts, EventLedger.AppendAll(Hex(p), events), slot.buildTarget);
    if All(f, slot.requiredEvidence) {
      forall i | 0 <= i < |slot.requiredEvidence|
        ensures RoleContent(p, c, slot.requiredEvidence[i], BytesOf(parts, slot.requiredEvidence[i]),
                            EventLedger.AppendAll(Hex(p), events), slot.buildTarget)
      {
        assert f(slot.requiredEvidence[i]);
      }
    }
    if Pairwise(DigestDiffers(p, parts), slot.requiredEvidence) {
      forall i, j | 0 <= i < j < |slot.requiredEvidence|
        ensures p.sha(BytesOf(parts, slot.requiredEvidence[i])) != p.sha(BytesOf(parts, slot.requiredEvidence[j]))
      {
        assert DigestDiffers(p, parts)(slot.requiredEvidence[i], slot.requiredEvidence[j]);
      }
    }
  }

  // ----- Builder and verifier

  /** What a run says of the evidence the builder returned for it. */
  function RunFor(p: Platform, slot: Slot, runId: Text, events: seq<Json>, parts: seq<Part>): Identity {
    Identity(p.sha(JsonBytes(p, BundleJson(BundleFor(p, slot, runId, events, parts)))), runId, slot.slotId)
  }

  lemma BuiltParses(p: Platform, b: Bundle)
    requires Faithful(p) && Storable(BundleJson(b))
    ensures JsonBytes(p, BundleJson(b)) != [] && p.parse(p.lossy(JsonBytes(p, BundleJson(b)))) == Some(BundleJson(b))
    ensures BundleIn(p, JsonBytes(p, BundleJson(b))) == Some(b)
  {
    JsonRoundTrip(p, BundleJson(b));
    BundleRoundTrip(b);
  }

  lemma BuiltVerifies(p: Platform, c: Contents, slot: Slot, runId: Text, events: seq<Json>, parts: seq<Part>)
    requires Faithful(p) && PngIsBinary(c) && Distinct(Map(PartRole, parts)) && Buildable(p, slot, runId, events, parts)
    ensures BundleVerifies(p, c, RunFor(p, slot, runId, events, parts), slot, BundleFor(p, slot, runId, events, parts))
       <==> ContentsFit(p, c, slot, events, parts) && DigestsDiffer(p, slot, parts)
  {
    var sorted := SortTexts(slot.requiredEvidence);
    EventLedger.AppendAllVerified(Hex(p), events);
    RequiredDistinct(slot, parts);
    ArtifactsExactly(p, c, slot, events, parts);
    RolesOfEncoded(p, parts, sorted);
    SortForgetsOrder(sorted, slot.requiredEvidence);
  }

  /** The roles of the artifacts object are distinct, so the required ones are. */
  lemma RequiredDistinct(slot: Slot, parts: seq<Part>)
    requires Distinct(Map(PartRole, parts)) && SortTexts(Map(PartRole, parts)) == SortTexts(slot.requiredEvidence)
    ensures Distinct(SortTexts(slot.requiredEvidence))
  {
    var roles, sorted := Map(PartRole, parts), SortTexts(slot.requiredEvidence);
    DistinctCounts(roles);
    DistinctCounts(sorted);
    assert multiset(sorted) == multiset(roles);
  }

  /**
   * Every bundle the builder returns is verified without failure for a run that carries its hash,
   * run and slot, exactly when it is small enough, the slot and events fit the schema, each artifact's
   * content fits its role, and no two artifacts share a digest.
   */
  lemma VerifiedExactly(p: Platform, c: Contents, slot: Slot, runId: Text, events: seq<Json>, parts: seq<Part>,
                        bundles: map<Text, Resolved>)
    requires Faithful(p) && PngIsBinary(c) && Distinct(Map(PartRole, parts)) && Buildable(p, slot, runId, events, parts)
    requires StorableEvents(events)
    requires var bytes := JsonBytes(p, BundleJson(BundleFor(p, slot, runId, events, parts)));
             p.sha(bytes) in bundles && bundles[p.sha(bytes)] == Raw(bytes)
    ensures Verifies(p, c, RunFor(p, slot, runId, events, parts), slot, bundles) <==>
            |JsonBytes(p, BundleJson(BundleFor(p, slot, runId, events, parts)))| <= MAX_BUNDLE_BYTES
            && Presentable(slot, events) && ContentsFit(p, c, slot, events, parts) && DigestsDiffer(p, slot, parts)
  {
    var b := BundleFor(p, slot, runId, events, parts);
    LedgerStorable(p, events);
    BundleStorable(b);
    BuiltParses(p, b);
    SchemaExactly(p, slot, runId, events, parts);
    BuiltVerifies(p, c, slot, runId, events, parts);
  }

  /** Artifacts with different bytes are refused only for a collision of the digest, which is exhibited. */
  lemma DifferentBytes(p: Platform, slot: Slot, parts: seq<Part>) returns (i: nat, j: nat)
    requires forall a, b :: 0 <= a < b < |slot.requiredEvidence| ==>
               BytesOf(parts, slot.requiredEvidence[a]) != BytesOf(parts, slot.requiredEvidence[b])
    ensures DigestsDiffer(p, slot, parts)
         || (i < |slot.requiredEvidence| && j < |slot.requiredEvidence|
             && BytesOf(parts, slot.requiredEvidence[i]) != BytesOf(parts, slot.requiredEvidence[j])
             && p.sha(BytesOf(parts, slot.requiredEvidence[i])) == p.sha(BytesOf(parts, slot.requiredEvidence[j])))
  {
    i, j := 0, 0;
    if !DigestsDiffer(p, slot, parts) {
      i, j :| 0 <= i < j < |slot.requiredEvidence|
              && p.sha(BytesOf(parts, slot.requiredEvidence[i])) == p.sha(BytesOf(parts, slot.requiredEvidence[j]));
    }
  }

  // ----- The event-ledger artifact

  /**
   * An artifact with content that fits the event-ledger role pins the bundle's events: two verified bundles whose
   * ledger artifacts are one and the same hold the same events, or two of their entries collide.
   */
  lemma LedgerArtifactPins(p: Platform, v: Json, a: seq<Entry>, b: seq<Entry>) returns (back: nat)
    requires EventLedger.Verified(Hex(p), a) && EventLedger.Verified(Hex(p), b)
    requires EventLedger.WellFormedEvents(a) && EventLedger.WellFormedEvents(b)
    requires LedgerReport(v, a) && LedgerReport(v, b)
    ensures |a| == |b|
    ensures EventLedger.SameLedger(a, b)
         || (back < |a| && back < |b|
             && EventLedger.Collides(Hex(p), EventLedger.BodyText, a[|a| - 1 - back], b[|b| - 1 - back]))
  {
    back := EventLedger.HeadPinsLedger(Hex(p), a, b);
  }

  // ----- The screenshot scanner

  function ToBytes(octets: Octets): Crc32.Bytes {
    Map((o: Octet) => Words.ByteOf(o as nat), octets)
  }

  ghost function Scanner(inflate: PngGrammar.Inflate): Octets -> bool {
    octets => PngScanner.Accepts(inflate, ToBytes(octets))
  }

  /** The PNG scanner accepts nothing that could be a text. */
  lemma ScannerIsBinary(inflate: PngGrammar.Inflate, octets: Octets)
    requires Scanner(inflate)(octets)
    ensures octets != [] && octets[0] == 137
  {
    var bytes := ToBytes(octets);
    assert bytes[0] == bytes[..8][0] == PngScanner.SIGNATURE[0] == 137;
    Words.ValueOfByte(octets[0] as nat);
    Words.ValueIsConversion(137);
  }
}
