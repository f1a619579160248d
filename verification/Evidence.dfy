/** Campaign evidence bundles: how they are built and how they are verified. */
module Evidence {
  import opened JsText
  import opened Json
  import opened Sequences
  import opened Ordering
  import opened Manifests
  import opened Base64
  import opened Runtime
  import opened CampaignPlan
  import EventLedger

  type Entry = EventLedger.Entry

  datatype Artifact = Artifact(role: Text, hash: Text, bytesBase64: Text)

  datatype Bundle = Bundle(schema: Text, runId: Text, slotId: Text, events: seq<Entry>, artifacts: seq<Artifact>,
                           classification: Text, redactionVersion: Text, replayStatus: Text)

  /** The checks of artifact contents that rest on formats modelled elsewhere or not at all. */
  datatype Contents = Contents(png: Octets -> bool, playerBuild: (Json, Text) -> bool)

  const MAX_BUNDLE_BYTES: nat := 64 * 1024 * 1024

  // ----- The bundle as a JSON record

  function EntryKeys(): seq<Text> {
    [T("sequence"), T("previousHash"), T("event"), T("hash")]
  }

  function ArtifactKeys(): seq<Text> {
    [T("role"), T("hash"), T("bytesBase64")]
  }

  function PrivacyKeys(): seq<Text> {
    [T("classification"), T("redactionVersion")]
  }

  function BundleKeys(): seq<Text> {
    [T("schema"), T("runId"), T("slotId"), T("events"), T("artifacts"), T("privacy"), T("replayStatus")]
  }

  function ArtifactJson(a: Artifact): Json {
    Record(ArtifactKeys(), [Str(a.role), Str(a.hash), Str(a.bytesBase64)])
  }

  function BundleJson(b: Bundle): Json {
    Record(BundleKeys(),
           [Str(b.schema), Str(b.runId), Str(b.slotId), Arr(Map(EventLedger.EntryJson, b.events)),
            Arr(Map(ArtifactJson, b.artifacts)),
            Record(PrivacyKeys(), [Str(b.classification), Str(b.redactionVersion)]), Str(b.replayStatus)])
  }

  function EntryOf(v: Json): Option<Entry> {
    match ReadRecord(EntryKeys(), v)
    case None => None
    case Some(f) =>
      if f[0].Num? && f[1].Str? && f[3].Str? then Some(EventLedger.Entry(f[0].n, f[1].s, f[2], f[3].s)) else None
  }

  function ArtifactOf(v: Json): Option<Artifact> {
    match ReadRecord(ArtifactKeys(), v)
    case None => None
    case Some(f) =>
      if f[0].Str? && f[1].Str? && f[2].Str? then Some(Artifact(f[0].s, f[1].s, f[2].s)) else None
  }

  function BundleOf(v: Json): Option<Bundle> {
    match ReadRecord(BundleKeys(), v)
    case None => None
    case Some(f) =>
      if f[0].Str? && f[1].Str? && f[2].Str? && f[3].Arr? && f[4].Arr? && f[6].Str? then
        (match (ReadAll(EntryOf, f[3].items), ReadAll(ArtifactOf, f[4].items), ReadRecord(PrivacyKeys(), f[5]))
         case (Some(events), Some(artifacts), Some(privacy)) =>
           if privacy[0].Str? && privacy[1].Str? then
             Some(Bundle(f[0].s, f[1].s, f[2].s, events, artifacts, privacy[0].s, privacy[1].s, f[6].s))
           else None
         case _ => None)
      else None
  }

  // ----- The schema's own conditions

  /** `/^run_[A-Za-z0-9_-]{16,}$/` */
  predicate IsRunName(t: Text) {
    |t| >= 20 && t[..4] == T("run_") && forall i :: 4 <= i < |t| ==> IsNameUnit(t[i])
  }

  predicate IsNameUnit(u: CodeUnit) {
    65 <= u <= 90 || 97 <= u <= 122 || IsDigit(u) || u == 95 || u == 45
  }

  /** `/^[a-f0-9]{64}$/` */
  predicate IsHex64(t: Text) {
    |t| == 64 && forall i :: 0 <= i < 64 ==> IsLowerHex(t[i])
  }

  predicate ValidEntry(e: Entry) {
    e.sequence >= 1 && IsHex64(e.previousHash) && e.event.Obj? && IsHex64(e.hash)
  }

  predicate ValidArtifact(a: Artifact) {
    IsRole(a.role) && IsHash(a.hash) && IsBase64(a.bytesBase64)
  }

  /** What the bundle says of itself. */
  predicate Labelled(b: Bundle) {
    b.schema == T("mgds.campaign-evidence/v1") && b.classification == T("public-redacted")
    && b.redactionVersion == T("mgds.redaction/v1") && b.replayStatus == T("verified")
  }

  predicate SchemaOk(b: Bundle) {
    Labelled(b) && IsRunName(b.runId) && 16 <= |b.slotId| <= 512
    && b.events != [] && All(ValidEntry, b.events) && b.artifacts != [] && All(ValidArtifact, b.artifacts)
  }

  // ----- Hashing

  /** `digest(text).slice(7)` */
  function Hex(p: Platform): Text -> Text {
    t => var d := p.sha(p.utf8(t)); if |d| >= 7 then d[7..] else []
  }

  // ----- Artifact contents

  /** Publishing these bytes would breach privacy: they decode, and what they say is refused. */
  predicate Breach(p: Platform, role: Text, bytes: Octets) {
    match p.strict(bytes)
    case None => false
    case Some(text) =>
      if role == T("screenshot") then p.prohibitedValue(text)
      else p.parse(text).Some? && !Publishable(p, p.parse(text).value)
  }

  predicate CompileReport(v: Json) {
    match ReadRecord([T("diagnostics"), T("schema"), T("status")], v)
    case None => false
    case Some(f) => f[1] == Str(T("mgds.compile-report/v1")) && f[2] == Str(T("pass")) && f[0].Arr?
  }

  predicate TestReport(v: Json) {
    match ReadRecord([T("failed"), T("passed"), T("schema"), T("status")], v)
    case None => false
    case Some(f) =>
      f[2] == Str(T("mgds.test-report/v1")) && f[3] == Str(T("pass")) && f[1].Num? && f[1].n > 0 && f[0] == Num(0)
  }

  /** The ledger artifact pins the bundle's event list: its length and its head hash. */
  predicate LedgerReport(v: Json, events: seq<Entry>) {
    match ReadRecord([T("entries"), T("headHash"), T("schema")], v)
    case None => false
    case Some(f) =>
      f[2] == Str(T("mgds.event-ledger-evidence/v1")) && f[0] == Num(|events|)
      && events != [] && f[1] == Str(events[|events| - 1].hash)
  }

  predicate RoleContent(p: Platform, c: Contents, role: Text, bytes: Octets, events: seq<Entry>, buildTarget: Text) {
    if role == T("screenshot") then c.png(bytes)
    else
      match p.parse(p.lossy(bytes))
      case None => false
      case Some(v) =>
        if role == T("compile") then CompileReport(v)
        else if role == T("tests") then TestReport(v)
        else if role == T("event-ledger") then LedgerReport(v, events)
        else role == T("player-build") && c.playerBuild(v, buildTarget)
  }

  // ----- Verifying

  datatype Resolved = Raw(bytes: Octets) | Verified(evidenceHash: Text, runId: Text, slotId: Text)

  /** The parts of a run that its evidence is checked against. */
  datatype Identity = Identity(evidenceHash: Text, runId: Text, slotId: Text)

  datatype Problem =
    | Missing | MarkerMismatch | SizeInvalid | HashMismatch | BundleInvalid | SchemaInvalid
    | PrivacyRejected | IdentityMismatch
    | LedgerMismatch(sequence: nat) | ArtifactInvalid | ArtifactMismatch | ContentInvalid(role: Text) | RolesMismatch

  /** One artifact's own checks. */
  predicate ArtifactOk(p: Platform, c: Contents, events: seq<Entry>, buildTarget: Text, a: Artifact) {
    var bytes := p.decode64(a.bytesBase64);
    IsHash(a.hash) && IsBase64(a.bytesBase64)
    && bytes != [] && Encode(bytes) == a.bytesBase64 && p.sha(bytes) == a.hash
    && !Breach(p, a.role, bytes) && RoleContent(p, c, a.role, bytes, events, buildTarget)
  }

  function HashOf(a: Artifact): Text {
    a.hash
  }

  function RoleOf(a: Artifact): Text {
    a.role
  }

  /** All artifacts are fine, no two alike in hash or role. */
  ghost predicate ArtifactsOk(ok: Artifact -> bool, artifacts: seq<Artifact>) {
    All(ok, artifacts) && Distinct(Map(HashOf, artifacts)) && Distinct(Map(RoleOf, artifacts))
  }

  lemma ArtifactsOkNext(ok: Artifact -> bool, artifacts: seq<Artifact>, n: nat)
    requires n < |artifacts|
    ensures ArtifactsOk(ok, artifacts[..n + 1]) <==>
            ArtifactsOk(ok, artifacts[..n]) && ok(artifacts[n])
            && artifacts[n].hash !in Map(HashOf, artifacts[..n]) && artifacts[n].role !in Map(RoleOf, artifacts[..n])
  {
    assert Map(HashOf, artifacts[..n + 1]) == Map(HashOf, artifacts[..n]) + [artifacts[n].hash];
    assert Map(RoleOf, artifacts[..n + 1]) == Map(RoleOf, artifacts[..n]) + [artifacts[n].role];
    DistinctSnoc(Map(HashOf, artifacts[..n]), artifacts[n].hash);
    DistinctSnoc(Map(RoleOf, artifacts[..n]), artifacts[n].role);
    assert forall i :: 0 <= i < n ==> artifacts[..n + 1][i] == artifacts[..n][i];
    assert artifacts[..n + 1][n] == artifacts[n];
    if All(ok, artifacts[..n + 1]) {
      forall i | 0 <= i < n ensures ok(artifacts[..n][i]) {
        assert ok(artifacts[..n + 1][i]);
      }
      assert ok(artifacts[..n + 1][n]);
    }
  }

  lemma {:induction false} ArtifactsOkPrefix(ok: Artifact -> bool, artifacts: seq<Artifact>, n: nat)
    requires n <= |artifacts| && ArtifactsOk(ok, artifacts)
    ensures ArtifactsOk(ok, artifacts[..n])
    decreases |artifacts| - n
  {
    if n < |artifacts| {
      ArtifactsOkPrefix(ok, artifacts, n + 1);
      ArtifactsOkNext(ok, artifacts, n);
    } else {
      assert artifacts[..n] == artifacts;
    }
  }

  /** The acceptance of one artifact, as a function. */
  function Accepting(p: Platform, c: Contents, events: seq<Entry>, buildTarget: Text): Artifact -> bool {
    a => ArtifactOk(p, c, events, buildTarget, a)
  }

  /** `ok` is that acceptance, under a name the loop need not look into. */
  ghost predicate Stands(p: Platform, c: Contents, events: seq<Entry>, buildTarget: Text, ok: Artifact -> bool) {
    forall a {:trigger ArtifactOk(p, c, events, buildTarget, a)} :: ok(a) == ArtifactOk(p, c, events, buildTarget, a)
  }

  /** Why one artifact is refused; the sets hold the hashes and roles of those before it. */
  method CheckArtifact(p: Platform, c: Contents, events: seq<Entry>, buildTarget: Text, a: Artifact, hashes: set<Text>,
                       roles: set<Text>,
                       ghost ok: Artifact -> bool)
    returns (problem: Option<Problem>)
    requires Stands(p, c, events, buildTarget, ok)
    ensures problem.None? <==> ok(a) && a.hash !in hashes && a.role !in roles
  {
    assert ok(a) == ArtifactOk(p, c, events, buildTarget, a);
    if !IsHash(a.hash) || !IsBase64(a.bytesBase64) {
      return Some(ArtifactInvalid);
    }
    var bytes := p.decode64(a.bytesBase64);
    if bytes == [] || Encode(bytes) != a.bytesBase64 || p.sha(bytes) != a.hash || a.hash in hashes || a.role in roles {
      return Some(ArtifactMismatch);
    }
    if Breach(p, a.role, bytes) {
      return Some(PrivacyRejected);
    }
    if !RoleContent(p, c, a.role, bytes, events, buildTarget) {
      return Some(ContentInvalid(a.role));
    }
    return None;
  }

  method CheckArtifacts(p: Platform, c: Contents, events: seq<Entry>, buildTarget: Text, artifacts: seq<Artifact>,
                        ghost ok: Artifact -> bool)
    returns (problem: Option<Problem>)
    requires Stands(p, c, events, buildTarget, ok)
    ensures problem.None? <==> ArtifactsOk(ok, artifacts)
  {
    var hashes: set<Text>, roles: set<Text> := {}, {};
    for i := 0 to |artifacts|
      invariant ArtifactsOk(ok, artifacts[..i])
      invariant hashes == Elements(Map(HashOf, artifacts[..i])) && roles == Elements(Map(RoleOf, artifacts[..i]))
    {
      ArtifactsOkNext(ok, artifacts, i);
      if ArtifactsOk(ok, artifacts) {
        ArtifactsOkPrefix(ok, artifacts, i + 1);
      }
      problem := CheckArtifact(p, c, events, buildTarget, artifacts[i], hashes, roles, ok);
      if problem.Some? {
        return;
      }
      MapNext(HashOf, artifacts, i);
      MapNext(RoleOf, artifacts, i);
      hashes := hashes + {artifacts[i].hash};
      roles := roles + {artifacts[i].role};
    }
    assert artifacts[..|artifacts|] == artifacts;
    return None;
  }

  /** The bundle in these bytes, when they parse and fit the schema's shape. */
  function BundleIn(p: Platform, bytes: Octets): Option<Bundle> {
    match p.parse(p.lossy(bytes))
    case None => None
    case Some(v) => BundleOf(v)
  }

  /** The bundle stands for this run: its identity, its ledger, its artifacts and its roles. */
  ghost predicate BundleVerifies(p: Platform, c: Contents, run: Identity, slot: Slot, b: Bundle) {
    b.runId == run.runId && b.slotId == run.slotId && EventLedger.Verified(Hex(p), b.events)
    && ArtifactsOk(Accepting(p, c, b.events, slot.buildTarget), b.artifacts)
    && SortTexts(Map(RoleOf, b.artifacts)) == SortTexts(slot.requiredEvidence)
  }

  ghost predicate BytesVerify(p: Platform, c: Contents, run: Identity, slot: Slot, bytes: Octets) {
    1 <= |bytes| <= MAX_BUNDLE_BYTES && p.sha(bytes) == run.evidenceHash
    && BundleIn(p, bytes).Some? && SchemaOk(BundleIn(p, bytes).value) && Publishable(p, p.parse(p.lossy(bytes)).value)
    && BundleVerifies(p, c, run, slot, BundleIn(p, bytes).value)
  }

  ghost predicate Verifies(p: Platform, c: Contents, run: Identity, slot: Slot, bundles: map<Text, Resolved>) {
    run.evidenceHash in bundles
    && match bundles[run.evidenceHash]
       case Raw(bytes) => BytesVerify(p, c, run, slot, bytes)
       case Verified(evidenceHash, runId, slotId) => Identity(evidenceHash, runId, slotId) == run
  }

  method VerifyBundle(p: Platform, c: Contents, run: Identity, slot: Slot, b: Bundle) returns (problem: Option<Problem>)
    ensures problem.None? <==> BundleVerifies(p, c, run, slot, b)
  {
    if b.runId != run.runId || b.slotId != run.slotId {
      return Some(IdentityMismatch);
    }
    var ledger := EventLedger.VerifyEntries(Hex(p), b.events);
    if ledger.Mismatch? {
      return Some(LedgerMismatch(ledger.sequence));
    }
    problem := CheckArtifacts(p, c, b.events, slot.buildTarget, b.artifacts,
                              Accepting(p, c, b.events, slot.buildTarget));
    if problem.None? && SortTexts(Map(RoleOf, b.artifacts)) != SortTexts(slot.requiredEvidence) {
      return Some(RolesMismatch);
    }
  }

  method VerifyBytes(p: Platform, c: Contents, run: Identity, slot: Slot, bytes: Octets)
    returns (problem: Option<Problem>)
    ensures problem.None? <==> BytesVerify(p, c, run, slot, bytes)
  {
    if bytes == [] || |bytes| > MAX_BUNDLE_BYTES {
      return Some(SizeInvalid);
    }
    if p.sha(bytes) != run.evidenceHash {
      return Some(HashMismatch);
    }
    var v := p.parse(p.lossy(bytes));
    if v.None? {
      return Some(BundleInvalid);
    }
    var b := BundleOf(v.value);
    if b.None? || !SchemaOk(b.value) {
      return Some(SchemaInvalid);
    }
    if !Publishable(p, v.value) {
      return Some(PrivacyRejected);
    }
    problem := VerifyBundle(p, c, run, slot, b.value);
  }

  /** The verifier: `None` is the empty failure list. */
  method VerifyEvidenceBundle(p: Platform, c: Contents, run: Identity, slot: Slot, bundles: map<Text, Resolved>)
    returns (problem: Option<Problem>)
    ensures problem.None? <==> Verifies(p, c, run, slot, bundles)
  {
    if run.evidenceHash !in bundles {
      return Some(Missing);
    }
    match bundles[run.evidenceHash] {
      case Raw(bytes) => problem := VerifyBytes(p, c, run, slot, bytes);
      case Verified(evidenceHash, runId, slotId) =>
        problem := if Identity(evidenceHash, runId, slotId) == run then None else Some(MarkerMismatch);
    }
  }

  // ----- Building

  /** The artifacts object: its roles in insertion order, each with its bytes. */
  datatype Part = Part(role: Text, bytes: Octets)

  datatype Built = Built(bundle: Bundle, bytes: Octets, evidenceHash: Text)

  function PartRole(x: Part): Text {
    x.role
  }

  function BytesOf(parts: seq<Part>, role: Text): Octets {
    if parts == [] then []
    else if parts[|parts| - 1].role == role then parts[|parts| - 1].bytes
    else BytesOf(parts[..|parts| - 1], role)
  }

  /** The bytes can stand in a bundle: not empty, and outside the screenshot publishable JSON. */
  predicate PartOk(p: Platform, role: Text, bytes: Octets) {
    bytes != []
    && (role == T("screenshot")
        || (p.strict(bytes).Some? && p.parse(p.strict(bytes).value).Some?
            && Publishable(p, p.parse(p.strict(bytes).value).value)))
  }

  function Public(p: Platform): Json -> bool {
    v => Publishable(p, v)
  }

  function Encoded(p: Platform, parts: seq<Part>): Text -> Artifact {
    role => Artifact(role, p.sha(BytesOf(parts, role)), Encode(BytesOf(parts, role)))
  }

  function Sound(p: Platform, parts: seq<Part>): Text -> bool {
    role => PartOk(p, role, BytesOf(parts, role))
  }

  function BundleFor(p: Platform, slot: Slot, runId: Text, events: seq<Json>, parts: seq<Part>): Bundle {
    Bundle(T("mgds.campaign-evidence/v1"), runId, slot.slotId, EventLedger.AppendAll(Hex(p), events),
           Map(Encoded(p, parts), SortTexts(slot.requiredEvidence)),
           T("public-redacted"), T("mgds.redaction/v1"), T("verified"))
  }

  /** Everything the builder demands before it returns. */
  ghost predicate Buildable(p: Platform, slot: Slot, runId: Text, events: seq<Json>, parts: seq<Part>) {
    slot.slotId != [] && IsRunName(runId) && events != []
    && SortTexts(Map(PartRole, parts)) == SortTexts(slot.requiredEvidence)
    && All(Public(p), events)
    && All(Sound(p, parts), SortTexts(slot.requiredEvidence))
    && Publishable(p, BundleJson(BundleFor(p, slot, runId, events, parts)))
  }

  /** Chains the events as they come, stopping at one that is not publishable. */
  method ChainEvents(seal: (int, Text, Json) -> Entry, publishable: Json -> bool, events: seq<Json>)
    returns (r: Option<seq<Entry>>)
    ensures r.Some? <==> All(publishable, events)
    ensures r.Some? ==> r.value == EventLedger.AppendAllWith(seal, events)
  {
    var ledger: seq<Entry> := [];
    var previousHash := EventLedger.Genesis();
    for i := 0 to |events|
      invariant forall j :: 0 <= j < i ==> publishable(events[j])
      invariant ledger == EventLedger.AppendAllWith(seal, events[..i])
      invariant previousHash == EventLedger.PreviousHash(ledger, |ledger|)
    {
      if !publishable(events[i]) {
        return None;
      }
      assert events[..i + 1][..i] == events[..i];
      var entry := seal(i + 1, previousHash, events[i]);
      ledger := ledger + [entry];
      previousHash := entry.hash;
    }
    assert events[..|events|] == events;
    r := Some(ledger);
  }

  method EncodeParts(p: Platform, required: seq<Text>, parts: seq<Part>) returns (r: Option<seq<Artifact>>)
    ensures r.Some? <==> All(Sound(p, parts), required)
    ensures r.Some? ==> r.value == Map(Encoded(p, parts), required)
  {
    var encoded: seq<Artifact> := [];
    for i := 0 to |required|
      invariant forall j :: 0 <= j < i ==> Sound(p, parts)(required[j])
      invariant encoded == Map(Encoded(p, parts), required[..i])
    {
      if !PartOk(p, required[i], BytesOf(parts, required[i])) {
        assert !Sound(p, parts)(required[i]);
        return None;
      }
      assert Map(Encoded(p, parts), required[..i + 1]) == Map(Encoded(p, parts), required[..i])
               + [Encoded(p, parts)(required[i])];
      encoded := encoded + [Encoded(p, parts)(required[i])];
    }
    assert required[..|required|] == required;
    r := Some(encoded);
  }

  /** The builder: `None` is a thrown error. */
  method BuildCampaignEvidence(p: Platform, slot: Slot, runId: Text, events: seq<Json>, parts: seq<Part>)
    returns (r: Option<Built>)
    ensures r.Some? <==> Buildable(p, slot, runId, events, parts)
    ensures r.Some? ==>
              var b := BundleFor(p, slot, runId, events, parts); var bytes := JsonBytes(p, BundleJson(b));
              r.value == Built(b, bytes, p.sha(bytes))
  {
    if slot.slotId == [] || !IsRunName(runId) || events == [] {
      return None;
    }
    var required := SortTexts(slot.requiredEvidence);
    if SortTexts(Map(PartRole, parts)) != required {
      return None;
    }
    var ledger := ChainEvents(EventLedger.Sealing(Hex(p)), Public(p), events);
    if ledger.None? {
      return None;
    }
    var artifacts := EncodeParts(p, required, parts);
    if artifacts.None? {
      return None;
    }
    var b := Bundle(T("mgds.campaign-evidence/v1"), runId, slot.slotId, ledger.value, artifacts.value,
                    T("public-redacted"), T("mgds.redaction/v1"), T("verified"));
    if !Publishable(p, BundleJson(b)) {
      return None;
    }
    var bytes := JsonBytes(p, BundleJson(b));
    r := Some(Built(b, bytes, p.sha(bytes)));
  }
}
