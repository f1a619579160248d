/** The player-build artifact: portable files, each with its own digest, under one artifact hash. */
module PlayerBuild {
  import opened JsText
  import opened Json
  import opened CanonicalJson
  import opened Sequences
  import opened Ordering
  import opened Manifests
  import opened Base64
  import opened Runtime
  import opened Paths
  import opened CampaignPlan

  datatype BuildFile = BuildFile(name: Text, hash: Text, bytesBase64: Text)

  datatype Build = Build(artifactHash: Json, buildTarget: Json, files: seq<BuildFile>)

  // ----- Portable names

  const DOT: CodeUnit := 46

  /** The part of a segment before its first dot. */
  function Stem(t: Text): Text {
    if t == [] || t[0] == DOT then [] else [t[0]] + Stem(t[1..])
  }

  /** `/^(?:con|prn|aux|nul|com[1-9]|lpt[1-9])(?:\..*)?$/i` */
  predicate Reserved(t: Text) {
    var stem := Lower(Stem(t));
    stem == T("con") || stem == T("prn") || stem == T("aux") || stem == T("nul")
    || (|stem| == 4 && (stem[..3] == T("com") || stem[..3] == T("lpt")) && 49 <= stem[3] <= 57)
  }

  predicate PortableSegment(t: Text) {
    1 <= |t| <= 120 && t != [DOT] && t != [DOT, DOT] && t[|t| - 1] != DOT && All(IsPathUnit, t) && !Reserved(t)
  }

  predicate PortableName(t: Text) {
    1 <= |t| <= 240 && t[0] != SLASH && 92 !in t && All(PortableSegment, Segments(t))
  }

  // ----- Reading

  function FileKeys(): seq<Text> {
    [T("bytesBase64"), T("hash"), T("name")]
  }

  function BuildKeys(): seq<Text> {
    [T("artifactHash"), T("buildTarget"), T("files"), T("schema"), T("status")]
  }

  function FileOf(v: Json): Option<BuildFile> {
    match ReadRecord(FileKeys(), v)
    case None => None
    case Some(f) => if f[0].Str? && f[1].Str? && f[2].Str? then Some(BuildFile(f[2].s, f[1].s, f[0].s)) else None
  }

  function BuildOf(v: Json): Option<Build> {
    match ReadRecord(BuildKeys(), v)
    case None => None
    case Some(f) =>
      if f[3] == Str(T("mgds.player-build/v1")) && f[4] == Str(T("pass")) && f[2].Arr?
         && ReadAll(FileOf, f[2].items).Some? then
        Some(Build(f[0], f[1], ReadAll(FileOf, f[2].items).value))
      else None
  }

  // ----- The check

  function BytesOf(p: Platform, f: BuildFile): Octets {
    p.decode64(f.bytesBase64)
  }

  predicate FileOk(p: Platform, f: BuildFile) {
    var bytes := BytesOf(p, f);
    PortableName(f.name) && IsHash(f.hash) && bytes != [] && Encode(bytes) == f.bytesBase64 && p.sha(bytes) == f.hash
    && (p.strict(bytes).None? || !p.prohibitedValue(p.strict(bytes).value))
  }

  function FilesOk(p: Platform): BuildFile -> bool {
    f => FileOk(p, f)
  }

  /** The name under which two files would meet on a case-insensitive file system. */
  function PortableIdentity(f: BuildFile): Text {
    Lower(f.name)
  }

  function IdentityKeys(): seq<Text> {
    [T("name"), T("hash")]
  }

  function IdentityJson(f: BuildFile): Json {
    Record(IdentityKeys(), [Str(f.name), Str(f.hash)])
  }

  function IdentitiesText(files: seq<BuildFile>): Text {
    Canonical(Arr(Map(IdentityJson, files)))
  }

  ghost predicate FilesFine(ok: BuildFile -> bool, files: seq<BuildFile>) {
    All(ok, files) && Distinct(Map(PortableIdentity, files))
  }

  ghost predicate ValidBuild(p: Platform, b: Build, buildTarget: Text) {
    b.buildTarget == Str(buildTarget) && b.files != [] && FilesFine(FilesOk(p), b.files)
    && b.artifactHash == Str(p.sha(p.utf8(IdentitiesText(b.files))))
  }

  lemma FilesFineNext(ok: BuildFile -> bool, files: seq<BuildFile>, n: nat)
    requires n < |files|
    ensures FilesFine(ok, files[..n + 1]) <==>
            FilesFine(ok, files[..n]) && ok(files[n])
            && PortableIdentity(files[n]) !in Map(PortableIdentity, files[..n])
  {
    MapNext(PortableIdentity, files, n);
    DistinctSnoc(Map(PortableIdentity, files[..n]), PortableIdentity(files[n]));
    AllSnoc(ok, files, n);
  }

  lemma {:induction false} FilesFinePrefix(ok: BuildFile -> bool, files: seq<BuildFile>, n: nat)
    requires n <= |files| && FilesFine(ok, files)
    ensures FilesFine(ok, files[..n])
    decreases |files| - n
  {
    if n < |files| {
      FilesFinePrefix(ok, files, n + 1);
      FilesFineNext(ok, files, n);
    } else {
      assert files[..n] == files;
    }
  }

  /** The loop over the files. */
  method CheckFiles(ok: BuildFile -> bool, files: seq<BuildFile>) returns (fine: bool)
    ensures fine <==> FilesFine(ok, files)
  {
    var names: set<Text> := {};
    for i := 0 to |files|
      invariant FilesFine(ok, files[..i])
      invariant names == Elements(Map(PortableIdentity, files[..i]))
    {
      FilesFineNext(ok, files, i);
      if FilesFine(ok, files) {
        FilesFinePrefix(ok, files, i + 1);
      }
      MapNext(PortableIdentity, files, i);
      if !ok(files[i]) || PortableIdentity(files[i]) in names {
        return false;
      }
      names := names + {PortableIdentity(files[i])};
    }
    assert files[..|files|] == files;
    return true;
  }

  method ValidPlayerBuild(p: Platform, v: Json, buildTarget: Text) returns (ok: bool)
    ensures ok <==> BuildOf(v).Some? && ValidBuild(p, BuildOf(v).value, buildTarget)
  {
    var b := BuildOf(v);
    if b.None? || b.value.buildTarget != Str(buildTarget) || b.value.files == [] {
      return false;
    }
    var fine := CheckFiles(FilesOk(p), b.value.files);
    ok := fine && b.value.artifactHash == Str(p.sha(p.utf8(IdentitiesText(b.value.files))));
  }

  // ----- What the artifact hash pins

  lemma IdentityKeysDistinct()
    ensures Distinct(IdentityKeys())
  {
    var k := IdentityKeys();
    assert k[0][0] == 110 && k[1][0] == 104;
  }

  function NameOf(f: BuildFile): Text {
    f.name
  }

  function HashOf(f: BuildFile): Text {
    f.hash
  }

  lemma IdentitiesDetermine(a: seq<BuildFile>, b: seq<BuildFile>)
    requires IdentitiesText(a) == IdentitiesText(b)
    ensures |a| == |b| && forall i :: 0 <= i < |a| ==> a[i].name == b[i].name && a[i].hash == b[i].hash
  {
    IdentityKeysDistinct();
    assert Pairs(IdentityKeys(), NameOf, HashOf, IdentityJson);
    PairsWellFormed(IdentityKeys(), NameOf, HashOf, IdentityJson, a);
    PairsWellFormed(IdentityKeys(), NameOf, HashOf, IdentityJson, b);
    CanonicalUnambiguous(Arr(Map(IdentityJson, a)), Arr(Map(IdentityJson, b)));
    SamePairs(IdentityKeys(), NameOf, HashOf, IdentityJson, a, b);
    assert forall i :: 0 <= i < |a| ==> NameOf(a[i]) == NameOf(b[i]) && HashOf(a[i]) == HashOf(b[i]);
  }

  /**
   * Different bytes of the `k`-th files with one digest, or (at the end) different lists of identities with one digest.
   */
  ghost predicate CollidesAt(p: Platform, a: Build, b: Build, k: nat) {
    if k < |a.files| && k < |b.files| then
      BytesOf(p, a.files[k]) != BytesOf(p, b.files[k]) && p.sha(BytesOf(p, a.files[k])) == p.sha(BytesOf(p, b.files[k]))
    else IdentitiesText(a.files) != IdentitiesText(b.files)
         && p.sha(p.utf8(IdentitiesText(a.files))) == p.sha(p.utf8(IdentitiesText(b.files)))
  }

  /** Two valid builds under one artifact hash hold the same files, in order, or a collision is exhibited. */
  lemma ArtifactHashPins(p: Platform, a: Build, b: Build, targetA: Text, targetB: Text) returns (k: nat)
    requires ValidBuild(p, a, targetA) && ValidBuild(p, b, targetB) && a.artifactHash == b.artifactHash
    ensures a.files == b.files || CollidesAt(p, a, b, k)
  {
    if IdentitiesText(a.files) != IdentitiesText(b.files) {
      k := |a.files| + |b.files|;
    } else {
      IdentitiesDetermine(a.files, b.files);
      if i :| 0 <= i < |a.files| && BytesOf(p, a.files[i]) != BytesOf(p, b.files[i]) {
        k := i;
        assert FilesOk(p)(a.files[k]) && FilesOk(p)(b.files[k]);
      } else {
        k := 0;
        forall i | 0 <= i < |a.files| ensures a.files[i] == b.files[i] {
          assert FilesOk(p)(a.files[i]) && FilesOk(p)(b.files[i]);
        }
      }
    }
  }
}
