/** The P2 release gate: its blockers, and the review target and release subject it binds. */
module P2Gate {
  import opened JsText
  import opened Json
  import opened Ordering
  import opened Manifests
  import opened CampaignPlan
  import opened CampaignRun
  import opened Campaign
  import opened P2Plan

  /** Verified provenance of one host's build. */
  datatype Host = Host(host: Text, artifactHash: Text, repository: Text, workflowRef: Text, subjectDigest: Text,
                       verificationDigest: Text, sourceDigest: Text, status: Text, attestationVerified: bool)

  datatype Findings = Findings(critical: int, high: int, medium: int, low: int)

  /** The fields of a review that the gate reads, and the whole record as it is hashed. */
  datatype Review = Review(status: Text, independent: bool, findings: Findings, reportHash: Text, targetHash: Text,
                           whole: Json)

  datatype Signing = Signing(status: Text, authority: Text, algorithm: Text, subjectHash: Text, signature: Text)

  datatype Input = Input(candidateStatus: Text, candidateVersion: Text, candidateHash: Text, plan: Json,
                         runs: seq<Json>,
                         hosts: seq<Host>, review: Option<Review>, reviewReportHash: Text, evaluatorTrust: Json,
                           reviewerTrust: Json,
                         signing: Option<Signing>, releaseFingerprint: Text, sourceDigest: Text,
                         headDigest: Text, clean: bool, trackedInputsVerified: bool)

  /** What the gate takes from libraries and from out-of-band registries. */
  datatype World = World(
    sha: Text -> Text,                         // digest of the UTF-8 form of a text
    planOf: Json -> Option<Plan>,              // the plan, if the schema accepts it
    runOf: Json -> Run,                        // the properties of a run record
    checks: Checks,
    before: (Text, Text) -> bool,              // localeCompare
    resultJson: Option<Result> -> Json,        // the aggregate as a record; None stands for the thrown error
    previewVersion: Text -> bool,
    fingerprint: Text -> Option<Text>,         // of the registered key of an authority
    reviewSigned: Review -> bool,
    releaseVerified: (Signing, Text) -> bool)  // signature over the subject hash

  datatype Code =
    | CandidateInvalid | CampaignNotPass | SourceDigestMissing | SourceCheckoutMismatch
    | HostEvidenceMissing | HostEvidenceInvalid
    | ReviewReportInvalid | ReviewInvalid | ReviewNotApproved | ReviewHasSevereFindings | ReviewTargetInvalid
    | ReviewSignatureInvalid
    | ReleaseAuthorityUntrusted | ReleaseNotSigned | ReleaseSignatureInvalid

  datatype Decision = Decision(ready: bool, blockers: seq<Code>, targetHash: Text, subjectHash: Text,
                               result: Option<Result>)

  // ----- Small checks

  /** `/^[a-f0-9]{40}(?:[a-f0-9]{24})?$/` */
  predicate IsSourceDigest(t: Text) {
    (|t| == 40 || |t| == 64) && forall i :: 0 <= i < |t| ==> IsLowerHex(t[i])
  }

  function EmptyReport(): Text {
    T("sha256:e3b0c44298fc1c149afbf4c8996fb92427ae41e4649b934ca495991b7852b855")
  }

  function ReleaseAuthority(): Text {
    T("mgds-release-authority")
  }

  predicate ValidFindings(f: Findings) {
    f.critical >= 0 && f.high >= 0 && f.medium >= 0 && f.low >= 0
  }

  predicate ValidHost(sourceDigest: Text, h: Host) {
    h.status == T("pass") && IsHash(h.artifactHash) && h.attestationVerified && h.repository == T("gmackie/mgds")
    && h.workflowRef == T("gmackie/mgds/.github/workflows/conformance.yml@refs/heads/main")
    && h.sourceDigest == sourceDigest && h.subjectDigest == h.artifactHash && IsHash(h.verificationDigest)
  }

  function HostName(h: Host): Text {
    h.host
  }

  /** One valid subject for each required host. */
  predicate ValidHostEvidence(required: seq<Text>, sourceDigest: Text, hosts: seq<Host>) {
    |hosts| == |required| && |set h | h in hosts :: HostName(h)| == |required|
    && (forall i :: 0 <= i < |required| ==> required[i] in set h | h in hosts :: HostName(h))
    && forall i :: 0 <= i < |hosts| ==> ValidHost(sourceDigest, hosts[i])
  }

  // ----- What is hashed

  function HashOrNull(t: Text): Json {
    if IsHash(t) then Str(t) else Null
  }

  function SourceOrNull(t: Text): Json {
    if IsSourceDigest(t) then Str(t) else Null
  }

  /** `String(left?.slotId)` */
  function RunKey(w: World): Json -> Text {
    run => Shown(w.runOf(run).slotId)
  }

  function NormalizedRuns(w: World, runs: seq<Json>): seq<Json> {
    SortBy(w.before, RunKey(w), runs)
  }

  function HostKeys(): seq<Text> {
    [T("host"), T("artifactHash"), T("repository"), T("workflowRef"), T("subjectDigest"), T("verificationDigest"),
     T("sourceDigest")]
  }

  function Projected(h: Host): seq<Json> {
    [Str(h.host), Str(h.artifactHash), Str(h.repository), Str(h.workflowRef), Str(h.subjectDigest),
     Str(h.verificationDigest), Str(h.sourceDigest)]
  }

  function HostJson(h: Host): Json {
    Record(HostKeys(), Projected(h))
  }

  function NormalizedHosts(w: World, hosts: seq<Host>): seq<Host> {
    SortBy(w.before, HostName, hosts)
  }

  function OrNull(f: Field): Json {
    if f.None? then Null else f.value
  }

  function IdentityJson(w: World): Json -> Json {
    run => Record([T("slotId"), T("evidenceHash")], [OrNull(w.runOf(run).slotId), OrNull(w.runOf(run).evidenceHash)])
  }

  function TargetKeys(): seq<Text> {
    [T("schema"), T("candidateHash"), T("sourceDigest"), T("campaignPlanHash"), T("campaignRunSetHash"),
     T("campaignEvidenceSetHash"), T("campaignResultHash"), T("hostEvidenceHash"), T("evaluatorTrustHash")]
  }

  function TargetHashed(): seq<bool> {
    [false, false, false, true, true, true, true, true, true]
  }

  /** What the review target and the release subject have in common. */
  function CommonParts(w: World, x: Input, result: Option<Result>): (parts: seq<Json>)
    ensures |parts| == 7
  {
    var runs := NormalizedRuns(w, x.runs);
    [HashOrNull(x.candidateHash), SourceOrNull(x.sourceDigest), x.plan, Arr(runs),
     Arr(Map(IdentityJson(w), runs)), w.resultJson(result), Arr(Map(HostJson, NormalizedHosts(w, x.hosts)))]
  }

  function TargetParts(w: World, x: Input, result: Option<Result>): (parts: seq<Json>)
    ensures |parts| == 9
  {
    [Str(T("mgds.p2-review-target/v1"))] + (CommonParts(w, x, result) + [x.evaluatorTrust])
  }

  /** The hash of the review target, for each aggregate. */
  function TargetHash(w: World, x: Input): Option<Result> -> Text {
    result => Digest(w.sha, Manifest(w.sha, TargetKeys(), TargetHashed(), TargetParts(w, x, result)))
  }

  function SubjectKeys(): seq<Text> {
    [T("schema"), T("candidateHash"), T("sourceDigest"), T("campaignPlanHash"), T("campaignRunSetHash"),
     T("campaignEvidenceSetHash"), T("campaignResultHash"), T("hostEvidenceHash"), T("reviewReportHash"),
       T("reviewTargetHash"),
     T("reviewApprovalHash"), T("evaluatorTrustHash"), T("reviewerTrustHash"), T("releaseAuthorityFingerprint")]
  }

  function SubjectHashed(): seq<bool> {
    [false, false, false, true, true, true, true, true, false, false, true, true, true, false]
  }

  function ReviewJson(x: Input): Json {
    if x.review.None? then Null else x.review.value.whole
  }

  /** What only the release subject holds. */
  function OwnParts(w: World, x: Input, result: Option<Result>): (parts: seq<Json>)
    ensures |parts| == 6
  {
    [HashOrNull(x.reviewReportHash), HashOrNull(TargetHash(w, x)(result)), ReviewJson(x), x.evaluatorTrust,
     x.reviewerTrust,
     HashOrNull(x.releaseFingerprint)]
  }

  function SubjectParts(w: World, x: Input, result: Option<Result>): (parts: seq<Json>)
    ensures |parts| == 14
  {
    [Str(T("mgds.p2-release-subject/v1"))] + (CommonParts(w, x, result) + OwnParts(w, x, result))
  }

  /** The hash of the release subject, for each aggregate. */
  function SubjectHash(w: World, x: Input): Option<Result> -> Text {
    result => Digest(w.sha, Manifest(w.sha, SubjectKeys(), SubjectHashed(), SubjectParts(w, x, result)))
  }

  // ----- The conditions behind the blockers

  predicate CandidateOk(w: World, x: Input) {
    x.candidateStatus == T("candidate") && w.previewVersion(x.candidateVersion) && IsHash(x.candidateHash)
  }

  /** The aggregate reports a complete pass of the expected size. */
  predicate CompletePass(q: Target, expectedRuns: nat, r: Result) {
    r.campaignId == q.config.id && r.status == Pass && r.metrics.expectedRuns == expectedRuns
    && r.metrics.recordedRuns == expectedRuns
    && r.metrics.validRuns == expectedRuns && r.metrics.missingRuns == 0 && r.failures == []
  }

  predicate SourceOk(x: Input) {
    x.headDigest == x.sourceDigest && x.clean && x.trackedInputsVerified
  }

  predicate FindingsRead(x: Input) {
    x.review.Some? && ValidFindings(x.review.value.findings)
  }

  predicate Approved(x: Input) {
    x.review.Some? && x.review.value.status == T("approved")
  }

  predicate ReportBound(x: Input) {
    Approved(x) && x.review.value.independent && x.review.value.reportHash == x.reviewReportHash
    && IsHash(x.reviewReportHash)
  }

  predicate EmptyOrMissingReport(x: Input) {
    !IsHash(x.reviewReportHash) || x.reviewReportHash == EmptyReport()
  }

  predicate ReleaseTrusted(w: World, x: Input) {
    IsHash(x.releaseFingerprint)
    && w.fingerprint(if x.signing.Some? then x.signing.value.authority else ReleaseAuthority())
      == Some(x.releaseFingerprint)
  }

  predicate ReleaseSigned(w: World, x: Input, subjectHash: Text) {
    x.signing.Some? && x.signing.value.authority == ReleaseAuthority() && x.signing.value.algorithm == T("Ed25519")
    && x.signing.value.subjectHash == subjectHash && w.releaseVerified(x.signing.value, subjectHash)
  }

  predicate SigningPresent(x: Input) {
    x.signing.Some? && x.signing.value.status == T("signed")
  }

  /** The review part of the gate finds nothing to block on. */
  predicate ReviewOk(w: World, x: Input, targetHash: Text) {
    FindingsRead(x) && ReportBound(x) && x.reviewReportHash != EmptyReport()
    && x.review.value.findings.critical == 0 && x.review.value.findings.high == 0
    && x.review.value.targetHash == targetHash && w.reviewSigned(x.review.value)
  }

  method ReviewBlockers(w: World, x: Input, targetHash: Text) returns (blockers: seq<Code>)
    ensures blockers == [] <==> ReviewOk(w, x, targetHash)
  {
    blockers := [];
    if Approved(x) && EmptyOrMissingReport(x) {
      blockers := blockers + [ReviewReportInvalid];
    }
    if !FindingsRead(x) {
      blockers := blockers + [ReviewInvalid];
    } else if !ReportBound(x) {
      blockers := blockers + [ReviewNotApproved];
    } else {
      if x.review.value.findings.critical > 0 || x.review.value.findings.high > 0 {
        blockers := blockers + [ReviewHasSevereFindings];
      }
      if x.review.value.targetHash != targetHash {
        blockers := blockers + [ReviewTargetInvalid];
      }
      if !w.reviewSigned(x.review.value) {
        blockers := blockers + [ReviewSignatureInvalid];
      }
    }
  }

  /** The gate over a given target: the P2 gate is the instance with `P2Target` and ninety runs. */
  ghost predicate CampaignOk(w: World, q: Target, x: Input) {
    w.planOf(x.plan).Some? && Accepts(q, w.planOf(x.plan).value)
    && StatusOf(w.planOf(x.plan).value, SoundFor(w.checks), w.checks.attested, Map(w.runOf, x.runs)) == Pass
    && CompletePass(q, |Product(q)|, PassResult(w, x).value)
  }

  /** The aggregate of a passing campaign, which does not depend on how the runs were found to be clean. */
  ghost function PassResult(w: World, x: Input): Option<Result>
    requires w.planOf(x.plan).Some?
  {
    var plan := w.planOf(x.plan).value;
    Some(Result(plan.campaignId, Pass, MetricsOf(|plan.slots|, Map(w.runOf, x.runs), 0), [], []))
  }

  /** What the gate demands apart from the campaign and the two hashes. */
  predicate InputsOk(w: World, q: Target, x: Input) {
    CandidateOk(w, x) && IsSourceDigest(x.sourceDigest) && SourceOk(x)
    && ValidHostEvidence(q.config.hosts, x.sourceDigest, x.hosts)
    && ReleaseTrusted(w, x) && SigningPresent(x)
  }

  /** The review and the release signature bind these two hashes. */
  predicate Bound(w: World, x: Input, targetHash: Text, subjectHash: Text) {
    ReviewOk(w, x, targetHash) && ReleaseSigned(w, x, subjectHash)
  }

  /** Everything a ready release has; `target` and `subject` are the two hashes as functions of the aggregate. */
  ghost predicate ReadyWith(w: World, q: Target, x: Input, target: Option<Result> -> Text,
                            subject: Option<Result> -> Text)
  {
    InputsOk(w, q, x) && CampaignOk(w, q, x) && Bound(w, x, target(PassResult(w, x)), subject(PassResult(w, x)))
  }

  /** A passing aggregate is the one record that the plan and the runs determine. */
  lemma PassDetermines(w: World, x: Input, r: Result)
    requires w.planOf(x.plan).Some?
    requires var plan, runs := w.planOf(x.plan).value, Map(w.runOf, x.runs);
             var accepted := Accepted(SlotMap(plan.slots), runs);
             r.campaignId == plan.campaignId
             && r.missingSlotIds == Missing(plan.slots, accepted)
             && r.metrics == MetricsOf(|plan.slots|, accepted, |Missing(plan.slots, accepted)|)
             && r.status == StatusOf(plan, SoundFor(w.checks), w.checks.attested, runs)
             && (r.failures == [] <==> r.status != Invalid)
    ensures r.status == Pass <==>
              StatusOf(w.planOf(x.plan).value, SoundFor(w.checks), w.checks.attested, Map(w.runOf, x.runs)) == Pass
    ensures r.status == Pass ==> Some(r) == PassResult(w, x)
  {
    var plan, runs := w.planOf(x.plan).value, Map(w.runOf, x.runs);
    if r.status == Pass {
      CleanAccepted(SlotMap(plan.slots), SoundFor(w.checks), runs);
    }
  }

  method CampaignResult(w: World, x: Input) returns (result: Option<Result>)
    ensures result.Some? <==> w.planOf(x.plan).Some?
    ensures result.Some? ==>
              (result.value.status == Pass <==>
               StatusOf(w.planOf(x.plan).value, SoundFor(w.checks), w.checks.attested, Map(w.runOf, x.runs)) == Pass)
              && (result.value.status == Pass ==> result == PassResult(w, x))
  {
    var plan := w.planOf(x.plan);
    if plan.None? {
      return None;
    }
    result := Aggregate(_ => true, w.checks, plan.value, Map(w.runOf, x.runs));
    PassDetermines(w, x, result.value);
  }

  /** The plan and the aggregate together: nothing to block on. */
  method CampaignPassed(w: World, q: Target, expectedRuns: nat, x: Input, result: Option<Result>) returns (ok: bool)
    requires Proper(q, expectedRuns) && (result.Some? <==> w.planOf(x.plan).Some?)
    requires result.Some? ==>
               (result.value.status == Pass <==>
                StatusOf(w.planOf(x.plan).value, SoundFor(w.checks), w.checks.attested, Map(w.runOf, x.runs)) == Pass)
               && (result.value.status == Pass ==> result == PassResult(w, x))
    ensures ok <==> CampaignOk(w, q, x)
    ensures ok ==> result == PassResult(w, x)
  {
    if result.None? {
      return false;
    }
    var valid := ValidPlan(q, expectedRuns, w.planOf(x.plan).value);
    ok := valid && CompletePass(q, expectedRuns, result.value);
  }

  /** The blockers in the gate's order, from what each check found. */
  method Collect(candidate: bool, campaign: bool, source: bool, checkout: bool, hostsGiven: bool, hostsValid: bool,
                 review: seq<Code>, trusted: bool, signing: bool, signed: bool) returns (blockers: seq<Code>)
    ensures blockers == [] <==> candidate && campaign && source && checkout && hostsGiven && hostsValid && review == []
                                && trusted && signing && signed
  {
    blockers := [];
    if !candidate { blockers := blockers + [CandidateInvalid]; }
    if !campaign { blockers := blockers + [CampaignNotPass]; }
    if !source { blockers := blockers + [SourceDigestMissing]; }
    if !checkout { blockers := blockers + [SourceCheckoutMismatch]; }
    if !hostsGiven {
      blockers := blockers + [HostEvidenceMissing];
    } else if !hostsValid {
      blockers := blockers + [HostEvidenceInvalid];
    }
    blockers := blockers + review;
    if !trusted { blockers := blockers + [ReleaseAuthorityUntrusted]; }
    if !signing {
      blockers := blockers + [ReleaseNotSigned];
    } else if !signed {
      blockers := blockers + [ReleaseSignatureInvalid];
    }
  }

  method CollectInputs(w: World, q: Target, x: Input, campaign: bool, targetHash: Text, subjectHash: Text)
    returns (blockers: seq<Code>)
    requires q.config.hosts != []
    ensures blockers == [] <==> campaign && InputsOk(w, q, x) && Bound(w, x, targetHash, subjectHash)
  {
    var review := ReviewBlockers(w, x, targetHash);
    blockers := Collect(CandidateOk(w, x), campaign, IsSourceDigest(x.sourceDigest), SourceOk(x), x.hosts != [],
                        ValidHostEvidence(q.config.hosts, x.sourceDigest, x.hosts), review,
                        ReleaseTrusted(w, x), SigningPresent(x), ReleaseSigned(w, x, subjectHash));
  }

  /**
   * Ready exactly when nothing blocks, exactly when everything is there; the hashes are those of the aggregate found.
   */
  ghost predicate Decides(w: World, q: Target, x: Input, target: Option<Result> -> Text,
                          subject: Option<Result> -> Text, d: Decision)
  {
    (d.ready <==> ReadyWith(w, q, x, target, subject)) && (d.ready <==> d.blockers == [])
    && d.targetHash == target(d.result) && d.subjectHash == subject(d.result)
    && (d.ready ==> d.result == PassResult(w, x))
  }

  method EvaluateWith(w: World, q: Target, expectedRuns: nat, x: Input, target: Option<Result> -> Text,
                      subject: Option<Result> -> Text)
    returns (d: Decision)
    requires Proper(q, expectedRuns)
    ensures Decides(w, q, x, target, subject, d)
  {
    var result := CampaignResult(w, x);
    var passed := CampaignPassed(w, q, expectedRuns, x, result);
    var blockers := CollectInputs(w, q, x, passed, target(result), subject(result));
    d := Decision(blockers == [], blockers, target(result), subject(result), result);
  }

  method EvaluateGate(w: World, q: Target, expectedRuns: nat, x: Input) returns (d: Decision)
    requires Proper(q, expectedRuns)
    ensures Decides(w, q, x, TargetHash(w, x), SubjectHash(w, x), d)
  {
    d := EvaluateWith(w, q, expectedRuns, x, TargetHash(w, x), SubjectHash(w, x));
  }
}
