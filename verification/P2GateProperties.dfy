/** What a ready release rests on: the order of its inputs does not matter, and its hashes pin their contents. */
module P2GateProperties {
  import opened JsText
  import opened Json
  import opened CanonicalJson
  import opened Sequences
  import opened Ordering
  import opened Manifests
  import opened CampaignPlan
  import opened CampaignRun
  import opened Campaign
  import opened CampaignProperties
  import opened P2Plan
  import opened P2Gate

  // ----- Runs and hosts in another order

  /** The runs of a clean campaign have different sort keys. */
  lemma CleanKeysDiffer(w: World, slots: map<Text, Slot>, sound: (Run, Slot) -> bool, runs: seq<Json>)
    requires Clean(slots, sound, Map(w.runOf, runs))
    ensures Pairwise(KeysDiffer(RunKey(w)), runs)
  {
    var views := Map(w.runOf, runs);
    forall i, j | 0 <= i < j < |runs|
      ensures KeysDiffer(RunKey(w))(runs[i], runs[j])
    {
      assert Apart(views[i], views[j]);
      assert views[i] in views && views[j] in views;
      assert Expected(slots, views[i]) && Expected(slots, views[j]);
    }
  }

  lemma HostNamesDiffer(required: seq<Text>, sourceDigest: Text, hosts: seq<Host>)
    requires ValidHostEvidence(required, sourceDigest, hosts)
    ensures Pairwise(KeysDiffer(HostName), hosts)
  {
    var names := Map(HostName, hosts);
    forall t
      ensures t in Elements(names) <==> t in set h | h in hosts :: HostName(h)
    {
      if t in names {
        var i :| 0 <= i < |names| && names[i] == t;
        assert hosts[i] in hosts;
      }
      if h :| h in hosts && HostName(h) == t {
        var i :| 0 <= i < |hosts| && hosts[i] == h;
        assert names[i] == t;
      }
    }
    assert Elements(names) == set h | h in hosts :: HostName(h);
    ElementsSize(names);
    forall i, j | 0 <= i < j < |hosts| ensures KeysDiffer(HostName)(hosts[i], hosts[j]) {
      assert names[i] != names[j];
    }
  }

  lemma HostEvidencePermuted(required: seq<Text>, sourceDigest: Text, a: seq<Host>, b: seq<Host>)
    requires Permutation(a, b) && ValidHostEvidence(required, sourceDigest, a)
    ensures ValidHostEvidence(required, sourceDigest, b)
  {
    PermutationMembers(a, b);
    assert (set h | h in a :: HostName(h)) == (set h | h in b :: HostName(h));
    forall i | 0 <= i < |b| ensures ValidHost(sourceDigest, b[i]) {
      assert b[i] in a;
      var j :| 0 <= j < |a| && a[j] == b[i];
    }
  }

  lemma ViewsPermuted(w: World, x: Input, y: Input)
    requires Permutation(x.runs, y.runs) && x.plan == y.plan && w.planOf(x.plan).Some?
    ensures StatusOf(w.planOf(x.plan).value, SoundFor(w.checks), w.checks.attested, Map(w.runOf, x.runs))
         == StatusOf(w.planOf(x.plan).value, SoundFor(w.checks), w.checks.attested, Map(w.runOf, y.runs))
    ensures PassResult(w, x) == PassResult(w, y)
  {
    var plan, a, b := w.planOf(x.plan).value, Map(w.runOf, x.runs), Map(w.runOf, y.runs);
    MapPermuted(w.runOf, x.runs, y.runs);
    StatusPermuted(plan, SoundFor(w.checks), w.checks.attested, a, b);
    MetricsPermuted(a, b, |plan.slots|, 0);
  }

  lemma PassPermuted(w: World, q: Target, x: Input, y: Input)
    requires Permutation(x.runs, y.runs) && x.plan == y.plan && CampaignOk(w, q, x)
    ensures CampaignOk(w, q, y) && PassResult(w, x) == PassResult(w, y)
  {
    ViewsPermuted(w, x, y);
  }

  /** Both hashes are functions of the sorted runs and hosts. */
  lemma HashesPermuted(w: World, x: Input, y: Input, result: Option<Result>)
    requires y == x.(runs := y.runs, hosts := y.hosts)
    requires NormalizedRuns(w, x.runs) == NormalizedRuns(w, y.runs)
             && NormalizedHosts(w, x.hosts) == NormalizedHosts(w, y.hosts)
    ensures TargetHash(w, x)(result) == TargetHash(w, y)(result)
            && SubjectHash(w, x)(result) == SubjectHash(w, y)(result)
  {
    assert CommonParts(w, x, result) == CommonParts(w, y, result);
    assert TargetParts(w, x, result) == TargetParts(w, y, result);
    assert SubjectParts(w, x, result) == SubjectParts(w, y, result);
  }

  lemma SortsPermuted(w: World, q: Target, x: Input, y: Input)
    requires StrictTotal(w.before) && Permutation(x.runs, y.runs) && Permutation(x.hosts, y.hosts)
    requires CampaignOk(w, q, x) && ValidHostEvidence(q.config.hosts, x.sourceDigest, x.hosts)
    ensures NormalizedRuns(w, x.runs) == NormalizedRuns(w, y.runs)
            && NormalizedHosts(w, x.hosts) == NormalizedHosts(w, y.hosts)
  {
    CleanKeysDiffer(w, SlotMap(w.planOf(x.plan).value.slots), SoundFor(w.checks), x.runs);
    SortByPermuted(w.before, RunKey(w), x.runs, y.runs);
    HostNamesDiffer(q.config.hosts, x.sourceDigest, x.hosts);
    SortByPermuted(w.before, HostName, x.hosts, y.hosts);
  }

  /**
   * Handing the runs and the host evidence over in another order changes neither a ready
   * decision nor the review target and release subject it is bound to.
   */
  lemma ReadyPermuted(w: World, q: Target, x: Input, y: Input)
    requires StrictTotal(w.before)
    requires y == x.(runs := y.runs, hosts := y.hosts) && Permutation(x.runs, y.runs) && Permutation(x.hosts, y.hosts)
    requires ReadyWith(w, q, x, TargetHash(w, x), SubjectHash(w, x))
    ensures ReadyWith(w, q, y, TargetHash(w, y), SubjectHash(w, y))
    ensures PassResult(w, x) == PassResult(w, y)
    ensures TargetHash(w, x)(PassResult(w, x)) == TargetHash(w, y)(PassResult(w, y))
    ensures SubjectHash(w, x)(PassResult(w, x)) == SubjectHash(w, y)(PassResult(w, y))
  {
    PassPermuted(w, q, x, y);
    SortsPermuted(w, q, x, y);
    HashesPermuted(w, x, y, PassResult(w, x));
    HostEvidencePermuted(q.config.hosts, x.sourceDigest, x.hosts, y.hosts);
  }

  // ----- What the hashes pin

  /** The records handed in have no repeated keys. */
  ghost predicate WellFormedRecords(w: World, x: Input, result: Option<Result>) {
    WellFormed(x.plan) && AllWellFormed(x.runs) && WellFormed(ReviewJson(x))
    && WellFormed(x.evaluatorTrust) && WellFormed(x.reviewerTrust) && WellFormed(w.resultJson(result))
  }

  /** Reading a run keeps that. */
  ghost predicate WellFormedViews(w: World, runs: seq<Json>) {
    forall run :: run in runs ==>
      WellFormed(OrNull(w.runOf(run).slotId)) && WellFormed(OrNull(w.runOf(run).evidenceHash))
  }

  ghost predicate WellFormedInput(w: World, x: Input, result: Option<Result>) {
    WellFormedRecords(w, x, result) && WellFormedViews(w, x.runs)
  }

  /** With the aggregator's own reader of runs, well-formed records are all that is asked of an input. */
  lemma RecordsSuffice(w: World, x: Input, result: Option<Result>)
    requires w.runOf == RunOf && WellFormedRecords(w, x, result)
    ensures WellFormedInput(w, x, result)
  {
    forall run | run in x.runs
      ensures WellFormed(OrNull(w.runOf(run).slotId)) && WellFormed(OrNull(w.runOf(run).evidenceHash))
    {
      var i :| 0 <= i < |x.runs| && x.runs[i] == run;
      PropertyWellFormed(run, T("slotId"));
      PropertyWellFormed(run, T("evidenceHash"));
    }
  }

  lemma HostKeysDistinct()
    ensures Distinct(HostKeys())
  {
    var ks := HostKeys();
    assert Mark(ks[0]) == (4, 0) && Mark(ks[1]) == (12, 97) && Mark(ks[2]) == (10, 121) && Mark(ks[3]) == (11, 101);
    assert Mark(ks[4]) == (13, 103) && Mark(ks[5]) == (18, 105) && Mark(ks[6]) == (12, 101);
    MarksDiffer(ks);
  }

  lemma TargetKeysDistinct()
    ensures Distinct(TargetKeys())
  {
    var ks := TargetKeys();
    assert Mark(ks[0]) == (6, 0) && Mark(ks[1]) == (13, 72) && Mark(ks[2]) == (12, 101) && Mark(ks[3]) == (16, 108);
    assert Mark(ks[4]) == (18, 117) && Mark(ks[5]) == (23, 118) && Mark(ks[6]) == (18, 101) && Mark(ks[7]) == (16, 110);
    assert Mark(ks[8]) == (18, 84);
    MarksDiffer(ks);
  }

  lemma SubjectKeysDistinct()
    ensures Distinct(SubjectKeys())
  {
    var ks := SubjectKeys();
    assert Mark(ks[0]) == (6, 0) && Mark(ks[1]) == (13, 72) && Mark(ks[2]) == (12, 101) && Mark(ks[3]) == (16, 108);
    assert Mark(ks[4]) == (18, 117) && Mark(ks[5]) == (23, 118) && Mark(ks[6]) == (18, 101) && Mark(ks[7]) == (16, 110);
    assert Mark(ks[8]) == (16, 111) && Mark(ks[9]) == (16, 103) && Mark(ks[10]) == (18, 114)
           && Mark(ks[11]) == (18, 84);
    assert Mark(ks[12]) == (17, 114) && Mark(ks[13]) == (27, 116);
    MarksDiffer(ks);
  }

  lemma RunsWellFormed(w: World, runs: seq<Json>)
    requires AllWellFormed(runs) && WellFormedViews(w, runs)
    ensures WellFormed(Arr(NormalizedRuns(w, runs))) && WellFormed(Arr(Map(IdentityJson(w), NormalizedRuns(w, runs))))
  {
    var sorted := NormalizedRuns(w, runs);
    SortByPermutes(w.before, RunKey(w), runs);
    PermutationMembers(sorted, runs);
    forall i | 0 <= i < |sorted|
      ensures WellFormed(sorted[i]) && WellFormed(IdentityJson(w)(sorted[i]))
    {
      assert sorted[i] in sorted;
      var j :| 0 <= j < |runs| && runs[j] == sorted[i];
      IdentityWellFormed(w, sorted[i]);
    }
  }

  lemma IdentityWellFormed(w: World, run: Json)
    requires WellFormed(OrNull(w.runOf(run).slotId)) && WellFormed(OrNull(w.runOf(run).evidenceHash))
    ensures WellFormed(IdentityJson(w)(run))
  {
    var keys := [T("slotId"), T("evidenceHash")];
    assert |keys[0]| == 6 && |keys[1]| == 12;
    RecordWellFormed(keys, [OrNull(w.runOf(run).slotId), OrNull(w.runOf(run).evidenceHash)]);
  }

  lemma HostWellFormed(h: Host)
    ensures WellFormed(HostJson(h))
  {
    HostKeysDistinct();
    var p := Projected(h);
    assert WellFormed(p[0]) && WellFormed(p[1]) && WellFormed(p[2]) && WellFormed(p[3]) && WellFormed(p[4])
           && WellFormed(p[5]) && WellFormed(p[6]);
    RecordWellFormed(HostKeys(), p);
  }

  lemma HostsWellFormed(hosts: seq<Host>)
    ensures WellFormed(Arr(Map(HostJson, hosts)))
  {
    var items := Map(HostJson, hosts);
    forall i | 0 <= i < |items| ensures WellFormed(items[i]) {
      HostWellFormed(hosts[i]);
      assert items[i] == HostJson(hosts[i]);
    }
  }

  lemma CommonWellFormed(w: World, x: Input, result: Option<Result>)
    requires WellFormedInput(w, x, result)
    ensures AllWellFormed(CommonParts(w, x, result))
  {
    RunsWellFormed(w, x.runs);
    HostsWellFormed(NormalizedHosts(w, x.hosts));
  }

  lemma OwnWellFormed(w: World, x: Input, result: Option<Result>)
    requires WellFormedInput(w, x, result)
    ensures AllWellFormed(OwnParts(w, x, result))
  {
    var p := OwnParts(w, x, result);
    assert WellFormed(p[0]) && WellFormed(p[1]) && WellFormed(p[2]) && WellFormed(p[3]) && WellFormed(p[4])
           && WellFormed(p[5]);
  }

  lemma PartsWellFormed(w: World, x: Input, result: Option<Result>)
    requires WellFormedInput(w, x, result)
    ensures AllWellFormed(TargetParts(w, x, result)) && AllWellFormed(SubjectParts(w, x, result))
  {
    CommonWellFormed(w, x, result);
    OwnWellFormed(w, x, result);
    WellFormedJoin(CommonParts(w, x, result), OwnParts(w, x, result));
    WellFormedJoin(CommonParts(w, x, result), [x.evaluatorTrust]);
    WellFormedJoin([TargetParts(w, x, result)[0]], CommonParts(w, x, result) + [x.evaluatorTrust]);
    WellFormedJoin([SubjectParts(w, x, result)[0]], CommonParts(w, x, result) + OwnParts(w, x, result));
  }

  ghost predicate SameProjection(a: Host, b: Host) {
    a.host == b.host && a.artifactHash == b.artifactHash && a.repository == b.repository
    && a.workflowRef == b.workflowRef
    && a.subjectDigest == b.subjectDigest && a.verificationDigest == b.verificationDigest
    && a.sourceDigest == b.sourceDigest
  }

  ghost predicate SameHosts(a: seq<Host>, b: seq<Host>) {
    |a| == |b| && forall i :: 0 <= i < |a| ==> SameProjection(a[i], b[i])
  }

  lemma SameHostJson(a: Host, b: Host)
    requires Same(HostJson(a), HostJson(b))
    ensures SameProjection(a, b)
  {
    HostKeysDistinct();
    var pa, pb := Projected(a), Projected(b);
    RecordValues(HostKeys(), pa, pb);
    SameProjected(a, b);
  }

  lemma SameProjected(a: Host, b: Host)
    requires AllSame(Projected(a), Projected(b))
    ensures SameProjection(a, b)
  {
    var pa, pb := Projected(a), Projected(b);
    assert Same(pa[0], pb[0]) && Same(pa[1], pb[1]) && Same(pa[2], pb[2]) && Same(pa[3], pb[3]);
    assert Same(pa[4], pb[4]) && Same(pa[5], pb[5]) && Same(pa[6], pb[6]);
  }

  lemma SameHostLists(a: seq<Host>, b: seq<Host>)
    requires Same(Arr(Map(HostJson, a)), Arr(Map(HostJson, b)))
    ensures SameHosts(a, b)
  {
    var ja, jb := Map(HostJson, a), Map(HostJson, b);
    forall i | 0 <= i < |a| ensures SameProjection(a[i], b[i]) {
      assert Same(ja[i], jb[i]);
      SameHostJson(a[i], b[i]);
    }
  }

  /** Two inputs agree on everything a review decides about, the runs and hosts up to their order. */
  ghost predicate SameTarget(w: World, x: Input, y: Input) {
    SameCommon(w, x, y) && Same(x.evaluatorTrust, y.evaluatorTrust)
  }

  ghost predicate SameCommon(w: World, x: Input, y: Input) {
    HashOrNull(x.candidateHash) == HashOrNull(y.candidateHash)
    && SourceOrNull(x.sourceDigest) == SourceOrNull(y.sourceDigest)
    && Same(x.plan, y.plan) && AllSame(NormalizedRuns(w, x.runs), NormalizedRuns(w, y.runs))
    && SameHosts(NormalizedHosts(w, x.hosts), NormalizedHosts(w, y.hosts))
  }

  /** And on everything a release rests on besides. */
  ghost predicate SameSubject(w: World, x: Input, y: Input) {
    SameTarget(w, x, y) && Same(ReviewJson(x), ReviewJson(y)) && Same(x.reviewerTrust, y.reviewerTrust)
    && HashOrNull(x.reviewReportHash) == HashOrNull(y.reviewReportHash)
    && HashOrNull(x.releaseFingerprint) == HashOrNull(y.releaseFingerprint)
  }

  lemma CommonAgrees(w: World, x: Input, rx: Option<Result>, y: Input, ry: Option<Result>)
    requires AllSame(CommonParts(w, x, rx), CommonParts(w, y, ry))
    ensures SameCommon(w, x, y) && Same(w.resultJson(rx), w.resultJson(ry))
  {
    var a, b := CommonParts(w, x, rx), CommonParts(w, y, ry);
    assert Same(a[0], b[0]) && Same(a[1], b[1]) && Same(a[2], b[2]) && Same(a[3], b[3]) && Same(a[5], b[5])
           && Same(a[6], b[6]);
    SameHostLists(NormalizedHosts(w, x.hosts), NormalizedHosts(w, y.hosts));
  }

  lemma TargetAgrees(w: World, x: Input, rx: Option<Result>, y: Input, ry: Option<Result>)
    requires AllSame(TargetParts(w, x, rx), TargetParts(w, y, ry))
    ensures SameTarget(w, x, y) && Same(w.resultJson(rx), w.resultJson(ry))
  {
    var a, b := CommonParts(w, x, rx), CommonParts(w, y, ry);
    SameSplit([TargetParts(w, x, rx)[0]], a + [x.evaluatorTrust], [TargetParts(w, y, ry)[0]], b + [y.evaluatorTrust]);
    SameSplit(a, [x.evaluatorTrust], b, [y.evaluatorTrust]);
    CommonAgrees(w, x, rx, y, ry);
    assert Same([x.evaluatorTrust][0], [y.evaluatorTrust][0]);
  }

  lemma OwnAgrees(w: World, x: Input, rx: Option<Result>, y: Input, ry: Option<Result>)
    requires AllSame(OwnParts(w, x, rx), OwnParts(w, y, ry))
    ensures Same(ReviewJson(x), ReviewJson(y)) && Same(x.evaluatorTrust, y.evaluatorTrust)
            && Same(x.reviewerTrust, y.reviewerTrust)
    ensures HashOrNull(x.reviewReportHash) == HashOrNull(y.reviewReportHash)
    ensures HashOrNull(x.releaseFingerprint) == HashOrNull(y.releaseFingerprint)
  {
    var a, b := OwnParts(w, x, rx), OwnParts(w, y, ry);
    assert Same(a[0], b[0]) && Same(a[2], b[2]) && Same(a[3], b[3]) && Same(a[4], b[4]) && Same(a[5], b[5]);
  }

  lemma SubjectAgrees(w: World, x: Input, rx: Option<Result>, y: Input, ry: Option<Result>)
    requires AllSame(SubjectParts(w, x, rx), SubjectParts(w, y, ry))
    ensures SameSubject(w, x, y) && Same(w.resultJson(rx), w.resultJson(ry))
  {
    var a, b := CommonParts(w, x, rx), CommonParts(w, y, ry);
    var c, d := OwnParts(w, x, rx), OwnParts(w, y, ry);
    SameSplit([SubjectParts(w, x, rx)[0]], a + c, [SubjectParts(w, y, ry)[0]], b + d);
    SameSplit(a, c, b, d);
    CommonAgrees(w, x, rx, y, ry);
    OwnAgrees(w, x, rx, y, ry);
  }

  /** Two reviews of one target hash were of one target, or two of its texts share a digest. */
  lemma TargetPins(w: World, x: Input, rx: Option<Result>, y: Input, ry: Option<Result>) returns (k: nat)
    requires WellFormedInput(w, x, rx) && WellFormedInput(w, y, ry)
    requires TargetHash(w, x)(rx) == TargetHash(w, y)(ry)
    ensures (SameTarget(w, x, y) && Same(w.resultJson(rx), w.resultJson(ry)))
         || CollidesAt(w.sha, TargetKeys(), TargetHashed(), TargetParts(w, x, rx), TargetParts(w, y, ry), k)
  {
    TargetKeysDistinct();
    PartsWellFormed(w, x, rx);
    PartsWellFormed(w, y, ry);
    k := ManifestPins(w.sha, TargetKeys(), TargetHashed(), TargetParts(w, x, rx), TargetParts(w, y, ry));
    if AllSame(TargetParts(w, x, rx), TargetParts(w, y, ry)) {
      TargetAgrees(w, x, rx, y, ry);
    }
  }

  /** Two releases with one subject hash agree on everything, or two of its texts share a digest. */
  lemma SubjectPins(w: World, x: Input, rx: Option<Result>, y: Input, ry: Option<Result>) returns (k: nat)
    requires WellFormedInput(w, x, rx) && WellFormedInput(w, y, ry)
    requires SubjectHash(w, x)(rx) == SubjectHash(w, y)(ry)
    ensures (SameSubject(w, x, y) && Same(w.resultJson(rx), w.resultJson(ry)))
         || CollidesAt(w.sha, SubjectKeys(), SubjectHashed(), SubjectParts(w, x, rx), SubjectParts(w, y, ry), k)
  {
    SubjectKeysDistinct();
    PartsWellFormed(w, x, rx);
    PartsWellFormed(w, y, ry);
    k := ManifestPins(w.sha, SubjectKeys(), SubjectHashed(), SubjectParts(w, x, rx), SubjectParts(w, y, ry));
    if AllSame(SubjectParts(w, x, rx), SubjectParts(w, y, ry)) {
      SubjectAgrees(w, x, rx, y, ry);
    }
  }

  // ----- What a ready P2 release contains

  lemma FitColonFree(q: Target, expected: set<Text>, slots: seq<Slot>)
    requires NamesColonFree(q) && Expects(q, expected) && AllFit(Fits(q), expected, slots) && OneTask(slots)
             && slots != []
    ensures forall slot :: slot in slots ==> ColonFree(slot.taskId) && ColonFree(slot.host) && ColonFree(slot.harness)
  {
    assert slots[0] in slots;
    forall slot | slot in slots
      ensures ColonFree(slot.taskId) && ColonFree(slot.host) && ColonFree(slot.harness)
    {
      FitCarries(q, expected, slots, slot);
      AskedColonFree(q, slot);
    }
  }

  lemma AcceptedColonFree(q: Target, plan: Plan)
    requires Proper(q, |Product(q)|) && Accepts(q, plan)
    ensures PlanColonFree(plan) && SlotIdsDistinct(plan.slots)
  {
    ProductExpects(q);
    FitColonFree(q, IdSet(Product(q)), plan.slots);
  }

  lemma ReadyPlan(w: World, q: Target, n: nat, x: Input, target: Option<Result> -> Text,
                  subject: Option<Result> -> Text)
    requires Proper(q, n) && ReadyWith(w, q, x, target, subject)
    ensures w.planOf(x.plan).Some?
    ensures var plan := w.planOf(x.plan).value;
            PlanColonFree(plan) && SlotIdsDistinct(plan.slots) && |plan.slots| == n > 0
            && plan.thresholds == q.config.thresholds
            && StatusOf(plan, SoundFor(w.checks), w.checks.attested, Map(w.runOf, x.runs)) == Pass
  {
    AcceptedColonFree(q, w.planOf(x.plan).value);
  }

  lemma PassingRuns(plan: Plan, c: Checks, view: Json -> Run, records: seq<Json>)
    requires PlanColonFree(plan) && SlotIdsDistinct(plan.slots) && plan.slots != [] && plan.thresholds.t0PassRate == 1.0
    requires StatusOf(plan, SoundFor(c), c.attested, Map(view, records)) == Pass
    ensures Passes(plan, c, Map(view, records)) && |records| == |plan.slots|
    ensures forall run :: run in records ==> IsValid(view(run))
  {
    var runs := Map(view, records);
    PassExactly(plan, c, runs);
    FullRates(plan, c, runs);
    forall run | run in records ensures IsValid(view(run)) {
      var i :| 0 <= i < |records| && records[i] == run;
      assert runs[i] in runs;
    }
  }

  /** A ready release has one run for each combination the target asks for, every one sound and valid. */
  lemma ReadyMeansPassed(w: World, q: Target, n: nat, x: Input, target: Option<Result> -> Text,
                         subject: Option<Result> -> Text)
    requires Proper(q, n) && ReadyWith(w, q, x, target, subject) && q.config.thresholds.t0PassRate == 1.0
    ensures w.planOf(x.plan).Some? && Passes(w.planOf(x.plan).value, w.checks, Map(w.runOf, x.runs))
    ensures |x.runs| == n
    ensures forall run :: run in x.runs ==> IsValid(w.runOf(run))
  {
    ReadyPlan(w, q, n, x, target, subject);
    PassingRuns(w.planOf(x.plan).value, w.checks, w.runOf, x.runs);
  }

  /** Ninety runs, for the P2 campaign. */
  lemma ReadyP2(w: World, x: Input, target: Option<Result> -> Text, subject: Option<Result> -> Text)
    requires ReadyWith(w, P2Target(), x, target, subject)
    ensures |x.runs| == 90 && forall run :: run in x.runs ==> IsValid(w.runOf(run))
  {
    P2Proper();
    ReadyMeansPassed(w, P2Target(), EXPECTED_RUNS, x, target, subject);
  }
}
