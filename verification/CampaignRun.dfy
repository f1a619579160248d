/** One recorded run and the checks made of it against its planned slot. */
module CampaignRun {
  import opened JsText
  import opened Json
  import opened CanonicalJson
  import opened CampaignPlan

  /** A property read from a JSON value: `None` is JavaScript's `undefined`. */
  type Field = Option<Json>

  /** Every property of a run that aggregation reads; `whole` is the record itself, for the schema and the signature. */
  datatype Run = Run(
    slotId: Field, campaignId: Field, taskId: Field, taskHash: Field, budgetHash: Field, environmentHash: Field,
    requiredEvidence: Field, buildTarget: Field, host: Field, harness: Field, seed: Field, repetition: Field,
    privateAffordances: Field, evidenceHash: Field, runId: Field, model: Field, verdict: Field,
    orphanProcesses: Field, durationMinutes: Field, soak: Field, workspaceState: Field,
    evaluatorId: Field, evaluatorAuthority: Field, evaluatorDigest: Field, whole: Json)

  /**
   * The checks that rest on libraries: schema, name patterns, signature, and the evidence bundle (true: no failure).
   */
  datatype Checks = Checks(schema: Run -> bool, runName: Text -> bool, evaluatorName: Text -> bool,
                           attested: Run -> bool, evidence: (Run, Slot) -> bool)

  datatype Failure =
    | UnexpectedSlot(slotId: Field)
    | DuplicateSlot(slotId: Field)
    | SealBroken(seal: Seal, slotId: Field)
    | ClaimBroken(claim: Claim, slotId: Field)
    | Threshold(metric: string)
    | EvaluatorFairness(key: Text)
    | SoakMissing(key: Text)

  /** The fields a run repeats from its slot. */
  datatype Seal =
    CampaignId | TaskId | TaskHash | BudgetHash | EnvironmentHash | RequiredEvidence | BuildTarget
    | Host | Harness | Seed | Repetition

  /** What a run says on its own account. */
  datatype Claim =
    Schema | NewRunId | NoPrivateAffordance | EvidenceHash | RunIdentity | Model | Verdict
    | OrphanCount | Duration | SoakMarker | EvaluatorIdentity | Attestation | Evidence

  // ----- How JavaScript reads the properties

  /** An element inside `join`: absent and null are empty, arrays join with commas. */
  function Part(f: Field): Text {
    if f.None? then [] else JsonPart(f.value)
  }

  function JsonPart(v: Json): Text {
    match v
    case Null => []
    case Bool(b) => if b then T("true") else T("false")
    case Num(n) => Decimal(n)
    case Str(s) => s
    case Arr(items) => CommaParts(items)
    case Obj(_) => T("[object Object]")
  }

  function CommaParts(items: seq<Json>): Text {
    if items == [] then []
    else if |items| == 1 then JsonPart(items[0])
    else JsonPart(items[0]) + [44] + CommaParts(items[1..])
  }

  /** A property inside a template literal: only the outermost absence and null differ from `join`. */
  function Shown(f: Field): Text {
    if f.None? then T("undefined") else if f.value.Null? then T("null") else Part(f)
  }

  predicate Is(f: Field, t: Text) {
    f == Some(Str(t))
  }

  predicate IsNumber(f: Field, n: int) {
    f == Some(Num(n))
  }

  predicate IsSpace(u: CodeUnit) {
    9 <= u <= 13 || u == 32 || u == 160 || u == 0x1680 || 0x2000 <= u <= 0x200A || u == 0x2028 || u == 0x2029
    || u == 0x202F || u == 0x205F || u == 0x3000 || u == 0xFEFF
  }

  /** `typeof model === "string"`, not blank, at most 120 units. */
  predicate ValidModel(f: Field) {
    f.Some? && f.value.Str? && |f.value.s| <= 120 && exists i :: 0 <= i < |f.value.s| && !IsSpace(f.value.s[i])
  }

  predicate ValidVerdict(f: Field) {
    Is(f, T("valid")) || Is(f, T("invalid")) || Is(f, T("inconclusive"))
  }

  predicate ValidCount(f: Field) {
    f.Some? && f.value.Num? && f.value.n >= 0
  }

  predicate ValidDuration(f: Field) {
    f.Some? && f.value.Num? && 0 < f.value.n <= 1440
  }

  function Texts(ts: seq<Text>): (r: seq<Json>)
    ensures |r| == |ts| && forall i :: 0 <= i < |ts| ==> r[i] == Str(ts[i])
  {
    seq(|ts|, i requires 0 <= i < |ts| => Str(ts[i]))
  }

  /** The canonical text of the run's roles is that of the slot's. */
  predicate SameRoles(f: Field, roles: seq<Text>) {
    f.Some? && Canonical(f.value) == Canonical(Arr(Texts(roles)))
  }

  /** Lists of texts have no key order: equal canonical texts mean the same list. */
  lemma SameRolesExactly(f: Field, roles: seq<Text>)
    ensures SameRoles(f, roles) <==> f == Some(Arr(Texts(roles)))
  {
    if SameRoles(f, roles) {
      StringifyInjective(Normalize(f.value), Normalize(Arr(Texts(roles))));
      var items := Texts(roles);
      assert NormalizeItems(items) == items;
      assert f.value.Arr?;
      var vs := f.value.items;
      forall i | 0 <= i < |vs|
        ensures vs[i] == items[i]
      {
        assert NormalizeItems(vs)[i] == items[i];
      }
      assert vs == items;
    }
  }

  predicate ValidEvaluator(c: Checks, run: Run) {
    c.evaluatorName(Part(run.evaluatorId)) && Is(run.evaluatorAuthority, T("independent-evaluator"))
    && IsHash(Part(run.evaluatorDigest))
  }

  // ----- Reading a run record

  function Nested(f: Field, key: Text): Field {
    if f.None? then None else Property(f.value, key)
  }

  function RunOf(v: Json): Run {
    var evaluator := Property(v, T("evaluator"));
    Run(Property(v, T("slotId")), Property(v, T("campaignId")), Property(v, T("taskId")), Property(v, T("taskHash")),
        Property(v, T("budgetHash")), Property(v, T("environmentHash")), Property(v, T("requiredEvidence")),
        Property(v, T("buildTarget")), Property(v, T("host")), Property(v, T("harness")), Property(v, T("seed")),
        Property(v, T("repetition")), Property(v, T("privateAffordances")), Property(v, T("evidenceHash")),
        Property(v, T("runId")), Property(v, T("model")), Property(v, T("verdict")), Property(v, T("orphanProcesses")),
        Property(v, T("durationMinutes")), Property(v, T("soak")), Property(v, T("workspaceState")),
        Nested(evaluator, T("id")), Nested(evaluator, T("authority")), Nested(evaluator, T("digest")), v)
  }

  lemma {:induction false} LookupWellFormed(members: seq<Member>, key: Text)
    requires forall i :: 0 <= i < |members| ==> WellFormed(members[i].value)
    ensures var f := Lookup(members, key); f.Some? ==> WellFormed(f.value)
  {
    if members != [] && members[|members| - 1].key != key {
      LookupWellFormed(members[..|members| - 1], key);
    }
  }

  lemma PropertyWellFormed(v: Json, key: Text)
    requires WellFormed(v)
    ensures var f := Property(v, key); f.Some? ==> WellFormed(f.value)
  {
    if v.Obj? {
      LookupWellFormed(v.members, key);
    }
  }

  // ----- The checks of one run against its slot

  /** The run repeats the eleven sealed fields of its slot. */
  predicate MatchesSlot(run: Run, slot: Slot) {
    Is(run.campaignId, slot.campaignId) && Is(run.taskId, slot.taskId) && Is(run.taskHash, slot.taskHash)
    && Is(run.budgetHash, slot.budgetHash) && Is(run.environmentHash, slot.environmentHash)
    && run.requiredEvidence == Some(Arr(Texts(slot.requiredEvidence))) && Is(run.buildTarget, slot.buildTarget)
    && Is(run.host, slot.host) && Is(run.harness, slot.harness)
    && IsNumber(run.seed, slot.seed) && IsNumber(run.repetition, slot.repetition)
  }

  /** What the run says of its identity and verdict. */
  predicate WellIdentified(c: Checks, run: Run) {
    run.privateAffordances == Some(Bool(false)) && IsHash(Part(run.evidenceHash))
    && c.runName(Part(run.runId)) && ValidModel(run.model) && ValidVerdict(run.verdict)
  }

  /** What the run says of its conduct and evaluation. */
  predicate WellConducted(c: Checks, run: Run) {
    ValidCount(run.orphanProcesses) && ValidDuration(run.durationMinutes)
    && run.soak.Some? && run.soak.value.Bool? && ValidEvaluator(c, run) && c.attested(run)
  }

  predicate Sound(c: Checks, run: Run, slot: Slot) {
    c.schema(run) && MatchesSlot(run, slot) && WellIdentified(c, run) && WellConducted(c, run) && c.evidence(run, slot)
  }

  /** The run's identity is text already taken by an accepted run. */
  predicate Claimed(run: Run, seenRunIds: set<Text>) {
    run.runId.Some? && run.runId.value.Str? && run.runId.value.s in seenRunIds
  }

  predicate SealHolds(run: Run, slot: Slot, seal: Seal) {
    match seal
    case CampaignId => Is(run.campaignId, slot.campaignId)
    case TaskId => Is(run.taskId, slot.taskId)
    case TaskHash => Is(run.taskHash, slot.taskHash)
    case BudgetHash => Is(run.budgetHash, slot.budgetHash)
    case EnvironmentHash => Is(run.environmentHash, slot.environmentHash)
    case RequiredEvidence => SameRoles(run.requiredEvidence, slot.requiredEvidence)
    case BuildTarget => Is(run.buildTarget, slot.buildTarget)
    case Host => Is(run.host, slot.host)
    case Harness => Is(run.harness, slot.harness)
    case Seed => IsNumber(run.seed, slot.seed)
    case Repetition => IsNumber(run.repetition, slot.repetition)
  }

  predicate ClaimHolds(c: Checks, run: Run, slot: Slot, seenRunIds: set<Text>, claim: Claim) {
    match claim
    case Schema => c.schema(run)
    case NewRunId => !Claimed(run, seenRunIds)
    case NoPrivateAffordance => run.privateAffordances == Some(Bool(false))
    case EvidenceHash => IsHash(Part(run.evidenceHash))
    case RunIdentity => c.runName(Part(run.runId))
    case Model => ValidModel(run.model)
    case Verdict => ValidVerdict(run.verdict)
    case OrphanCount => ValidCount(run.orphanProcesses)
    case Duration => ValidDuration(run.durationMinutes)
    case SoakMarker => run.soak.Some? && run.soak.value.Bool?
    case EvaluatorIdentity => ValidEvaluator(c, run)
    case Attestation => c.attested(run)
    case Evidence => c.evidence(run, slot)
  }

  /** A failure for everything in the list that does not hold, in order. */
  function Reported<R>(holds: R -> bool, failure: R -> Failure, order: seq<R>): seq<Failure> {
    if order == [] then []
    else (if holds(order[0]) then [] else [failure(order[0])]) + Reported(holds, failure, order[1..])
  }

  function Seals(): seq<Seal> {
    [CampaignId, TaskId, TaskHash, BudgetHash, EnvironmentHash, RequiredEvidence, BuildTarget, Host, Harness, Seed,
     Repetition]
  }

  function ClaimsBefore(): seq<Claim> {
    [Schema, NewRunId]
  }

  function Identifying(): seq<Claim> {
    [NoPrivateAffordance, EvidenceHash, RunIdentity, Model, Verdict]
  }

  function Conducting(): seq<Claim> {
    [OrphanCount, Duration, SoakMarker, EvaluatorIdentity, Attestation, Evidence]
  }

  /** What the loop body pushes for one accepted run. */
  function RunFailures(c: Checks, run: Run, slot: Slot, seenRunIds: set<Text>): seq<Failure> {
    var claim := claim => ClaimHolds(c, run, slot, seenRunIds, claim);
    var broken := claim => ClaimBroken(claim, run.slotId);
    Reported(claim, broken, ClaimsBefore())
    + Reported(seal => SealHolds(run, slot, seal), seal => SealBroken(seal, run.slotId), Seals())
    + Reported(claim, broken, Identifying())
    + Reported(claim, broken, Conducting())
  }

  lemma {:induction false} ReportedNothing<R>(holds: R -> bool, failure: R -> Failure, order: seq<R>)
    ensures Reported(holds, failure, order) == [] <==> All(holds, order)
  {
    if order != [] {
      ReportedNothing(holds, failure, order[1..]);
      assert forall i :: 0 < i < |order| ==> order[i] == order[1..][i - 1];
    }
  }

  lemma SealsExactly(run: Run, slot: Slot)
    ensures All(seal => SealHolds(run, slot, seal), Seals()) <==> MatchesSlot(run, slot)
  {
    SameRolesExactly(run.requiredEvidence, slot.requiredEvidence);
    var holds := seal => SealHolds(run, slot, seal);
    var s := Seals();
    if All(holds, s) {
      assert holds(s[0]) && holds(s[1]) && holds(s[2]) && holds(s[3]) && holds(s[4]) && holds(s[5]);
      assert holds(s[6]) && holds(s[7]) && holds(s[8]) && holds(s[9]) && holds(s[10]);
    }
  }

  lemma ClaimsBeforeExactly(c: Checks, run: Run, slot: Slot, seenRunIds: set<Text>)
    ensures All(claim => ClaimHolds(c, run, slot, seenRunIds, claim), ClaimsBefore()) <==>
              c.schema(run) && !Claimed(run, seenRunIds)
  {
    var holds := claim => ClaimHolds(c, run, slot, seenRunIds, claim);
    var s := ClaimsBefore();
    if All(holds, s) {
      assert holds(s[0]) && holds(s[1]);
    }
  }

  lemma IdentifyingExactly(c: Checks, run: Run, slot: Slot, seenRunIds: set<Text>)
    ensures All(claim => ClaimHolds(c, run, slot, seenRunIds, claim), Identifying()) <==> WellIdentified(c, run)
  {
    var holds := claim => ClaimHolds(c, run, slot, seenRunIds, claim);
    var s := Identifying();
    if All(holds, s) {
      assert holds(s[0]) && holds(s[1]) && holds(s[2]) && holds(s[3]) && holds(s[4]);
    }
  }

  lemma ConductingExactly(c: Checks, run: Run, slot: Slot, seenRunIds: set<Text>)
    ensures All(claim => ClaimHolds(c, run, slot, seenRunIds, claim), Conducting()) <==>
              WellConducted(c, run) && c.evidence(run, slot)
  {
    var holds := claim => ClaimHolds(c, run, slot, seenRunIds, claim);
    var s := Conducting();
    if All(holds, s) {
      assert holds(s[0]) && holds(s[1]) && holds(s[2]) && holds(s[3]) && holds(s[4]) && holds(s[5]);
    }
  }

  /** A run passes without failure exactly when it is sound and its identity is new. */
  lemma NothingReported(c: Checks, run: Run, slot: Slot, seenRunIds: set<Text>)
    ensures RunFailures(c, run, slot, seenRunIds) == [] <==> Sound(c, run, slot) && !Claimed(run, seenRunIds)
  {
    var claim := claim => ClaimHolds(c, run, slot, seenRunIds, claim);
    var broken := claim => ClaimBroken(claim, run.slotId);
    ReportedNothing(claim, broken, ClaimsBefore());
    ReportedNothing(claim, broken, Identifying());
    ReportedNothing(claim, broken, Conducting());
    ReportedNothing(seal => SealHolds(run, slot, seal), seal => SealBroken(seal, run.slotId), Seals());
    SealsExactly(run, slot);
    ClaimsBeforeExactly(c, run, slot, seenRunIds);
    IdentifyingExactly(c, run, slot, seenRunIds);
    ConductingExactly(c, run, slot, seenRunIds);
  }
}
