/** Aggregating recorded runs against a plan. */
module Campaign {
  import opened JsText
  import opened Json
  import opened Sequences
  import opened CampaignPlan
  import opened CampaignRun
  import opened Groups

  datatype Status = Pass | Incomplete | Invalid

  datatype Metrics = Metrics(expectedRuns: nat, recordedRuns: nat, missingRuns: nat, validRuns: nat,
                             t0PassRate: real, seedAgreement: real, orphanProcesses: int, unknownWorkspaceStates: nat)

  datatype Result = Result(campaignId: Text, status: Status, metrics: Metrics, missingSlotIds: seq<Text>,
                           failures: seq<Failure>)

  // ----- Accepting runs: the first run of every planned slot

  /** `new Map(slots.map(slot => [slot.slotId, slot]))`: the last slot of an identity wins. */
  function SlotMap(slots: seq<Slot>): map<Text, Slot> {
    if slots == [] then map[]
    else SlotMap(slots[..|slots| - 1])[slots[|slots| - 1].slotId := slots[|slots| - 1]]
  }

  /** The identity under which a run can be found in a map keyed by texts. */
  function IdOf(run: Run): Option<Text> {
    if run.slotId.Some? && run.slotId.value.Str? then Some(run.slotId.value.s) else None
  }

  predicate Expected(slots: map<Text, Slot>, run: Run) {
    IdOf(run).Some? && IdOf(run).value in slots
  }

  ghost predicate NamedBy(runs: seq<Run>, id: Text) {
    exists i :: 0 <= i < |runs| && IdOf(runs[i]) == Some(id)
  }

  ghost function Accepted(slots: map<Text, Slot>, runs: seq<Run>): seq<Run> {
    if runs == [] then []
    else
      var before, run := Accepted(slots, runs[..|runs| - 1]), runs[|runs| - 1];
      if Expected(slots, run) && !NamedBy(before, IdOf(run).value) then before + [run] else before
  }

  /** Two runs that may stand side by side: different slots, and not the same identity. */
  ghost predicate Apart(a: Run, b: Run) {
    IdOf(a) != IdOf(b) && !(a.runId == b.runId && a.runId.Some? && a.runId.value.Str?)
  }

  /** Every run is expected and sound, and every two are apart. */
  ghost predicate Clean(slots: map<Text, Slot>, sound: (Run, Slot) -> bool, runs: seq<Run>) {
    (forall run :: run in runs ==> Expected(slots, run) && sound(run, slots[IdOf(run).value]))
    && Pairwise(Apart, runs)
  }

  /** What the loop knows of the runs it has accepted. */
  datatype Seen = Seen(slotIds: set<Text>, runIds: set<Text>, attested: set<Text>)

  ghost function SeenIn(attested: Run -> bool, accepted: seq<Run>): Seen {
    if accepted == [] then Seen({}, {}, {})
    else See(SeenIn(attested, accepted[..|accepted| - 1]), attested, accepted[|accepted| - 1])
  }

  function See(seen: Seen, attested: Run -> bool, run: Run): Seen {
    Seen(seen.slotIds + (if IdOf(run).Some? then {IdOf(run).value} else {}),
         seen.runIds + (if run.runId.Some? && run.runId.value.Str? then {run.runId.value.s} else {}),
         seen.attested + (if IdOf(run).Some? && attested(run) then {IdOf(run).value} else {}))
  }

  lemma {:induction false} SeenSlots(attested: Run -> bool, accepted: seq<Run>, id: Text)
    ensures id in SeenIn(attested, accepted).slotIds <==> NamedBy(accepted, id)
  {
    if accepted != [] {
      var front, last := accepted[..|accepted| - 1], accepted[|accepted| - 1];
      SeenSlots(attested, front, id);
      if i :| 0 <= i < |accepted| && IdOf(accepted[i]) == Some(id) {
        assert i < |front| ==> IdOf(front[i]) == Some(id);
      }
      if i :| 0 <= i < |front| && IdOf(front[i]) == Some(id) {
        assert IdOf(accepted[i]) == Some(id);
      }
      if IdOf(last) == Some(id) {
        assert IdOf(accepted[|accepted| - 1]) == Some(id);
      }
    }
  }

  lemma {:induction false} SeenRuns(attested: Run -> bool, accepted: seq<Run>, run: Run)
    ensures Claimed(run, SeenIn(attested, accepted).runIds) <==>
            run.runId.Some? && run.runId.value.Str? && exists i :: 0 <= i < |accepted| && accepted[i].runId == run.runId
  {
    if accepted != [] {
      var front, last := accepted[..|accepted| - 1], accepted[|accepted| - 1];
      SeenRuns(attested, front, run);
      if i :| 0 <= i < |accepted| && accepted[i].runId == run.runId {
        assert i < |front| ==> front[i].runId == run.runId;
      }
      if i :| 0 <= i < |front| && front[i].runId == run.runId {
        assert accepted[i].runId == run.runId;
      }
      if last.runId == run.runId {
        assert accepted[|accepted| - 1].runId == run.runId;
      }
    }
  }

  lemma CleanNext(slots: map<Text, Slot>, sound: (Run, Slot) -> bool, runs: seq<Run>, run: Run)
    ensures Clean(slots, sound, runs + [run]) <==>
            Clean(slots, sound, runs) && Expected(slots, run) && sound(run, slots[IdOf(run).value])
            && forall i :: 0 <= i < |runs| ==> Apart(runs[i], run)
  {
    var all := runs + [run];
    assert run in all;
    assert forall r :: r in all <==> r in runs || r == run;
    if Clean(slots, sound, all) {
      forall i, j | 0 <= i < j < |runs|
        ensures Apart(runs[i], runs[j])
      {
        assert all[i] == runs[i] && all[j] == runs[j];
      }
      forall i | 0 <= i < |runs|
        ensures Apart(runs[i], run)
      {
        assert all[i] == runs[i] && all[|runs|] == run;
      }
    }
  }

  lemma {:induction false} CleanAccepted(slots: map<Text, Slot>, sound: (Run, Slot) -> bool, runs: seq<Run>)
    requires Clean(slots, sound, runs)
    ensures Accepted(slots, runs) == runs
  {
    if runs != [] {
      var front, last := runs[..|runs| - 1], runs[|runs| - 1];
      assert runs == front + [last];
      CleanNext(slots, sound, front, last);
      CleanAccepted(slots, sound, front);
    }
  }

  /** One more run: what it takes for the list to stay clean, in the loop's own terms. */
  lemma CleanStep(slots: map<Text, Slot>, sound: (Run, Slot) -> bool, attested: Run -> bool, runs: seq<Run>, run: Run)
    ensures var seen := SeenIn(attested, Accepted(slots, runs));
            Clean(slots, sound, runs + [run]) <==>
            Clean(slots, sound, runs) && Expected(slots, run) && IdOf(run).value !in seen.slotIds
            && sound(run, slots[IdOf(run).value]) && !Claimed(run, seen.runIds)
  {
    CleanNext(slots, sound, runs, run);
    if Clean(slots, sound, runs) && Expected(slots, run) {
      CleanAccepted(slots, sound, runs);
      SeenSlots(attested, runs, IdOf(run).value);
      SeenRuns(attested, runs, run);
    }
  }

  lemma AcceptedStep(slots: map<Text, Slot>, attested: Run -> bool, runs: seq<Run>, run: Run)
    ensures var before := Accepted(slots, runs); var seen := SeenIn(attested, before);
            if Expected(slots, run) && IdOf(run).value !in seen.slotIds then
              Accepted(slots, runs + [run]) == before + [run]
              && SeenIn(attested, before + [run]) == See(seen, attested, run)
            else Accepted(slots, runs + [run]) == before
  {
    var before := Accepted(slots, runs);
    assert (runs + [run])[..|runs|] == runs;
    assert (before + [run])[..|before|] == before;
    if Expected(slots, run) {
      SeenSlots(attested, before, IdOf(run).value);
    }
  }

  /** The loop over the runs. */
  method AcceptRuns(slots: map<Text, Slot>, report: (Run, Slot, set<Text>) -> seq<Failure>,
                    ghost sound: (Run, Slot) -> bool,
                    attested: Run -> bool, runs: seq<Run>)
    returns (accepted: seq<Run>, failures: seq<Failure>, seen: Seen)
    requires forall run, slot, runIds :: report(run, slot, runIds) == [] <==> sound(run, slot) && !Claimed(run, runIds)
    ensures accepted == Accepted(slots, runs)
    ensures failures == [] <==> Clean(slots, sound, runs)
    ensures seen == SeenIn(attested, accepted)
  {
    accepted, failures, seen := [], [], Seen({}, {}, {});
    for i := 0 to |runs|
      invariant accepted == Accepted(slots, runs[..i])
      invariant failures == [] <==> Clean(slots, sound, runs[..i])
      invariant seen == SeenIn(attested, accepted)
    {
      var run := runs[i];
      assert runs[..i + 1] == runs[..i] + [run];
      CleanStep(slots, sound, attested, runs[..i], run);
      AcceptedStep(slots, attested, runs[..i], run);
      if !Expected(slots, run) {
        failures := failures + [UnexpectedSlot(run.slotId)];
      } else if IdOf(run).value in seen.slotIds {
        failures := failures + [DuplicateSlot(run.slotId)];
      } else {
        accepted := accepted + [run];
        failures := failures + report(run, slots[IdOf(run).value], seen.runIds);
        seen := See(seen, attested, run);
      }
    }
    assert runs[..|runs|] == runs;
  }

  // ----- Metrics

  function GroupKey(run: Run): Text {
    Join([Part(run.taskId), Part(run.host), Part(run.harness), Part(run.seed)])
  }

  function FairnessKey(run: Run): Text {
    Join([Part(run.taskId), Part(run.host), Part(run.seed), Part(run.repetition)])
  }

  function Evaluator(run: Run): Text {
    Part(run.evaluatorId) + [COLON] + Part(run.evaluatorDigest)
  }

  function VerdictOf(run: Run): Field {
    run.verdict
  }

  predicate IsValid(run: Run) {
    Is(run.verdict, T("valid"))
  }

  predicate NotKnownClean(run: Run) {
    !Is(run.workspaceState, T("known-clean"))
  }

  function Orphans(run: Run): int {
    if ValidCount(run.orphanProcesses) then run.orphanProcesses.value.n else 0
  }

  function Ratio(numerator: nat, denominator: nat): real {
    if denominator == 0 then 0.0 else numerator as real / denominator as real
  }

  function SlotIds(slots: seq<Slot>): (ids: seq<Text>)
    ensures |ids| == |slots|
  {
    seq(|slots|, i requires 0 <= i < |slots| => slots[i].slotId)
  }

  ghost function Unnamed(runs: seq<Run>): Text -> bool {
    id => !NamedBy(runs, id)
  }

  /** The planned identities that no accepted run names, in plan order. */
  ghost function Missing(slots: seq<Slot>, accepted: seq<Run>): seq<Text> {
    Filter(Unnamed(accepted), SlotIds(slots))
  }

  ghost function MetricsOf(expected: nat, accepted: seq<Run>, missing: nat): Metrics {
    Metrics(expected, |accepted|, missing, |Filter(IsValid, accepted)|,
            Ratio(|Filter(IsValid, accepted)|, |accepted|),
            Ratio(|AgreeingKeys(GroupKey, VerdictOf, accepted)|, |Keys(GroupKey, accepted)|),
            Sum(Orphans, accepted), |Filter(NotKnownClean, accepted)|)
  }

  predicate WithinThresholds(t: Thresholds, m: Metrics) {
    (m.recordedRuns > 0 ==> m.t0PassRate >= t.t0PassRate && m.seedAgreement >= t.seedAgreement)
    && m.orphanProcesses <= t.orphanProcesses && m.unknownWorkspaceStates <= t.unknownWorkspaceStates
  }

  // ----- Soak coverage

  function PairKey(host: Text, harness: Text): Text {
    Join([host, harness])
  }

  predicate Soaked(soakMinutes: int, run: Run, key: Text, attested: set<Text>) {
    PairKey(Shown(run.host), Shown(run.harness)) == key && run.soak == Some(Bool(true))
    && run.durationMinutes.Some? && run.durationMinutes.value.Num? && run.durationMinutes.value.n >= soakMinutes
    && IdOf(run).Some? && IdOf(run).value in attested
  }

  ghost predicate Covered(soakMinutes: int, accepted: seq<Run>, key: Text, attested: set<Text>) {
    exists i :: 0 <= i < |accepted| && Soaked(soakMinutes, accepted[i], key, attested)
  }

  ghost predicate SoakCovered(slots: seq<Slot>, soakMinutes: int, accepted: seq<Run>, attested: set<Text>) {
    forall i :: 0 <= i < |slots| ==> Covered(soakMinutes, accepted, PairKey(slots[i].host, slots[i].harness), attested)
  }

  method AnySoaked(soakMinutes: int, accepted: seq<Run>, key: Text, attested: set<Text>) returns (covered: bool)
    ensures covered <==> Covered(soakMinutes, accepted, key, attested)
  {
    for r := 0 to |accepted|
      invariant !Covered(soakMinutes, accepted[..r], key, attested)
    {
      if Soaked(soakMinutes, accepted[r], key, attested) {
        return true;
      }
    }
    assert accepted[..|accepted|] == accepted;
    return false;
  }

  method EnforceSoakCoverage(slots: seq<Slot>, soakMinutes: int, accepted: seq<Run>, attested: set<Text>)
    returns (failures: seq<Failure>)
    ensures failures == [] <==> SoakCovered(slots, soakMinutes, accepted, attested)
  {
    failures := [];
    var required: set<Text> := {};
    for i := 0 to |slots|
      invariant failures == [] <==> SoakCovered(slots[..i], soakMinutes, accepted, attested)
      invariant forall key :: key in required ==> exists j ::
                  0 <= j < i && PairKey(slots[j].host, slots[j].harness) == key
    {
      var key := PairKey(slots[i].host, slots[i].harness);
      if key !in required {
        var covered := AnySoaked(soakMinutes, accepted, key, attested);
        if !covered {
          failures := failures + [SoakMissing(key)];
        }
        required := required + {key};
      }
    }
    assert slots[..|slots|] == slots;
  }

  // ----- Evaluator fairness

  method EnforceEvaluatorFairness(accepted: seq<Run>) returns (failures: seq<Failure>)
    ensures failures == [] <==> Consistent(FairnessKey, Evaluator, accepted)
  {
    var g := GroupBy(accepted, FairnessKey);
    GroupsKeyed(FairnessKey, accepted);
    failures := [];
    for i := 0 to |g.keys|
      invariant failures == [] <==> forall j :: 0 <= j < i ==> Unanimous(FairnessKey, Evaluator, accepted, g.keys[j])
    {
      CountNext(FairnessKey, Evaluator, accepted, g, i);
      assert g.keys[i] in Elements(g.keys);
      var group := g.members[g.keys[i]];
      var identities := set run | run in group :: Evaluator(run);
      GroupsPartition(FairnessKey, accepted);
      OneTag(FairnessKey, Evaluator, accepted, g.keys[i], identities);
      if |identities| > 1 {
        failures := failures + [EvaluatorFairness(g.keys[i])];
      }
    }
    FairKeys(accepted, g);
  }

  lemma FairKeys(accepted: seq<Run>, g: Groups<Text, Run>)
    requires KeyedBy(g, FairnessKey, accepted)
    ensures (forall j :: 0 <= j < |g.keys| ==> Unanimous(FairnessKey, Evaluator, accepted, g.keys[j])) <==>
            Consistent(FairnessKey, Evaluator, accepted)
  {
    if forall j :: 0 <= j < |g.keys| ==> Unanimous(FairnessKey, Evaluator, accepted, g.keys[j]) {
      forall v, w | v in accepted && w in accepted && FairnessKey(v) == FairnessKey(w)
        ensures Evaluator(v) == Evaluator(w)
      {
        assert FairnessKey(v) in Keys(FairnessKey, accepted);
        assert FairnessKey(v) in g.keys;
        var j :| 0 <= j < |g.keys| && g.keys[j] == FairnessKey(v);
        assert Unanimous(FairnessKey, Evaluator, accepted, g.keys[j]);
      }
    }
  }

  // ----- The aggregate

  function SoundFor(c: Checks): (Run, Slot) -> bool {
    (run, slot) => Sound(c, run, slot)
  }

  /** Nothing is wrong with the recorded runs, complete or not. */
  ghost predicate NoFailures(plan: Plan, sound: (Run, Slot) -> bool, attested: Run -> bool, runs: seq<Run>) {
    var accepted := Accepted(SlotMap(plan.slots), runs);
    var missing := Missing(plan.slots, accepted);
    Clean(SlotMap(plan.slots), sound, runs)
    && WithinThresholds(plan.thresholds, MetricsOf(|plan.slots|, accepted, |missing|))
    && Consistent(FairnessKey, Evaluator, accepted)
    && (missing == [] ==> SoakCovered(plan.slots, plan.soakMinutes, accepted, SeenIn(attested, accepted).attested))
  }

  ghost function StatusOf(plan: Plan, sound: (Run, Slot) -> bool, attested: Run -> bool, runs: seq<Run>): Status {
    if !NoFailures(plan, sound, attested, runs) then Invalid
    else if Missing(plan.slots, Accepted(SlotMap(plan.slots), runs)) != [] then Incomplete
    else Pass
  }

  method MissingSlots(slots: seq<Slot>, attested: Run -> bool, accepted: seq<Run>, seenSlots: set<Text>)
    returns (missing: seq<Text>)
    requires seenSlots == SeenIn(attested, accepted).slotIds
    ensures missing == Missing(slots, accepted)
  {
    missing := [];
    var ids := SlotIds(slots);
    for i := 0 to |ids|
      invariant missing == Filter(Unnamed(accepted), ids[..i])
    {
      assert ids[..i + 1] == ids[..i] + [ids[i]];
      FilterSnoc(Unnamed(accepted), ids[..i], ids[i]);
      SeenSlots(attested, accepted, ids[i]);
      if ids[i] !in seenSlots {
        missing := missing + [ids[i]];
      }
    }
    assert ids[..|ids|] == ids;
  }

  method Measure(expected: nat, accepted: seq<Run>, missing: nat) returns (m: Metrics)
    ensures m == MetricsOf(expected, accepted, missing)
  {
    var agreeing, groups := CountAgreeing(accepted, GroupKey, VerdictOf);
    var valid := |Filter(IsValid, accepted)|;
    m := Metrics(expected, |accepted|, missing, valid, Ratio(valid, |accepted|), Ratio(agreeing, groups),
                 Sum(Orphans, accepted), |Filter(NotKnownClean, accepted)|);
  }

  method EnforceThresholds(t: Thresholds, m: Metrics) returns (failures: seq<Failure>)
    ensures failures == [] <==> WithinThresholds(t, m)
  {
    failures := [];
    if m.recordedRuns > 0 && m.t0PassRate < t.t0PassRate { failures := failures + [Threshold("t0PassRate")]; }
    if m.recordedRuns > 0 && m.seedAgreement < t.seedAgreement { failures := failures + [Threshold("seedAgreement")]; }
    if m.orphanProcesses > t.orphanProcesses { failures := failures + [Threshold("orphanProcesses")]; }
    if m.unknownWorkspaceStates > t.unknownWorkspaceStates {
      failures := failures + [Threshold("unknownWorkspaceStates")];
    }
  }

  /** `None` is the exception thrown for a plan the schema refuses. */
  method Aggregate(planValid: Plan -> bool, c: Checks, plan: Plan, runs: seq<Run>) returns (r: Option<Result>)
    ensures r.None? <==> !planValid(plan)
    ensures r.Some? ==>
              var accepted := Accepted(SlotMap(plan.slots), runs);
              r.value.campaignId == plan.campaignId
              && r.value.missingSlotIds == Missing(plan.slots, accepted)
              && r.value.metrics == MetricsOf(|plan.slots|, accepted, |Missing(plan.slots, accepted)|)
              && r.value.status == StatusOf(plan, SoundFor(c), c.attested, runs)
              && (r.value.failures == [] <==> r.value.status != Invalid)
  {
    if !planValid(plan) {
      return None;
    }
    forall run, slot, runIds
      ensures RunFailures(c, run, slot, runIds) == [] <==> SoundFor(c)(run, slot) && !Claimed(run, runIds)
    {
      NothingReported(c, run, slot, runIds);
    }
    r := AggregateRuns(plan, (run, slot, runIds) => RunFailures(c, run, slot, runIds), SoundFor(c), c.attested, runs);
  }

  method AggregateRuns(plan: Plan, report: (Run, Slot, set<Text>) -> seq<Failure>, ghost sound: (Run, Slot) -> bool,
                       attested: Run -> bool, runs: seq<Run>) returns (r: Option<Result>)
    requires forall run, slot, runIds :: report(run, slot, runIds) == [] <==> sound(run, slot) && !Claimed(run, runIds)
    ensures r.Some?
    ensures var accepted := Accepted(SlotMap(plan.slots), runs);
            r.value.campaignId == plan.campaignId
            && r.value.missingSlotIds == Missing(plan.slots, accepted)
            && r.value.metrics == MetricsOf(|plan.slots|, accepted, |Missing(plan.slots, accepted)|)
            && r.value.status == StatusOf(plan, sound, attested, runs)
            && (r.value.failures == [] <==> r.value.status != Invalid)
  {
    var accepted, failures, seen := AcceptRuns(SlotMap(plan.slots), report, sound, attested, runs);
    var missing := MissingSlots(plan.slots, attested, accepted, seen.slotIds);
    var metrics := Measure(|plan.slots|, accepted, |missing|);
    var beyond := EnforceThresholds(plan.thresholds, metrics);
    var unfair := EnforceEvaluatorFairness(accepted);
    failures := failures + beyond + unfair;
    if missing == [] {
      var unsoaked := EnforceSoakCoverage(plan.slots, plan.soakMinutes, accepted, seen.attested);
      failures := failures + unsoaked;
    }
    var status := if failures != [] then Invalid else if missing != [] then Incomplete else Pass;
    r := Some(Result(plan.campaignId, status, metrics, missing, failures));
  }
}
