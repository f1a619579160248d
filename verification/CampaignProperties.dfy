/** What a campaign result means: counts, order independence, and everything a pass entails. */
module CampaignProperties {
  import opened JsText
  import opened Json
  import opened Sequences
  import opened Groups
  import opened CampaignPlan
  import opened CampaignRun
  import opened Campaign

  // ----- The expected slots

  lemma {:induction false} SlotMapMember(slots: seq<Slot>, id: Text)
    ensures id in SlotMap(slots) <==> id in SlotIds(slots)
    ensures id in SlotMap(slots) ==> SlotMap(slots)[id] in slots && SlotMap(slots)[id].slotId == id
  {
    if slots != [] {
      var front, last := slots[..|slots| - 1], slots[|slots| - 1];
      SlotMapMember(front, id);
      assert SlotIds(slots) == SlotIds(front) + [last.slotId];
      assert slots == front + [last];
    }
  }

  lemma SlotMapDistinct(slots: seq<Slot>, slot: Slot)
    requires SlotIdsDistinct(slots) && slot in slots
    ensures slot.slotId in SlotMap(slots) && SlotMap(slots)[slot.slotId] == slot
  {
    SlotMapMember(slots, slot.slotId);
    var i :| 0 <= i < |slots| && slots[i] == slot;
    assert SlotIds(slots)[i] == slot.slotId;
    var j :| 0 <= j < |slots| && slots[j] == SlotMap(slots)[slot.slotId];
    assert slots[i].slotId == slots[j].slotId;
  }

  // ----- Accepted runs

  lemma {:induction false} AcceptedNames(slots: map<Text, Slot>, runs: seq<Run>, id: Text)
    ensures NamedBy(Accepted(slots, runs), id) <==> NamedBy(runs, id) && id in slots
  {
    if runs != [] {
      var front, last := runs[..|runs| - 1], runs[|runs| - 1];
      AcceptedNames(slots, front, id);
      assert runs == front + [last];
      NamedByOneMore(front, last, id);
      NamedByOneMore(Accepted(slots, front), last, id);
      if IdOf(last).Some? {
        AcceptedNames(slots, front, IdOf(last).value);
      }
    }
  }

  lemma NamedByOneMore(runs: seq<Run>, run: Run, id: Text)
    ensures NamedBy(runs + [run], id) <==> NamedBy(runs, id) || IdOf(run) == Some(id)
  {
    var all := runs + [run];
    if i :| 0 <= i < |all| && IdOf(all[i]) == Some(id) {
      assert i < |runs| ==> IdOf(runs[i]) == Some(id);
    }
    if i :| 0 <= i < |runs| && IdOf(runs[i]) == Some(id) {
      assert IdOf(all[i]) == Some(id);
    }
    assert all[|runs|] == run;
  }

  ghost function Ids(accepted: seq<Run>): (ids: seq<Option<Text>>)
    ensures |ids| == |accepted|
  {
    seq(|accepted|, i requires 0 <= i < |accepted| => IdOf(accepted[i]))
  }

  lemma {:induction false} AcceptedDistinct(slots: map<Text, Slot>, runs: seq<Run>)
    ensures Distinct(Ids(Accepted(slots, runs)))
    ensures forall run :: run in Accepted(slots, runs) ==> Expected(slots, run)
  {
    if runs != [] {
      var front, last := runs[..|runs| - 1], runs[|runs| - 1];
      AcceptedDistinct(slots, front);
      var before := Accepted(slots, front);
      assert Ids(before + [last]) == Ids(before) + [IdOf(last)];
    }
  }

  /**
   * Recorded and missing runs add up to the expected ones, for every list of runs,
   * exactly when no slot that a run names was planned twice.
   */
  lemma CountsAddUp(slots: seq<Slot>, runs: seq<Run>)
    ensures var accepted := Accepted(SlotMap(slots), runs);
            |accepted| + |Missing(slots, accepted)| == |slots| <==>
            forall id :: NamedBy(runs, id) ==> multiset(SlotIds(slots))[id] <= 1
  {
    var accepted := Accepted(SlotMap(slots), runs);
    var ids, named := SlotIds(slots), (id: Text) => NamedBy(accepted, id);
    var found := Filter(named, ids);
    SplitCount(named, Unnamed(accepted), ids);
    AcceptedDistinct(SlotMap(slots), runs);
    SameElements(accepted, slots, found);
    ElementsSize(found);
    DistinctCounts(found);
    forall id: Text
      ensures multiset(found)[id] == if NamedBy(runs, id) then multiset(ids)[id] else 0
    {
      FilterMultiset(named, ids, id);
      AcceptedNames(SlotMap(slots), runs, id);
      SlotMapMember(slots, id);
      assert id in ids <==> id in multiset(ids);
    }
  }

  /** A plan of two slots with one identity, and a run that names it: one run is recorded and none is missing. */
  lemma RepeatedSlotMiscounts(a: Slot, b: Slot, run: Run)
    requires a.slotId == b.slotId && IdOf(run) == Some(a.slotId)
    ensures var accepted := Accepted(SlotMap([a, b]), [run]);
            |accepted| + |Missing([a, b], accepted)| != |[a, b]|
  {
    CountsAddUp([a, b], [run]);
    var ids := SlotIds([a, b]);
    assert ids == [a.slotId, a.slotId] && multiset(ids)[a.slotId] == 2;
    assert IdOf([run][0]) == Some(a.slotId) && NamedBy([run], a.slotId);
  }

  lemma {:induction false} SplitCount<A>(p: A -> bool, q: A -> bool, s: seq<A>)
    requires forall x :: x in s ==> (q(x) <==> !p(x))
    ensures |Filter(p, s)| + |Filter(q, s)| == |s|
  {
    if s != [] {
      Take1(s);
      SplitCount(p, q, s[1..]);
    }
  }

  /** As many runs are accepted as there are different planned identities with a run. */
  lemma SameElements(accepted: seq<Run>, slots: seq<Slot>, found: seq<Text>)
    requires Distinct(Ids(accepted)) && (forall run :: run in accepted ==> Expected(SlotMap(slots), run))
    requires found == Filter((id: Text) => NamedBy(accepted, id), SlotIds(slots))
    ensures |accepted| == |Elements(found)|
  {
    var ids := seq(|accepted|,
                   i requires 0 <= i < |accepted| => assert accepted[i] in accepted; IdOf(accepted[i]).value);
    forall i, j | 0 <= i < j < |ids|
      ensures ids[i] != ids[j]
    {
      assert Ids(accepted)[i] != Ids(accepted)[j];
      assert accepted[i] in accepted && accepted[j] in accepted;
    }
    forall id
      ensures id in ids <==> id in Elements(found)
    {
      FilterMember((x: Text) => NamedBy(accepted, x), SlotIds(slots), id);
      if id in ids {
        var i :| 0 <= i < |ids| && ids[i] == id;
        assert accepted[i] in accepted;
        assert IdOf(accepted[i]) == Some(id);
        SlotMapMember(slots, id);
      }
      if NamedBy(accepted, id) {
        var i :| 0 <= i < |accepted| && IdOf(accepted[i]) == Some(id);
        assert ids[i] == id;
      }
    }
    DistinctCount(ids, Elements(found));
  }

  /** In particular, for a plan with distinct slots. */
  lemma CountsAddUpForDistinctSlots(slots: seq<Slot>, runs: seq<Run>)
    requires SlotIdsDistinct(slots)
    ensures var accepted := Accepted(SlotMap(slots), runs); |accepted| + |Missing(slots, accepted)| == |slots|
  {
    CountsAddUp(slots, runs);
    var ids := SlotIds(slots);
    assert Distinct(ids) by {
      forall i, j | 0 <= i < j < |ids| ensures ids[i] != ids[j] {
        assert slots[i].slotId != slots[j].slotId;
      }
    }
    DistinctCounts(ids);
  }

  // ----- Rates

  lemma RatioOne(a: nat, b: nat)
    requires a <= b
    ensures Ratio(a, b) == 1.0 <==> b > 0 && a == b
    ensures 0.0 <= Ratio(a, b) <= 1.0
  {
    if b > 0 {
      var x, y := a as real, b as real;
      assert x / y == 1.0 <==> x == y;
    }
  }

  /** `seedAgreement` is 1 exactly when there is a group and every group is unanimous. */
  lemma SeedAgreementExactly(accepted: seq<Run>, expected: nat, missing: nat)
    ensures MetricsOf(expected, accepted, missing).seedAgreement == 1.0 <==>
            accepted != [] && Consistent(GroupKey, VerdictOf, accepted)
  {
    var agreeing, keys := AgreeingKeys(GroupKey, VerdictOf, accepted), Keys(GroupKey, accepted);
    SubsetSize(agreeing, keys);
    RatioOne(|agreeing|, |keys|);
    ConsistentKeys(GroupKey, VerdictOf, accepted);
    if accepted != [] {
      assert accepted[0] in accepted;
      assert GroupKey(accepted[0]) in keys;
    }
    if keys != {} {
      var k :| k in keys;
    }
  }

  /** With a pass-rate threshold of 1, every recorded verdict is valid. */
  lemma AllValid(accepted: seq<Run>, expected: nat, missing: nat)
    requires MetricsOf(expected, accepted, missing).t0PassRate >= 1.0
    ensures forall run :: run in accepted ==> IsValid(run)
  {
    RatioOne(|Filter(IsValid, accepted)|, |accepted|);
    FilterLength(IsValid, accepted);
  }

  lemma {:induction false} FilterLength<A>(p: A -> bool, s: seq<A>)
    ensures |Filter(p, s)| == |s| <==> forall x :: x in s ==> p(x)
  {
    if s != [] {
      Take1(s);
      FilterLength(p, s[1..]);
    }
  }

  // ----- The order of the runs

  lemma CleanPermuted(slots: map<Text, Slot>, sound: (Run, Slot) -> bool, a: seq<Run>, b: seq<Run>)
    requires Permutation(a, b) && Clean(slots, sound, a)
    ensures Clean(slots, sound, b)
  {
    PermutationMembers(a, b);
    PairwisePermuted(Apart, a, b);
  }

  /** What the metrics and the last checks read of the accepted runs does not depend on their order. */
  lemma MetricsPermuted(a: seq<Run>, b: seq<Run>, expected: nat, missing: nat)
    requires Permutation(a, b)
    ensures MetricsOf(expected, a, missing) == MetricsOf(expected, b, missing)
    ensures Consistent(FairnessKey, Evaluator, a) <==> Consistent(FairnessKey, Evaluator, b)
  {
    PermutationMembers(a, b);
    FilterPermuted(IsValid, a, b);
    PermutationMembers(Filter(IsValid, a), Filter(IsValid, b));
    FilterPermuted(NotKnownClean, a, b);
    PermutationMembers(Filter(NotKnownClean, a), Filter(NotKnownClean, b));
    SumPermuted(Orphans, a, b);
    assert Keys(GroupKey, a) == Keys(GroupKey, b);
    AgreeingPermuted(a, b);
  }

  lemma AgreeingPermuted(a: seq<Run>, b: seq<Run>)
    requires forall run :: run in a <==> run in b
    ensures AgreeingKeys(GroupKey, VerdictOf, a) == AgreeingKeys(GroupKey, VerdictOf, b)
  {
    assert Keys(GroupKey, a) == Keys(GroupKey, b);
    forall k
      ensures Unanimous(GroupKey, VerdictOf, a, k) <==> Unanimous(GroupKey, VerdictOf, b, k)
    {}
  }

  lemma NamedPermuted(a: seq<Run>, b: seq<Run>, id: Text)
    requires forall run :: run in a <==> run in b
    ensures NamedBy(a, id) <==> NamedBy(b, id)
  {
    if i :| 0 <= i < |a| && IdOf(a[i]) == Some(id) {
      assert a[i] in a;
      var j :| 0 <= j < |b| && b[j] == a[i];
    }
    if j :| 0 <= j < |b| && IdOf(b[j]) == Some(id) {
      assert b[j] in b;
      var i :| 0 <= i < |a| && a[i] == b[j];
    }
  }

  lemma MissingPermuted(slots: seq<Slot>, a: seq<Run>, b: seq<Run>)
    requires forall run :: run in a <==> run in b
    ensures Missing(slots, a) == Missing(slots, b)
  {
    forall id
      ensures Unnamed(a)(id) == Unnamed(b)(id)
    {
      NamedPermuted(a, b, id);
    }
    SameFilter(Unnamed(a), Unnamed(b), SlotIds(slots));
  }

  lemma {:induction false} SameFilter<A(!new)>(p: A -> bool, q: A -> bool, s: seq<A>)
    requires forall x :: p(x) == q(x)
    ensures Filter(p, s) == Filter(q, s)
  {
    if s != [] {
      SameFilter(p, q, s[1..]);
    }
  }

  lemma {:induction false} AttestedIn(attested: Run -> bool, accepted: seq<Run>, id: Text)
    ensures id in SeenIn(attested, accepted).attested <==>
              exists run :: run in accepted && IdOf(run) == Some(id) && attested(run)
  {
    if accepted != [] {
      var front, last := accepted[..|accepted| - 1], accepted[|accepted| - 1];
      AttestedIn(attested, front, id);
      assert accepted == front + [last];
    }
  }

  lemma SoakPermuted(plan: Plan, attested: Run -> bool, a: seq<Run>, b: seq<Run>)
    requires forall run :: run in a <==> run in b
    ensures SoakCovered(plan.slots, plan.soakMinutes, a, SeenIn(attested, a).attested)
       <==> SoakCovered(plan.slots, plan.soakMinutes, b, SeenIn(attested, b).attested)
  {
    assert SeenIn(attested, a).attested == SeenIn(attested, b).attested by {
      forall id
        ensures id in SeenIn(attested, a).attested <==> id in SeenIn(attested, b).attested
      {
        AttestedIn(attested, a, id);
        AttestedIn(attested, b, id);
      }
    }
    forall key
      ensures Covered(plan.soakMinutes, a, key, SeenIn(attested, a).attested) <==>
                Covered(plan.soakMinutes, b, key, SeenIn(attested, a).attested)
    {
      CoveredPermuted(plan.soakMinutes, a, b, key, SeenIn(attested, a).attested);
    }
  }

  lemma CoveredPermuted(soakMinutes: int, a: seq<Run>, b: seq<Run>, key: Text, attested: set<Text>)
    requires forall run :: run in a <==> run in b
    ensures Covered(soakMinutes, a, key, attested) <==> Covered(soakMinutes, b, key, attested)
  {
    if i :| 0 <= i < |a| && Soaked(soakMinutes, a[i], key, attested) {
      assert a[i] in a;
      var j :| 0 <= j < |b| && b[j] == a[i];
    }
    if j :| 0 <= j < |b| && Soaked(soakMinutes, b[j], key, attested) {
      assert b[j] in b;
      var i :| 0 <= i < |a| && a[i] == b[j];
    }
  }

  lemma NoFailuresPermuted(plan: Plan, sound: (Run, Slot) -> bool, attested: Run -> bool, a: seq<Run>, b: seq<Run>)
    requires Permutation(a, b) && NoFailures(plan, sound, attested, a)
    ensures NoFailures(plan, sound, attested, b)
    ensures Accepted(SlotMap(plan.slots), a) == a && Accepted(SlotMap(plan.slots), b) == b
    ensures Missing(plan.slots, a) == Missing(plan.slots, b)
  {
    var slots := SlotMap(plan.slots);
    CleanPermuted(slots, sound, a, b);
    CleanAccepted(slots, sound, a);
    CleanAccepted(slots, sound, b);
    PermutationMembers(a, b);
    MissingPermuted(plan.slots, a, b);
    MetricsPermuted(a, b, |plan.slots|, |Missing(plan.slots, a)|);
    SoakPermuted(plan, attested, a, b);
  }

  /** The status does not depend on the order of the runs, whatever the runs are. */
  lemma StatusPermuted(plan: Plan, sound: (Run, Slot) -> bool, attested: Run -> bool, a: seq<Run>, b: seq<Run>)
    requires Permutation(a, b)
    ensures StatusOf(plan, sound, attested, a) == StatusOf(plan, sound, attested, b)
  {
    if NoFailures(plan, sound, attested, a) {
      NoFailuresPermuted(plan, sound, attested, a, b);
    } else if NoFailures(plan, sound, attested, b) {
      NoFailuresPermuted(plan, sound, attested, b, a);
    }
  }

  /** Runs that name planned slots name different ones. */
  ghost predicate OneRunEach(slots: map<Text, Slot>, runs: seq<Run>) {
    Pairwise(NotSameSlot(slots), runs)
  }

  ghost function NotSameSlot(slots: map<Text, Slot>): (Run, Run) -> bool {
    (a, b) => Expected(slots, a) ==> IdOf(a) != IdOf(b)
  }

  ghost function ExpectedIn(slots: map<Text, Slot>): Run -> bool {
    run => Expected(slots, run)
  }

  lemma {:induction false} AcceptedIsFilter(slots: map<Text, Slot>, runs: seq<Run>)
    requires OneRunEach(slots, runs)
    ensures Accepted(slots, runs) == Filter(ExpectedIn(slots), runs)
  {
    if runs != [] {
      var front, last := runs[..|runs| - 1], runs[|runs| - 1];
      assert runs == front + [last];
      assert OneRunEach(slots, front) by {
        forall i, j | 0 <= i < j < |front| ensures NotSameSlot(slots)(front[i], front[j]) {
          assert NotSameSlot(slots)(runs[i], runs[j]);
        }
      }
      AcceptedIsFilter(slots, front);
      FilterSnoc(ExpectedIn(slots), front, last);
      if Expected(slots, last) {
        AcceptedNames(slots, front, IdOf(last).value);
        forall i | 0 <= i < |front| ensures IdOf(front[i]) != IdOf(last) {
          assert NotSameSlot(slots)(runs[i], runs[|front|]);
        }
      }
    }
  }

  /** When no slot has two runs, neither the metrics nor the missing slots depend on the order. */
  lemma ResultPermuted(plan: Plan, a: seq<Run>, b: seq<Run>)
    requires Permutation(a, b) && OneRunEach(SlotMap(plan.slots), a)
    ensures var slots := SlotMap(plan.slots); var first, second := Accepted(slots, a), Accepted(slots, b);
            Missing(plan.slots, first) == Missing(plan.slots, second)
            && forall expected, missing :: MetricsOf(expected, first, missing) == MetricsOf(expected, second, missing)
  {
    var slots := SlotMap(plan.slots);
    PairwisePermuted(NotSameSlot(slots), a, b);
    AcceptedIsFilter(slots, a);
    AcceptedIsFilter(slots, b);
    FilterPermuted(ExpectedIn(slots), a, b);
    var first, second := Accepted(slots, a), Accepted(slots, b);
    PermutationMembers(first, second);
    MissingPermuted(plan.slots, first, second);
    forall expected, missing
      ensures MetricsOf(expected, first, missing) == MetricsOf(expected, second, missing)
    {
      MetricsPermuted(first, second, expected, missing);
    }
  }

  // ----- What a pass means

  /** What the plan schema promises of every slot's names. */
  ghost predicate PlanColonFree(plan: Plan) {
    forall slot :: slot in plan.slots ==> ColonFree(slot.taskId) && ColonFree(slot.host) && ColonFree(slot.harness)
  }

  ghost predicate Names(run: Run, slot: Slot) {
    IdOf(run) == Some(slot.slotId)
  }

  /** Every run answers exactly one planned slot and is sound for it; every slot is answered; no two runs answer one. */
  ghost predicate Bijection(plan: Plan, c: Checks, runs: seq<Run>) {
    (forall run :: run in runs ==> exists slot :: slot in plan.slots && Names(run, slot) && Sound(c, run, slot))
    && (forall slot :: slot in plan.slots ==> NamedBy(runs, slot.slotId))
    && Pairwise(Apart, runs)
  }

  /** One evaluator, by name and digest, for each task, host, seed and repetition. */
  ghost predicate OneEvaluator(runs: seq<Run>) {
    forall v, w ::
      v in runs && w in runs && v.taskId == w.taskId && v.host == w.host && v.seed == w.seed
      && v.repetition == w.repetition ==>
      Part(v.evaluatorId) == Part(w.evaluatorId) && Part(v.evaluatorDigest) == Part(w.evaluatorDigest)
  }

  /** An attested soak run of the required length for every planned host and harness. */
  ghost predicate EverySoak(plan: Plan, attested: Run -> bool, runs: seq<Run>) {
    forall slot :: slot in plan.slots ==> exists run :: run in runs && SoakFor(plan, attested, run, slot)
  }

  ghost predicate SoakFor(plan: Plan, attested: Run -> bool, run: Run, slot: Slot) {
    Is(run.host, slot.host) && Is(run.harness, slot.harness) && run.soak == Some(Bool(true)) && attested(run)
    && run.durationMinutes.Some? && run.durationMinutes.value.Num? && run.durationMinutes.value.n >= plan.soakMinutes
  }

  /** The campaign as its readers understand it. */
  ghost predicate Passes(plan: Plan, c: Checks, runs: seq<Run>) {
    Bijection(plan, c, runs) && OneEvaluator(runs) && EverySoak(plan, c.attested, runs)
    && WithinThresholds(plan.thresholds, MetricsOf(|plan.slots|, runs, 0))
  }

  lemma CleanExactly(plan: Plan, c: Checks, runs: seq<Run>)
    requires SlotIdsDistinct(plan.slots)
    ensures Clean(SlotMap(plan.slots), SoundFor(c), runs) && Missing(plan.slots, runs) == [] <==>
              Bijection(plan, c, runs)
  {
    var slots := SlotMap(plan.slots);
    forall run | run in runs
      ensures Expected(slots, run) && SoundFor(c)(run, slots[IdOf(run).value]) <==>
              exists slot :: slot in plan.slots && Names(run, slot) && Sound(c, run, slot)
    {
      ExpectedExactly(plan, c, run);
    }
    MissingNone(plan.slots, runs);
  }

  lemma ExpectedExactly(plan: Plan, c: Checks, run: Run)
    requires SlotIdsDistinct(plan.slots)
    ensures Expected(SlotMap(plan.slots), run) && SoundFor(c)(run, SlotMap(plan.slots)[IdOf(run).value]) <==>
            exists slot :: slot in plan.slots && Names(run, slot) && Sound(c, run, slot)
  {
    if Expected(SlotMap(plan.slots), run) {
      SlotMapMember(plan.slots, IdOf(run).value);
    }
    if slot :| slot in plan.slots && Names(run, slot) && Sound(c, run, slot) {
      SlotMapDistinct(plan.slots, slot);
    }
  }

  lemma MissingNone(slots: seq<Slot>, runs: seq<Run>)
    ensures Missing(slots, runs) == [] <==> forall slot :: slot in slots ==> NamedBy(runs, slot.slotId)
  {
    var ids, missing := SlotIds(slots), Missing(slots, runs);
    forall id
      ensures id in missing <==> id in ids && !NamedBy(runs, id)
    {
      FilterMember(Unnamed(runs), ids, id);
    }
    if missing == [] {
      forall slot | slot in slots
        ensures NamedBy(runs, slot.slotId)
      {
        var i :| 0 <= i < |slots| && slots[i] == slot;
        assert ids[i] == slot.slotId;
      }
    } else {
      assert missing[0] in missing;
      var i :| 0 <= i < |ids| && ids[i] == missing[0];
      assert slots[i] in slots;
    }
  }

  lemma FairnessKeyInjective(v: Run, w: Run, a: Slot, b: Slot)
    requires MatchesSlot(v, a) && MatchesSlot(w, b) && ColonFree(a.taskId) && ColonFree(a.host) && ColonFree(b.taskId)
             && ColonFree(b.host)
    ensures FairnessKey(v) == FairnessKey(w) <==>
            v.taskId == w.taskId && v.host == w.host && v.seed == w.seed && v.repetition == w.repetition
  {
    if FairnessKey(v) == FairnessKey(w) {
      var p := [Part(v.taskId), Part(v.host), Part(v.seed), Part(v.repetition)];
      var q := [Part(w.taskId), Part(w.host), Part(w.seed), Part(w.repetition)];
      DecimalColonFree(a.seed);
      DecimalColonFree(b.seed);
      DecimalColonFree(a.repetition);
      DecimalColonFree(b.repetition);
      JoinInjective(p, q);
      assert p[0] == q[0] && p[1] == q[1] && p[2] == q[2] && p[3] == q[3];
      DecimalInjective(a.seed, b.seed);
      DecimalInjective(a.repetition, b.repetition);
    }
  }

  /** The digest has a fixed length, so the joined evaluator text determines both halves. */
  lemma EvaluatorInjective(v: Run, w: Run)
    requires IsHash(Part(v.evaluatorDigest)) && IsHash(Part(w.evaluatorDigest))
    ensures Evaluator(v) == Evaluator(w) <==>
            Part(v.evaluatorId) == Part(w.evaluatorId) && Part(v.evaluatorDigest) == Part(w.evaluatorDigest)
  {
    if Evaluator(v) == Evaluator(w) {
      var a, b := Part(v.evaluatorId), Part(w.evaluatorId);
      assert |Evaluator(v)| == |a| + 72 && |Evaluator(w)| == |b| + 72;
      assert Evaluator(v)[..|a|] == a && Evaluator(w)[..|b|] == b;
      assert Evaluator(v)[|a| + 1..] == Part(v.evaluatorDigest) && Evaluator(w)[|b| + 1..] == Part(w.evaluatorDigest);
    }
  }

  lemma FairExactly(plan: Plan, c: Checks, runs: seq<Run>)
    requires PlanColonFree(plan) && Bijection(plan, c, runs)
    ensures Consistent(FairnessKey, Evaluator, runs) <==> OneEvaluator(runs)
  {
    forall v, w | v in runs && w in runs
      ensures FairnessKey(v) == FairnessKey(w) <==>
              v.taskId == w.taskId && v.host == w.host && v.seed == w.seed && v.repetition == w.repetition
      ensures Evaluator(v) == Evaluator(w) <==>
              Part(v.evaluatorId) == Part(w.evaluatorId) && Part(v.evaluatorDigest) == Part(w.evaluatorDigest)
    {
      var a :| a in plan.slots && Names(v, a) && Sound(c, v, a);
      var b :| b in plan.slots && Names(w, b) && Sound(c, w, b);
      FairnessKeyInjective(v, w, a, b);
      EvaluatorInjective(v, w);
    }
  }

  lemma PairKeyInjective(a: Slot, b: Slot)
    requires ColonFree(a.host) && ColonFree(a.harness) && ColonFree(b.host) && ColonFree(b.harness)
    ensures PairKey(a.host, a.harness) == PairKey(b.host, b.harness) <==> a.host == b.host && a.harness == b.harness
  {
    var p, q := [a.host, a.harness], [b.host, b.harness];
    if PairKey(a.host, a.harness) == PairKey(b.host, b.harness) {
      JoinInjective(p, q);
      assert p[0] == q[0] && p[1] == q[1];
    }
  }

  lemma DifferentRuns(runs: seq<Run>, a: Run, b: Run)
    requires Pairwise(Apart, runs) && a in runs && b in runs && a != b
    ensures IdOf(a) != IdOf(b)
  {
    var i :| 0 <= i < |runs| && runs[i] == a;
    var j :| 0 <= j < |runs| && runs[j] == b;
    assert if i < j then Apart(runs[i], runs[j]) else Apart(runs[j], runs[i]);
  }

  /** Runs that stand apart are told apart by their identities, so a slot is attested exactly when its own run is. */
  lemma AttestedExactly(attested: Run -> bool, runs: seq<Run>, run: Run)
    requires Pairwise(Apart, runs) && run in runs && IdOf(run).Some?
    ensures IdOf(run).value in SeenIn(attested, runs).attested <==> attested(run)
  {
    AttestedIn(attested, runs, IdOf(run).value);
    forall other | other in runs && other != run ensures IdOf(other) != IdOf(run) {
      DifferentRuns(runs, other, run);
    }
  }

  lemma SoakedExactly(plan: Plan, c: Checks, runs: seq<Run>, run: Run, slot: Slot)
    requires PlanColonFree(plan) && Bijection(plan, c, runs) && run in runs && slot in plan.slots
    ensures Soaked(plan.soakMinutes, run, PairKey(slot.host, slot.harness), SeenIn(c.attested, runs).attested)
       <==> SoakFor(plan, c.attested, run, slot)
  {
    var own :| own in plan.slots && Names(run, own) && Sound(c, run, own);
    PairKeyInjective(own, slot);
    assert MatchesSlot(run, own);
    AttestedExactly(c.attested, runs, run);
  }

  lemma SoakExactly(plan: Plan, c: Checks, runs: seq<Run>)
    requires PlanColonFree(plan) && Bijection(plan, c, runs)
    ensures SoakCovered(plan.slots, plan.soakMinutes, runs, SeenIn(c.attested, runs).attested) <==>
              EverySoak(plan, c.attested, runs)
  {
    var attested := SeenIn(c.attested, runs).attested;
    forall slot | slot in plan.slots
      ensures Covered(plan.soakMinutes, runs, PairKey(slot.host, slot.harness), attested) <==>
              exists run :: run in runs && SoakFor(plan, c.attested, run, slot)
    {
      forall run | run in runs
        ensures Soaked(plan.soakMinutes, run, PairKey(slot.host, slot.harness), attested) <==>
                  SoakFor(plan, c.attested, run, slot)
      {
        SoakedExactly(plan, c, runs, run, slot);
      }
      if run :| run in runs && SoakFor(plan, c.attested, run, slot) {
        var i :| 0 <= i < |runs| && runs[i] == run;
        assert Soaked(plan.soakMinutes, runs[i], PairKey(slot.host, slot.harness), attested);
      }
      if i :| 0 <= i < |runs| && Soaked(plan.soakMinutes, runs[i], PairKey(slot.host, slot.harness), attested) {
        assert runs[i] in runs;
      }
    }
    if EverySoak(plan, c.attested, runs) {
      forall i | 0 <= i < |plan.slots|
        ensures Covered(plan.soakMinutes, runs, PairKey(plan.slots[i].host, plan.slots[i].harness), attested)
      {
        assert plan.slots[i] in plan.slots;
      }
    }
  }

  lemma PassOfBijection(plan: Plan, c: Checks, runs: seq<Run>)
    requires SlotIdsDistinct(plan.slots) && PlanColonFree(plan) && Bijection(plan, c, runs)
    ensures Accepted(SlotMap(plan.slots), runs) == runs && Missing(plan.slots, runs) == [] && |runs| == |plan.slots|
    ensures NoFailures(plan, SoundFor(c), c.attested, runs) <==> Passes(plan, c, runs)
  {
    CleanExactly(plan, c, runs);
    CleanAccepted(SlotMap(plan.slots), SoundFor(c), runs);
    CountsAddUpForDistinctSlots(plan.slots, runs);
    FairExactly(plan, c, runs);
    SoakExactly(plan, c, runs);
  }

  /** The campaign passes exactly when its runs match the plan in every respect. */
  lemma PassExactly(plan: Plan, c: Checks, runs: seq<Run>)
    requires SlotIdsDistinct(plan.slots) && PlanColonFree(plan)
    ensures StatusOf(plan, SoundFor(c), c.attested, runs) == Pass <==> Passes(plan, c, runs)
    ensures Passes(plan, c, runs) ==> |runs| == |plan.slots|
  {
    if Bijection(plan, c, runs) {
      PassOfBijection(plan, c, runs);
    } else if Clean(SlotMap(plan.slots), SoundFor(c), runs) {
      CleanAccepted(SlotMap(plan.slots), SoundFor(c), runs);
      CleanExactly(plan, c, runs);
    }
  }

  /** With rate thresholds of 1, a passing campaign has valid verdicts only, unanimous for every seed. */
  lemma FullRates(plan: Plan, c: Checks, runs: seq<Run>)
    requires SlotIdsDistinct(plan.slots) && PlanColonFree(plan) && plan.slots != []
    requires plan.thresholds.t0PassRate == 1.0
    requires StatusOf(plan, SoundFor(c), c.attested, runs) == Pass
    ensures forall run :: run in runs ==> IsValid(run)
    ensures |Filter(IsValid, runs)| == |plan.slots|
  {
    PassExactly(plan, c, runs);
    AllValid(runs, |plan.slots|, 0);
    FilterLength(IsValid, runs);
  }
}
