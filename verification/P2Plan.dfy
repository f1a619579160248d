/** The release gate's own check that a plan is the sealed P2 campaign. */
module P2Plan {
  import opened JsText
  import opened Sequences
  import opened Ordering
  import opened CampaignPlan

  /** What the gate demands: the configuration whose product is wanted, the one task, its roles and its build target. */
  datatype Target = Target(config: Config, taskId: Text, evidence: seq<Text>, buildTarget: Text)

  // ----- The check

  function TargetTask(q: Target, taskHash: Text, budgetHash: Text): Task {
    Task(q.taskId, taskHash, budgetHash, q.evidence, q.buildTarget)
  }

  /** The product, whatever the hashes. */
  function Product(q: Target): seq<Slot> {
    Slots(q.config, map[], [TargetTask(q, [], [])])
  }

  function IdSet(slots: seq<Slot>): set<Text> {
    set slot | slot in slots :: slot.slotId
  }

  predicate Header(q: Target, plan: Plan) {
    plan.campaignId == q.config.id && plan.soakMinutes == q.config.soakMinutes && plan.thresholds == q.config.thresholds
  }

  predicate SlotFits(q: Target, slot: Slot) {
    slot.campaignId == q.config.id && slot.taskId == q.taskId
    && slot.slotId == SlotId(slot.taskId, slot.host, slot.harness, slot.seed, slot.repetition)
    && IsHash(slot.taskHash) && IsHash(slot.budgetHash) && IsHash(slot.environmentHash)
    && SortTexts(slot.requiredEvidence) == q.evidence && slot.buildTarget == q.buildTarget
  }

  ghost predicate OneEnvironment(slots: seq<Slot>) {
    forall v, w :: v in slots && w in slots && v.host == w.host ==> v.environmentHash == w.environmentHash
  }

  ghost predicate OneTask(slots: seq<Slot>) {
    forall v, w :: v in slots && w in slots ==> v.taskHash == w.taskHash && v.budgetHash == w.budgetHash
  }

  /** The environment hash last seen for each host. */
  function Environments(slots: seq<Slot>): map<Text, Text> {
    if slots == [] then map[]
    else Environments(slots[..|slots| - 1])[slots[|slots| - 1].host := slots[|slots| - 1].environmentHash]
  }

  /** The plan check as its readers understand it. */
  ghost predicate Accepts(q: Target, plan: Plan) {
    Header(q, plan) && |plan.slots| == |Product(q)| && plan.slots != []
    && AllFit(Fits(q), IdSet(Product(q)), plan.slots)
    && |Environments(plan.slots)| == |q.config.hosts|
    && OneTask(plan.slots)
  }

  function Fits(q: Target): Slot -> bool {
    slot => SlotFits(q, slot)
  }

  /** Every slot fits and is expected, none comes twice, and each host has one environment. */
  ghost predicate AllFit(fit: Slot -> bool, expected: set<Text>, slots: seq<Slot>) {
    (forall slot :: slot in slots ==> fit(slot) && slot.slotId in expected)
    && SlotIdsDistinct(slots) && OneEnvironment(slots)
  }

  lemma {:induction false} EnvironmentsMember(slots: seq<Slot>, host: Text)
    ensures host in Environments(slots) <==> exists slot :: slot in slots && slot.host == host
    ensures host in Environments(slots) ==> exists slot ::
              slot in slots && slot.host == host && slot.environmentHash == Environments(slots)[host]
  {
    if slots != [] {
      var front, last := slots[..|slots| - 1], slots[|slots| - 1];
      EnvironmentsMember(front, host);
      assert slots == front + [last];
    }
  }

  lemma AllFitNext(fit: Slot -> bool, expected: set<Text>, slots: seq<Slot>, slot: Slot)
    ensures AllFit(fit, expected, slots + [slot]) <==>
            AllFit(fit, expected, slots) && fit(slot) && slot.slotId in expected - IdSet(slots)
            && (slot.host in Environments(slots) ==> Environments(slots)[slot.host] == slot.environmentHash)
  {
    var all := slots + [slot];
    assert forall s :: s in all <==> s in slots || s == slot;
    EnvironmentsMember(slots, slot.host);
    SlotIdsDistinctNext(slots, slot);
  }

  lemma SlotIdsDistinctNext(slots: seq<Slot>, slot: Slot)
    ensures SlotIdsDistinct(slots + [slot]) <==> SlotIdsDistinct(slots) && slot.slotId !in IdSet(slots)
  {
    var all := slots + [slot];
    if SlotIdsDistinct(all) {
      forall i, j | 0 <= i < j < |slots| ensures slots[i].slotId != slots[j].slotId {
        assert all[i].slotId != all[j].slotId;
      }
      forall i | 0 <= i < |slots| ensures slots[i].slotId != slot.slotId {
        assert all[i].slotId != all[|slots|].slotId;
      }
    }
    if SlotIdsDistinct(slots) && slot.slotId !in IdSet(slots) {
      forall i, j | 0 <= i < j < |all| ensures all[i].slotId != all[j].slotId {
        assert all[i] in slots;
      }
    }
  }

  /** The same, slot by slot, in the loop's own terms. */
  ghost predicate Consumes(fit: Slot -> bool, expected: set<Text>, slots: seq<Slot>) {
    slots == [] ||
    var front, last := slots[..|slots| - 1], slots[|slots| - 1];
    Consumes(fit, expected, front) && fit(last) && last.slotId in expected - IdSet(front)
    && (last.host in Environments(front) ==> Environments(front)[last.host] == last.environmentHash)
  }

  lemma {:induction false} ConsumesExactly(fit: Slot -> bool, expected: set<Text>, slots: seq<Slot>)
    ensures Consumes(fit, expected, slots) <==> AllFit(fit, expected, slots)
  {
    if slots != [] {
      ConsumesExactly(fit, expected, slots[..|slots| - 1]);
      AllFitNext(fit, expected, slots[..|slots| - 1], slots[|slots| - 1]);
      assert slots == slots[..|slots| - 1] + [slots[|slots| - 1]];
    }
  }

  lemma {:induction false} ConsumesPrefix(fit: Slot -> bool, expected: set<Text>, slots: seq<Slot>, n: nat)
    requires n <= |slots| && Consumes(fit, expected, slots)
    ensures Consumes(fit, expected, slots[..n])
  {
    if n < |slots| {
      ConsumesPrefix(fit, expected, slots[..|slots| - 1], n);
      assert slots[..|slots| - 1][..n] == slots[..n];
    } else {
      assert slots[..n] == slots;
    }
  }

  /** The loop that strikes each slot from the expected set and remembers one environment per host. */
  method ConsumeSlots(fit: Slot -> bool, expected: set<Text>, slots: seq<Slot>)
    returns (ok: bool, remaining: set<Text>, environments: map<Text, Text>)
    ensures ok <==> AllFit(fit, expected, slots)
    ensures ok ==> remaining == expected - IdSet(slots) && environments == Environments(slots)
  {
    remaining, environments := expected, map[];
    ConsumesExactly(fit, expected, slots);
    for i := 0 to |slots|
      invariant Consumes(fit, expected, slots[..i])
      invariant remaining == expected - IdSet(slots[..i])
      invariant environments == Environments(slots[..i])
    {
      var slot := slots[i];
      assert slots[..i + 1][..i] == slots[..i];
      if Consumes(fit, expected, slots) {
        ConsumesPrefix(fit, expected, slots, i + 1);
      }
      if !fit(slot) || slot.slotId !in remaining {
        return false, remaining, environments;
      }
      remaining := remaining - {slot.slotId};
      if slot.host in environments && environments[slot.host] != slot.environmentHash {
        return false, remaining, environments;
      }
      environments := environments[slot.host := slot.environmentHash];
      IdSetNext(slots, i);
    }
    assert slots[..|slots|] == slots;
    return true, remaining, environments;
  }

  lemma IdSetNext(slots: seq<Slot>, i: nat)
    requires i < |slots|
    ensures IdSet(slots[..i + 1]) == IdSet(slots[..i]) + {slots[i].slotId}
  {
    assert slots[..i + 1] == slots[..i] + [slots[i]];
  }

  // ----- The expected identities, as the gate builds them

  /** What the sets of the first `n` elements hold together. */
  ghost function Union<A>(f: A -> set<Text>, xs: seq<A>, n: nat): set<Text>
    requires n <= |xs|
  {
    if n == 0 then {} else Union(f, xs, n - 1) + f(xs[n - 1])
  }

  lemma {:induction false} UnionMember<A>(f: A -> set<Text>, xs: seq<A>, n: nat, id: Text)
    requires n <= |xs|
    ensures id in Union(f, xs, n) <==> exists i :: 0 <= i < n && id in f(xs[i])
  {
    if n > 0 {
      UnionMember(f, xs, n - 1, id);
    }
  }

  ghost function UnionAll<A>(f: A -> set<Text>, xs: seq<A>): set<Text> {
    Union(f, xs, |xs|)
  }

  lemma UnionAllMember<A>(f: A -> set<Text>, xs: seq<A>, id: Text)
    ensures id in UnionAll(f, xs) <==> exists x :: x in xs && id in f(x)
  {
    UnionMember(f, xs, |xs|, id);
    if x :| x in xs && id in f(x) {
      var i :| 0 <= i < |xs| && xs[i] == x;
    }
  }

  /** `ids` is `before` with the sets of the first `k` elements. */
  ghost predicate Gathered<A>(f: A -> set<Text>, xs: seq<A>, k: nat, before: set<Text>, ids: set<Text>) {
    k <= |xs| && ids == before + Union(f, xs, k)
  }

  lemma GatheredNext<A>(f: A -> set<Text>, xs: seq<A>, k: nat, before: set<Text>, ids: set<Text>, next: set<Text>)
    requires k < |xs| && Gathered(f, xs, k, before, ids) && next == ids + f(xs[k])
    ensures Gathered(f, xs, k + 1, before, next)
  {}

  ghost function IdOf(q: Target, host: Text, harness: Text, seed: int): int -> set<Text> {
    repetition => {SlotId(q.taskId, host, harness, seed, repetition)}
  }

  ghost function SeedIds(q: Target, host: Text, harness: Text): int -> set<Text> {
    seed => UnionAll(IdOf(q, host, harness, seed), Repetitions(q.config))
  }

  ghost function HarnessIds(q: Target, host: Text): Text -> set<Text> {
    harness => UnionAll(SeedIds(q, host, harness), q.config.seeds)
  }

  ghost function HostIds(q: Target): Text -> set<Text> {
    host => UnionAll(HarnessIds(q, host), q.config.harnesses)
  }

  /** The gate's four nested loops, over its own lists of hosts, harnesses, seeds and repetitions. */
  method ExpectedSlots(q: Target) returns (expected: set<Text>)
    ensures expected == IdSet(Product(q))
  {
    expected := AddHosts(q, HostIds(q));
    UnionIsProduct(q);
  }

  /** `ids` gives what each host adds, under a name the loop need not look into. */
  ghost predicate AddsHosts(q: Target, ids: Text -> set<Text>) {
    forall host: Text {:trigger HostIds(q)(host)} :: ids(host) == HostIds(q)(host)
  }

  /** The loop over the hosts. */
  method AddHosts(q: Target, ghost ids: Text -> set<Text>) returns (expected: set<Text>)
    requires AddsHosts(q, ids)
    ensures expected == UnionAll(ids, q.config.hosts)
  {
    expected := {};
    for h := 0 to |q.config.hosts|
      invariant Gathered(ids, q.config.hosts, h, {}, expected)
    {
      var next := AddHarnesses(q, q.config.hosts[h], expected, ids);
      GatheredNext(ids, q.config.hosts, h, {}, expected, next);
      expected := next;
    }
  }

  /** The loop over the harnesses, for one host. */
  method AddHarnesses(q: Target, host: Text, before: set<Text>, ghost ids: Text -> set<Text>)
    returns (expected: set<Text>)
    requires AddsHosts(q, ids)
    ensures expected == before + ids(host)
  {
    expected := before;
    for k := 0 to |q.config.harnesses|
      invariant Gathered(HarnessIds(q, host), q.config.harnesses, k, before, expected)
    {
      var next := AddSeeds(q, host, q.config.harnesses[k], expected);
      GatheredNext(HarnessIds(q, host), q.config.harnesses, k, before, expected, next);
      expected := next;
    }
    assert ids(host) == HostIds(q)(host);
  }

  /** The two inner loops. */
  method AddSeeds(q: Target, host: Text, harness: Text, before: set<Text>) returns (expected: set<Text>)
    ensures expected == before + HarnessIds(q, host)(harness)
  {
    expected := before;
    var repetitions := Repetitions(q.config);
    for s := 0 to |q.config.seeds|
      invariant Gathered(SeedIds(q, host, harness), q.config.seeds, s, before, expected)
    {
      var seed := q.config.seeds[s];
      ghost var beforeSeed := expected;
      for r := 0 to |repetitions|
        invariant Gathered(IdOf(q, host, harness, seed), repetitions, r, beforeSeed, expected)
      {
        var next := expected + {SlotId(q.taskId, host, harness, seed, repetitions[r])};
        GatheredNext(IdOf(q, host, harness, seed), repetitions, r, beforeSeed, expected, next);
        expected := next;
      }
      GatheredNext(SeedIds(q, host, harness), q.config.seeds, s, before, beforeSeed, expected);
    }
  }

  ghost predicate IsId(q: Target, host: Text, harness: Text, seed: int, repetition: int, id: Text) {
    id == SlotId(q.taskId, host, harness, seed, repetition)
  }

  lemma SeedIdsMember(q: Target, host: Text, harness: Text, seed: int, id: Text)
    ensures id in SeedIds(q, host, harness)(seed) <==>
            exists r :: 1 <= r <= q.config.repeatRuns && IsId(q, host, harness, seed, r, id)
  {
    var repetitions := Repetitions(q.config);
    UnionAllMember(IdOf(q, host, harness, seed), repetitions, id);
    if r :| 1 <= r <= q.config.repeatRuns && IsId(q, host, harness, seed, r, id) {
      assert repetitions[r - 1] == r;
      assert id in IdOf(q, host, harness, seed)(r);
    }
    if r :| r in repetitions && id in IdOf(q, host, harness, seed)(r) {
      var i :| 0 <= i < |repetitions| && repetitions[i] == r;
      assert IsId(q, host, harness, seed, r, id);
    }
  }

  lemma HarnessIdsMember(q: Target, host: Text, harness: Text, id: Text)
    ensures id in HarnessIds(q, host)(harness) <==>
            exists seed, r ::
              seed in q.config.seeds && 1 <= r <= q.config.repeatRuns && IsId(q, host, harness, seed, r, id)
  {
    var f := SeedIds(q, host, harness);
    UnionAllMember(f, q.config.seeds, id);
    forall seed
      ensures id in f(seed) <==> exists r :: 1 <= r <= q.config.repeatRuns && IsId(q, host, harness, seed, r, id)
    {
      SeedIdsMember(q, host, harness, seed, id);
    }
  }

  /** The identity has a harness, a seed and a repetition that are asked for. */
  ghost predicate PartsAsked(q: Target, host: Text, id: Text) {
    exists harness, seed, r :: harness in q.config.harnesses && seed in q.config.seeds
                               && 1 <= r <= q.config.repeatRuns && IsId(q, host, harness, seed, r, id)
  }

  lemma HostIdsMember(q: Target, host: Text, id: Text)
    ensures id in HostIds(q)(host) <==> PartsAsked(q, host, id)
  {
    var f := HarnessIds(q, host);
    UnionAllMember(f, q.config.harnesses, id);
    forall harness
      ensures id in f(harness) <==>
              exists seed, r :: seed in q.config.seeds && 1 <= r <= q.config.repeatRuns
                                && IsId(q, host, harness, seed, r, id)
    {
      HarnessIdsMember(q, host, harness, id);
    }
  }

  lemma PartsAreAsked(q: Target, id: Text)
    ensures (exists host :: host in q.config.hosts && PartsAsked(q, host, id)) <==>
            exists slot :: AskedFor(q, slot) && slot.slotId == id
  {
    if host :| host in q.config.hosts && PartsAsked(q, host, id) {
      var harness, seed, r :| harness in q.config.harnesses && seed in q.config.seeds
                              && 1 <= r <= q.config.repeatRuns && IsId(q, host, harness, seed, r, id);
      assert AskedFor(q, MakeSlot(q.config, map[], TargetTask(q, [], []), host, harness, seed, r));
    }
    if slot :| AskedFor(q, slot) && slot.slotId == id {
      assert IsId(q, slot.host, slot.harness, slot.seed, slot.repetition, id);
      assert PartsAsked(q, slot.host, id);
    }
  }

  lemma UnionExpects(q: Target, ids: Text -> set<Text>)
    requires forall host, id :: id in ids(host) <==> PartsAsked(q, host, id)
    ensures Expects(q, UnionAll(ids, q.config.hosts))
  {
    var expected := UnionAll(ids, q.config.hosts);
    forall id: Text
      ensures id in expected <==> exists slot :: AskedFor(q, slot) && slot.slotId == id
    {
      UnionAllMember(ids, q.config.hosts, id);
      PartsAreAsked(q, id);
    }
  }

  lemma ExpectsOnce(q: Target, a: set<Text>, b: set<Text>)
    requires Expects(q, a) && Expects(q, b)
    ensures a == b
  {}

  /** Planner and gate, each with its own loops, ask for the same identities. */
  lemma UnionIsProduct(q: Target)
    ensures UnionAll(HostIds(q), q.config.hosts) == IdSet(Product(q))
  {
    forall host, id
      ensures id in HostIds(q)(host) <==> PartsAsked(q, host, id)
    {
      HostIdsMember(q, host, id);
    }
    UnionExpects(q, HostIds(q));
    ProductExpects(q);
    ExpectsOnce(q, UnionAll(HostIds(q), q.config.hosts), IdSet(Product(q)));
  }

  // ----- The whole check

  /** What the gate's constants satisfy. */
  ghost predicate Proper(q: Target, expectedRuns: nat) {
    ValidConfig(q.config) && NamesColonFree(q)
    && SortTexts(q.evidence) == q.evidence && expectedRuns == |Product(q)|
  }

  lemma ProductIds(q: Target, env: map<Text, Text>, taskHash: Text, budgetHash: Text)
    requires ValidConfig(q.config) && NamesColonFree(q)
    ensures SlotIdsDistinct(Slots(q.config, env, [TargetTask(q, taskHash, budgetHash)]))
    ensures |Slots(q.config, env, [TargetTask(q, taskHash, budgetHash)])| == |Product(q)| > 0
  {
    var task := TargetTask(q, taskHash, budgetHash);
    PlanIdsDistinct(q.config, env, [task]);
    PlanSize(q.config, env, [task]);
    PlanSize(q.config, map[], [TargetTask(q, [], [])]);
    Positive(|q.config.seeds|, q.config.repeatRuns);
    Positive(|q.config.harnesses|, |q.config.seeds| * q.config.repeatRuns);
    Positive(|q.config.hosts|, |q.config.harnesses| * (|q.config.seeds| * q.config.repeatRuns));
  }

  lemma Positive(a: nat, b: nat)
    requires a > 0 && b > 0
    ensures a * b > 0
  {}

  lemma {:induction false} IdSetSize(slots: seq<Slot>)
    requires SlotIdsDistinct(slots)
    ensures |IdSet(slots)| == |slots|
  {
    var ids := seq(|slots|, i requires 0 <= i < |slots| => slots[i].slotId);
    forall id
      ensures id in ids <==> id in IdSet(slots)
    {
      if id in IdSet(slots) {
        var slot :| slot in slots && slot.slotId == id;
        var i :| 0 <= i < |slots| && slots[i] == slot;
        assert ids[i] == id;
      }
    }
    DistinctCount(ids, IdSet(slots));
  }

  /** Distinct fitting slots, as many as expected, strike out the whole expected set. */
  lemma AllConsumed(q: Target, slots: seq<Slot>)
    requires ValidConfig(q.config) && NamesColonFree(q)
    requires SlotIdsDistinct(slots) && |slots| == |Product(q)| && IdSet(slots) <= IdSet(Product(q))
    ensures IdSet(slots) == IdSet(Product(q))
  {
    ProductIds(q, map[], [], []);
    IdSetSize(slots);
    IdSetSize(Product(q));
    SubsetSize(IdSet(slots), IdSet(Product(q)));
  }

  function HashPair(slot: Slot): Text {
    slot.taskHash + [COLON] + slot.budgetHash
  }

  lemma HashPairInjective(a: Slot, b: Slot)
    requires IsHash(a.taskHash) && IsHash(b.taskHash)
    ensures HashPair(a) == HashPair(b) <==> a.taskHash == b.taskHash && a.budgetHash == b.budgetHash
  {
    if HashPair(a) == HashPair(b) {
      assert HashPair(a)[..71] == a.taskHash && HashPair(b)[..71] == b.taskHash;
      assert HashPair(a)[72..] == a.budgetHash && HashPair(b)[72..] == b.budgetHash;
    }
  }

  lemma OnePair(slots: seq<Slot>, pairs: set<Text>)
    requires slots != [] && (forall slot :: slot in slots ==> IsHash(slot.taskHash))
    requires pairs == set slot | slot in slots :: HashPair(slot)
    ensures |pairs| == 1 <==> OneTask(slots)
  {
    var first := slots[0];
    assert first in slots;
    assert {HashPair(first)} <= pairs;
    forall v, w | v in slots && w in slots
      ensures HashPair(v) == HashPair(w) <==> v.taskHash == w.taskHash && v.budgetHash == w.budgetHash
    {
      HashPairInjective(v, w);
    }
    if |pairs| == 1 {
      SubsetSize({HashPair(first)}, pairs);
      forall v | v in slots ensures HashPair(v) == HashPair(first) {
        assert HashPair(v) in pairs;
      }
    }
    if OneTask(slots) {
      assert pairs == {HashPair(first)};
    }
  }

  ghost predicate TaskHashed(slots: seq<Slot>) {
    forall slot :: slot in slots ==> IsHash(slot.taskHash)
  }

  /** The last condition: one pair of hashes in all. */
  method OneHashPair(slots: seq<Slot>) returns (ok: bool)
    requires slots != [] && TaskHashed(slots)
    ensures ok <==> OneTask(slots)
  {
    var pairs := set slot | slot in slots :: HashPair(slot);
    OnePair(slots, pairs);
    ok := |pairs| == 1;
  }

  /** What fitting slots, as many as there have to be, leave for the end of the check. */
  lemma FittingSlots(q: Target, expected: set<Text>, slots: seq<Slot>)
    requires ValidConfig(q.config) && NamesColonFree(q) && expected == IdSet(Product(q))
    requires |slots| == |Product(q)| && AllFit(Fits(q), expected, slots)
    ensures slots != [] && TaskHashed(slots) && expected - IdSet(slots) == {}
  {
    ProductIds(q, map[], [], []);
    forall slot | slot in slots ensures IsHash(slot.taskHash) {
      assert Fits(q)(slot);
    }
    AllConsumed(q, slots);
  }

  /** The gate's plan check. */
  method ValidPlan(q: Target, expectedRuns: nat, plan: Plan) returns (ok: bool)
    requires Proper(q, expectedRuns)
    ensures ok <==> Accepts(q, plan)
  {
    if !Header(q, plan) || |plan.slots| != expectedRuns {
      return false;
    }
    var expected := ExpectedSlots(q);
    var fit, remaining, environments := ConsumeSlots(Fits(q), expected, plan.slots);
    if !fit {
      return false;
    }
    FittingSlots(q, expected, plan.slots);
    var one := OneHashPair(plan.slots);
    ok := remaining == {} && |environments| == |q.config.hosts| && one;
  }

  // ----- Reading a slot back from its identity

  predicate IsColon(u: CodeUnit) {
    u == COLON
  }

  function Colons(t: Text): nat {
    |Filter(IsColon, t)|
  }

  lemma ColonsConcat(a: Text, b: Text)
    ensures Colons(a + b) == Colons(a) + Colons(b)
  {
    FilterConcat(IsColon, a, b);
  }

  lemma ColonFreeExactly(t: Text)
    ensures ColonFree(t) <==> Colons(t) == 0
  {
    var found := Filter(IsColon, t);
    if Colons(t) == 0 {
      forall i | 0 <= i < |t| ensures t[i] != COLON {
        FilterMember(IsColon, t, t[i]);
      }
    } else {
      FilterMember(IsColon, t, found[0]);
    }
  }

  lemma SeparatorColons(a: Text, b: Text)
    ensures Colons(a + [COLON, COLON] + b) == Colons(a) + 2 + Colons(b)
  {
    ColonsConcat(a + [COLON, COLON], b);
    ColonsConcat(a, [COLON, COLON]);
    ColonsConcat([COLON], [COLON]);
    assert [COLON] + [COLON] == [COLON, COLON];
    assert Filter(IsColon, [COLON]) == [COLON];
  }

  lemma NameTextColons(n: Names)
    ensures Colons(NameText(n)) == 4 + Colons(n.task) + Colons(n.host) + Colons(n.harness)
  {
    NameTextParts(n);
    SeparatorColons(n.task + [COLON, COLON] + n.host, n.harness);
    SeparatorColons(n.task, n.host);
  }

  /** An identity with the colons of its separators only names its five parts, whatever the parts were. */
  lemma SlotIdDetermines(a: Slot, b: Slot)
    requires NamesFree(NamesOf(a))
    requires SlotId(a.taskId, a.host, a.harness, a.seed, a.repetition)
          == SlotId(b.taskId, b.host, b.harness, b.seed, b.repetition)
    ensures NamesOf(a) == NamesOf(b) && a.seed == b.seed && a.repetition == b.repetition
  {
    SlotIdsEqual(a, b);
    NameTextColons(NamesOf(a));
    NameTextColons(NamesOf(b));
    ColonFreeExactly(a.taskId);
    ColonFreeExactly(a.host);
    ColonFreeExactly(a.harness);
    ColonFreeExactly(b.taskId);
    ColonFreeExactly(b.host);
    ColonFreeExactly(b.harness);
    NameTextInjective(NamesOf(a), NamesOf(b));
  }

  // ----- What the check accepts: the permutations of the product

  function Normal(slot: Slot): Slot {
    slot.(requiredEvidence := SortTexts(slot.requiredEvidence))
  }

  function NormalSlots(slots: seq<Slot>): (r: seq<Slot>)
    ensures |r| == |slots|
  {
    seq(|slots|, i requires 0 <= i < |slots| => Normal(slots[i]))
  }

  /** The slots, with their roles sorted, are a permutation of the product for these hashes. */
  ghost predicate IsProduct(q: Target, slots: seq<Slot>, env: map<Text, Text>, taskHash: Text, budgetHash: Text) {
    IsHash(taskHash) && IsHash(budgetHash) && All(CampaignPlan.Sealed(env), q.config.hosts)
    && Permutation(NormalSlots(slots), Slots(q.config, env, [TargetTask(q, taskHash, budgetHash)]))
  }

  /** Membership of the product, which is all that the proofs below need of it. */
  lemma ProductMember(q: Target, slot: Slot, env: map<Text, Text>, taskHash: Text, budgetHash: Text)
    ensures slot in Slots(q.config, env, [TargetTask(q, taskHash, budgetHash)]) <==>
            PlannedFor(q.config, env, TargetTask(q, taskHash, budgetHash), slot)
  {
    OneTaskMember(q.config, env, TargetTask(q, taskHash, budgetHash), slot);
  }

  lemma OneTaskMember(c: Config, env: map<Text, Text>, task: Task, slot: Slot)
    ensures slot in Slots(c, env, [task]) <==> PlannedFor(c, env, task, slot)
  {
    PlanMembers(c, env, [task], slot);
    assert [task][0] == task;
  }

  ghost predicate NamesColonFree(q: Target) {
    All(ColonFree, q.config.hosts) && All(ColonFree, q.config.harnesses) && ColonFree(q.taskId)
  }

  /** The five parts of a slot are asked for. */
  ghost predicate AskedFor(q: Target, slot: Slot) {
    slot.taskId == q.taskId && slot.host in q.config.hosts && slot.harness in q.config.harnesses
    && slot.seed in q.config.seeds && 1 <= slot.repetition <= q.config.repeatRuns
    && slot.slotId == SlotId(slot.taskId, slot.host, slot.harness, slot.seed, slot.repetition)
  }

  /** `expected` holds exactly the identities of the combinations asked for. */
  ghost predicate Expects(q: Target, expected: set<Text>) {
    (forall slot :: AskedFor(q, slot) ==> slot.slotId in expected)
    && forall id :: id in expected ==> exists e :: AskedFor(q, e) && e.slotId == id
  }

  lemma ProductExpects(q: Target)
    ensures Expects(q, IdSet(Product(q)))
  {
    forall slot | AskedFor(q, slot)
      ensures slot.slotId in IdSet(Product(q))
    {
      var e := MakeSlot(q.config, map[], TargetTask(q, [], []), slot.host, slot.harness, slot.seed, slot.repetition);
      ProductMember(q, e, map[], [], []);
      assert e in Product(q);
    }
    forall id | id in IdSet(Product(q))
      ensures exists e :: AskedFor(q, e) && e.slotId == id
    {
      var e :| e in Product(q) && e.slotId == id;
      ProductMember(q, e, map[], [], []);
      assert AskedFor(q, e);
    }
  }

  lemma AskedColonFree(q: Target, slot: Slot)
    requires NamesColonFree(q) && AskedFor(q, slot)
    ensures NamesFree(NamesOf(slot))
  {
    var h :| 0 <= h < |q.config.hosts| && q.config.hosts[h] == slot.host;
    var k :| 0 <= k < |q.config.harnesses| && q.config.harnesses[k] == slot.harness;
  }

  lemma FittingIsAsked(q: Target, expected: set<Text>, slot: Slot)
    requires NamesColonFree(q) && Expects(q, expected) && slot.slotId in expected
    requires slot.slotId == SlotId(slot.taskId, slot.host, slot.harness, slot.seed, slot.repetition)
    ensures AskedFor(q, slot)
  {
    var e :| AskedFor(q, e) && e.slotId == slot.slotId;
    AskedColonFree(q, e);
    SlotIdDetermines(e, slot);
  }

  /** The slot carries these hashes and, with its roles sorted, everything else the target asks. */
  ghost predicate Carries(q: Target, slot: Slot, env: map<Text, Text>, taskHash: Text, budgetHash: Text) {
    slot.campaignId == q.config.id && slot.taskHash == taskHash && slot.budgetHash == budgetHash
    && slot.environmentHash == EnvironmentOf(env, slot.host)
    && SortTexts(slot.requiredEvidence) == q.evidence && slot.buildTarget == q.buildTarget
  }

  /** All that the proofs below need to know of the product with given hashes. */
  ghost predicate Lists(q: Target, env: map<Text, Text>, taskHash: Text, budgetHash: Text, product: seq<Slot>,
                        size: nat)
  {
    (forall slot :: Normal(slot) in product <==> AskedFor(q, slot) && Carries(q, slot, env, taskHash, budgetHash))
    && (forall x :: x in product ==> x.requiredEvidence == q.evidence)
    && SlotIdsDistinct(product) && |product| == size
  }

  lemma ProductLists(q: Target, env: map<Text, Text>, taskHash: Text, budgetHash: Text)
    requires ValidConfig(q.config) && NamesColonFree(q)
    ensures Lists(q, env, taskHash, budgetHash, Slots(q.config, env, [TargetTask(q, taskHash, budgetHash)]),
                  |Product(q)|)
  {
    ProductIds(q, env, taskHash, budgetHash);
    forall slot: Slot
      ensures Normal(slot) in Slots(q.config, env, [TargetTask(q, taskHash, budgetHash)]) <==>
              AskedFor(q, slot) && Carries(q, slot, env, taskHash, budgetHash)
    {
      PlannedExactly(q, slot, env, taskHash, budgetHash);
    }
    forall x | x in Slots(q.config, env, [TargetTask(q, taskHash, budgetHash)])
      ensures x.requiredEvidence == q.evidence
    {
      ProductMember(q, x, env, taskHash, budgetHash);
    }
  }

  lemma PlannedExactly(q: Target, slot: Slot, env: map<Text, Text>, taskHash: Text, budgetHash: Text)
    ensures Normal(slot) in Slots(q.config, env, [TargetTask(q, taskHash, budgetHash)]) <==>
            AskedFor(q, slot) && Carries(q, slot, env, taskHash, budgetHash)
  {
    ProductMember(q, Normal(slot), env, taskHash, budgetHash);
  }

  lemma NormalMember(slots: seq<Slot>, x: Slot)
    ensures x in NormalSlots(slots) <==> exists slot :: slot in slots && Normal(slot) == x
  {
    if x in NormalSlots(slots) {
      var i :| 0 <= i < |slots| && NormalSlots(slots)[i] == x;
      assert slots[i] in slots;
    }
    if slot :| slot in slots && Normal(slot) == x {
      var i :| 0 <= i < |slots| && slots[i] == slot;
      assert NormalSlots(slots)[i] == x;
    }
  }

  lemma NormalDistinct(slots: seq<Slot>)
    ensures SlotIdsDistinct(slots) <==> SlotIdsDistinct(NormalSlots(slots))
  {
    assert forall i :: 0 <= i < |slots| ==> NormalSlots(slots)[i].slotId == slots[i].slotId;
  }

  /** Distinct slots, as many as the product has, each the product's once sorted, permute the product. */
  lemma NormalsFill(slots: seq<Slot>, product: seq<Slot>)
    requires SlotIdsDistinct(slots) && SlotIdsDistinct(product) && |slots| == |product|
    requires forall slot :: slot in slots ==> Normal(slot) in product
    ensures Permutation(NormalSlots(slots), product)
  {
    forall x | x in NormalSlots(slots) ensures x in product {
      NormalMember(slots, x);
    }
    NormalDistinct(slots);
    IdsDistinctSlots(NormalSlots(slots));
    IdsDistinctSlots(product);
    FillsUp(NormalSlots(slots), product);
  }

  /** And conversely. */
  lemma PermutedNormals(slots: seq<Slot>, product: seq<Slot>)
    requires Permutation(NormalSlots(slots), product) && SlotIdsDistinct(product)
    ensures |slots| == |product| && SlotIdsDistinct(slots)
    ensures forall slot :: slot in slots ==> Normal(slot) in product
    ensures forall x :: x in product ==> exists slot :: slot in slots && Normal(slot) == x
  {
    PermutationMembers(NormalSlots(slots), product);
    PairwisePermuted(OtherId, product, NormalSlots(slots));
    NormalDistinct(slots);
    forall slot | slot in slots ensures Normal(slot) in product {
      NormalMember(slots, Normal(slot));
    }
    forall x | x in product ensures exists slot :: slot in slots && Normal(slot) == x {
      NormalMember(slots, x);
    }
  }

  ghost predicate OtherId(a: Slot, b: Slot) {
    a.slotId != b.slotId
  }

  // ----- Accepted plans are permutations of the product

  lemma FitAt(fit: Slot -> bool, expected: set<Text>, slots: seq<Slot>, slot: Slot)
    requires AllFit(fit, expected, slots) && slot in slots
    ensures fit(slot) && slot.slotId in expected
    ensures slot.host in Environments(slots) && Environments(slots)[slot.host] == slot.environmentHash
  {
    EnvironmentsMember(slots, slot.host);
  }

  lemma FitCarries(q: Target, expected: set<Text>, slots: seq<Slot>, slot: Slot)
    requires NamesColonFree(q) && Expects(q, expected) && AllFit(Fits(q), expected, slots) && OneTask(slots)
    requires slot in slots && slots[0] in slots
    ensures AskedFor(q, slot) && Carries(q, slot, Environments(slots), slots[0].taskHash, slots[0].budgetHash)
    ensures IsHash(slot.environmentHash) && IsHash(slot.taskHash) && IsHash(slot.budgetHash)
  {
    FitAt(Fits(q), expected, slots, slot);
    assert SlotFits(q, slot);
    FittingIsAsked(q, expected, slot);
  }

  lemma FitPermutes(q: Target, expected: set<Text>, slots: seq<Slot>, product: seq<Slot>)
    requires NamesColonFree(q) && Expects(q, expected) && AllFit(Fits(q), expected, slots) && OneTask(slots)
             && slots != []
    requires Lists(q, Environments(slots), slots[0].taskHash, slots[0].budgetHash, product, |slots|)
    ensures Permutation(NormalSlots(slots), product)
    ensures IsHash(slots[0].taskHash) && IsHash(slots[0].budgetHash)
  {
    assert slots[0] in slots;
    forall slot | slot in slots
      ensures Normal(slot) in product
    {
      FitCarries(q, expected, slots, slot);
    }
    NormalsFill(slots, product);
    FitCarries(q, expected, slots, slots[0]);
  }

  /** A host of the target, with the first harness, seed and repetition. */
  function Sample(q: Target, env: map<Text, Text>, host: Text, taskHash: Text, budgetHash: Text): Slot
    requires q.config.harnesses != [] && q.config.seeds != []
  {
    MakeSlot(q.config, env, TargetTask(q, taskHash, budgetHash), host, q.config.harnesses[0], q.config.seeds[0], 1)
  }

  /** Every host of the target has a slot in a list that permutes the product. */
  lemma HostHasSlot(q: Target, slots: seq<Slot>, env: map<Text, Text>, taskHash: Text, budgetHash: Text,
                    product: seq<Slot>, host: Text)
    returns (slot: Slot)
    requires q.config.harnesses != [] && q.config.seeds != [] && q.config.repeatRuns >= 1 && host in q.config.hosts
    requires SortTexts(q.evidence) == q.evidence && Lists(q, env, taskHash, budgetHash, product, |slots|)
    requires Permutation(NormalSlots(slots), product)
    ensures slot in slots && slot.host == host
  {
    var x := Sample(q, env, host, taskHash, budgetHash);
    assert AskedFor(q, x) && Carries(q, x, env, taskHash, budgetHash);
    assert Normal(x) in product;
    PermutedNormals(slots, product);
    slot :| slot in slots && Normal(slot) == Normal(x);
  }

  lemma FitHostsSealed(q: Target, expected: set<Text>, slots: seq<Slot>, product: seq<Slot>)
    requires q.config.harnesses != [] && q.config.seeds != [] && q.config.repeatRuns >= 1
             && SortTexts(q.evidence) == q.evidence
    requires NamesColonFree(q) && Expects(q, expected) && AllFit(Fits(q), expected, slots) && OneTask(slots)
             && slots != []
    requires Lists(q, Environments(slots), slots[0].taskHash, slots[0].budgetHash, product, |slots|)
    requires Permutation(NormalSlots(slots), product)
    ensures All(CampaignPlan.Sealed(Environments(slots)), q.config.hosts)
  {
    var env := Environments(slots);
    assert slots[0] in slots;
    forall i | 0 <= i < |q.config.hosts|
      ensures CampaignPlan.Sealed(env)(q.config.hosts[i])
    {
      var slot := HostHasSlot(q, slots, env, slots[0].taskHash, slots[0].budgetHash, product, q.config.hosts[i]);
      FitAt(Fits(q), expected, slots, slot);
      FitCarries(q, expected, slots, slot);
    }
  }

  /** Everything that makes fitting slots a product, for any list that lists the product. */
  lemma FitIsProduct(q: Target, expected: set<Text>, slots: seq<Slot>, product: seq<Slot>)
    requires q.config.harnesses != [] && q.config.seeds != [] && q.config.repeatRuns >= 1
    requires NamesColonFree(q) && SortTexts(q.evidence) == q.evidence && Expects(q, expected)
    requires AllFit(Fits(q), expected, slots) && OneTask(slots) && slots != []
    requires Lists(q, Environments(slots), slots[0].taskHash, slots[0].budgetHash, product, |slots|)
    ensures Permutation(NormalSlots(slots), product) && All(CampaignPlan.Sealed(Environments(slots)), q.config.hosts)
    ensures IsHash(slots[0].taskHash) && IsHash(slots[0].budgetHash)
  {
    FitPermutes(q, expected, slots, product);
    FitHostsSealed(q, expected, slots, product);
  }

  lemma FittingIsProduct(q: Target, expected: set<Text>, slots: seq<Slot>)
    requires ValidConfig(q.config) && NamesColonFree(q) && SortTexts(q.evidence) == q.evidence && Expects(q, expected)
    requires AllFit(Fits(q), expected, slots) && OneTask(slots) && slots != [] && |slots| == |Product(q)|
    ensures IsProduct(q, slots, Environments(slots), slots[0].taskHash, slots[0].budgetHash)
  {
    var env, taskHash, budgetHash := Environments(slots), slots[0].taskHash, slots[0].budgetHash;
    ProductLists(q, env, taskHash, budgetHash);
    FitIsProduct(q, expected, slots, Slots(q.config, env, [TargetTask(q, taskHash, budgetHash)]));
  }

  lemma AcceptedIsProduct(q: Target, plan: Plan)
    requires Proper(q, |Product(q)|) && Accepts(q, plan)
    ensures IsProduct(q, plan.slots, Environments(plan.slots), plan.slots[0].taskHash, plan.slots[0].budgetHash)
  {
    ProductExpects(q);
    FittingIsProduct(q, IdSet(Product(q)), plan.slots);
  }

  // ----- Permutations of the product are accepted

  lemma SealedHost(q: Target, env: map<Text, Text>, host: Text)
    requires All(CampaignPlan.Sealed(env), q.config.hosts) && host in q.config.hosts
    ensures IsHash(EnvironmentOf(env, host))
  {
    var i :| 0 <= i < |q.config.hosts| && q.config.hosts[i] == host;
    assert CampaignPlan.Sealed(env)(q.config.hosts[i]);
  }

  lemma ProductFits(q: Target, expected: set<Text>, slots: seq<Slot>, env: map<Text, Text>, taskHash: Text,
                    budgetHash: Text, product: seq<Slot>)
    requires Expects(q, expected) && Lists(q, env, taskHash, budgetHash, product, |product|)
    requires IsHash(taskHash) && IsHash(budgetHash) && All(CampaignPlan.Sealed(env), q.config.hosts)
    requires Permutation(NormalSlots(slots), product)
    ensures AllFit(Fits(q), expected, slots) && OneTask(slots)
    ensures forall slot :: slot in slots ==> slot.host in q.config.hosts
  {
    PermutedNormals(slots, product);
    forall slot | slot in slots
      ensures AskedFor(q, slot) && Carries(q, slot, env, taskHash, budgetHash) && Fits(q)(slot)
              && slot.slotId in expected
    {
      assert Normal(slot) in product;
      SealedHost(q, env, slot.host);
    }
  }

  lemma ProductHosts(q: Target, slots: seq<Slot>, env: map<Text, Text>, taskHash: Text, budgetHash: Text,
                     product: seq<Slot>)
    requires q.config.harnesses != [] && q.config.seeds != [] && q.config.repeatRuns >= 1 && Distinct(q.config.hosts)
    requires SortTexts(q.evidence) == q.evidence && Lists(q, env, taskHash, budgetHash, product, |slots|)
    requires Permutation(NormalSlots(slots), product)
    requires forall slot :: slot in slots ==> slot.host in q.config.hosts
    ensures |Environments(slots)| == |q.config.hosts|
  {
    forall host
      ensures host in q.config.hosts <==> host in Environments(slots).Keys
    {
      EnvironmentsMember(slots, host);
      if host in q.config.hosts {
        var slot := HostHasSlot(q, slots, env, taskHash, budgetHash, product, host);
      }
    }
    DistinctCount(q.config.hosts, Environments(slots).Keys);
  }

  lemma ProductIsAccepted(q: Target, plan: Plan, env: map<Text, Text>, taskHash: Text, budgetHash: Text)
    requires Proper(q, |Product(q)|) && Header(q, plan) && IsProduct(q, plan.slots, env, taskHash, budgetHash)
    ensures Accepts(q, plan)
  {
    var product := Slots(q.config, env, [TargetTask(q, taskHash, budgetHash)]);
    ProductExpects(q);
    ProductLists(q, env, taskHash, budgetHash);
    ProductIds(q, env, taskHash, budgetHash);
    ProductFits(q, IdSet(Product(q)), plan.slots, env, taskHash, budgetHash, product);
    PermutedNormals(plan.slots, product);
    ProductHosts(q, plan.slots, env, taskHash, budgetHash, product);
  }

  /**
   * The consuming check accepts exactly the permutations of the product with one environment
   * hash per host and one pair of task and budget hashes.
   */
  lemma AcceptsExactly(q: Target, plan: Plan)
    requires Proper(q, |Product(q)|)
    ensures Accepts(q, plan) <==>
            Header(q, plan) && exists env, taskHash, budgetHash :: IsProduct(q, plan.slots, env, taskHash, budgetHash)
  {
    if Accepts(q, plan) {
      AcceptedIsProduct(q, plan);
    } else if Header(q, plan) {
      if env, taskHash, budgetHash :| IsProduct(q, plan.slots, env, taskHash, budgetHash) {
        ProductIsAccepted(q, plan, env, taskHash, budgetHash);
      }
    }
  }

  // ----- The planner's own output

  /** A configuration that asks for the target's product, with every list in an order of its own. */
  ghost predicate AsksFor(c: Config, q: Target) {
    c.id == q.config.id && c.soakMinutes == q.config.soakMinutes && c.thresholds == q.config.thresholds
    && c.repeatRuns == q.config.repeatRuns
    && Permutation(c.hosts, q.config.hosts) && Permutation(c.harnesses, q.config.harnesses)
    && Permutation(c.seeds, q.config.seeds)
  }

  lemma PlannedSlot(c: Config, q: Target, task: Task, env: map<Text, Text>, slot: Slot)
    requires AsksFor(c, q) && task.id == q.taskId && task.buildTarget == q.buildTarget
             && SortTexts(task.evidence) == q.evidence
    ensures PlannedFor(c, env, task, slot) <==>
            AskedFor(q, slot) && Carries(q, slot, env, task.hash, task.budgetHash)
            && slot.requiredEvidence == task.evidence
  {
    PermutationMembers(c.hosts, q.config.hosts);
    PermutationMembers(c.harnesses, q.config.harnesses);
    PermutationMembers(c.seeds, q.config.seeds);
  }

  lemma PlannedNormals(c: Config, q: Target, task: Task, env: map<Text, Text>, slots: seq<Slot>, product: seq<Slot>)
    requires AsksFor(c, q) && task.id == q.taskId && task.buildTarget == q.buildTarget
             && SortTexts(task.evidence) == q.evidence
    requires SortTexts(q.evidence) == q.evidence && Lists(q, env, task.hash, task.budgetHash, product, |product|)
    requires SlotIdsDistinct(slots) && forall slot :: slot in slots <==> PlannedFor(c, env, task, slot)
    ensures Permutation(NormalSlots(slots), product)
  {
    forall x
      ensures x in NormalSlots(slots) <==> x in product
    {
      NormalMember(slots, x);
      if slot :| slot in slots && Normal(slot) == x {
        PlannedSlot(c, q, task, env, slot);
      }
      if x in product {
        assert Normal(x) == x;
        var slot := x.(requiredEvidence := task.evidence);
        PlannedSlot(c, q, task, env, slot);
        assert Normal(slot) == x;
      }
    }
    NormalDistinct(slots);
    IdsDistinctSlots(NormalSlots(slots));
    IdsDistinctSlots(product);
    DistinctPermutation(NormalSlots(slots), product);
  }

  /** All that is needed of the planner's output for one task. */
  ghost predicate PlanOf(c: Config, env: map<Text, Text>, task: Task, slots: seq<Slot>) {
    SlotIdsDistinct(slots) && forall slot :: slot in slots <==> PlannedFor(c, env, task, slot)
  }

  lemma PlanOfOne(c: Config, env: map<Text, Text>, task: Task)
    requires ValidConfig(c) && ComponentsColonFree(c, [task])
    ensures PlanOf(c, env, task, Slots(c, env, [task]))
  {
    PlanIdsDistinct(c, env, [task]);
    forall slot: Slot
      ensures slot in Slots(c, env, [task]) <==> PlannedFor(c, env, task, slot)
    {
      OneTaskMember(c, env, task, slot);
    }
  }

  lemma HostsSealedToo(c: Config, q: Target, env: map<Text, Text>)
    requires AsksFor(c, q) && All(CampaignPlan.Sealed(env), c.hosts)
    ensures All(CampaignPlan.Sealed(env), q.config.hosts)
  {
    PermutationMembers(c.hosts, q.config.hosts);
    forall i | 0 <= i < |q.config.hosts| ensures CampaignPlan.Sealed(env)(q.config.hosts[i]) {
      assert q.config.hosts[i] in c.hosts;
      var j :| 0 <= j < |c.hosts| && c.hosts[j] == q.config.hosts[i];
      assert CampaignPlan.Sealed(env)(c.hosts[j]);
    }
  }

  lemma PlannedIsProduct(c: Config, q: Target, task: Task, env: map<Text, Text>, slots: seq<Slot>)
    requires ValidConfig(q.config) && NamesColonFree(q) && SortTexts(q.evidence) == q.evidence
    requires AsksFor(c, q) && PlanOf(c, env, task, slots) && All(CampaignPlan.Sealed(env), c.hosts)
    requires task.id == q.taskId && task.buildTarget == q.buildTarget && SortTexts(task.evidence) == q.evidence
    requires IsHash(task.hash) && IsHash(task.budgetHash)
    ensures IsProduct(q, slots, env, task.hash, task.budgetHash)
  {
    HostsSealedToo(c, q, env);
    ProductLists(q, env, task.hash, task.budgetHash);
    ProductIds(q, env, task.hash, task.budgetHash);
    PlannedNormals(c, q, task, env, slots, Slots(q.config, env, [TargetTask(q, task.hash, task.budgetHash)]));
  }

  /** The planner's output for one sealed task, in terms of what it is asked for. */
  lemma PlannedOutput(c: Config, q: Target, task: Task, env: map<Text, Text>, slots: seq<Slot>)
    requires Plannable(c, [task], env) && NamesColonFree(q) && AsksFor(c, q) && task.id == q.taskId
    requires slots == Slots(c, env, [task])
    ensures PlanOf(c, env, task, slots) && All(CampaignPlan.Sealed(env), c.hosts)
    ensures IsHash(task.hash) && IsHash(task.budgetHash)
  {
    ColonFreeToo(c, q, task);
    PlanOfOne(c, env, task);
    assert [task][0] == task;
    assert ValidTask(task);
  }

  /** What the planner builds for such a configuration, from one sealed task, the gate accepts. */
  lemma PlannedIsAccepted(c: Config, q: Target, task: Task, env: map<Text, Text>, plan: Plan)
    requires Proper(q, |Product(q)|) && AsksFor(c, q) && Plannable(c, [task], env)
    requires task.id == q.taskId && task.buildTarget == q.buildTarget && Permutation(task.evidence, q.evidence)
    requires plan == Plan(c.id, c.thresholds, c.soakMinutes, Slots(c, env, [task]))
    ensures Accepts(q, plan)
  {
    SortForgetsOrder(task.evidence, q.evidence);
    PlannedOutput(c, q, task, env, plan.slots);
    PlannedIsProduct(c, q, task, env, plan.slots);
    ProductIsAccepted(q, plan, env, task.hash, task.budgetHash);
  }

  lemma ColonFreeToo(c: Config, q: Target, task: Task)
    requires NamesColonFree(q) && AsksFor(c, q) && task.id == q.taskId
    ensures ComponentsColonFree(c, [task])
  {
    PermutationMembers(c.hosts, q.config.hosts);
    PermutationMembers(c.harnesses, q.config.harnesses);
    forall i | 0 <= i < |c.hosts| ensures ColonFree(c.hosts[i]) {
      assert c.hosts[i] in q.config.hosts;
      var j :| 0 <= j < |q.config.hosts| && q.config.hosts[j] == c.hosts[i];
    }
    forall i | 0 <= i < |c.harnesses| ensures ColonFree(c.harnesses[i]) {
      assert c.harnesses[i] in q.config.harnesses;
      var j :| 0 <= j < |q.config.harnesses| && q.config.harnesses[j] == c.harnesses[i];
    }
  }

  // ----- The P2 campaign

  function P2Config(): Config {
    Config(T("mgds.campaign.p2@0.1.0"), [T("linux-x64"), T("macos-arm64"), T("windows-x64")],
           [T("claude-code"), T("codex")],
           [1337, 7331, 424242], 5, 240, Thresholds(1.0, 1.0, 0, 0))
  }

  function P2Target(): Target {
    Target(P2Config(), T("mgds.golden-arena.key-exit@0.1.0"),
           [T("compile"), T("event-ledger"), T("player-build"), T("screenshot"), T("tests")], T("desktop"))
  }

  const EXPECTED_RUNS: nat := 90

  lemma LiteralColonFree(s: string)
    requires forall i :: 0 <= i < |s| ==> s[i] as int < 0x1_0000 && s[i] != ':'
    ensures ColonFree(T(s))
  {}

  lemma P2Names()
    ensures NamesColonFree(P2Target())
  {
    LiteralColonFree("linux-x64");
    LiteralColonFree("macos-arm64");
    LiteralColonFree("windows-x64");
    LiteralColonFree("claude-code");
    LiteralColonFree("codex");
    LiteralColonFree("mgds.golden-arena.key-exit@0.1.0");
  }

  lemma P2ValidConfig()
    ensures ValidConfig(P2Config())
  {
    assert T("linux-x64")[0] == 108 && T("macos-arm64")[0] == 109 && T("windows-x64")[0] == 119;
    assert |T("claude-code")| != |T("codex")|;
  }

  lemma P2Sorted()
    ensures SortTexts(P2Target().evidence) == P2Target().evidence
  {
    var roles := P2Target().evidence;
    assert roles[0][0] == 99 && roles[1][0] == 101 && roles[2][0] == 112 && roles[3][0] == 115 && roles[4][0] == 116;
    assert SortedBy(Less, Itself, roles);
    SortSorted(roles);
  }

  lemma ProperWhen(q: Target, n: nat)
    requires ValidConfig(q.config) && NamesColonFree(q) && SortTexts(q.evidence) == q.evidence
    requires n == |q.config.hosts| * (|q.config.harnesses| * (|q.config.seeds| * q.config.repeatRuns))
    ensures Proper(q, n)
  {
    PlanSize(q.config, map[], [TargetTask(q, [], [])]);
  }

  lemma P2Size()
    ensures var c := P2Target().config;
            EXPECTED_RUNS == |c.hosts| * (|c.harnesses| * (|c.seeds| * c.repeatRuns))
  {}

  /** The gate's constants: ninety runs, colon-free names, sorted roles. */
  lemma P2Proper()
    ensures Proper(P2Target(), EXPECTED_RUNS)
  {
    P2Names();
    P2ValidConfig();
    P2Sorted();
    P2Size();
    ProperWhen(P2Target(), EXPECTED_RUNS);
  }
}
