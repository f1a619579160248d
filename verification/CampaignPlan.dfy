/** Planning a campaign: the product of tasks, hosts, harnesses, seeds and repetitions. */
module CampaignPlan {
  import opened JsText
  import opened Sequences

  datatype Thresholds = Thresholds(seedAgreement: real, t0PassRate: real, orphanProcesses: int,
                                   unknownWorkspaceStates: int)

  datatype Config = Config(id: Text, hosts: seq<Text>, harnesses: seq<Text>, seeds: seq<int>,
                           repeatRuns: int, soakMinutes: int, thresholds: Thresholds)

  datatype Task = Task(id: Text, hash: Text, budgetHash: Text, evidence: seq<Text>, buildTarget: Text)

  datatype Slot = Slot(slotId: Text, campaignId: Text, taskId: Text, taskHash: Text, budgetHash: Text,
                       environmentHash: Text, requiredEvidence: seq<Text>, buildTarget: Text,
                       host: Text, harness: Text, seed: int, repetition: int)

  datatype Plan = Plan(campaignId: Text, thresholds: Thresholds, soakMinutes: int, slots: seq<Slot>)

  // ----- Identities

  predicate IsLowerHex(u: CodeUnit) {
    48 <= u <= 57 || 97 <= u <= 102
  }

  /** `/^sha256:[a-f0-9]{64}$/` */
  predicate IsHash(t: Text) {
    |t| == 71 && t[..7] == T("sha256:") && forall i :: 7 <= i < 71 ==> IsLowerHex(t[i])
  }

  /** `/^[a-z][a-z0-9-]{1,63}$/` */
  predicate IsRole(t: Text) {
    2 <= |t| <= 64 && 97 <= t[0] <= 122
    && forall i :: 1 <= i < |t| ==> 97 <= t[i] <= 122 || IsDigit(t[i]) || t[i] == 45
  }

  predicate ValidEvidenceRoles(roles: seq<Text>) {
    roles != [] && (forall i :: 0 <= i < |roles| ==> IsRole(roles[i])) && Distinct(roles)
  }

  const COLON: CodeUnit := 58

  /** `parts.join("::")` */
  function Join(parts: seq<Text>): Text {
    if parts == [] then []
    else if |parts| == 1 then parts[0]
    else parts[0] + [COLON, COLON] + Join(parts[1..])
  }

  predicate ColonFree(t: Text) {
    forall i :: 0 <= i < |t| ==> t[i] != COLON
  }

  lemma JoinHead(a: Text, rest: Text, b: Text, other: Text)
    requires ColonFree(a) && ColonFree(b)
    requires a + [COLON, COLON] + rest == b + [COLON, COLON] + other
    ensures a == b && rest == other
  {
    var s := a + [COLON, COLON] + rest;
    assert |a| == |b| by {
      assert s[|a|] == COLON && s[|b|] == COLON;
      assert forall i :: 0 <= i < |a| ==> s[i] == a[i];
      assert forall i :: 0 <= i < |b| ==> s[i] == b[i];
    }
    assert s[..|a|] == a && s[..|a|] == b;
    assert s[|a| + 2..] == rest && s[|a| + 2..] == other;
  }

  lemma JoinTail(rest: Text, a: Text, other: Text, b: Text)
    requires ColonFree(a) && ColonFree(b)
    requires rest + [COLON, COLON] + a == other + [COLON, COLON] + b
    ensures rest == other && a == b
  {
    var s := rest + [COLON, COLON] + a;
    assert |a| == |b| by {
      assert s[|rest| + 1] == COLON && s[|other| + 1] == COLON;
      assert forall i :: |rest| + 2 <= i < |s| ==> s[i] == a[i - |rest| - 2];
      assert forall i :: |other| + 2 <= i < |s| ==> s[i] == b[i - |other| - 2];
    }
    assert s[..|rest|] == rest && s[..|rest|] == other;
    assert s[|rest| + 2..] == a && s[|rest| + 2..] == b;
  }

  /** Parts free of colons can be read back from their join. */
  lemma {:induction false} JoinInjective(p: seq<Text>, q: seq<Text>)
    requires |p| == |q| && Join(p) == Join(q)
    requires forall i :: 0 <= i < |p| ==> ColonFree(p[i]) && ColonFree(q[i])
    ensures p == q
  {
    if |p| > 1 {
      JoinHead(p[0], Join(p[1..]), q[0], Join(q[1..]));
      JoinInjective(p[1..], q[1..]);
      assert p == [p[0]] + p[1..] && q == [q[0]] + q[1..];
    }
  }

  lemma DecimalColonFree(n: int)
    ensures ColonFree(Decimal(n))
  {
    var ds := Digits(if n < 0 then -n else n);
    assert forall i :: 0 <= i < |ds| ==> IsDigit(ds[i]);
  }

  function SlotId(task: Text, host: Text, harness: Text, seed: int, repetition: int): Text {
    Join([task, host, harness, Decimal(seed), Decimal(repetition)])
  }

  datatype Names = Names(task: Text, host: Text, harness: Text)

  /** What an identity holds of the names. */
  function NameText(n: Names): Text {
    Join([n.task, n.host, n.harness])
  }

  function NamesOf(slot: Slot): Names {
    Names(slot.taskId, slot.host, slot.harness)
  }

  lemma JoinCons(head: Text, rest: seq<Text>)
    requires rest != []
    ensures Join([head] + rest) == head + [COLON, COLON] + Join(rest)
  {
    assert ([head] + rest)[1..] == rest;
  }

  lemma {:induction false} JoinSnoc(front: seq<Text>, last: Text)
    requires front != []
    ensures Join(front + [last]) == Join(front) + [COLON, COLON] + last
  {
    var sep := [COLON, COLON];
    if |front| == 1 {
      assert front + [last] == [front[0], last];
    } else {
      JoinSnoc(front[1..], last);
      assert front + [last] == [front[0]] + (front[1..] + [last]);
      JoinCons(front[0], front[1..] + [last]);
      var rest := Join(front[1..]);
      assert front[0] + sep + (rest + sep + last) == front[0] + sep + rest + sep + last;
    }
  }

  lemma NameTextParts(n: Names)
    ensures NameText(n) == n.task + [COLON, COLON] + n.host + [COLON, COLON] + n.harness
  {
    JoinSnoc([n.task], n.host);
    JoinSnoc([n.task] + [n.host], n.harness);
    assert [n.task] + [n.host] + [n.harness] == [n.task, n.host, n.harness];
  }

  lemma SlotIdParts(task: Text, host: Text, harness: Text, seed: int, repetition: int)
    ensures SlotId(task, host, harness, seed, repetition)
         == NameText(Names(task, host, harness)) + [COLON, COLON] + Decimal(seed) + [COLON, COLON] + Decimal(repetition)
  {
    var names := [task, host, harness];
    JoinSnoc(names, Decimal(seed));
    JoinSnoc(names + [Decimal(seed)], Decimal(repetition));
    assert names + [Decimal(seed)] + [Decimal(repetition)] == [task, host, harness, Decimal(seed), Decimal(repetition)];
  }

  /** Identities are read from the right: seed and repetition hold no colon, so what is left are the names. */
  lemma SlotIdsEqual(a: Slot, b: Slot)
    ensures SlotId(a.taskId, a.host, a.harness, a.seed, a.repetition)
              == SlotId(b.taskId, b.host, b.harness, b.seed, b.repetition)
       <==> NameText(NamesOf(a)) == NameText(NamesOf(b))
            && a.seed == b.seed && a.repetition == b.repetition
  {
    SlotIdParts(a.taskId, a.host, a.harness, a.seed, a.repetition);
    SlotIdParts(b.taskId, b.host, b.harness, b.seed, b.repetition);
    if SlotId(a.taskId, a.host, a.harness, a.seed, a.repetition)
         == SlotId(b.taskId, b.host, b.harness, b.seed, b.repetition) {
      var sep := [COLON, COLON];
      var namesA, namesB := NameText(NamesOf(a)), NameText(NamesOf(b));
      DecimalColonFree(a.seed);
      DecimalColonFree(b.seed);
      DecimalColonFree(a.repetition);
      DecimalColonFree(b.repetition);
      JoinTail(namesA + sep + Decimal(a.seed), Decimal(a.repetition), namesB + sep + Decimal(b.seed),
               Decimal(b.repetition));
      JoinTail(namesA, Decimal(a.seed), namesB, Decimal(b.seed));
      DecimalInjective(a.seed, b.seed);
      DecimalInjective(a.repetition, b.repetition);
    }
  }

  predicate NamesFree(n: Names) {
    ColonFree(n.task) && ColonFree(n.host) && ColonFree(n.harness)
  }

  lemma NameTextInjective(m: Names, n: Names)
    requires NamesFree(m) && NamesFree(n) && NameText(m) == NameText(n)
    ensures m == n
  {
    var p, q := [m.task, m.host, m.harness], [n.task, n.host, n.harness];
    JoinInjective(p, q);
    assert p[0] == q[0] && p[1] == q[1] && p[2] == q[2];
  }

  // ----- Which inputs can be planned

  predicate ValidConfig(c: Config) {
    c.id != []
    && c.harnesses != [] && Distinct(c.harnesses)
    && c.hosts != [] && Distinct(c.hosts)
    && c.seeds != [] && Distinct(c.seeds)
    && c.repeatRuns >= 1 && 1 <= c.soakMinutes <= 1440
    && 0.0 <= c.thresholds.seedAgreement <= 1.0 && 0.0 <= c.thresholds.t0PassRate <= 1.0
    && c.thresholds.orphanProcesses >= 0 && c.thresholds.unknownWorkspaceStates >= 0
  }

  predicate ValidTask(t: Task) {
    t.id != [] && IsHash(t.hash) && IsHash(t.budgetHash) && ValidEvidenceRoles(t.evidence) && t.buildTarget != []
  }

  function Sealed(environments: map<Text, Text>): Text -> bool {
    host => host in environments && IsHash(environments[host])
  }

  predicate All<A>(p: A -> bool, s: seq<A>) {
    forall i :: 0 <= i < |s| ==> p(s[i])
  }

  predicate TaskIdsDistinct(tasks: seq<Task>) {
    forall i, j :: 0 <= i < j < |tasks| ==> tasks[i].id != tasks[j].id
  }

  lemma AllSnoc<A>(ok: A -> bool, s: seq<A>, n: nat)
    requires n < |s|
    ensures All(ok, s[..n + 1]) <==> All(ok, s[..n]) && ok(s[n])
  {
    var t, u := s[..n], s[..n + 1];
    if All(ok, u) {
      forall i | 0 <= i < |t| ensures ok(t[i]) {
        assert ok(u[i]);
      }
      assert ok(u[n]);
    }
    if All(ok, t) && ok(s[n]) {
      forall i | 0 <= i < |u| ensures ok(u[i]) {
        assert i < |t| ==> ok(t[i]);
      }
    }
  }

  predicate Plannable(c: Config, tasks: seq<Task>, environments: map<Text, Text>) {
    ValidConfig(c) && tasks != [] && TaskIdsDistinct(tasks)
    && All(ValidTask, tasks) && All(Sealed(environments), c.hosts)
  }

  // ----- The product

  function EnvironmentOf(environments: map<Text, Text>, host: Text): Text {
    if host in environments then environments[host] else []
  }

  function MakeSlot(c: Config, env: map<Text, Text>, task: Task, host: Text, harness: Text, seed: int,
                    repetition: int): Slot
  {
    Slot(SlotId(task.id, host, harness, seed, repetition), c.id, task.id, task.hash, task.budgetHash,
         EnvironmentOf(env, host), task.evidence, task.buildTarget, host, harness, seed, repetition)
  }

  /** `1, 2, ..., repeatRuns` */
  function Repetitions(c: Config): (r: seq<int>)
    ensures forall i :: 0 <= i < |r| ==> r[i] == i + 1
    ensures |r| == if c.repeatRuns < 0 then 0 else c.repeatRuns
  {
    seq(if c.repeatRuns < 0 then 0 else c.repeatRuns, i => i + 1)
  }

  function OfSeed(c: Config, env: map<Text, Text>, task: Task, host: Text, harness: Text, seed: int): int -> seq<Slot> {
    repetition => [MakeSlot(c, env, task, host, harness, seed, repetition)]
  }

  function OfHarness(c: Config, env: map<Text, Text>, task: Task, host: Text, harness: Text): int -> seq<Slot> {
    seed => FlatMap(OfSeed(c, env, task, host, harness, seed), Repetitions(c))
  }

  function OfHost(c: Config, env: map<Text, Text>, task: Task, host: Text): Text -> seq<Slot> {
    harness => FlatMap(OfHarness(c, env, task, host, harness), c.seeds)
  }

  function OfTask(c: Config, env: map<Text, Text>, task: Task): Text -> seq<Slot> {
    host => FlatMap(OfHost(c, env, task, host), c.harnesses)
  }

  function OfPlan(c: Config, env: map<Text, Text>): Task -> seq<Slot> {
    task => FlatMap(OfTask(c, env, task), c.hosts)
  }

  function Slots(c: Config, env: map<Text, Text>, tasks: seq<Task>): seq<Slot> {
    FlatMap(OfPlan(c, env), tasks)
  }

  /** The planner's five nested loops. */
  method BuildPlan(c: Config, tasks: seq<Task>, env: map<Text, Text>) returns (r: Option<Plan>)
    ensures r.Some? <==> Plannable(c, tasks, env)
    ensures r.Some? ==> r.value == Plan(c.id, c.thresholds, c.soakMinutes, Slots(c, env, tasks))
  {
    if !ValidConfig(c) || tasks == [] || !TaskIdsDistinct(tasks) {
      return None;
    }
    var slots := PlanTasks(c, env, tasks, ValidTask, Sealed(env), OfPlan(c, env));
    if slots.None? {
      return None;
    }
    assert [] + Slots(c, env, tasks) == Slots(c, env, tasks);
    r := Some(Plan(c.id, c.thresholds, c.soakMinutes, slots.value));
  }

  /** `plan` gives the slots of each task: the product, under a name the loops need not look into. */
  ghost predicate PlansTasks(c: Config, env: map<Text, Text>, plan: Task -> seq<Slot>) {
    forall task: Task {:trigger OfPlan(c, env)(task)} :: plan(task) == OfPlan(c, env)(task)
  }

  lemma PlanOfTask(c: Config, env: map<Text, Text>, task: Task, plan: Task -> seq<Slot>, slots: seq<Slot>,
                   all: seq<Slot>)
    requires PlansTasks(c, env, plan) && Collected(OfTask(c, env, task), c.hosts, |c.hosts|, slots, all)
    ensures all == slots + plan(task)
  {
    assert OfPlan(c, env)(task) == FlatMap(OfTask(c, env, task), c.hosts);
  }

  /** The loop over tasks. */
  method PlanTasks(c: Config, env: map<Text, Text>, tasks: seq<Task>, valid: Task -> bool, hashed: Text -> bool,
                   ghost plan: Task -> seq<Slot>)
    returns (r: Option<seq<Slot>>)
    requires PlansTasks(c, env, plan)
    ensures r.Some? <==> All(valid, tasks) && (tasks == [] || All(hashed, c.hosts))
    ensures r.Some? ==> r.value == [] + FlatMap(plan, tasks)
  {
    var slots: seq<Slot> := [];
    var t := 0;
    CollectedNone(plan, tasks, slots);
    while t < |tasks|
      invariant t <= |tasks|
      invariant forall i :: 0 <= i < t ==> valid(tasks[i])
      invariant t > 0 ==> All(hashed, c.hosts)
      invariant Collected(plan, tasks, t, [], slots)
    {
      if !valid(tasks[t]) {
        return None;
      }
      var next := PlanTask(c, env, tasks[t], slots, hashed, plan);
      if next.None? {
        return None;
      }
      CollectedNext(plan, tasks, t, [], slots, next.value);
      slots := next.value;
      t := t + 1;
    }
    r := Some(slots);
  }

  /** The loop over hosts, for one task. */
  method PlanTask(c: Config, env: map<Text, Text>, task: Task, slots: seq<Slot>, hashed: Text -> bool,
                  ghost plan: Task -> seq<Slot>)
    returns (r: Option<seq<Slot>>)
    requires PlansTasks(c, env, plan)
    ensures r.Some? <==> All(hashed, c.hosts)
    ensures r.Some? ==> r.value == slots + plan(task)
  {
    var all := slots;
    var h := 0;
    CollectedNone(OfTask(c, env, task), c.hosts, slots);
    while h < |c.hosts|
      invariant h <= |c.hosts|
      invariant forall i :: 0 <= i < h ==> hashed(c.hosts[i])
      invariant Collected(OfTask(c, env, task), c.hosts, h, slots, all)
    {
      if !hashed(c.hosts[h]) {
        return None;
      }
      var next := PlanHost(c, env, task, c.hosts[h], all);
      CollectedNext(OfTask(c, env, task), c.hosts, h, slots, all, next);
      all := next;
      h := h + 1;
    }
    PlanOfTask(c, env, task, plan, slots, all);
    r := Some(all);
  }

  /** The three inner loops, for one task and host. */
  method PlanHost(c: Config, env: map<Text, Text>, task: Task, host: Text, slots: seq<Slot>) returns (r: seq<Slot>)
    ensures r == slots + OfTask(c, env, task)(host)
  {
    r := slots;
    CollectedNone(OfHost(c, env, task, host), c.harnesses, r);
    for k := 0 to |c.harnesses|
      invariant Collected(OfHost(c, env, task, host), c.harnesses, k, slots, r)
    {
      var harness := c.harnesses[k];
      ghost var before := r;
      CollectedNone(OfHarness(c, env, task, host, harness), c.seeds, r);
      for s := 0 to |c.seeds|
        invariant Collected(OfHarness(c, env, task, host, harness), c.seeds, s, before, r)
      {
        var next := PlanSeed(c, env, task, host, harness, c.seeds[s], r);
        CollectedNext(OfHarness(c, env, task, host, harness), c.seeds, s, before, r, next);
        r := next;
      }
      CollectedNext(OfHost(c, env, task, host), c.harnesses, k, slots, before, r);
    }
  }

  /** The innermost loop, over the repetitions. */
  method PlanSeed(c: Config, env: map<Text, Text>, task: Task, host: Text, harness: Text, seed: int, slots: seq<Slot>)
    returns (r: seq<Slot>)
    ensures r == slots + OfHarness(c, env, task, host, harness)(seed)
  {
    r := slots;
    ghost var f, reps := OfSeed(c, env, task, host, harness, seed), Repetitions(c);
    CollectedNone(f, reps, r);
    var repetition := 1;
    while repetition <= c.repeatRuns
      invariant 1 <= repetition <= |reps| + 1
      invariant Collected(f, reps, repetition - 1, slots, r)
    {
      var next := r + [MakeSlot(c, env, task, host, harness, seed, repetition)];
      CollectedNext(f, reps, repetition - 1, slots, r, next);
      r := next;
      repetition := repetition + 1;
    }
  }

  // ----- What the product contains

  /** The combination that a slot stands for is one the configuration asks for. */
  ghost predicate Planned(c: Config, env: map<Text, Text>, tasks: seq<Task>, slot: Slot) {
    exists i :: 0 <= i < |tasks| && PlannedFor(c, env, tasks[i], slot)
  }

  ghost predicate PlannedFor(c: Config, env: map<Text, Text>, task: Task, slot: Slot) {
    slot.host in c.hosts && slot.harness in c.harnesses && slot.seed in c.seeds && 1 <= slot.repetition <= c.repeatRuns
    && slot == MakeSlot(c, env, task, slot.host, slot.harness, slot.seed, slot.repetition)
  }

  lemma SeedMember(c: Config, env: map<Text, Text>, task: Task, host: Text, harness: Text, seed: int, slot: Slot)
    ensures slot in OfHarness(c, env, task, host, harness)(seed) <==>
            1 <= slot.repetition <= c.repeatRuns && slot == MakeSlot(c, env, task, host, harness, seed, slot.repetition)
  {
    var f, reps := OfSeed(c, env, task, host, harness, seed), Repetitions(c);
    FlatMapMember(f, reps, slot);
    if 1 <= slot.repetition <= c.repeatRuns && slot == MakeSlot(c, env, task, host, harness, seed, slot.repetition) {
      assert reps[slot.repetition - 1] == slot.repetition;
      assert slot in f(reps[slot.repetition - 1]);
    }
  }

  lemma HarnessMember(c: Config, env: map<Text, Text>, task: Task, host: Text, harness: Text, slot: Slot)
    ensures slot in OfHost(c, env, task, host)(harness) <==>
            slot.seed in c.seeds && slot in OfHarness(c, env, task, host, harness)(slot.seed)
  {
    var f := OfHarness(c, env, task, host, harness);
    FlatMapMember(f, c.seeds, slot);
    forall seed
      ensures slot in f(seed) ==> seed == slot.seed
    {
      SeedMember(c, env, task, host, harness, seed, slot);
    }
  }

  lemma HostMember(c: Config, env: map<Text, Text>, task: Task, host: Text, slot: Slot)
    ensures slot in OfTask(c, env, task)(host) <==>
            slot.harness in c.harnesses && slot in OfHost(c, env, task, host)(slot.harness)
  {
    var f := OfHost(c, env, task, host);
    FlatMapMember(f, c.harnesses, slot);
    forall harness
      ensures slot in f(harness) ==> harness == slot.harness
    {
      HarnessMember(c, env, task, host, harness, slot);
      SeedMember(c, env, task, host, harness, slot.seed, slot);
    }
  }

  lemma TaskMember(c: Config, env: map<Text, Text>, task: Task, slot: Slot)
    ensures slot in OfPlan(c, env)(task) <==> PlannedFor(c, env, task, slot)
  {
    var f := OfTask(c, env, task);
    FlatMapMember(f, c.hosts, slot);
    forall host
      ensures slot in f(host) <==>
              slot.harness in c.harnesses && slot.seed in c.seeds && 1 <= slot.repetition <= c.repeatRuns
              && slot == MakeSlot(c, env, task, host, slot.harness, slot.seed, slot.repetition)
    {
      HostMember(c, env, task, host, slot);
      HarnessMember(c, env, task, host, slot.harness, slot);
      SeedMember(c, env, task, host, slot.harness, slot.seed, slot);
    }
  }

  /** The loops produce exactly the combinations asked for. */
  lemma PlanMembers(c: Config, env: map<Text, Text>, tasks: seq<Task>, slot: Slot)
    ensures slot in Slots(c, env, tasks) <==> Planned(c, env, tasks, slot)
  {
    FlatMapMember(OfPlan(c, env), tasks, slot);
    forall i | 0 <= i < |tasks|
      ensures slot in OfPlan(c, env)(tasks[i]) <==> PlannedFor(c, env, tasks[i], slot)
    {
      TaskMember(c, env, tasks[i], slot);
    }
  }

  /** Each combination once: the number of slots is the product of the five sizes. */
  lemma PlanSize(c: Config, env: map<Text, Text>, tasks: seq<Task>)
    requires c.repeatRuns >= 0
    ensures |Slots(c, env, tasks)| == |tasks| * (|c.hosts| * (|c.harnesses| * (|c.seeds| * c.repeatRuns)))
  {
    forall task
      ensures |OfPlan(c, env)(task)| == |c.hosts| * (|c.harnesses| * (|c.seeds| * c.repeatRuns))
    {
      forall host
        ensures |OfTask(c, env, task)(host)| == |c.harnesses| * (|c.seeds| * c.repeatRuns)
      {
        forall harness
          ensures |OfHost(c, env, task, host)(harness)| == |c.seeds| * c.repeatRuns
        {
          HarnessSize(c, env, task, host, harness);
        }
        FlatMapLength(OfHost(c, env, task, host), c.harnesses, |c.seeds| * c.repeatRuns);
      }
      FlatMapLength(OfTask(c, env, task), c.hosts, |c.harnesses| * (|c.seeds| * c.repeatRuns));
    }
    FlatMapLength(OfPlan(c, env), tasks, |c.hosts| * (|c.harnesses| * (|c.seeds| * c.repeatRuns)));
  }

  lemma HarnessSize(c: Config, env: map<Text, Text>, task: Task, host: Text, harness: Text)
    requires c.repeatRuns >= 0
    ensures |OfHost(c, env, task, host)(harness)| == |c.seeds| * c.repeatRuns
  {
    forall seed
      ensures |OfHarness(c, env, task, host, harness)(seed)| == c.repeatRuns
    {
      FlatMapLength(OfSeed(c, env, task, host, harness, seed), Repetitions(c), 1);
    }
    FlatMapLength(OfHarness(c, env, task, host, harness), c.seeds, c.repeatRuns);
  }

  lemma SeedDistinct(c: Config, env: map<Text, Text>, task: Task, host: Text, harness: Text, seed: int)
    ensures Distinct(OfHarness(c, env, task, host, harness)(seed))
  {
    FlatMapDistinct(OfSeed(c, env, task, host, harness, seed), Repetitions(c));
  }

  lemma HarnessDistinct(c: Config, env: map<Text, Text>, task: Task, host: Text, harness: Text)
    requires Distinct(c.seeds)
    ensures Distinct(OfHost(c, env, task, host)(harness))
  {
    var f := OfHarness(c, env, task, host, harness);
    forall seed
      ensures Distinct(f(seed)) && forall slot :: slot in f(seed) ==> slot.seed == seed
    {
      SeedDistinct(c, env, task, host, harness, seed);
      forall slot | slot in f(seed)
        ensures slot.seed == seed
      {
        SeedMember(c, env, task, host, harness, seed, slot);
      }
    }
    FlatMapDistinct(f, c.seeds);
  }

  lemma HostDistinct(c: Config, env: map<Text, Text>, task: Task, host: Text)
    requires Distinct(c.seeds) && Distinct(c.harnesses)
    ensures Distinct(OfTask(c, env, task)(host))
  {
    var f := OfHost(c, env, task, host);
    forall harness
      ensures Distinct(f(harness)) && forall slot :: slot in f(harness) ==> slot.harness == harness
    {
      HarnessDistinct(c, env, task, host, harness);
      forall slot | slot in f(harness)
        ensures slot.harness == harness
      {
        HarnessMember(c, env, task, host, harness, slot);
        SeedMember(c, env, task, host, harness, slot.seed, slot);
      }
    }
    FlatMapDistinct(f, c.harnesses);
  }

  lemma TaskDistinct(c: Config, env: map<Text, Text>, task: Task)
    requires Distinct(c.seeds) && Distinct(c.harnesses) && Distinct(c.hosts)
    ensures Distinct(OfPlan(c, env)(task))
  {
    var f := OfTask(c, env, task);
    forall host
      ensures Distinct(f(host)) && forall slot :: slot in f(host) ==> slot.host == host
    {
      HostDistinct(c, env, task, host);
      forall slot | slot in f(host)
        ensures slot.host == host
      {
        HostMember(c, env, task, host, slot);
        HarnessMember(c, env, task, host, slot.harness, slot);
        SeedMember(c, env, task, host, slot.harness, slot.seed, slot);
      }
    }
    FlatMapDistinct(f, c.hosts);
  }

  lemma SlotsDistinct(c: Config, env: map<Text, Text>, tasks: seq<Task>)
    requires ValidConfig(c) && TaskIdsDistinct(tasks)
    ensures Distinct(Slots(c, env, tasks))
  {
    var f := OfPlan(c, env);
    forall task
      ensures Distinct(f(task)) && forall slot :: slot in f(task) ==> slot.taskId == task.id
    {
      TaskDistinct(c, env, task);
      forall slot | slot in f(task)
        ensures slot.taskId == task.id
      {
        TaskMember(c, env, task, slot);
      }
    }
    FlatMapDistinct(f, tasks);
  }

  ghost predicate SlotIdsDistinct(slots: seq<Slot>) {
    forall i, j :: 0 <= i < j < |slots| ==> slots[i].slotId != slots[j].slotId
  }

  lemma IdsDistinctSlots(slots: seq<Slot>)
    requires SlotIdsDistinct(slots)
    ensures Distinct(slots)
  {
    forall i, j | 0 <= i < j < |slots| ensures slots[i] != slots[j] {
      assert slots[i].slotId != slots[j].slotId;
    }
  }

  ghost predicate NamesAsked(c: Config, tasks: seq<Task>, n: Names) {
    n.host in c.hosts && n.harness in c.harnesses && exists i :: 0 <= i < |tasks| && tasks[i].id == n.task
  }

  /** Different combinations of names asked for have different texts: a check on the names alone. */
  ghost predicate NamesTold(c: Config, tasks: seq<Task>) {
    forall m, n ::
      NamesAsked(c, tasks, m) && NamesAsked(c, tasks, n) && NameText(m) == NameText(n) ==> m == n
  }

  lemma PlannedParts(c: Config, env: map<Text, Text>, tasks: seq<Task>, slot: Slot) returns (i: nat)
    requires Planned(c, env, tasks, slot)
    ensures i < |tasks| && PlannedFor(c, env, tasks[i], slot) && slot.taskId == tasks[i].id
    ensures slot.slotId == SlotId(slot.taskId, slot.host, slot.harness, slot.seed, slot.repetition)
    ensures NamesAsked(c, tasks, NamesOf(slot))
  {
    i :| 0 <= i < |tasks| && PlannedFor(c, env, tasks[i], slot);
  }

  lemma SameCombination(c: Config, env: map<Text, Text>, tasks: seq<Task>, a: Slot, b: Slot)
    requires TaskIdsDistinct(tasks) && NamesTold(c, tasks)
    requires Planned(c, env, tasks, a) && Planned(c, env, tasks, b) && a.slotId == b.slotId
    ensures a == b
  {
    var i := PlannedParts(c, env, tasks, a);
    var j := PlannedParts(c, env, tasks, b);
    SlotIdsEqual(a, b);
    assert NamesOf(a) == NamesOf(b);
    assert tasks[i].id == tasks[j].id;
  }

  lemma ToldNamesDistinct(c: Config, env: map<Text, Text>, tasks: seq<Task>)
    requires ValidConfig(c) && TaskIdsDistinct(tasks) && NamesTold(c, tasks)
    ensures SlotIdsDistinct(Slots(c, env, tasks))
  {
    var slots := Slots(c, env, tasks);
    SlotsDistinct(c, env, tasks);
    forall i, j | 0 <= i < j < |slots|
      ensures slots[i].slotId != slots[j].slotId
    {
      PlanMembers(c, env, tasks, slots[i]);
      PlanMembers(c, env, tasks, slots[j]);
      if slots[i].slotId == slots[j].slotId {
        SameCombination(c, env, tasks, slots[i], slots[j]);
      }
    }
  }

  lemma PlannedInSlots(c: Config, env: map<Text, Text>, tasks: seq<Task>, i: nat, slot: Slot)
    requires i < |tasks| && PlannedFor(c, env, tasks[i], slot)
    ensures slot in Slots(c, env, tasks)
  {
    PlanMembers(c, env, tasks, slot);
  }

  /** Combinations asked for have a slot with the first seed and repetition. */
  lemma FirstSlot(c: Config, env: map<Text, Text>, tasks: seq<Task>, n: Names) returns (slot: Slot)
    requires ValidConfig(c) && NamesAsked(c, tasks, n)
    ensures slot in Slots(c, env, tasks) && NamesOf(slot) == n && slot.seed == c.seeds[0] && slot.repetition == 1
    ensures slot.slotId == SlotId(n.task, n.host, n.harness, slot.seed, slot.repetition)
  {
    var i :| 0 <= i < |tasks| && tasks[i].id == n.task;
    slot := MakeSlot(c, env, tasks[i], n.host, n.harness, c.seeds[0], 1);
    PlannedInSlots(c, env, tasks, i, slot);
  }

  lemma SamePlace(slots: seq<Slot>, a: Slot, b: Slot)
    requires SlotIdsDistinct(slots) && a in slots && b in slots && a.slotId == b.slotId
    ensures a == b
  {
    var i :| 0 <= i < |slots| && slots[i] == a;
    var j :| 0 <= j < |slots| && slots[j] == b;
    assert i == j;
  }

  lemma DistinctNamesTold(c: Config, env: map<Text, Text>, tasks: seq<Task>, m: Names, n: Names)
    requires ValidConfig(c) && SlotIdsDistinct(Slots(c, env, tasks))
    requires NamesAsked(c, tasks, m) && NamesAsked(c, tasks, n) && NameText(m) == NameText(n)
    ensures m == n
  {
    var a := FirstSlot(c, env, tasks, m);
    var b := FirstSlot(c, env, tasks, n);
    SlotIdsEqual(a, b);
    SamePlace(Slots(c, env, tasks), a, b);
  }

  /** The identities of a plan are pairwise distinct exactly when the names asked for can be told apart. */
  lemma PlanIdsExactly(c: Config, env: map<Text, Text>, tasks: seq<Task>)
    requires ValidConfig(c) && TaskIdsDistinct(tasks)
    ensures SlotIdsDistinct(Slots(c, env, tasks)) <==> NamesTold(c, tasks)
  {
    if NamesTold(c, tasks) {
      ToldNamesDistinct(c, env, tasks);
    }
    if SlotIdsDistinct(Slots(c, env, tasks)) {
      forall m, n | NamesAsked(c, tasks, m) && NamesAsked(c, tasks, n) && NameText(m) == NameText(n)
        ensures m == n
      {
        DistinctNamesTold(c, env, tasks, m, n);
      }
    }
  }

  ghost predicate ComponentsColonFree(c: Config, tasks: seq<Task>) {
    All(ColonFree, c.hosts) && All(ColonFree, c.harnesses) && All((t: Task) => ColonFree(t.id), tasks)
  }

  lemma AskedFree(c: Config, tasks: seq<Task>, n: Names)
    requires ComponentsColonFree(c, tasks) && NamesAsked(c, tasks, n)
    ensures NamesFree(n)
  {
    var i :| 0 <= i < |tasks| && tasks[i].id == n.task;
    assert ((t: Task) => ColonFree(t.id))(tasks[i]);
    var h :| 0 <= h < |c.hosts| && c.hosts[h] == n.host;
    var k :| 0 <= k < |c.harnesses| && c.harnesses[k] == n.harness;
  }

  /** Without colons in task, host and harness names, no two slots of a plan share an identity. */
  lemma PlanIdsDistinct(c: Config, env: map<Text, Text>, tasks: seq<Task>)
    requires ValidConfig(c) && TaskIdsDistinct(tasks) && ComponentsColonFree(c, tasks)
    ensures SlotIdsDistinct(Slots(c, env, tasks))
  {
    forall m, n | NamesAsked(c, tasks, m) && NamesAsked(c, tasks, n) && NameText(m) == NameText(n)
      ensures m == n
    {
      AskedFree(c, tasks, m);
      AskedFree(c, tasks, n);
      NameTextInjective(m, n);
    }
    ToldNamesDistinct(c, env, tasks);
  }

  /** Two hosts, `a` and `a::b`, and two harnesses, `b::c` and `c`. */
  function Ambiguous(): Config {
    Config([97], [[97], [97, COLON, COLON, 98]], [[98, COLON, COLON, 99], [99]], [0], 1, 1, Thresholds(0.0, 0.0, 0, 0))
  }

  lemma AmbiguousText(task: Text)
    ensures NameText(Names(task, [97], [98, COLON, COLON, 99])) == NameText(Names(task, [97, COLON, COLON, 98], [99]))
  {
    var sep := [COLON, COLON];
    var a, ab, bc, z := [97], [97, COLON, COLON, 98], [98, COLON, COLON, 99], [99];
    NameTextParts(Names(task, a, bc));
    NameTextParts(Names(task, ab, z));
    assert task + sep + a + sep + bc == task + sep + ab + sep + z;
  }

  lemma AmbiguousInputs(tasks: seq<Task>, hash: Text) returns (c: Config, env: map<Text, Text>)
    requires tasks != [] && IsHash(hash)
    ensures ValidConfig(c) && All(Sealed(env), c.hosts) && !NamesTold(c, tasks)
  {
    c := Ambiguous();
    env := map[[97] := hash, [97, COLON, COLON, 98] := hash];
    var id := tasks[0].id;
    AmbiguousText(id);
    assert c.hosts[0] == [97] && c.hosts[1] == [97, COLON, COLON, 98];
    assert c.harnesses[0] == [98, COLON, COLON, 99] && c.harnesses[1] == [99];
    assert NamesAsked(c, tasks, Names(id, [97], [98, COLON, COLON, 99]));
    assert NamesAsked(c, tasks, Names(id, [97, COLON, COLON, 98], [99]));
  }

  /** With colons in names the planner accepts inputs for which it repeats an identity, whatever the tasks. */
  lemma ColonsCollide(tasks: seq<Task>, hash: Text) returns (c: Config, env: map<Text, Text>)
    requires tasks != [] && TaskIdsDistinct(tasks) && All(ValidTask, tasks) && IsHash(hash)
    ensures Plannable(c, tasks, env) && !SlotIdsDistinct(Slots(c, env, tasks))
  {
    c, env := AmbiguousInputs(tasks, hash);
    PlanIdsExactly(c, env, tasks);
  }
}
