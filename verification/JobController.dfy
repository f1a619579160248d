/** The persisted job controller: a state machine over stored snapshots, with logs, keys and crashes. */
module JobController {
  import opened JsText
  import opened Json
  import opened JobTrace

  /** An empty key stands for a missing one: both are falsy. */
  datatype Procedure = Procedure(id: string, projectScope: string, capabilityId: string, idempotency: Idempotency,
                                 key: string)

  datatype Job = Job(id: string, procedureId: string, projectScope: string, capabilityId: string,
                     state: State, attempt: nat, createdAt: string, updatedAt: string, checkpoint: Option<Json>)

  datatype Snapshot = Snapshot(jobs: map<string, Job>, events: map<string, seq<Event>>,
                               idempotencyKeys: map<string, string>, procedureIds: map<string, string>)

  datatype Failure = IdempotencyKeyRequired | DuplicateNonIdempotent | InvalidJobId | JobNotFound
                   | IllegalTransition(from: State, to: State)

  /** A job, `undefined`, or a thrown error. */
  datatype Outcome = Returned(job: Job) | Nothing | Threw(error: Failure)

  const EMPTY := Snapshot(map[], map[], map[], map[])

  // ----- Job identifiers

  predicate IdChar(c: char) {
    'A' <= c <= 'Z' || 'a' <= c <= 'z' || '0' <= c <= '9' || c == '_' || c == '-'
  }

  /** `^job_[A-Za-z0-9_-]+$` */
  predicate ValidId(id: string) {
    |id| > 4 && id[..4] == "job_" && forall i :: 4 <= i < |id| ==> IdChar(id[i])
  }

  // ----- What each operation computes from the snapshot it loads

  /** A property holding a non-empty string. */
  predicate Truthy(m: map<string, string>, k: string) {
    k in m && m[k] != ""
  }

  function NewJob(p: Procedure, id: string, at: string): Job {
    Job(id, p.id, p.projectScope, p.capabilityId, Queued, 0, at, at, None)
  }

  /** The snapshot with a fresh job for the procedure. */
  function WithJob(s: Snapshot, p: Procedure, id: string, at: string): Snapshot {
    Snapshot(s.jobs[id := NewJob(p, id, at)],
             s.events[id := [Event(1, Submitted, at)]],
             if p.key != "" then s.idempotencyKeys[p.key := id] else s.idempotencyKeys,
             s.procedureIds[p.id := id])
  }

  /** Why a submission creates no job, if it does not. */
  function Refusal(s: Snapshot, p: Procedure): Option<Outcome> {
    if p.idempotency.KeyRequired? && p.key == "" then Some(Threw(IdempotencyKeyRequired))
    else if p.idempotency.KeyRequired? && Truthy(s.idempotencyKeys, p.key) then
      if s.idempotencyKeys[p.key] in s.jobs then Some(Returned(s.jobs[s.idempotencyKeys[p.key]])) else Some(Nothing)
    else if p.idempotency.Never? && Truthy(s.procedureIds, p.id) then Some(Threw(DuplicateNonIdempotent))
    else None
  }

  function AfterSubmit(s: Snapshot, p: Procedure, id: string, at: string): (Outcome, Snapshot) {
    match Refusal(s, p)
    case Some(outcome) => (outcome, s)
    case None => (Returned(NewJob(p, id, at)), WithJob(s, p, id, at))
  }

  function Moved(job: Job, to: State, payload: Option<Json>, at: string): Job {
    job.(state := to, updatedAt := at,
         attempt := if to.Running? then job.attempt + 1 else job.attempt,
         checkpoint := if payload.Some? then payload else job.checkpoint)
  }

  function AfterTransition(s: Snapshot, id: string, to: State, payload: Option<Json>, at: string): (Outcome, Snapshot) {
    if !ValidId(id) then (Threw(InvalidJobId), s)
    else if id !in s.jobs || id !in s.events then (Threw(JobNotFound), s)
    else if !IsLegalTransition(s.jobs[id].state, to) then (Threw(IllegalTransition(s.jobs[id].state, to)), s)
    else
      var job := Moved(s.jobs[id], to, payload, at);
      var event := Event(|s.events[id]| + 1, Transition(s.jobs[id].state, to, payload), at);
      (Returned(job), s.(jobs := s.jobs[id := job], events := s.events[id := s.events[id] + [event]]))
  }

  // ----- The store and the controller

  /** The jobs file: loading reads the last snapshot saved, saving replaces it whole. */
  class JsonJobStore {
    var saved: Snapshot

    constructor ()
      ensures saved == EMPTY
    {
      saved := EMPTY;
    }

    method Load() returns (s: Snapshot)
      ensures s == saved
    {
      s := saved;
    }

    method Save(s: Snapshot)
      modifies this
      ensures saved == s
    {
      saved := s;
    }
  }

  class JobController {
    const store: JsonJobStore

    constructor (store: JsonJobStore)
      ensures this.store == store
    {
      this.store := store;
    }

    /** Submits under an id and time drawn by the caller's factories. */
    method Submit(p: Procedure, id: string, at: string) returns (r: Outcome)
      modifies store
      ensures (r, store.saved) == AfterSubmit(old(store.saved), p, id, at)
    {
      var snapshot := store.Load();
      if p.idempotency.KeyRequired? {
        if p.key == "" {
          return Threw(IdempotencyKeyRequired);
        }
        if p.key in snapshot.idempotencyKeys && snapshot.idempotencyKeys[p.key] != "" {
          var existing := snapshot.idempotencyKeys[p.key];
          if existing in snapshot.jobs {
            return Returned(snapshot.jobs[existing]);
          }
          return Nothing;
        }
      }
      if p.idempotency.Never? && p.id in snapshot.procedureIds && snapshot.procedureIds[p.id] != "" {
        return Threw(DuplicateNonIdempotent);
      }
      var job := Job(id, p.id, p.projectScope, p.capabilityId, Queued, 0, at, at, None);
      var jobs := snapshot.jobs[id := job];
      var events := snapshot.events[id := [Event(1, Submitted, at)]];
      var procedureIds := snapshot.procedureIds[p.id := id];
      var idempotencyKeys := snapshot.idempotencyKeys;
      if p.key != "" {
        idempotencyKeys := idempotencyKeys[p.key := id];
      }
      store.Save(Snapshot(jobs, events, idempotencyKeys, procedureIds));
      r := Returned(job);
    }

    method Get(id: string) returns (r: Outcome)
      ensures r == if !ValidId(id) then Threw(InvalidJobId)
                   else if id in store.saved.jobs then Returned(store.saved.jobs[id]) else Threw(JobNotFound)
    {
      if !ValidId(id) {
        return Threw(InvalidJobId);
      }
      var snapshot := store.Load();
      if id !in snapshot.jobs {
        return Threw(JobNotFound);
      }
      r := Returned(snapshot.jobs[id]);
    }

    method Transition(id: string, to: State, payload: Option<Json>, at: string) returns (r: Outcome)
      modifies store
      ensures (r, store.saved) == AfterTransition(old(store.saved), id, to, payload, at)
    {
      if !ValidId(id) {
        return Threw(InvalidJobId);
      }
      var snapshot := store.Load();
      if id !in snapshot.jobs || id !in snapshot.events {
        return Threw(JobNotFound);
      }
      var job := snapshot.jobs[id];
      var from := job.state;
      if !IsLegalTransition(from, to) {
        return Threw(IllegalTransition(from, to));
      }
      job := job.(state := to, updatedAt := at);
      if to.Running? {
        job := job.(attempt := job.attempt + 1);
      }
      if payload.Some? {
        job := job.(checkpoint := payload);
      }
      var events := snapshot.events[id];
      events := events + [Event(|events| + 1, JobTrace.Transition(from, to, payload), at)];
      store.Save(snapshot.(jobs := snapshot.jobs[id := job], events := snapshot.events[id := events]));
      r := Returned(job);
    }

    method Checkpoint(id: string, payload: Option<Json>, at: string) returns (r: Outcome)
      modifies store
      ensures (r, store.saved) == AfterTransition(old(store.saved), id, Checkpointed, payload, at)
    {
      r := Transition(id, Checkpointed, payload, at);
    }

    method Resume(id: string, at: string) returns (r: Outcome)
      modifies store
      ensures (r, store.saved) == AfterTransition(old(store.saved), id, Running, None, at)
    {
      r := Transition(id, Running, None, at);
    }

    method Timeout(id: string, at: string) returns (r: Outcome)
      modifies store
      ensures (r, store.saved) == AfterTransition(old(store.saved), id, TimedOut, None, at)
    {
      r := Transition(id, TimedOut, None, at);
    }
  }

  // ----- Runs

  datatype Op = Submit(p: Procedure, id: string, at: string)
              | Move(id: string, to: State, payload: Option<Json>, at: string)

  function Apply(s: Snapshot, op: Op): Snapshot {
    match op
    case Submit(p, id, at) => AfterSubmit(s, p, id, at).1
    case Move(id, to, payload, at) => AfterTransition(s, id, to, payload, at).1
  }

  function Iterate<S, O>(apply: (S, O) -> S, s: S, ops: seq<O>, n: nat): S
    requires n <= |ops|
  {
    if n == 0 then s else apply(Iterate(apply, s, ops, n - 1), ops[n - 1])
  }

  /** The induction behind every claim about runs: what each step keeps, a run keeps. */
  lemma {:induction false} RunKeeps<S(!new), O(!new)>(apply: (S, O) -> S, s: S, ops: seq<O>, n: nat,
                                                      allowed: (S, O) -> bool, kept: S -> bool)
    requires n <= |ops| && kept(s)
    requires forall m :: 0 <= m < |ops| ==> allowed(Iterate(apply, s, ops, m), ops[m])
    requires forall t, op :: kept(t) && allowed(t, op) ==> kept(apply(t, op))
    ensures kept(Iterate(apply, s, ops, n))
  {
    if n > 0 {
      RunKeeps(apply, s, ops, n - 1, allowed, kept);
    }
  }

  /** A property that a step loses exactly when it spoils it survives a run exactly when no step spoils it. */
  lemma {:induction false} RunSpoils<S(!new), O(!new)>(apply: (S, O) -> S, s: S, ops: seq<O>, n: nat,
                                                       allowed: (S, O) -> bool,
                                                       live: S -> bool, kept: S -> bool, spoils: (S, O) -> bool)
    requires n <= |ops| && live(s) && kept(s)
    requires forall m :: 0 <= m < |ops| ==> allowed(Iterate(apply, s, ops, m), ops[m])
    requires forall t, op :: live(t) && allowed(t, op) ==>
               live(apply(t, op)) && (kept(apply(t, op)) <==> kept(t) && !spoils(t, op))
    ensures live(Iterate(apply, s, ops, n))
    ensures kept(Iterate(apply, s, ops, n)) <==> forall m :: 0 <= m < n ==> !spoils(Iterate(apply, s, ops, m), ops[m])
  {
    if n > 0 {
      RunSpoils(apply, s, ops, n - 1, allowed, live, kept, spoils);
    }
  }

  /** The store after the first `n` operations; a crash between two saves only ends a run early. */
  function Run(s: Snapshot, ops: seq<Op>, n: nat): Snapshot
    requires n <= |ops|
  {
    Iterate(Apply, s, ops, n)
  }

  /** A submission draws a non-empty id that no stored job has. */
  predicate FreshId(s: Snapshot, op: Op) {
    op.Submit? ==> op.id != "" && op.id !in s.jobs
  }

  ghost predicate FreshRun(s: Snapshot, ops: seq<Op>) {
    forall n :: 0 <= n < |ops| ==> FreshId(Iterate(Apply, s, ops, n), ops[n])
  }

  /** The job is what its log says. */
  ghost predicate Told(job: Job, events: seq<Event>) {
    && Chain(events)
    && job.state == StateAfter(events, |events|)
    && job.attempt == Attempts(events, |events|)
    && job.checkpoint == LastPayload(events, |events|)
    && job.createdAt == events[0].at && job.updatedAt == events[|events| - 1].at
  }

  ghost predicate ToldIn(s: Snapshot, id: string)
    requires id in s.jobs
  {
    s.jobs[id].id == id && id in s.events && Told(s.jobs[id], s.events[id])
  }

  ghost predicate Consistent(s: Snapshot) {
    && (forall id :: id in s.jobs ==> ToldIn(s, id))
    && (forall id :: id in s.events ==> id in s.jobs)
    && (forall k :: k in s.idempotencyKeys ==> s.idempotencyKeys[k] in s.jobs && s.idempotencyKeys[k] != "")
    && (forall k :: k in s.procedureIds ==> s.procedureIds[k] in s.jobs && s.procedureIds[k] != "")
  }

  lemma NewJobTold(p: Procedure, id: string, at: string)
    ensures Told(NewJob(p, id, at), [Event(1, Submitted, at)])
  {}

  /** Recording a legal move keeps job and log in step. */
  lemma MoveTold(job: Job, events: seq<Event>, to: State, payload: Option<Json>, at: string)
    requires Told(job, events) && IsLegalTransition(job.state, to)
    ensures Told(Moved(job, to, payload, at),
                 events + [Event(|events| + 1, JobTrace.Transition(job.state, to, payload), at)])
  {
    var more := events + [Event(|events| + 1, JobTrace.Transition(job.state, to, payload), at)];
    PrefixFacts(events, more, |events|);
    forall i | 0 <= i < |more| ensures Chained(more, i) {
      if i < |events| {
        assert Chained(events, i);
        PrefixFacts(events, more, i);
      }
    }
  }

  lemma SubmitConsistent(s: Snapshot, p: Procedure, id: string, at: string)
    requires Consistent(s) && id != "" && id !in s.jobs
    ensures Consistent(WithJob(s, p, id, at))
  {
    NewJobTold(p, id, at);
    forall other | other in s.jobs ensures ToldIn(WithJob(s, p, id, at), other) {
      assert ToldIn(s, other);
    }
  }

  lemma MoveConsistent(s: Snapshot, id: string, to: State, payload: Option<Json>, at: string)
    requires Consistent(s)
    ensures Consistent(AfterTransition(s, id, to, payload, at).1)
  {
    var s' := AfterTransition(s, id, to, payload, at).1;
    if s' != s {
      assert ToldIn(s, id);
      MoveTold(s.jobs[id], s.events[id], to, payload, at);
      forall other | other in s'.jobs && other != id ensures ToldIn(s', other) {
        assert ToldIn(s, other);
      }
    }
  }

  lemma ApplyConsistent(s: Snapshot, op: Op)
    requires Consistent(s) && FreshId(s, op)
    ensures Consistent(Apply(s, op))
  {
    match op
    case Submit(p, id, at) => SubmitConsistent(s, p, id, at);
    case Move(id, to, payload, at) => MoveConsistent(s, id, to, payload, at);
  }

  lemma RunConsistent(s: Snapshot, ops: seq<Op>, n: nat)
    requires Consistent(s) && FreshRun(s, ops) && n <= |ops|
    ensures Consistent(Run(s, ops, n))
  {
    forall t, op | Consistent(t) && FreshId(t, op) ensures Consistent(Apply(t, op)) {
      ApplyConsistent(t, op);
    }
    RunKeeps(Apply, s, ops, n, FreshId, Consistent);
  }

  lemma EmptyConsistent()
    ensures Consistent(EMPTY)
  {}

  /** Every store reachable from the empty one is consistent: each job is exactly what its log tells. */
  lemma ReachableConsistent(ops: seq<Op>, n: nat)
    requires FreshRun(EMPTY, ops) && n <= |ops|
    ensures Consistent(Run(EMPTY, ops, n))
  {
    EmptyConsistent();
    RunConsistent(EMPTY, ops, n);
  }

  /** The checker accepts the log of every job of a reachable store. */
  lemma ReachableLogsAccepted(ops: seq<Op>, id: string)
    requires FreshRun(EMPTY, ops) && id in Run(EMPTY, ops, |ops|).jobs
    ensures var s := Run(EMPTY, ops, |ops|);
            id in s.events && Increasing(s.events[id]) && LegalEdges(s.events[id]) && Executions(s.events[id]) == 0
  {
    ReachableConsistent(ops, |ops|);
    assert ToldIn(Run(EMPTY, ops, |ops|), id);
    ChainAccepted(Run(EMPTY, ops, |ops|).events[id]);
  }

  // ----- What stays as it is

  /** The job and its log are as given. */
  ghost predicate HasJob(s: Snapshot, id: string, job: Job, events: seq<Event>) {
    id in s.jobs && id in s.events && s.jobs[id] == job && s.events[id] == events
  }

  lemma TerminalUnchanged(s: Snapshot, op: Op, id: string, job: Job, events: seq<Event>)
    requires FreshId(s, op) && HasJob(s, id, job, events) && Terminal(job.state)
    ensures HasJob(Apply(s, op), id, job, events)
  {}

  /** A job in a terminal state is never changed again, nor is its log. */
  lemma TerminalForever(s: Snapshot, ops: seq<Op>, n: nat, id: string, job: Job, events: seq<Event>)
    requires FreshRun(s, ops) && n <= |ops| && HasJob(s, id, job, events) && Terminal(job.state)
    ensures HasJob(Run(s, ops, n), id, job, events)
  {
    var kept := (t: Snapshot) => HasJob(t, id, job, events);
    forall t, op | kept(t) && FreshId(t, op) ensures kept(Apply(t, op)) {
      TerminalUnchanged(t, op, id, job, events);
    }
    RunKeeps(Apply, s, ops, n, FreshId, kept);
  }

  /** The job exists and its log starts with the given events. */
  ghost predicate HasLog(s: Snapshot, id: string, events: seq<Event>) {
    id in s.jobs && id in s.events && events <= s.events[id]
  }

  lemma LogKept(s: Snapshot, op: Op, id: string, events: seq<Event>)
    requires FreshId(s, op) && HasLog(s, id, events)
    ensures HasLog(Apply(s, op), id, events)
  {}

  /** Nothing is ever forgotten: jobs stay, and a log only grows at its end. */
  lemma LogsGrow(s: Snapshot, ops: seq<Op>, n: nat, id: string, events: seq<Event>)
    requires FreshRun(s, ops) && n <= |ops| && HasLog(s, id, events)
    ensures HasLog(Run(s, ops, n), id, events)
  {
    var kept := (t: Snapshot) => HasLog(t, id, events);
    forall t, op | kept(t) && FreshId(t, op) ensures kept(Apply(t, op)) {
      LogKept(t, op, id, events);
    }
    RunKeeps(Apply, s, ops, n, FreshId, kept);
  }

  // ----- Idempotency keys

  /** The operation creates a job and records the key for it. */
  predicate Rebinds(s: Snapshot, op: Op, key: string) {
    op.Submit? && op.p.key == key && Refusal(s, op.p).None?
  }

  /** Once a key is bound, a submission that requires it returns that job and changes nothing. */
  lemma KeyReturnsJob(s: Snapshot, p: Procedure, id: string, at: string)
    requires Consistent(s) && p.idempotency.KeyRequired? && p.key in s.idempotencyKeys && p.key != ""
    ensures AfterSubmit(s, p, id, at) == (Returned(s.jobs[s.idempotencyKeys[p.key]]), s)
  {}

  /** So only a submission that does not require the key can bind it anew. */
  lemma RebindsExactly(s: Snapshot, op: Op, key: string)
    requires Consistent(s) && key != "" && key in s.idempotencyKeys
    ensures Rebinds(s, op, key) <==>
            op.Submit? && op.p.key == key && !op.p.idempotency.KeyRequired?
            && !(op.p.idempotency.Never? && op.p.id in s.procedureIds)
  {}

  ghost predicate NeverRebound(s: Snapshot, ops: seq<Op>, n: nat, key: string)
    requires n <= |ops|
  {
    forall m :: 0 <= m < n ==> !Rebinds(Run(s, ops, m), ops[m], key)
  }

  /** The key is bound and the job exists. */
  ghost predicate KeyLive(s: Snapshot, key: string, id: string) {
    key in s.idempotencyKeys && id in s.jobs
  }

  ghost predicate KeyNames(s: Snapshot, key: string, id: string) {
    key in s.idempotencyKeys && s.idempotencyKeys[key] == id
  }

  lemma KeyStep(s: Snapshot, op: Op, key: string, id: string)
    requires FreshId(s, op) && KeyLive(s, key, id) && key != ""
    ensures KeyLive(Apply(s, op), key, id)
    ensures KeyNames(Apply(s, op), key, id) <==> KeyNames(s, key, id) && !Rebinds(s, op, key)
  {}

  /** A bound key keeps naming its job exactly as long as no submission binds it anew. */
  lemma KeyPinned(s: Snapshot, ops: seq<Op>, n: nat, key: string, id: string)
    requires FreshRun(s, ops) && n <= |ops| && key != "" && KeyNames(s, key, id) && id in s.jobs
    ensures KeyLive(Run(s, ops, n), key, id)
    ensures KeyNames(Run(s, ops, n), key, id) <==> NeverRebound(s, ops, n, key)
  {
    var live := (t: Snapshot) => KeyLive(t, key, id);
    var names := (t: Snapshot) => KeyNames(t, key, id);
    var rebinds := (t: Snapshot, op: Op) => Rebinds(t, op, key);
    forall t, op | live(t) && FreshId(t, op)
      ensures live(Apply(t, op)) && (names(Apply(t, op)) <==> names(t) && !rebinds(t, op))
    {
      KeyStep(t, op, key, id);
    }
    RunSpoils(Apply, s, ops, n, FreshId, live, names, rebinds);
    assert forall m :: 0 <= m < n ==>
             rebinds(Iterate(Apply, s, ops, m), ops[m]) == Rebinds(Run(s, ops, m), ops[m], key);
  }

  /** A key used only by submissions that require it names one job for ever. */
  lemma RequiredKeyPinned(s: Snapshot, ops: seq<Op>, n: nat, key: string)
    requires Consistent(s) && FreshRun(s, ops) && n <= |ops| && key != "" && key in s.idempotencyKeys
    requires forall m :: 0 <= m < n && ops[m].Submit? && ops[m].p.key == key ==> ops[m].p.idempotency.KeyRequired?
    ensures KeyNames(Run(s, ops, n), key, s.idempotencyKeys[key])
  {
    KeyPinned(s, ops, n, key, s.idempotencyKeys[key]);
    forall m | 0 <= m < n ensures !Rebinds(Run(s, ops, m), ops[m], key) {
      KeyPinned(s, ops, m, key, s.idempotencyKeys[key]);
      RunConsistent(s, ops, m);
      RebindsExactly(Run(s, ops, m), ops[m], key);
    }
  }

  /** A repeatable submission that carries the key takes it away from the job that had it. */
  lemma KeyTaken() returns (s: Snapshot, op: Op)
    ensures Consistent(s) && FreshId(s, op) && "k" in s.idempotencyKeys
    ensures Apply(s, op).idempotencyKeys["k"] != s.idempotencyKeys["k"]
  {
    var first := Submit(Procedure("p", "s", "c", KeyRequired, "k"), "job_1", "t");
    op := Submit(Procedure("q", "s", "c", Repeatable, "k"), "job_22", "t");
    s := Apply(EMPTY, first);
    ApplyConsistent(EMPTY, first);
  }

  /** A procedure that must never repeat is refused once any submission under its id has been stored. */
  lemma NeverRepeated(s: Snapshot, ops: seq<Op>, n: nat, p: Procedure, id: string, at: string)
    requires Consistent(s) && FreshRun(s, ops) && n <= |ops| && p.idempotency.Never? && p.id in s.procedureIds
    ensures AfterSubmit(Run(s, ops, n), p, id, at) == (Threw(DuplicateNonIdempotent), Run(s, ops, n))
  {
    RunConsistent(s, ops, n);
    ProcedureStays(s, ops, n, p.id);
  }

  lemma {:induction false} ProcedureStays(s: Snapshot, ops: seq<Op>, n: nat, id: string)
    requires n <= |ops| && id in s.procedureIds
    ensures id in Run(s, ops, n).procedureIds
  {
    if n > 0 {
      ProcedureStays(s, ops, n - 1, id);
    }
  }
}
