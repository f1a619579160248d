/** The reference service: one task is one job, run at most once, through crashes and restarts. */
module ReferenceService {
  import opened JsText
  import opened JobTrace
  import opened JobController

  /** A task by the truncated digest of its canonical text. */
  datatype Task = Task(digest: string, capabilityId: string, deferred: bool)

  /** What survives a crash: the saved snapshot, and the executions the adapter has begun. */
  datatype World = World(store: Snapshot, executed: seq<string>)

  /** The clock: its reading at the k-th question of a call. */
  type Clock = nat -> string

  function JobId(digest: string): string { "job_" + digest }

  function Key(digest: string): string { "idem_" + digest }

  function ProcedureOf(t: Task): Procedure {
    Procedure("proc_" + t.digest, "prj_reference0000000001", t.capabilityId, KeyRequired, Key(t.digest))
  }

  // ----- What a call leaves behind when the process lives for `budget` more actions

  function AfterExecute(w: World, t: Task, id: string, now: Clock, budget: nat): World {
    if budget == 0 then w
    else
      var begun := w.(executed := w.executed + [t.digest]);
      if budget == 1 then begun
      else begun.(store := AfterTransition(w.store, id, State.Succeeded, None, now(3)).1)
  }

  function AfterStart(w: World, t: Task, id: string, now: Clock, budget: nat): World {
    if budget == 0 then w
    else
      var (outcome, store) := AfterTransition(w.store, id, Running, None, now(2));
      if outcome.Returned? && !t.deferred then AfterExecute(w.(store := store), t, id, now, budget - 1)
      else w.(store := store)
  }

  function AfterGrant(w: World, t: Task, id: string, now: Clock, budget: nat): World {
    if budget == 0 then w
    else
      var (outcome, store) := AfterTransition(w.store, id, Granted, None, now(1));
      if outcome.Returned? then AfterStart(w.(store := store), t, id, now, budget - 1) else w.(store := store)
  }

  function AfterRunTask(w: World, t: Task, now: Clock, budget: nat): World {
    if budget == 0 then w
    else
      var (outcome, store) := AfterSubmit(w.store, ProcedureOf(t), JobId(t.digest), now(0));
      if outcome.Returned? then AfterGrant(w.(store := store), t, outcome.job.id, now, budget - 1)
      else w.(store := store)
  }

  function AfterCancel(w: World, id: string, now: Clock, budget: nat): World {
    if !ValidId(id) || id !in w.store.jobs || budget == 0 then w
    else
      var state := w.store.jobs[id].state;
      if state.Running? || state.Checkpointed? then
        var stopping := w.(store := AfterTransition(w.store, id, Cancelling, None, now(0)).1);
        if budget == 1 then stopping
        else stopping.(store := AfterTransition(stopping.store, id, Cancelled, None, now(1)).1)
      else w.(store := AfterTransition(w.store, id, Cancelled, None, now(1)).1)
  }

  // ----- The service

  class ReferenceService {
    const jobs: JobController
    /** The adapter's executions, by task digest. */
    var executed: seq<string>

    constructor (jobs: JobController)
      ensures this.jobs == jobs && executed == []
    {
      this.jobs := jobs;
      executed := [];
    }

    function Surviving(): World
      reads this, jobs.store
    {
      World(jobs.store.saved, executed)
    }

    /** Runs a task in a process that dies, if it dies, after `budget` stores or executions. */
    method RunTask(t: Task, now: Clock, budget: nat) returns (done: bool)
      modifies this, jobs.store
      ensures Surviving() == AfterRunTask(old(Surviving()), t, now, budget)
    {
      done := false;
      if budget == 0 {
        return;
      }
      var job := jobs.Submit(ProcedureOf(t), JobId(t.digest), now(0));
      if !job.Returned? || budget == 1 {
        return;
      }
      var id := job.job.id;
      var granted := jobs.Transition(id, Granted, None, now(1));
      if !granted.Returned? || budget == 2 {
        return;
      }
      var running := jobs.Transition(id, Running, None, now(2));
      if !running.Returned? || t.deferred || budget == 3 {
        return;
      }
      executed := executed + [t.digest];
      if budget == 4 {
        return;
      }
      var succeeded := jobs.Transition(id, State.Succeeded, None, now(3));
      done := succeeded.Returned?;
    }

    method Cancel(id: string, now: Clock, budget: nat) returns (done: bool)
      modifies jobs.store
      ensures Surviving() == AfterCancel(old(Surviving()), id, now, budget)
    {
      done := false;
      var job := jobs.Get(id);
      if !job.Returned? || budget == 0 {
        return;
      }
      if job.job.state.Running? || job.job.state.Checkpointed? {
        var stopping := jobs.Transition(id, Cancelling, None, now(0));
        if budget == 1 {
          return;
        }
      }
      var cancelled := jobs.Transition(id, Cancelled, None, now(1));
      done := cancelled.Returned?;
    }
  }

  // ----- At most once

  datatype Call = RunCall(t: Task, now: Clock, budget: nat) | CancelCall(id: string, now: Clock, budget: nat)

  function Perform(w: World, c: Call): World {
    match c
    case RunCall(t, now, budget) => AfterRunTask(w, t, now, budget)
    case CancelCall(id, now, budget) => AfterCancel(w, id, now, budget)
  }

  const START := World(EMPTY, [])

  function Times(w: World, digest: string): nat {
    multiset(w.executed)[digest]
  }

  /** The job of a task tells whether its execution has begun. */
  ghost predicate Accounted(w: World, digest: string) {
    var id := JobId(digest);
    && Times(w, digest) <= 1
    && (Times(w, digest) == 1 ==>
        id in w.store.jobs && !w.store.jobs[id].state.Queued? && !w.store.jobs[id].state.Granted?)
    && (id in w.store.jobs && w.store.jobs[id].state.Succeeded? ==> Times(w, digest) == 1)
  }

  /** The task's key and its job come together. */
  ghost predicate Keyed(w: World, digest: string) {
    && (Key(digest) in w.store.idempotencyKeys <==> JobId(digest) in w.store.jobs)
    && (Key(digest) in w.store.idempotencyKeys ==> w.store.idempotencyKeys[Key(digest)] == JobId(digest))
  }

  ghost predicate Sound(w: World) {
    Consistent(w.store) && forall d :: Accounted(w, d) && Keyed(w, d)
  }

  lemma PrefixInjective(p: string, d: string, e: string)
    ensures p + d == p + e <==> d == e
  {
    assert (p + d)[|p|..] == d && (p + e)[|p|..] == e;
  }

  lemma MoveAccounted(w: World, id: string, to: State, at: string, d: string)
    requires Accounted(w, d) && Keyed(w, d) && !to.Succeeded?
    ensures var w' := w.(store := AfterTransition(w.store, id, to, None, at).1); Accounted(w', d) && Keyed(w', d)
  {
    if id in w.store.jobs && IsLegalTransition(w.store.jobs[id].state, to) {
      GrantedOnlyFromQueue(w.store.jobs[id].state, to);
    }
  }

  /** Moving any job anywhere but to `succeeded` keeps the accounts. */
  lemma MoveSound(w: World, id: string, to: State, at: string)
    requires Sound(w) && !to.Succeeded?
    ensures Sound(w.(store := AfterTransition(w.store, id, to, None, at).1))
  {
    MoveConsistent(w.store, id, to, None, at);
    forall d
      ensures var w' := w.(store := AfterTransition(w.store, id, to, None, at).1); Accounted(w', d) && Keyed(w', d)
    {
      assert Accounted(w, d) && Keyed(w, d);
      MoveAccounted(w, id, to, at, d);
    }
  }

  lemma SubmitSound(w: World, t: Task, at: string)
    requires Sound(w)
    ensures Sound(w.(store := AfterSubmit(w.store, ProcedureOf(t), JobId(t.digest), at).1))
    ensures var (outcome, store) := AfterSubmit(w.store, ProcedureOf(t), JobId(t.digest), at);
            outcome.Returned? && outcome.job.id == JobId(t.digest) && JobId(t.digest) in store.jobs
  {
    assert Accounted(w, t.digest) && Keyed(w, t.digest);
    var w' := w.(store := AfterSubmit(w.store, ProcedureOf(t), JobId(t.digest), at).1);
    if JobId(t.digest) in w.store.jobs {
      assert ToldIn(w.store, JobId(t.digest));
      assert w' == w;
    } else {
      SubmitConsistent(w.store, ProcedureOf(t), JobId(t.digest), at);
      forall d ensures Accounted(w', d) && Keyed(w', d) {
        assert Accounted(w, d) && Keyed(w, d);
        PrefixInjective("job_", d, t.digest);
        PrefixInjective("idem_", d, t.digest);
      }
    }
  }

  lemma BegunAccounted(w: World, t: Task, d: string)
    requires Accounted(w, d) && Keyed(w, d) && Times(w, t.digest) == 0
    requires JobId(t.digest) in w.store.jobs && w.store.jobs[JobId(t.digest)].state.Running?
    ensures var begun := w.(executed := w.executed + [t.digest]); Accounted(begun, d) && Keyed(begun, d)
  {}

  lemma SucceededAccounted(w: World, t: Task, id: string, at: string, d: string)
    requires id == JobId(t.digest) && Accounted(w, d) && Keyed(w, d) && Times(w, t.digest) == 1
    ensures var w' := w.(store := AfterTransition(w.store, id, State.Succeeded, None, at).1);
            Accounted(w', d) && Keyed(w', d)
  {
    PrefixInjective("job_", d, t.digest);
  }

  /** Execution begins when the job has just started running and never ran before. */
  lemma ExecuteSound(w: World, t: Task, id: string, now: Clock, budget: nat)
    requires Sound(w) && id == JobId(t.digest) && id in w.store.jobs && w.store.jobs[id].state.Running?
             && Times(w, t.digest) == 0
    ensures Sound(AfterExecute(w, t, id, now, budget))
  {
    var begun := w.(executed := w.executed + [t.digest]);
    forall d ensures Accounted(begun, d) && Keyed(begun, d) {
      assert Accounted(w, d) && Keyed(w, d);
      BegunAccounted(w, t, d);
    }
    SucceedSound(begun, t, id, now(3));
  }

  lemma SucceedSound(w: World, t: Task, id: string, at: string)
    requires Sound(w) && id == JobId(t.digest) && Times(w, t.digest) == 1
    ensures Sound(w.(store := AfterTransition(w.store, id, State.Succeeded, None, at).1))
  {
    MoveConsistent(w.store, id, State.Succeeded, None, at);
    forall d
      ensures var w' := w.(store := AfterTransition(w.store, id, State.Succeeded, None, at).1);
              Accounted(w', d) && Keyed(w', d)
    {
      assert Accounted(w, d) && Keyed(w, d);
      SucceededAccounted(w, t, id, at, d);
    }
  }

  /** A job that has just been granted has not been executed. */
  lemma StartSound(w: World, t: Task, id: string, now: Clock, budget: nat)
    requires Sound(w) && id == JobId(t.digest) && id in w.store.jobs && w.store.jobs[id].state.Granted?
    ensures Sound(AfterStart(w, t, id, now, budget))
  {
    if budget > 0 {
      var (outcome, store) := AfterTransition(w.store, id, Running, None, now(2));
      assert Accounted(w, t.digest);
      MoveSound(w, id, Running, now(2));
      if outcome.Returned? && !t.deferred {
        ExecuteSound(w.(store := store), t, id, now, budget - 1);
      }
    }
  }

  lemma GrantSound(w: World, t: Task, id: string, now: Clock, budget: nat)
    requires Sound(w) && id == JobId(t.digest)
    ensures Sound(AfterGrant(w, t, id, now, budget))
  {
    if budget > 0 {
      var (outcome, store) := AfterTransition(w.store, id, Granted, None, now(1));
      MoveSound(w, id, Granted, now(1));
      if outcome.Returned? {
        StartSound(w.(store := store), t, id, now, budget - 1);
      }
    }
  }

  lemma RunTaskSound(w: World, t: Task, now: Clock, budget: nat)
    requires Sound(w)
    ensures Sound(AfterRunTask(w, t, now, budget))
  {
    if budget > 0 {
      var (outcome, store) := AfterSubmit(w.store, ProcedureOf(t), JobId(t.digest), now(0));
      SubmitSound(w, t, now(0));
      var w' := w.(store := store);
      GrantSound(w', t, JobId(t.digest), now, budget - 1);
      assert AfterRunTask(w, t, now, budget) == AfterGrant(w', t, JobId(t.digest), now, budget - 1);
    }
  }

  lemma CancelSound(w: World, id: string, now: Clock, budget: nat)
    requires Sound(w)
    ensures Sound(AfterCancel(w, id, now, budget))
  {
    MoveSound(w, id, Cancelled, now(1));
    MoveSound(w, id, Cancelling, now(0));
    MoveSound(w.(store := AfterTransition(w.store, id, Cancelling, None, now(0)).1), id, Cancelled, now(1));
  }

  /** The world after the first `n` calls; between calls the service may be restarted at will. */
  function After(calls: seq<Call>, n: nat): World
    requires n <= |calls|
  {
    if n == 0 then START else Perform(After(calls, n - 1), calls[n - 1])
  }

  lemma {:induction false} ReachableSound(calls: seq<Call>, n: nat)
    requires n <= |calls|
    ensures Sound(After(calls, n))
  {
    if n > 0 {
      var w, c := After(calls, n - 1), calls[n - 1];
      ReachableSound(calls, n - 1);
      match c
      case RunCall(t, now, budget) => RunTaskSound(w, t, now, budget);
      case CancelCall(id, now, budget) => CancelSound(w, id, now, budget);
    }
  }

  /** Over any calls, with crashes anywhere in them, the adapter executes at most once per truncated task digest. */
  lemma AtMostOnce(calls: seq<Call>, digest: string)
    ensures Times(After(calls, |calls|), digest) <= 1
  {
    ReachableSound(calls, |calls|);
    assert Accounted(After(calls, |calls|), digest);
  }

  /** A job has succeeded only if its task was executed, once. */
  lemma SucceededMeansExecuted(calls: seq<Call>, digest: string)
    requires var w := After(calls, |calls|);
             JobId(digest) in w.store.jobs && w.store.jobs[JobId(digest)].state.Succeeded?
    ensures Times(After(calls, |calls|), digest) == 1
  {
    ReachableSound(calls, |calls|);
    assert Accounted(After(calls, |calls|), digest);
  }

  /** Left alone, the first run of a task that is not deferred executes it and succeeds. */
  lemma FirstRunExecutes(w: World, t: Task, now: Clock, budget: nat)
    requires Sound(w) && JobId(t.digest) !in w.store.jobs && ValidId(JobId(t.digest)) && !t.deferred && budget >= 5
    ensures var w' := AfterRunTask(w, t, now, budget);
            w'.executed == w.executed + [t.digest] && JobId(t.digest) in w'.store.jobs
            && w'.store.jobs[JobId(t.digest)].state.Succeeded?
  {
    assert Keyed(w, t.digest) && Accounted(w, t.digest);
  }

  /** Submitting a task again returns its job and saves nothing new. */
  lemma Resubmitted(w: World, t: Task, at: string)
    requires Sound(w) && JobId(t.digest) in w.store.jobs
    ensures AfterSubmit(w.store, ProcedureOf(t), JobId(t.digest), at)
              == (Returned(w.store.jobs[JobId(t.digest)]), w.store)
    ensures w.store.jobs[JobId(t.digest)].id == JobId(t.digest)
  {
    assert Keyed(w, t.digest) && ToldIn(w.store, JobId(t.digest));
  }

  lemma GrantRefused(w: World, t: Task, id: string, now: Clock, budget: nat)
    requires id in w.store.jobs && !w.store.jobs[id].state.Queued?
    ensures AfterGrant(w, t, id, now, budget) == w
  {
    assert !IsLegalTransition(w.store.jobs[id].state, Granted);
  }

  /** Once a task's job has left the queue, running the task again changes nothing at all. */
  lemma RerunDoesNothing(w: World, t: Task, now: Clock, budget: nat)
    requires Sound(w) && JobId(t.digest) in w.store.jobs && !w.store.jobs[JobId(t.digest)].state.Queued?
    ensures AfterRunTask(w, t, now, budget) == w
  {
    Resubmitted(w, t, now(0));
    if budget > 0 {
      GrantRefused(w, t, JobId(t.digest), now, budget - 1);
    }
  }
}
