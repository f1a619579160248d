/** Job states, their legal edges and the checker for job event logs. */
module JobTrace {
  import opened JsText
  import opened Json

  /** The ten job states; any other state name is `Other`. */
  datatype State =
    | Queued | Granted | Running | Checkpointed | Cancelling
    | Succeeded | Failed | Cancelled | TimedOut | Expired
    | Other(name: string)

  datatype Kind =
    | Submitted
    | Transition(from: State, to: State, payload: Option<Json>)
    | ExecutionStarted
    | Unlisted(name: string)

  datatype Event = Event(sequence: int, kind: Kind, at: string)

  datatype Idempotency = KeyRequired | Never | Repeatable

  predicate IsLegalTransition(from: State, to: State) {
    match from
    case Queued => to.Granted? || to.Cancelled?
    case Granted => to.Running? || to.Cancelled? || to.Expired?
    case Running => to.Checkpointed? || to.Succeeded? || to.Failed? || to.Cancelling? || to.TimedOut?
    case Checkpointed => to.Running? || to.Failed? || to.Cancelling? || to.TimedOut?
    case Cancelling => to.Cancelled? || to.Failed?
    case _ => false
  }

  /** No edge leaves the state. */
  predicate Terminal(s: State) {
    !s.Queued? && !s.Granted? && !s.Running? && !s.Checkpointed? && !s.Cancelling?
  }

  lemma TerminalHasNoEdge(s: State)
    ensures Terminal(s) <==> forall to :: !IsLegalTransition(s, to)
  {
    if !Terminal(s) {
      assert IsLegalTransition(Queued, Granted) && IsLegalTransition(Granted, Running)
             && IsLegalTransition(Running, Failed)
          && IsLegalTransition(Checkpointed, Failed) && IsLegalTransition(Cancelling, Failed);
    }
  }

  /** A job never comes back to the queue, and is granted only from it. */
  lemma GrantedOnlyFromQueue(from: State, to: State)
    requires IsLegalTransition(from, to)
    ensures !to.Queued?
    ensures to.Granted? ==> from.Queued?
  {}

  // ----- The checker

  datatype Verdict = Accepted | NotMonotonic | Illegal(from: State, to: State) | DuplicateExecution

  function Executions(events: seq<Event>): nat {
    if events == [] then 0
    else Executions(events[..|events| - 1]) + (if events[|events| - 1].kind.ExecutionStarted? then 1 else 0)
  }

  function SequenceBefore(events: seq<Event>, i: nat): int
    requires i <= |events|
  {
    if i == 0 then 0 else events[i - 1].sequence
  }

  predicate Follows(events: seq<Event>, i: nat)
    requires i < |events|
  {
    SequenceBefore(events, i) < events[i].sequence
  }

  predicate LegalAt(events: seq<Event>, i: nat)
    requires i < |events|
  {
    events[i].kind.Transition? ==> IsLegalTransition(events[i].kind.from, events[i].kind.to)
  }

  ghost predicate Increasing(events: seq<Event>) {
    forall i :: 0 <= i < |events| ==> Follows(events, i)
  }

  ghost predicate LegalEdges(events: seq<Event>) {
    forall i :: 0 <= i < |events| ==> LegalAt(events, i)
  }

  /** `assertJobTrace`; `Accepted` stands for a normal return. */
  method AssertJobTrace(events: seq<Event>, idempotency: Idempotency) returns (v: Verdict)
    ensures v.Accepted? <==>
              Increasing(events) && LegalEdges(events) && (idempotency.Never? ==> Executions(events) <= 1)
    ensures v.Illegal? ==> !IsLegalTransition(v.from, v.to) && !LegalEdges(events)
    ensures v.DuplicateExecution? ==> Increasing(events) && LegalEdges(events)
  {
    var previousSequence, executions := 0, 0;
    for i := 0 to |events|
      invariant previousSequence == SequenceBefore(events, i)
      invariant executions == Executions(events[..i])
      invariant forall k :: 0 <= k < i ==> Follows(events, k) && LegalAt(events, k)
    {
      var event := events[i];
      assert events[..i + 1][..i] == events[..i];
      if event.sequence <= previousSequence {
        assert !Follows(events, i);
        return NotMonotonic;
      }
      previousSequence := event.sequence;
      if event.kind.Transition? && !IsLegalTransition(event.kind.from, event.kind.to) {
        assert !LegalAt(events, i);
        return Illegal(event.kind.from, event.kind.to);
      }
      if event.kind.ExecutionStarted? {
        executions := executions + 1;
      }
    }
    assert events[..|events|] == events;
    if idempotency.Never? && executions > 1 {
      return DuplicateExecution;
    }
    v := Accepted;
  }

  // ----- What a job's log says about the job

  /** The log of one job: numbered from one, submitted first, then a connected chain of legal edges from the queue. */
  ghost predicate Chain(events: seq<Event>) {
    && events != [] && events[0].kind.Submitted?
    && forall i :: 0 <= i < |events| ==> Chained(events, i)
  }

  ghost predicate Chained(events: seq<Event>, i: nat)
    requires i < |events|
  {
    && events[i].sequence == i + 1
    && (i > 0 ==> events[i].kind.Transition? && events[i].kind.from == StateAfter(events, i)
                  && IsLegalTransition(events[i].kind.from, events[i].kind.to))
  }

  /** The state after the first `n` events. */
  function StateAfter(events: seq<Event>, n: nat): State
    requires n <= |events|
  {
    if n > 1 && events[n - 1].kind.Transition? then events[n - 1].kind.to else Queued
  }

  /** How often the log enters `running`. */
  function Attempts(events: seq<Event>, n: nat): nat
    requires n <= |events|
  {
    if n == 0 then 0
    else Attempts(events, n - 1) + (if events[n - 1].kind.Transition? && events[n - 1].kind.to.Running? then 1 else 0)
  }

  /** The payload recorded last. */
  function LastPayload(events: seq<Event>, n: nat): Option<Json>
    requires n <= |events|
  {
    if n == 0 then None
    else if events[n - 1].kind.Transition? && events[n - 1].kind.payload.Some? then events[n - 1].kind.payload
    else LastPayload(events, n - 1)
  }

  lemma {:induction false} PrefixFacts(events: seq<Event>, more: seq<Event>, n: nat)
    requires n <= |events| && n <= |more| && forall i :: 0 <= i < n ==> events[i] == more[i]
    ensures StateAfter(events, n) == StateAfter(more, n)
    ensures Attempts(events, n) == Attempts(more, n)
    ensures LastPayload(events, n) == LastPayload(more, n)
  {
    if n > 0 {
      PrefixFacts(events, more, n - 1);
    }
  }

  lemma {:induction false} NoExecutions(events: seq<Event>)
    requires forall i :: 0 <= i < |events| ==> !events[i].kind.ExecutionStarted?
    ensures Executions(events) == 0
  {
    if events != [] {
      NoExecutions(events[..|events| - 1]);
    }
  }

  /** A chained log passes the checker, whatever the idempotency of the procedure. */
  lemma ChainAccepted(events: seq<Event>)
    requires Chain(events)
    ensures Increasing(events) && LegalEdges(events) && Executions(events) == 0
  {
    forall i | 0 <= i < |events|
      ensures Follows(events, i) && LegalAt(events, i) && !events[i].kind.ExecutionStarted?
    {
      assert Chained(events, i) && (i > 0 ==> Chained(events, i - 1));
    }
    NoExecutions(events);
  }

  /** Only the first transition of a chained log leaves the queue, so a job is granted at most once. */
  lemma GrantedOnce(events: seq<Event>, i: nat)
    requires Chain(events) && i < |events| && events[i].kind.Transition? && events[i].kind.to.Granted?
    ensures i == 1
  {
    assert Chained(events, i);
    GrantedOnlyFromQueue(events[i].kind.from, events[i].kind.to);
    if i > 1 {
      assert Chained(events, i - 1);
      GrantedOnlyFromQueue(events[i - 1].kind.from, events[i - 1].kind.to);
    }
  }
}
