/** The policy engine, with its own risk table, search and checks, against the policy contract. */
module Policy {
  import opened JsText
  import opened CampaignPlan
  import opened PolicyContract
  import Budget

  datatype Lease = Lease(id: Text, projectScope: Text, capabilityIds: seq<Text>, expiresAt: Text, generation: int)

  datatype Context = Context(lease: Option<Lease>, approval: Option<Approval>)

  datatype Engine = Engine(grants: seq<Grant>, capabilityName: Text -> bool, scopeName: Text -> bool,
                           generation: Text -> int)

  datatype Reason = PolicyDenied | StaleLease
                  | ApprovalRequired | ApprovalExpired | ApprovalMismatch | ApprovalRiskExceeded

  datatype Decision = InvalidRequest | Deny(reason: Reason) | Allow(leaseId: Text, grant: Grant)

  // ----- The engine's risk table

  function RiskTable(): map<Text, nat> {
    map[T("read") := 0, T("bounded-write") := 1, T("elevated") := 2, T("irreversible") := 3]
  }

  predicate RiskAllowed(requested: Text, ceiling: Text) {
    requested in RiskTable() && ceiling in RiskTable() && RiskTable()[requested] <= RiskTable()[ceiling]
  }

  lemma RiskRanked(name: Text)
    ensures name in RiskTable() <==> Risk(name).Some?
    ensures name in RiskTable() ==> RiskTable()[name] == Risk(name).value
  {
    assert |T("read")| == 4 && |T("bounded-write")| == 13 && |T("elevated")| == 8 && |T("irreversible")| == 12;
  }

  /** The engine's table and the contract's order risks alike. */
  lemma RisksAgree(requested: Text, ceiling: Text)
    ensures RiskAllowed(requested, ceiling) <==> WithinRisk(requested, ceiling)
  {
    RiskRanked(requested);
    RiskRanked(ceiling);
  }

  // ----- Finding a grant

  predicate ValidRequest(e: Engine, request: Request) {
    e.capabilityName(request.capabilityId) && e.scopeName(request.projectScope) && IsHash(request.requestHash)
    && request.risk in RiskTable()
  }

  /** The engine's search: the index of the first grant that passes its four tests, or the number of grants. */
  method FindGrant(grants: seq<Grant>, request: Request, now: Text) returns (k: nat)
    ensures FirstAt(request, grants, now, k)
  {
    k := 0;
    while k < |grants|
      invariant k <= |grants|
      invariant forall j :: 0 <= j < k ==> !Matches(request, now, grants[j])
    {
      var candidate := grants[k];
      RisksAgree(request.risk, candidate.riskCeiling);
      if candidate.capabilityId == request.capabilityId
         && candidate.projectScope == request.projectScope
         && Less(now, candidate.expiresAt)
         && RiskAllowed(request.risk, candidate.riskCeiling) {
        return;
      }
      k := k + 1;
    }
  }

  // ----- Leases and approvals

  predicate LeaseValid(e: Engine, request: Request, lease: Lease, now: Text) {
    lease.projectScope == request.projectScope && request.capabilityId in lease.capabilityIds
    && Less(now, lease.expiresAt) && lease.generation == e.generation(request.projectScope)
  }

  /** The context holds a lease that is valid for the request. */
  predicate Leased(e: Engine, request: Request, context: Context, now: Text) {
    context.lease.Some? && LeaseValid(e, request, context.lease.value, now)
  }

  /** The approval that an exact request needs passes the contract's assertion. */
  predicate Approved(request: Request, context: Context, now: Text) {
    request.approval == T("exact") ==>
      context.approval.Some? && AssertApproval(request, context.approval.value, now).None?
  }

  /** The engine's own checks of an exact approval, in its own order. */
  function CheckApproval(request: Request, approval: Option<Approval>, now: Text): Option<Reason> {
    if approval.None? then Some(ApprovalRequired)
    else if !Less(now, approval.value.expiresAt) then Some(ApprovalExpired)
    else if approval.value.requestHash != request.requestHash then Some(ApprovalMismatch)
    else if !RiskAllowed(request.risk, approval.value.riskCeiling) then Some(ApprovalRiskExceeded)
    else None
  }

  /** Engine and contract agree on which approvals pass, though they look for faults in different orders. */
  lemma ApprovalsAgree(request: Request, approval: Approval, now: Text)
    ensures CheckApproval(request, Some(approval), now).None? <==> AssertApproval(request, approval, now).None?
  {
    RisksAgree(request.risk, approval.riskCeiling);
  }

  // ----- The decision

  /**
   * The engine allows exactly what the contract allows under a valid lease, with the contract's grant and the lease's
   * name; for an exact approval the contract's assertion has to pass as well. Everything else is refused for the first
   * reason that applies.
   */
  method Authorize(e: Engine, request: Request, context: Context, now: Text) returns (d: Decision)
    ensures d.InvalidRequest? <==> !ValidRequest(e, request)
    ensures d == Deny(PolicyDenied) <==>
            ValidRequest(e, request) && EvaluatePolicy(request, e.grants, now).None?
    ensures d == Deny(StaleLease) <==>
            ValidRequest(e, request) && EvaluatePolicy(request, e.grants, now).Some?
            && !Leased(e, request, context, now)
    ensures d.Allow? <==>
            ValidRequest(e, request) && EvaluatePolicy(request, e.grants, now).Some? && Leased(e, request, context, now)
            && Approved(request, context, now)
    ensures d.Allow? ==>
              Some(d.grant) == EvaluatePolicy(request, e.grants, now) && d.leaseId == context.lease.value.id
    ensures d.Deny? && d.reason != PolicyDenied && d.reason != StaleLease ==>
              request.approval == T("exact") && CheckApproval(request, context.approval, now) == Some(d.reason)
  {
    if !ValidRequest(e, request) {
      return InvalidRequest;
    }
    var k := FindGrant(e.grants, request, now);
    FirstMatch(request, e.grants, now, k);
    if k == |e.grants| {
      return Deny(PolicyDenied);
    }
    if !Leased(e, request, context, now) {
      return Deny(StaleLease);
    }
    if request.approval == T("exact") {
      var refused := CheckApproval(request, context.approval, now);
      if context.approval.Some? {
        ApprovalsAgree(request, context.approval.value, now);
      }
      if refused.Some? {
        return Deny(refused.value);
      }
    }
    d := Allow(context.lease.value.id, e.grants[k]);
  }

  /** `budget(authorization)`: a session over the grant that was allowed, or an error. */
  method OpenBudget(d: Decision) returns (session: Budget.BudgetSession?)
    ensures session != null <==> d.Allow? && d.grant.budget.Some?
    ensures session != null ==> fresh(session) && session.State() == Budget.Session(d.grant.budget.value, false)
  {
    if !d.Allow? || d.grant.budget.None? {
      return null;
    }
    session := new Budget.BudgetSession(d.grant.budget.value);
  }
}
