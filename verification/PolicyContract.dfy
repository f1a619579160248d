/** The policy contract: which grant a request gets, and which approvals pass. */
module PolicyContract {
  import opened JsText

  datatype Grant = Grant(capabilityId: Text, projectScope: Text, expiresAt: Text, riskCeiling: Text,
                         budget: Option<map<Text, real>>)

  datatype Request = Request(capabilityId: Text, projectScope: Text, requestHash: Text, risk: Text, approval: Text)

  datatype Approval = Approval(requestHash: Text, expiresAt: Text, riskCeiling: Text)

  /** The rank of a known risk. */
  function Risk(name: Text): Option<nat> {
    if name == T("read") then Some(0)
    else if name == T("bounded-write") then Some(1)
    else if name == T("elevated") then Some(2)
    else if name == T("irreversible") then Some(3)
    else None
  }

  predicate WithinRisk(requested: Text, ceiling: Text) {
    Risk(requested).Some? && Risk(ceiling).Some? && Risk(requested).value <= Risk(ceiling).value
  }

  predicate Matches(request: Request, now: Text, g: Grant) {
    g.capabilityId == request.capabilityId && g.projectScope == request.projectScope && Less(now, g.expiresAt)
    && WithinRisk(request.risk, g.riskCeiling)
  }

  /** `evaluatePolicy`: the first matching grant. */
  function EvaluatePolicy(request: Request, grants: seq<Grant>, now: Text): Option<Grant> {
    if grants == [] then None
    else if Matches(request, now, grants[0]) then Some(grants[0])
    else EvaluatePolicy(request, grants[1..], now)
  }

  datatype ApprovalError = HashMismatch | Expired | RiskExceeded

  /** `assertApproval`: `None` when it returns true, the error it throws otherwise. */
  function AssertApproval(request: Request, approval: Approval, now: Text): Option<ApprovalError> {
    if approval.requestHash != request.requestHash then Some(HashMismatch)
    else if !Less(now, approval.expiresAt) then Some(Expired)
    else if !WithinRisk(request.risk, approval.riskCeiling) then Some(RiskExceeded)
    else None
  }

  /** Grant `k` matches, and none before it does; with `k` behind the last grant, none at all. */
  ghost predicate FirstAt(request: Request, grants: seq<Grant>, now: Text, k: nat) {
    k <= |grants| && (k < |grants| ==> Matches(request, now, grants[k]))
    && forall j :: 0 <= j < k ==> !Matches(request, now, grants[j])
  }

  /** The grant returned is the first that matches, wherever it stands; there is none when none matches. */
  lemma {:induction false} FirstMatch(request: Request, grants: seq<Grant>, now: Text, k: nat)
    requires FirstAt(request, grants, now, k)
    ensures EvaluatePolicy(request, grants, now) == if k < |grants| then Some(grants[k]) else None
  {
    if k > 0 {
      assert forall j :: 0 <= j < |grants[1..]| ==> grants[1..][j] == grants[j + 1];
      FirstMatch(request, grants[1..], now, k - 1);
    }
  }
}
