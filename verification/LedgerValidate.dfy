// Which single records are well formed (internal/actionledger/validate.go).
module LedgerValidate {
  import opened Wrappers
  import opened LedgerTypes

  function OutcomeFor(phase: Phase, decision: Decision): PhaseOutcome {
    var permitted := decision == Allow || decision == Warn;
    match phase
    case PreCall => if permitted then DispatchEligible else DispatchBlocked
    case PostResult => if permitted then DeliveryEligible else ResultHeld
    case Progress => if permitted then ProgressEligible else ProgressSuppressed
    case Observation => ObservationRecorded
  }

  predicate ValidDecision(r: Record) {
    if r.payload.RequestAccepted? then
      r.decision == Undecided && r.reason == NoReason
    else
      && r.decision != Undecided && r.reason != NoReason
      && (r.decision == Allow ==> r.reason in {DeclaredTool, HostUnmatched, RuleMatched})
      && (r.decision == Warn ==> r.reason in {DeclaredTool, RuleMatched})
      && (r.decision == RequireApproval && !r.payload.ApprovalTransition? ==> r.reason == ApprovalRequired)
  }

  function ApprovalReason(status: ApprovalStatus): Reason {
    match status
    case Pending => ApprovalRequired
    case Approved => ApprovalRequired
    case Rejected => ApprovalRejected
    case Expired => ApprovalExpired
    case Cancelled => CallCancelled
    case Unavailable => AuthorityUnavailable
    case Malformed => ApprovalInvalid
    case Replayed => ApprovalReplayed
    case NoApproval => NoReason
  }

  predicate ValidApproval(r: Record)
    requires r.payload.ApprovalTransition?
  {
    && r.payload.status != NoApproval
    && (r.phase == PreCall || r.phase == PostResult)
    && r.decision == RequireApproval
    && (r.payload.status == Approved || r.payload.status == Rejected ==> r.payload.receipt.Some?)
    && (r.payload.status == Pending ==> r.payload.receipt.None?)
    && r.reason == ApprovalReason(r.payload.status)
  }

  predicate Zero(d: BudgetDelta) {
    d == BudgetDelta(0, 0, 0, 0, 0, 0, 0, 0)
  }

  predicate NonNegative(d: BudgetDelta) {
    && 0 <= d.callCount && 0 <= d.deniedCount && 0 <= d.approvalCount && 0 <= d.argumentBytes
    && 0 <= d.resultBytes && 0 <= d.costUnits && 0 <= d.concurrent && 0 <= d.rateWindow
  }

  predicate NonPositive(d: BudgetDelta) {
    && d.callCount <= 0 && d.deniedCount <= 0 && d.approvalCount <= 0 && d.argumentBytes <= 0
    && d.resultBytes <= 0 && d.costUnits <= 0 && d.concurrent <= 0 && d.rateWindow <= 0
  }

  predicate DenialAndApprovalOnly(d: BudgetDelta) {
    && 0 <= d.deniedCount && 0 <= d.approvalCount
    && d.callCount == 0 && d.argumentBytes == 0 && d.resultBytes == 0
    && d.costUnits == 0 && d.concurrent == 0 && d.rateWindow == 0
  }

  predicate ApprovalOnly(d: BudgetDelta) {
    DenialAndApprovalOnly(d) && d.deniedCount == 0
  }

  predicate ValidBudget(r: Record)
    requires r.payload.BudgetTransition?
  {
    var reserved, consumed := r.payload.reservedDelta, r.payload.consumedDelta;
    && r.payload.budgetIds != []
    && r.payload.reservation.Some?
    && (r.payload.kind != Denied ==> reserved.deniedCount == 0 && consumed.deniedCount == 0)
    && match r.payload.kind
       case Reserved =>
         && (r.phase == PreCall || r.phase == PostResult)
         && NonNegative(reserved) && !Zero(reserved) && Zero(consumed)
         && (r.phase == PostResult ==>
               ApprovalOnly(reserved) && 0 < reserved.approvalCount && r.decision == RequireApproval)
       case Released =>
         r.phase == PreCall && NonPositive(reserved) && !Zero(reserved) && ApprovalOnly(consumed) && r.decision == Block
       case Committed =>
         r.phase == PreCall && NonPositive(reserved) && NonNegative(consumed) && r.decision != Block
       case Settled =>
         r.phase == PostResult && NonPositive(reserved) && NonNegative(consumed)
       case Indeterminate =>
         && (r.phase == PreCall || r.phase == PostResult)
         && Zero(reserved) && Zero(consumed) && r.decision == Block && r.reason == ReservationIndeterminate
       case Denied =>
         && r.phase == PreCall && NonPositive(reserved) && DenialAndApprovalOnly(consumed)
         && !(Zero(reserved) && Zero(consumed)) && r.decision == Block
  }

  predicate ValidDownstream(r: Record)
    requires r.payload.Outcome?
  {
    && r.phase == PostResult
    && match r.payload.result
       case DownstreamSucceeded =>
         && (r.decision == Allow || r.decision == Warn)
         && r.reason !in {DownstreamUnavailable, DownstreamError, DownstreamOutcomeUnknown, ProtocolError}
       case DownstreamFailed =>
         r.decision == Block && r.reason in {DownstreamUnavailable, DownstreamError, ProtocolError}
       case DownstreamUnknown =>
         && r.decision == Block
         && r.reason in {DownstreamOutcomeUnknown, CallCancelled, DeadlineExceeded, Shutdown}
  }

  predicate ValidInspection(r: Record)
    requires r.payload.Inspection?
  {
    && r.phase == PostResult
    && r.payload.inspection != NoInspection
    && (r.payload.inspection == InspectionPartial ==>
          && !r.complete && r.decision == Block
          && r.reason in {InspectionIncomplete, UnsupportedContent, SchemaInvalid, LimitExceeded,
                          InvalidUtf8, CallCancelled, DeadlineExceeded})
    && (r.payload.inspection == Matched ==>
          (r.decision == Warn && r.reason == RuleMatched) || (r.decision == Block && r.reason == ResultWithheld))
  }

  predicate ValidDelivery(r: Record)
    requires r.payload.Delivery?
  {
    && r.payload.delivery != NoDelivery
    && (r.phase == if r.payload.delivery == Suppressed then Progress else PostResult)
    && (r.payload.delivery == Forwarded <==> r.decision != Block)
  }

  predicate ValidFailure(r: Record)
    requires r.payload.TerminalFailure?
  {
    && r.decision == Block
    && (!r.payload.dispatchKnown || !r.payload.deliveryKnown ==> !r.stateComplete)
    && match r.payload.callPhase
       case ActiveCall => r.reason != CallCancelled && r.reason != Shutdown
       case CancelledCall => r.reason == CallCancelled
       case ShutdownCall => r.reason == Shutdown
  }

  predicate ValidEvent(r: Record) {
    match r.payload
    case RequestAccepted => r.phase == PreCall
    case PreDecision(outcome) => r.phase != PostResult && outcome == OutcomeFor(r.phase, r.decision)
    case ApprovalTransition(_, _, _, _) => ValidApproval(r)
    case BudgetTransition(_, _, _, _, _) => ValidBudget(r)
    case Dispatch(_) => r.phase == PreCall && r.decision != Block
    case Outcome(_) => ValidDownstream(r)
    case Inspection(_) => ValidInspection(r)
    case Delivery(_) => ValidDelivery(r)
    case TerminalFailure(_, _, _) => ValidFailure(r)
  }

  predicate Valid(r: Record) {
    && 1 <= r.sequence
    && (r.sequence == 1 <==> r.previousDigest.None?)
    && r.timestamp != 0
    && ValidDecision(r)
    && (r.phase != PreCall && r.phase != PostResult ==> r.selectedComplete)
    && (!r.selectedComplete ==> !r.complete)
    && ValidEvent(r)
  }
}
