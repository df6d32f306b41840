// The privacy-bounded ledger record (internal/actionledger/types.go).
//
// Identities, digests and safe labels are only ever compared for equality, so
// they are numbers here. A reservation identity of "absent" and an empty digest
// are None. The nine optional payload pointers, of which a valid record carries
// exactly one, are one sum type.
module LedgerTypes {
  import opened Wrappers

  type Identity = nat
  type Digest = nat

  datatype Phase = PreCall | PostResult | Progress | Observation

  datatype Decision = Undecided | Allow | Warn | RequireApproval | Block

  datatype Reason =
    | NoReason
    | DeclaredTool | HostUnmatched | RuleMatched
    | ApprovalRequired | ApprovalRejected | ApprovalExpired | ApprovalInvalid | ApprovalReplayed
    | AuthorityUnavailable | ReservationIndeterminate | ResultWithheld
    | DownstreamUnavailable | DownstreamError | DownstreamOutcomeUnknown | ProtocolError
    | CallCancelled | DeadlineExceeded | Shutdown
    | InspectionIncomplete | UnsupportedContent | SchemaInvalid | LimitExceeded | InvalidUtf8
    | OtherReason(code: nat)

  datatype PhaseOutcome =
    | DispatchEligible | DispatchBlocked | DeliveryEligible | ResultHeld
    | ProgressEligible | ProgressSuppressed | ObservationRecorded

  datatype ApprovalStatus =
    | NoApproval | Pending | Approved | Rejected | Expired | Cancelled | Unavailable | Malformed | Replayed

  datatype BudgetKind = Reserved | Released | Committed | Settled | Indeterminate | Denied

  datatype BudgetDelta = BudgetDelta(
    callCount: int, deniedCount: int, approvalCount: int, argumentBytes: int,
    resultBytes: int, costUnits: int, concurrent: int, rateWindow: int)

  datatype DownstreamStatus = DownstreamSucceeded | DownstreamFailed | DownstreamUnknown

  datatype InspectionStatus = NoInspection | Clean | Matched | InspectionPartial

  datatype DeliveryStatus = NoDelivery | Forwarded | Withheld | Suppressed

  datatype CallPhase = ActiveCall | CancelledCall | ShutdownCall

  datatype Payload =
    | RequestAccepted
    | PreDecision(outcome: PhaseOutcome)
    | ApprovalTransition(status: ApprovalStatus, requestId: Identity, policyId: Identity, receipt: Option<Identity>)
    | BudgetTransition(kind: BudgetKind, reservation: Option<Identity>, budgetIds: seq<Identity>,
                       reservedDelta: BudgetDelta, consumedDelta: BudgetDelta)
    | Dispatch(dispatchReservation: Option<Identity>)
    | Outcome(result: DownstreamStatus)
    | Inspection(inspection: InspectionStatus)
    | Delivery(delivery: DeliveryStatus)
    | TerminalFailure(callPhase: CallPhase, dispatchKnown: bool, deliveryKnown: bool)

  // Fields of the source's call binding that are only compared as a whole are in `details`.
  datatype CallBinding = CallBinding(callId: Identity, repository: Identity, details: seq<Identity>)

  datatype Record = Record(
    sequence: nat,
    previousDigest: Option<Digest>,
    digest: Option<Digest>,
    timestamp: int,          // 0 is the zero time, which no valid record carries
    call: CallBinding,
    phase: Phase,
    decision: Decision,
    reason: Reason,
    complete: bool,          // the decision's completeness
    stateComplete: bool,     // the state part of that completeness
    selectedComplete: bool,  // every selected field is complete
    payload: Payload)
  {
    function CallId(): Identity { call.callId }
  }
}
