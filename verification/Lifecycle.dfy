// The per-call protocol state machine (internal/actionledger/lifecycle.go) as a function
// on values; module LifecycleObject has the object whose methods update its fields.
module Lifecycle {
  import opened Wrappers
  import opened LedgerTypes

  datatype DispatchStatus = NotDispatched | Dispatched | Succeeded | Failed | Unknown

  datatype CallStatus = CallStatus(
    callId: Identity, requestAccepted: bool, evaluated: bool, decision: Decision, reason: Reason,
    approval: ApprovalStatus, dispatch: DispatchStatus, inspection: InspectionStatus,
    delivery: DeliveryStatus, terminalFailure: bool, terminalComplete: bool,
    evidenceComplete: bool, historyComplete: bool, firstSequence: nat, lastSequence: nat)

  datatype ApprovalCycle = ApprovalCycle(
    status: ApprovalStatus, terminal: bool, requestId: Option<Identity>, policyId: Identity, reason: Reason)

  const NO_APPROVAL := ApprovalCycle(NoApproval, false, None, 0, NoReason)

  datatype BudgetProgress = BudgetProgress(
    seen: bool, stage: Option<BudgetKind>, reservation: Option<Identity>, ids: seq<Identity>,
    terminal: bool, stopsCall: bool, postUnits: int)

  const NO_BUDGET := BudgetProgress(false, None, None, [], false, false, 0)

  datatype ResultProgress = ResultProgress(
    downstreamSeen: bool, downstreamDecision: Decision, downstreamReason: Reason,
    inspectionSeen: bool, inspectionDecision: Decision)

  const NO_RESULT := ResultProgress(false, Undecided, NoReason, false, Undecided)

  // The source keeps these in one flat structure; here the fields that only
  // budget events and only result events write are grouped.
  datatype CallState = CallState(
    status: CallStatus, binding: CallBinding, preDecisionSeen: bool, preOutcome: Option<PhaseOutcome>,
    preApproval: ApprovalCycle, postApproval: ApprovalCycle, budget: BudgetProgress, result: ResultProgress,
    dispatchSeen: bool, terminalSeen: bool, historyMissing: bool, lastTimestamp: int)

  // One constructor per rejection of the source.
  datatype Rejection =
    | EventPrecedesAcceptance | FollowsTerminalBudget | FollowsTerminalApproval | BypassesPendingApproval
    | FollowsTerminalPostApproval | FollowsTerminalDecision | AcceptanceNotFirst
    | DuplicateDecision | ProgressBeforeDispatch | ProgressAfterOutcome | DuplicateObservation
    | BudgetBeforeEvaluation | DispatchNotEligible | DispatchWithoutApproval
    | DispatchBeforeCommitment | DispatchReservationDrift | DispatchUnrecordedReservation
    | OutcomeWithoutDispatch | InspectionWithoutSuccess
    | SuppressedBeforeDispatch | SuppressedAfterOutcome | DeliveryWithoutInspection | DeliveryBeforeSettlement
    | DeliveryContradictsInspection | DuplicateFailure | FailureContradictsDispatch | FailureContradictsDelivery
    | ApprovalOutsidePreCallWindow | ApprovalOutsidePostResultWindow | ApprovalPhaseUnsupported
    | DuplicatePendingApproval | ApprovalWithoutPending | ApprovalBindingDrift
    | BudgetAfterTerminal | PostReservationOutsideWindow | BudgetStartsWithoutReservation | BudgetBindingDrift
    | DuplicateReservation | ReservationDecisionMismatch | CommitmentWithoutReservation
    | CommitmentBeforeApproval | CommitmentNotEligible | ReleaseWithoutReservation
    | SettlementWithoutDispatch | SettlementDecisionMismatch | SettlementApprovalMismatch
    | IndeterminateWithoutReservation | DenialWithoutReservation | DenialWithoutCause | DenialCauseMismatch
    | CallBindingDrift | TimestampBackward | EventAfterTerminal

  type StepResult = Result<CallState, Rejection>

  function Fresh(r: Record, dropped: bool): CallState {
    var missing := !r.payload.RequestAccepted? && dropped;
    CallState(
      CallStatus(r.CallId(), false, false, Undecided, NoReason, NoApproval, NotDispatched, NoInspection,
                 NoDelivery, false, false, !missing, !missing, r.sequence, 0),
      r.call, false, None, NO_APPROVAL, NO_APPROVAL, NO_BUDGET, NO_RESULT, false, false, missing, 0)
  }

  // What an event leaves alone: nothing changes what identifies the call, and
  // each kind of event changes only its own part of the state.
  predicate SameCall(s: CallState, t: CallState) {
    && t.binding == s.binding && t.historyMissing == s.historyMissing && t.lastTimestamp == s.lastTimestamp
    && t.status.callId == s.status.callId
    && t.status.firstSequence == s.status.firstSequence && t.status.lastSequence == s.status.lastSequence
  }

  predicate SameDecision(s: CallState, t: CallState) {
    && t.preDecisionSeen == s.preDecisionSeen && t.preOutcome == s.preOutcome
    && t.status.decision == s.status.decision && t.status.reason == s.status.reason
  }

  predicate SameApprovals(s: CallState, t: CallState) {
    t.preApproval == s.preApproval && t.postApproval == s.postApproval && t.status.approval == s.status.approval
  }

  predicate SameDispatch(s: CallState, t: CallState) {
    t.dispatchSeen == s.dispatchSeen && t.status.dispatch == s.status.dispatch
  }

  predicate SameEnd(s: CallState, t: CallState) {
    t.terminalSeen == s.terminalSeen && t.status.delivery == s.status.delivery
  }

  // ---------------------------------------------------------------- one event

  function Gate(s: CallState, r: Record): Option<Rejection> {
    if !r.payload.RequestAccepted? && !s.status.requestAccepted && !s.historyMissing then
      Some(EventPrecedesAcceptance)
    else if s.budget.stopsCall then
      Some(FollowsTerminalBudget)
    else if s.preApproval.terminal && s.preApproval.status != Approved && !r.payload.BudgetTransition? then
      Some(FollowsTerminalApproval)
    else if (s.preApproval.status == Pending || s.postApproval.status == Pending)
            && !r.payload.ApprovalTransition? then
      Some(BypassesPendingApproval)
    else if s.postApproval.terminal && s.postApproval.status != Approved
            && !r.payload.BudgetTransition? && !r.payload.Delivery? then
      Some(FollowsTerminalPostApproval)
    else if s.preDecisionSeen && s.status.decision == Block && !r.payload.BudgetTransition? then
      Some(FollowsTerminalDecision)
    else
      None
  }

  function ApplyAccepted(s: CallState): (out: StepResult)
    ensures out.Ok? ==>
              && SameCall(s, out.value) && SameDecision(s, out.value) && SameApprovals(s, out.value)
              && out.value.budget == s.budget && out.value.result == s.result
              && SameDispatch(s, out.value) && SameEnd(s, out.value)
  {
    if s.status.requestAccepted || s.status.lastSequence != 0 then
      Err(AcceptanceNotFirst)
    else
      Ok(s.(status := s.status.(requestAccepted := true)))
  }

  function ApplyDecision(s: CallState, r: Record): (out: StepResult)
    requires r.payload.PreDecision?
    ensures out.Ok? ==>
              && SameCall(s, out.value) && SameApprovals(s, out.value) && out.value.budget == s.budget
              && out.value.result == s.result
              && SameDispatch(s, out.value) && out.value.status.delivery == s.status.delivery
  {
    var decided := s.(preDecisionSeen := true,
                      status := s.status.(evaluated := true, decision := r.decision, reason := r.reason),
                      preOutcome := Some(r.payload.outcome));
    match r.phase
    case PreCall =>
      if s.preDecisionSeen || s.dispatchSeen then Err(DuplicateDecision) else Ok(decided)
    case Progress =>
      if !s.dispatchSeen && !s.historyMissing then Err(ProgressBeforeDispatch)
      else if s.result.downstreamSeen then Err(ProgressAfterOutcome)
      else Ok(s)
    case Observation =>
      if s.preDecisionSeen || s.dispatchSeen then Err(DuplicateObservation)
      else Ok(decided.(terminalSeen := true))
    case PostResult => Ok(s)
  }

  // The part of an approval transition that both approval cycles share.
  function AdvanceApproval(c: ApprovalCycle, historyMissing: bool, r: Record): Result<ApprovalCycle, Rejection>
    requires r.payload.ApprovalTransition?
  {
    var status := r.payload.status;
    if status == Pending && c.status != NoApproval then Err(DuplicatePendingApproval)
    else if status != Pending && c.requestId.None? && !historyMissing then Err(ApprovalWithoutPending)
    else if c.requestId.Some? && (c.requestId.value != r.payload.requestId || c.policyId != r.payload.policyId) then
      Err(ApprovalBindingDrift)
    else
      Ok(ApprovalCycle(status, c.terminal || status != Pending, Some(r.payload.requestId), r.payload.policyId,
                       if status != Pending then r.reason else c.reason))
  }

  function ApplyApproval(s: CallState, r: Record): (out: StepResult)
    requires r.payload.ApprovalTransition?
    ensures out.Ok? ==>
              && SameCall(s, out.value) && SameDecision(s, out.value) && out.value.budget == s.budget
              && out.value.result == s.result && SameDispatch(s, out.value) && SameEnd(s, out.value)
  {
    match r.phase
    case PreCall =>
      if (!s.historyMissing && (!s.preDecisionSeen || s.status.decision != RequireApproval))
         || s.dispatchSeen || s.preApproval.terminal || s.budget.stopsCall || s.budget.stage == Some(Committed) then
        Err(ApprovalOutsidePreCallWindow)
      else (
        match AdvanceApproval(s.preApproval, s.historyMissing, r)
        case Err(e) => Err(e)
        case Ok(c) => Ok(s.(preApproval := c, status := s.status.(approval := r.payload.status)))
      )
    case PostResult =>
      if (!s.historyMissing && (!s.result.inspectionSeen || s.result.inspectionDecision != RequireApproval))
         || s.status.dispatch != Succeeded || s.terminalSeen || s.postApproval.terminal || s.budget.stopsCall then
        Err(ApprovalOutsidePostResultWindow)
      else (
        match AdvanceApproval(s.postApproval, s.historyMissing, r)
        case Err(e) => Err(e)
        case Ok(c) => Ok(s.(postApproval := c, status := s.status.(approval := r.payload.status)))
      )
    case Progress => Err(ApprovalPhaseUnsupported)
    case Observation => Err(ApprovalPhaseUnsupported)
  }

  predicate PostReservation(r: Record) {
    r.payload.BudgetTransition? && r.payload.kind == Reserved && r.phase == PostResult
  }

  predicate PreDispatchEligible(s: CallState) {
    || s.status.decision == Allow || s.status.decision == Warn
    || (s.status.decision == RequireApproval && s.preApproval.status == Approved)
  }

  function BudgetRejection(s: CallState, r: Record, historyStart: bool): Option<Rejection>
    requires r.payload.BudgetTransition?
  {
    match r.payload.kind
    case Reserved =>
      if s.budget.stage != None || s.dispatchSeen || s.status.approval != NoApproval then Some(DuplicateReservation)
      else if !historyStart && (r.decision != s.status.decision || r.reason != s.status.reason) then
        Some(ReservationDecisionMismatch)
      else None
    case Committed =>
      if (!historyStart && s.budget.stage != Some(Reserved)) || s.dispatchSeen then Some(CommitmentWithoutReservation)
      else if !historyStart && s.status.decision == RequireApproval && s.preApproval.status != Approved then
        Some(CommitmentBeforeApproval)
      else if !historyStart && !PreDispatchEligible(s) then Some(CommitmentNotEligible)
      else None
    case Released =>
      if (!historyStart && s.budget.stage != Some(Reserved)) || s.dispatchSeen then Some(ReleaseWithoutReservation)
      else None
    case Settled =>
      if !historyStart && (s.budget.stage != Some(Committed) || !s.result.downstreamSeen) then
        Some(SettlementWithoutDispatch)
      else if !historyStart && (r.decision != s.result.downstreamDecision || r.reason != s.result.downstreamReason) then
        Some(SettlementDecisionMismatch)
      else
        var wanted := if s.postApproval.status == Approved then s.budget.postUnits else 0;
        if r.payload.reservedDelta.approvalCount != -s.budget.postUnits
           || r.payload.consumedDelta.approvalCount != wanted then Some(SettlementApprovalMismatch)
        else None
    case Indeterminate =>
      if !historyStart && s.budget.stage != Some(Reserved) && s.budget.stage != Some(Committed) then
        Some(IndeterminateWithoutReservation)
      else None
    case Denied =>
      if (!historyStart && s.budget.stage != Some(Reserved)) || s.dispatchSeen then Some(DenialWithoutReservation)
      else
        var stopped := s.preApproval.terminal && s.preApproval.status != Approved;
        if !stopped && s.status.decision != Block then Some(DenialWithoutCause)
        else if r.decision != Block || r.reason != (if stopped then s.preApproval.reason else s.status.reason) then
          Some(DenialCauseMismatch)
        else None
  }

  predicate EndsBudget(kind: BudgetKind) {
    kind == Released || kind == Settled || kind == Indeterminate || kind == Denied
  }

  predicate StopsCall(kind: BudgetKind) {
    kind == Released || kind == Indeterminate || kind == Denied
  }

  function ApplyBudget(s: CallState, r: Record): (out: StepResult)
    requires r.payload.BudgetTransition?
    ensures out.Ok? ==>
              && SameCall(s, out.value) && SameDecision(s, out.value) && SameApprovals(s, out.value)
              && out.value.result == s.result && SameDispatch(s, out.value) && SameEnd(s, out.value)
  {
    var p := r.payload;
    if s.budget.terminal then
      Err(BudgetAfterTerminal)
    else if PostReservation(r) then
      if !s.budget.seen || s.budget.stage != Some(Committed) || !s.result.downstreamSeen || !s.result.inspectionSeen
         || s.result.inspectionDecision != RequireApproval || s.postApproval.status != NoApproval
         || s.budget.postUnits != 0 || p.reservation != s.budget.reservation || p.budgetIds != s.budget.ids then
        Err(PostReservationOutsideWindow)
      else
        Ok(s.(budget := s.budget.(postUnits := p.reservedDelta.approvalCount)))
    else
      var historyStart := !s.budget.seen && s.historyMissing;
      if !s.budget.seen && !historyStart && p.kind != Reserved && p.kind != Denied then
        Err(BudgetStartsWithoutReservation)
      else if s.budget.seen && (p.reservation != s.budget.reservation || p.budgetIds != s.budget.ids) then
        Err(BudgetBindingDrift)
      else
        match BudgetRejection(s, r, historyStart)
        case Some(e) => Err(e)
        case None =>
          Ok(s.(budget := BudgetProgress(true, Some(p.kind), p.reservation, p.budgetIds, EndsBudget(p.kind),
                                         s.budget.stopsCall || StopsCall(p.kind), s.budget.postUnits)))
  }

  function ApplyDispatch(s: CallState, r: Record): (out: StepResult)
    requires r.payload.Dispatch?
    ensures out.Ok? ==>
              && SameCall(s, out.value) && SameDecision(s, out.value) && SameApprovals(s, out.value)
              && out.value.budget == s.budget && out.value.result == s.result
              && SameEnd(s, out.value)
  {
    var approved := s.status.decision == RequireApproval && s.preApproval.status == Approved;
    if s.dispatchSeen
       || (!s.historyMissing && (!s.preDecisionSeen || (s.preOutcome != Some(DispatchEligible) && !approved))) then
      Err(DispatchNotEligible)
    else if s.status.decision == RequireApproval && s.preApproval.status != Approved then
      Err(DispatchWithoutApproval)
    else if s.budget.seen && s.budget.stage != Some(Committed) then
      Err(DispatchBeforeCommitment)
    else if s.budget.seen && r.payload.dispatchReservation != s.budget.reservation then
      Err(DispatchReservationDrift)
    else if !s.budget.seen && !s.historyMissing && r.payload.dispatchReservation != None then
      Err(DispatchUnrecordedReservation)
    else
      Ok(s.(dispatchSeen := true, status := s.status.(dispatch := Dispatched)))
  }

  function DispatchAfter(result: DownstreamStatus): DispatchStatus {
    match result
    case DownstreamSucceeded => Succeeded
    case DownstreamFailed => Failed
    case DownstreamUnknown => Unknown
  }

  function ApplyOutcome(s: CallState, r: Record): (out: StepResult)
    requires r.payload.Outcome?
    ensures out.Ok? ==>
              && SameCall(s, out.value) && SameDecision(s, out.value) && SameApprovals(s, out.value)
              && out.value.budget == s.budget
              && SameEnd(s, out.value) && out.value.dispatchSeen == s.dispatchSeen
              && out.value.result.inspectionSeen == s.result.inspectionSeen
              && out.value.result.inspectionDecision == s.result.inspectionDecision
  {
    if (!s.dispatchSeen && !s.historyMissing) || s.result.downstreamSeen then
      Err(OutcomeWithoutDispatch)
    else
      var result := s.result.(downstreamSeen := true, downstreamDecision := r.decision, downstreamReason := r.reason);
      Ok(s.(result := result, status := s.status.(dispatch := DispatchAfter(r.payload.result))))
  }

  function ApplyInspection(s: CallState, r: Record): (out: StepResult)
    requires r.payload.Inspection?
    ensures out.Ok? ==>
              && SameCall(s, out.value) && SameDecision(s, out.value) && SameApprovals(s, out.value)
              && out.value.budget == s.budget && SameDispatch(s, out.value) && SameEnd(s, out.value)
              && out.value.result.downstreamSeen == s.result.downstreamSeen
              && out.value.result.downstreamDecision == s.result.downstreamDecision
              && out.value.result.downstreamReason == s.result.downstreamReason
  {
    if (s.status.dispatch != Succeeded && !s.historyMissing) || s.result.inspectionSeen then
      Err(InspectionWithoutSuccess)
    else
      Ok(s.(result := s.result.(inspectionSeen := true, inspectionDecision := r.decision),
            status := s.status.(inspection := r.payload.inspection)))
  }

  predicate InspectionPermits(s: CallState) {
    || s.result.inspectionDecision == Allow || s.result.inspectionDecision == Warn
    || (s.result.inspectionDecision == RequireApproval && s.postApproval.status == Approved)
  }

  function ApplyDelivery(s: CallState, r: Record): (out: StepResult)
    requires r.payload.Delivery?
    ensures out.Ok? ==>
              && SameCall(s, out.value) && SameDecision(s, out.value) && SameApprovals(s, out.value)
              && out.value.budget == s.budget && out.value.result == s.result
              && SameDispatch(s, out.value)
  {
    if r.payload.delivery == Suppressed then
      if !s.dispatchSeen && !s.historyMissing then Err(SuppressedBeforeDispatch)
      else if s.result.downstreamSeen then Err(SuppressedAfterOutcome)
      else Ok(s.(status := s.status.(delivery := Suppressed)))
    else if (!s.result.inspectionSeen && !s.historyMissing) || s.terminalSeen then
      Err(DeliveryWithoutInspection)
    else if s.budget.seen && !s.budget.terminal then
      Err(DeliveryBeforeSettlement)
    else if !s.historyMissing && (r.payload.delivery == Forwarded) != InspectionPermits(s) then
      Err(DeliveryContradictsInspection)
    else
      Ok(s.(terminalSeen := true, status := s.status.(delivery := r.payload.delivery)))
  }

  function ApplyFailure(s: CallState, r: Record): (out: StepResult)
    requires r.payload.TerminalFailure?
    ensures out.Ok? ==>
              && SameCall(s, out.value) && SameDecision(s, out.value) && SameApprovals(s, out.value)
              && out.value.budget == s.budget && out.value.result == s.result
              && out.value.dispatchSeen == s.dispatchSeen && out.value.status.delivery == s.status.delivery
  {
    if s.terminalSeen then
      Err(DuplicateFailure)
    else if !r.payload.dispatchKnown && (s.dispatchSeen || s.result.downstreamSeen || s.result.inspectionSeen) then
      Err(FailureContradictsDispatch)
    else if !r.payload.deliveryKnown && s.status.delivery != NoDelivery then
      Err(FailureContradictsDelivery)
    else
      var complete := s.status.evidenceComplete && r.payload.dispatchKnown && r.payload.deliveryKnown;
      var dispatch := if r.payload.dispatchKnown then s.status.dispatch else Unknown;
      var status := s.status.(dispatch := dispatch, evidenceComplete := complete, terminalFailure := true);
      Ok(s.(terminalSeen := true, status := status))
  }

  function Apply(s: CallState, r: Record): (out: StepResult)
    ensures out.Ok? ==> SameCall(s, out.value)
  {
    match Gate(s, r)
    case Some(e) => Err(e)
    case None =>
      match r.payload
      case RequestAccepted => ApplyAccepted(s)
      case PreDecision(_) => ApplyDecision(s, r)
      case ApprovalTransition(_, _, _, _) => ApplyApproval(s, r)
      case BudgetTransition(_, _, _, _, _) =>
        if !s.preDecisionSeen && !s.historyMissing then Err(BudgetBeforeEvaluation) else ApplyBudget(s, r)
      case Dispatch(_) => ApplyDispatch(s, r)
      case Outcome(_) => ApplyOutcome(s, r)
      case Inspection(_) => ApplyInspection(s, r)
      case Delivery(_) => ApplyDelivery(s, r)
      case TerminalFailure(_, _, _) => ApplyFailure(s, r)
  }

  // Finish: is the call complete?
  predicate Terminal(s: CallState) {
    && (|| s.terminalSeen
        || (s.preDecisionSeen && s.status.decision == Block)
        || (s.preApproval.terminal && s.preApproval.status != Approved)
        || s.status.dispatch == Failed || s.status.dispatch == Unknown
        || s.budget.stopsCall)
    && (s.budget.seen ==> s.budget.terminal)
  }

  function Finish(s: CallState): CallStatus {
    s.status.(terminalComplete := Terminal(s))
  }

  // ------------------------------------------------- one record of a call's history

  // What a record does to its call, `prior` being the call's state so far, if any.
  function StepCall(dropped: bool, prior: Option<CallState>, r: Record): StepResult {
    var s := if prior.Some? then prior.value else Fresh(r, dropped);
    if s.binding != r.call then Err(CallBindingDrift)
    else if s.lastTimestamp != 0 && r.timestamp < s.lastTimestamp then Err(TimestampBackward)
    else if s.terminalSeen then Err(EventAfterTerminal)
    else
      match Apply(s, r)
      case Err(e) => Err(e)
      case Ok(t) =>
        Ok(t.(lastTimestamp := r.timestamp,
              status := t.status.(lastSequence := r.sequence,
                                  evidenceComplete := t.status.evidenceComplete && r.complete && r.selectedComplete)))
  }

  // A whole history of one call, oldest record first.
  function RunCall(dropped: bool, history: seq<Record>): Result<Option<CallState>, Rejection>
    ensures var out := RunCall(dropped, history); out.Ok? ==> (out.value.Some? <==> history != [])
  {
    if history == [] then Ok(None)
    else
      var last := |history| - 1;
      match RunCall(dropped, history[..last])
      case Err(e) => Err(e)
      case Ok(prior) =>
        match StepCall(dropped, prior, history[last])
        case Err(e) => Err(e)
        case Ok(s) => Ok(Some(s))
  }
}
