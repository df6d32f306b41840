// The lifecycle of one call as the mutable object the source keeps, proved
// against the functions of module Lifecycle.
module LifecycleObject {
  import opened Wrappers
  import opened LedgerTypes
  import opened Lifecycle

  class LifecycleState {
    var status: CallStatus
    const binding: CallBinding
    var preDecisionSeen: bool
    var preOutcome: Option<PhaseOutcome>
    var preApproval: ApprovalCycle
    var postApproval: ApprovalCycle
    var budget: BudgetProgress
    var result: ResultProgress
    var dispatchSeen: bool
    var terminalSeen: bool
    const historyMissing: bool
    var lastTimestamp: int

    function View(): CallState
      reads this
    {
      CallState(status, binding, preDecisionSeen, preOutcome, preApproval, postApproval, budget, result,
                dispatchSeen, terminalSeen, historyMissing, lastTimestamp)
    }

    constructor (r: Record, dropped: bool)
      ensures View() == Fresh(r, dropped)
    {
      var missing := !r.payload.RequestAccepted? && dropped;
      status := CallStatus(r.CallId(), false, false, Undecided, NoReason, NoApproval, NotDispatched, NoInspection,
                           NoDelivery, false, false, !missing, !missing, r.sequence, 0);
      binding := r.call;
      preDecisionSeen, preOutcome := false, None;
      preApproval, postApproval := NO_APPROVAL, NO_APPROVAL;
      budget, result := NO_BUDGET, NO_RESULT;
      dispatchSeen, terminalSeen := false, false;
      historyMissing := missing;
      lastTimestamp := 0;
    }

    method ApplyApprovalTransition(r: Record) returns (err: Option<Rejection>)
      requires r.payload.ApprovalTransition?
      modifies this
      ensures err.Some? ==> ApplyApproval(old(View()), r) == Err(err.value)
      ensures err.None? ==> ApplyApproval(old(View()), r) == Ok(View())
    {
      var cycle: ApprovalCycle;
      match r.phase {
        case PreCall =>
          if (!historyMissing && (!preDecisionSeen || status.decision != RequireApproval))
             || dispatchSeen || preApproval.terminal || budget.stopsCall || budget.stage == Some(Committed) {
            return Some(ApprovalOutsidePreCallWindow);
          }
          cycle := preApproval;
        case PostResult =>
          if (!historyMissing && (!result.inspectionSeen || result.inspectionDecision != RequireApproval))
             || status.dispatch != Succeeded || terminalSeen || postApproval.terminal || budget.stopsCall {
            return Some(ApprovalOutsidePostResultWindow);
          }
          cycle := postApproval;
        case _ =>
          return Some(ApprovalPhaseUnsupported);
      }
      if r.payload.status == Pending && cycle.status != NoApproval {
        return Some(DuplicatePendingApproval);
      }
      if r.payload.status != Pending && cycle.requestId.None? && !historyMissing {
        return Some(ApprovalWithoutPending);
      }
      if cycle.requestId.Some?
         && (cycle.requestId.value != r.payload.requestId || cycle.policyId != r.payload.policyId) {
        return Some(ApprovalBindingDrift);
      }
      cycle := cycle.(requestId := Some(r.payload.requestId), policyId := r.payload.policyId,
                      status := r.payload.status);
      if r.payload.status != Pending {
        cycle := cycle.(terminal := true, reason := r.reason);
      }
      if r.phase == PreCall {
        preApproval := cycle;
      } else {
        postApproval := cycle;
      }
      status := status.(approval := r.payload.status);
      return None;
    }

    // An error may leave the budget fields partly updated, as in the source, whose
    // callers drop the whole state then.
    method ApplyBudgetTransition(r: Record) returns (err: Option<Rejection>)
      requires r.payload.BudgetTransition?
      modifies this
      ensures err.Some? ==> ApplyBudget(old(View()), r) == Err(err.value)
      ensures err.None? ==> ApplyBudget(old(View()), r) == Ok(View())
    {
      if budget.terminal {
        return Some(BudgetAfterTerminal);
      }
      if r.payload.kind == Reserved && r.phase == PostResult {
        if !budget.seen || budget.stage != Some(Committed) || !result.downstreamSeen || !result.inspectionSeen
           || result.inspectionDecision != RequireApproval || postApproval.status != NoApproval
           || budget.postUnits != 0 || r.payload.reservation != budget.reservation
           || r.payload.budgetIds != budget.ids {
          return Some(PostReservationOutsideWindow);
        }
        budget := budget.(postUnits := r.payload.reservedDelta.approvalCount);
        return None;
      }
      var historyStart := !budget.seen && historyMissing;
      if !budget.seen {
        if !historyStart && r.payload.kind != Reserved && r.payload.kind != Denied {
          return Some(BudgetStartsWithoutReservation);
        }
        budget := budget.(seen := true, reservation := r.payload.reservation, ids := r.payload.budgetIds);
      } else if r.payload.reservation != budget.reservation || r.payload.budgetIds != budget.ids {
        return Some(BudgetBindingDrift);
      }
      err := ApplyBudgetKind(r, historyStart);
    }

    // The branch of the transition's kind, once its binding is accepted.
    method ApplyBudgetKind(r: Record, historyStart: bool) returns (err: Option<Rejection>)
      requires r.payload.BudgetTransition? && !budget.terminal
      modifies this`budget
      ensures err == BudgetRejection(old(View()), r, historyStart)
      ensures err.None? ==>
                budget == old(budget).(stage := Some(r.payload.kind), terminal := EndsBudget(r.payload.kind),
                                       stopsCall := old(budget).stopsCall || StopsCall(r.payload.kind))
    {
      match r.payload.kind {
        case Reserved =>
          if budget.stage != None || dispatchSeen || status.approval != NoApproval {
            return Some(DuplicateReservation);
          }
          if !historyStart && (r.decision != status.decision || r.reason != status.reason) {
            return Some(ReservationDecisionMismatch);
          }
        case Committed =>
          if (!historyStart && budget.stage != Some(Reserved)) || dispatchSeen {
            return Some(CommitmentWithoutReservation);
          }
          if !historyStart && status.decision == RequireApproval && preApproval.status != Approved {
            return Some(CommitmentBeforeApproval);
          }
          var eligible := status.decision == Allow || status.decision == Warn
                          || (status.decision == RequireApproval && preApproval.status == Approved);
          if !historyStart && !eligible {
            return Some(CommitmentNotEligible);
          }
        case Released =>
          if (!historyStart && budget.stage != Some(Reserved)) || dispatchSeen {
            return Some(ReleaseWithoutReservation);
          }
          budget := budget.(terminal := true, stopsCall := true);
        case Settled =>
          if !historyStart && (budget.stage != Some(Committed) || !result.downstreamSeen) {
            return Some(SettlementWithoutDispatch);
          }
          if !historyStart && (r.decision != result.downstreamDecision || r.reason != result.downstreamReason) {
            return Some(SettlementDecisionMismatch);
          }
          var wanted := 0;
          if postApproval.status == Approved {
            wanted := budget.postUnits;
          }
          if r.payload.reservedDelta.approvalCount != -budget.postUnits
             || r.payload.consumedDelta.approvalCount != wanted {
            return Some(SettlementApprovalMismatch);
          }
          budget := budget.(terminal := true);
        case Indeterminate =>
          if !historyStart && budget.stage != Some(Reserved) && budget.stage != Some(Committed) {
            return Some(IndeterminateWithoutReservation);
          }
          budget := budget.(terminal := true, stopsCall := true);
        case Denied =>
          if (!historyStart && budget.stage != Some(Reserved)) || dispatchSeen {
            return Some(DenialWithoutReservation);
          }
          var cause := status.reason;
          if preApproval.terminal && preApproval.status != Approved {
            cause := preApproval.reason;
          } else if status.decision != Block {
            return Some(DenialWithoutCause);
          }
          if r.decision != Block || r.reason != cause {
            return Some(DenialCauseMismatch);
          }
          budget := budget.(terminal := true, stopsCall := true);
      }
      budget := budget.(stage := Some(r.payload.kind));
      return None;
    }

    method Apply(r: Record) returns (err: Option<Rejection>)
      modifies this
      ensures err.Some? ==> Lifecycle.Apply(old(View()), r) == Err(err.value)
      ensures err.None? ==> Lifecycle.Apply(old(View()), r) == Ok(View())
    {
      err := Gate(View(), r);
      if err.Some? {
        return;
      }
      match r.payload {
        case RequestAccepted =>
          if status.requestAccepted || status.lastSequence != 0 {
            return Some(AcceptanceNotFirst);
          }
          status := status.(requestAccepted := true);
        case PreDecision(outcome) =>
          err := ApplyDecisionRecord(r);
        case ApprovalTransition(_, _, _, _) =>
          err := ApplyApprovalTransition(r);
        case BudgetTransition(_, _, _, _, _) =>
          if !preDecisionSeen && !historyMissing {
            return Some(BudgetBeforeEvaluation);
          }
          err := ApplyBudgetTransition(r);
        case Dispatch(reservation) =>
          err := ApplyDispatchRecord(r);
        case Outcome(outcome) =>
          if (!dispatchSeen && !historyMissing) || result.downstreamSeen {
            return Some(OutcomeWithoutDispatch);
          }
          result := result.(downstreamSeen := true, downstreamDecision := r.decision, downstreamReason := r.reason);
          status := status.(dispatch := DispatchAfter(outcome));
        case Inspection(inspection) =>
          if (status.dispatch != Succeeded && !historyMissing) || result.inspectionSeen {
            return Some(InspectionWithoutSuccess);
          }
          result := result.(inspectionSeen := true, inspectionDecision := r.decision);
          status := status.(inspection := inspection);
        case Delivery(_) =>
          err := ApplyDeliveryRecord(r);
        case TerminalFailure(_, _, _) =>
          err := ApplyFailureRecord(r);
      }
    }

    method ApplyDecisionRecord(r: Record) returns (err: Option<Rejection>)
      requires r.payload.PreDecision?
      modifies this
      ensures err.Some? ==> ApplyDecision(old(View()), r) == Err(err.value)
      ensures err.None? ==> ApplyDecision(old(View()), r) == Ok(View())
    {
      err := None;
      if r.phase == PreCall || r.phase == Observation {
        if preDecisionSeen || dispatchSeen {
          return Some(if r.phase == PreCall then DuplicateDecision else DuplicateObservation);
        }
        preDecisionSeen := true;
        status := status.(evaluated := true, decision := r.decision, reason := r.reason);
        preOutcome := Some(r.payload.outcome);
        if r.phase == Observation {
          terminalSeen := true;
        }
      } else if r.phase == Progress {
        if !dispatchSeen && !historyMissing {
          return Some(ProgressBeforeDispatch);
        }
        if result.downstreamSeen {
          return Some(ProgressAfterOutcome);
        }
      }
    }

    method ApplyDispatchRecord(r: Record) returns (err: Option<Rejection>)
      requires r.payload.Dispatch?
      modifies this
      ensures err.Some? ==> ApplyDispatch(old(View()), r) == Err(err.value)
      ensures err.None? ==> ApplyDispatch(old(View()), r) == Ok(View())
    {
      var approved := status.decision == RequireApproval && preApproval.status == Approved;
      if dispatchSeen
         || (!historyMissing && (!preDecisionSeen || (preOutcome != Some(DispatchEligible) && !approved))) {
        return Some(DispatchNotEligible);
      }
      if status.decision == RequireApproval && preApproval.status != Approved {
        return Some(DispatchWithoutApproval);
      }
      if budget.seen {
        if budget.stage != Some(Committed) {
          return Some(DispatchBeforeCommitment);
        }
        if r.payload.dispatchReservation != budget.reservation {
          return Some(DispatchReservationDrift);
        }
      } else if !historyMissing && r.payload.dispatchReservation != None {
        return Some(DispatchUnrecordedReservation);
      }
      dispatchSeen := true;
      status := status.(dispatch := Dispatched);
      return None;
    }

    method ApplyDeliveryRecord(r: Record) returns (err: Option<Rejection>)
      requires r.payload.Delivery?
      modifies this
      ensures err.Some? ==> ApplyDelivery(old(View()), r) == Err(err.value)
      ensures err.None? ==> ApplyDelivery(old(View()), r) == Ok(View())
    {
      if r.payload.delivery == Suppressed {
        if !dispatchSeen && !historyMissing {
          return Some(SuppressedBeforeDispatch);
        }
        if result.downstreamSeen {
          return Some(SuppressedAfterOutcome);
        }
        status := status.(delivery := Suppressed);
        return None;
      }
      if (!result.inspectionSeen && !historyMissing) || terminalSeen {
        return Some(DeliveryWithoutInspection);
      }
      if budget.seen && !budget.terminal {
        return Some(DeliveryBeforeSettlement);
      }
      if !historyMissing && (r.payload.delivery == Forwarded) != InspectionPermits(View()) {
        return Some(DeliveryContradictsInspection);
      }
      status := status.(delivery := r.payload.delivery);
      terminalSeen := true;
      return None;
    }

    method ApplyFailureRecord(r: Record) returns (err: Option<Rejection>)
      requires r.payload.TerminalFailure?
      modifies this
      ensures err.Some? ==> ApplyFailure(old(View()), r) == Err(err.value)
      ensures err.None? ==> ApplyFailure(old(View()), r) == Ok(View())
    {
      if terminalSeen {
        return Some(DuplicateFailure);
      }
      if !r.payload.dispatchKnown && (dispatchSeen || result.downstreamSeen || result.inspectionSeen) {
        return Some(FailureContradictsDispatch);
      }
      if !r.payload.deliveryKnown && status.delivery != NoDelivery {
        return Some(FailureContradictsDelivery);
      }
      if !r.payload.dispatchKnown {
        status := status.(dispatch := Unknown);
      }
      if !r.payload.dispatchKnown || !r.payload.deliveryKnown {
        status := status.(evidenceComplete := false);
      }
      status := status.(terminalFailure := true);
      terminalSeen := true;
      return None;
    }

    // One record of the call's history: the checks before the event, the event, and
    // what every accepted record updates.
    method Step(r: Record) returns (err: Option<Rejection>)
      modifies this
      ensures err.Some? ==> StepCall(false, Some(old(View())), r) == Err(err.value)
      ensures err.None? ==> StepCall(false, Some(old(View())), r) == Ok(View())
    {
      if binding != r.call {
        return Some(CallBindingDrift);
      }
      if lastTimestamp != 0 && r.timestamp < lastTimestamp {
        return Some(TimestampBackward);
      }
      if terminalSeen {
        return Some(EventAfterTerminal);
      }
      err := Apply(r);
      if err.None? {
        status := status.(lastSequence := r.sequence);
        lastTimestamp := r.timestamp;
        if !r.complete || !r.selectedComplete {
          status := status.(evidenceComplete := false);
        }
      }
    }
  }
}
