// What replay makes of a call whose beginning was rotated away: the exact tails of
// accepted histories that it accepts (internal/actionledger/lifecycle.go).
module Truncation {
  import opened Wrappers
  import opened LedgerTypes
  import opened LedgerValidate
  import opened Lifecycle
  import opened CallHistory
  import opened CallSafety
  import opened Replay
  import opened CheckpointAgreement
  import opened Retention

  predicate Holds(m: Mark, t: seq<Record>) {
    t != [] && (Has(m, t[|t| - 1]) || Holds(m, t[..|t| - 1]))
  }

  predicate Denies(r: Record) {
    r.payload.BudgetTransition? && r.payload.kind == Denied
  }

  // What a record asks of the retained records before it. Missing history excuses
  // every other check of the protocol, but not these.
  predicate RootedAt(t: seq<Record>, r: Record) {
    && (Has(PostApproving, r) ==> Holds(Resolving, t))
    && (PostReservation(r) ==> Holds(Committing, t))
    && (Has(Committing, r) && Holds(Reserving, t) ==> Holds(Deciding, t))
    && (Has(Settling, r) ==> Holds(Committing, t) || r.payload.reservedDelta.approvalCount == 0)
    && (Denies(r) ==> Holds(Deciding, t) || Holds(PreApproving, t))
  }

  predicate Rooted(t: seq<Record>) {
    t == [] || (Rooted(t[..|t| - 1]) && RootedAt(t[..|t| - 1], t[|t| - 1]))
  }

  // ---------------------------------------------- whole history and retained tail

  // The state p after the retained records t, beside the state s after all of them:
  // p holds what t holds, and of what s holds nothing else.
  ghost predicate SeesDecision(s: CallState, p: CallState, t: seq<Record>) {
    && (p.preDecisionSeen <==> Holds(Deciding, t))
    && (p.preDecisionSeen ==>
          s.preDecisionSeen && p.status.decision == s.status.decision && p.status.reason == s.status.reason)
    && (!p.preDecisionSeen ==> p.status.decision == Undecided)
  }

  ghost predicate SeesApprovals(s: CallState, p: CallState, t: seq<Record>) {
    && p.preApproval == (if Holds(PreApproving, t) then s.preApproval else NO_APPROVAL)
    && p.postApproval == (if Holds(PostApproving, t) then s.postApproval else NO_APPROVAL)
    && (p.status.approval != NoApproval ==> s.status.approval != NoApproval)
    && (Holds(PreApproving, t) ==> s.preApproval.status != NoApproval)
    && (Holds(Deciding, t) && s.preApproval.status != NoApproval ==> Holds(PreApproving, t))
    && (Holds(Resolving, t) && s.postApproval.status != NoApproval ==> Holds(PostApproving, t))
  }

  ghost predicate SeesResult(s: CallState, p: CallState, t: seq<Record>) {
    && (p.dispatchSeen ==> s.dispatchSeen)
    && (p.result.downstreamSeen <==> Holds(Resolving, t))
    && (p.result.downstreamSeen ==>
          && s.result.downstreamSeen && p.result.downstreamDecision == s.result.downstreamDecision
          && p.result.downstreamReason == s.result.downstreamReason)
    && (p.status.dispatch == Succeeded <==> s.status.dispatch == Succeeded && Holds(Resolving, t))
    && (p.result.inspectionSeen <==> Holds(Inspecting, t))
    && (p.result.inspectionSeen ==>
          s.result.inspectionSeen && p.result.inspectionDecision == s.result.inspectionDecision)
    && (Holds(Committing, t) && s.result.downstreamSeen ==> Holds(Resolving, t))
    && (Holds(Resolving, t) && s.result.inspectionSeen ==> Holds(Inspecting, t))
    && (p.status.delivery != NoDelivery ==> s.status.delivery != NoDelivery)
    && (p.terminalSeen ==> s.terminalSeen)
  }

  ghost predicate SeesBudget(s: CallState, p: CallState, t: seq<Record>) {
    && (!p.budget.seen ==> p.budget == NO_BUDGET && !Holds(Committing, t) && !Holds(Reserving, t))
    && (p.budget.seen ==> p.budget == s.budget.(postUnits := p.budget.postUnits))
    && (p.budget.stage == Some(Reserved) ==> Holds(Reserving, t))
    && (p.budget.stage == Some(Committed) ==> Holds(Committing, t))
    && p.budget.postUnits == (if Holds(Committing, t) then s.budget.postUnits else 0)
  }

  ghost predicate SeesParts(s: CallState, p: CallState, t: seq<Record>) {
    SeesDecision(s, p, t) && SeesApprovals(s, p, t) && SeesResult(s, p, t) && SeesBudget(s, p, t)
  }

  ghost predicate Sees(s: CallState, p: CallState, t: seq<Record>) {
    && p.historyMissing && p.binding == s.binding
    && p.lastTimestamp == (if t == [] then 0 else s.lastTimestamp)
    && SeesParts(s, p, t)
  }

  lemma HoldsNext(t: seq<Record>, r: Record)
    ensures forall m: Mark :: Holds(m, t + [r]) == (Has(m, r) || Holds(m, t))
  {
    assert (t + [r])[..|t|] == t;
  }

  // The checks before every event find nothing that the whole history does not.
  lemma GateSees(s: CallState, p: CallState, t: seq<Record>, r: Record)
    requires SeesParts(s, p, t) && p.historyMissing && Gate(s, r).None?
    ensures Gate(p, r).None?
  {
    hide Holds;
  }

  // Whatever an event leaves alone stays seen.
  lemma KeepDecision(s: CallState, p: CallState, t: seq<Record>, r: Record, s': CallState, p': CallState)
    requires SeesDecision(s, p, t) && SameDecision(s, s') && SameDecision(p, p') && !Has(Deciding, r)
    ensures SeesDecision(s', p', t + [r])
  {
    hide Holds, Has;
    HoldsNext(t, r);
  }

  lemma KeepApprovals(s: CallState, p: CallState, t: seq<Record>, r: Record, s': CallState, p': CallState)
    requires SeesApprovals(s, p, t) && SameApprovals(s, s') && SameApprovals(p, p')
    requires !Has(PreApproving, r) && !Has(PostApproving, r)
    requires Has(Deciding, r) ==> s.preApproval.status == NoApproval
    requires Has(Resolving, r) ==> s.postApproval.status == NoApproval
    ensures SeesApprovals(s', p', t + [r])
  {
    hide Holds, Has;
    HoldsNext(t, r);
  }

  lemma KeepResult(s: CallState, p: CallState, t: seq<Record>, r: Record, s': CallState, p': CallState)
    requires SeesResult(s, p, t) && s'.result == s.result && p'.result == p.result
    requires SameDispatch(s, s') && SameDispatch(p, p') && SameEnd(s, s') && SameEnd(p, p')
    requires !Has(Resolving, r) && !Has(Inspecting, r) && (Has(Committing, r) ==> !s.result.downstreamSeen)
    ensures SeesResult(s', p', t + [r])
  {
    hide Holds, Has;
    HoldsNext(t, r);
  }

  lemma KeepBudget(s: CallState, p: CallState, t: seq<Record>, r: Record, s': CallState, p': CallState)
    requires SeesBudget(s, p, t) && s'.budget == s.budget && p'.budget == p.budget
    requires !Has(Committing, r) && !Has(Reserving, r)
    ensures SeesBudget(s', p', t + [r])
  {
    hide Holds, Has;
    HoldsNext(t, r);
  }

  lemma DecisionSees(s: CallState, p: CallState, t: seq<Record>, r: Record)
    requires Reached(s) && Valid(r) && SeesParts(s, p, t) && p.historyMissing && !s.terminalSeen
    requires r.payload.PreDecision? && ApplyDecision(s, r).Ok?
    ensures ApplyDecision(p, r).Ok? && RootedAt(t, r)
    ensures SeesParts(ApplyDecision(s, r).value, ApplyDecision(p, r).value, t + [r])
  {
    hide Holds, SeesApprovals, SeesBudget;
    DecisionFits(s, p, t, r);
    var s', p' := ApplyDecision(s, r).value, ApplyDecision(p, r).value;
    KeepApprovals(s, p, t, r, s', p');
    KeepBudget(s, p, t, r, s', p');
    HoldsNext(t, r);
  }

  lemma DecisionFits(s: CallState, p: CallState, t: seq<Record>, r: Record)
    requires Reached(s) && SeesParts(s, p, t) && p.historyMissing
    requires r.payload.PreDecision? && ApplyDecision(s, r).Ok?
    ensures ApplyDecision(p, r).Ok?
    ensures Has(Deciding, r) && r.phase != PostResult ==> s.preApproval.status == NoApproval
  {
    hide Holds;
  }

  lemma ApprovalSees(s: CallState, p: CallState, t: seq<Record>, r: Record)
    requires Reached(s) && Valid(r) && SeesParts(s, p, t) && p.historyMissing && !s.terminalSeen
    requires r.payload.ApprovalTransition? && ApplyApproval(s, r).Ok?
    ensures ApplyApproval(p, r).Ok? <==> RootedAt(t, r)
    ensures RootedAt(t, r) ==> SeesParts(ApplyApproval(s, r).value, ApplyApproval(p, r).value, t + [r])
  {
    hide Holds, Valid;
    ApprovalFits(s, p, t, r);
    if ApplyApproval(p, r).Ok? {
      hide Reached, SeesDecision, SeesResult, SeesBudget;
      var s', p' := ApplyApproval(s, r).value, ApplyApproval(p, r).value;
      KeepDecision(s, p, t, r, s', p');
      KeepResult(s, p, t, r, s', p');
      KeepBudget(s, p, t, r, s', p');
      ApprovalAdds(s, p, t, r);
    }
  }

  lemma ApprovalFits(s: CallState, p: CallState, t: seq<Record>, r: Record)
    requires Reached(s) && Valid(r) && SeesParts(s, p, t) && p.historyMissing && !s.terminalSeen
    requires r.payload.ApprovalTransition? && ApplyApproval(s, r).Ok?
    ensures ApplyApproval(p, r).Ok? <==> RootedAt(t, r)
  {
    hide Holds;
  }

  lemma ApprovalAdds(s: CallState, p: CallState, t: seq<Record>, r: Record)
    requires Reached(s) && Valid(r) && SeesApprovals(s, p, t)
    requires r.payload.ApprovalTransition? && ApplyApproval(s, r).Ok? && ApplyApproval(p, r).Ok?
    ensures SeesApprovals(ApplyApproval(s, r).value, ApplyApproval(p, r).value, t + [r])
  {
    hide Holds;
    HoldsNext(t, r);
  }

  lemma BudgetSees(s: CallState, p: CallState, t: seq<Record>, r: Record)
    requires Reached(s) && Valid(r) && SeesParts(s, p, t) && p.historyMissing && !s.terminalSeen
    requires r.payload.BudgetTransition? && ApplyBudget(s, r).Ok?
    ensures ApplyBudget(p, r).Ok? <==> RootedAt(t, r)
    ensures RootedAt(t, r) ==> SeesParts(ApplyBudget(s, r).value, ApplyBudget(p, r).value, t + [r])
  {
    hide Holds, Valid;
    BudgetFits(s, p, t, r);
    if ApplyBudget(p, r).Ok? {
      CommitEarly(s, r);
      hide ApplyBudget, Reached, SeesDecision, SeesResult, SeesBudget, SeesApprovals;
      var s', p' := ApplyBudget(s, r).value, ApplyBudget(p, r).value;
      KeepDecision(s, p, t, r, s', p');
      KeepApprovals(s, p, t, r, s', p');
      KeepResult(s, p, t, r, s', p');
      BudgetAdds(s, p, t, r);
    }
  }

  lemma CommitEarly(s: CallState, r: Record)
    requires Reached(s) && r.payload.BudgetTransition? && ApplyBudget(s, r).Ok?
    ensures Has(Committing, r) ==> !s.result.downstreamSeen
  {
  }

  lemma BudgetFits(s: CallState, p: CallState, t: seq<Record>, r: Record)
    requires Reached(s) && Valid(r) && SeesParts(s, p, t) && p.historyMissing && !s.terminalSeen
    requires r.payload.BudgetTransition? && ApplyBudget(s, r).Ok?
    ensures ApplyBudget(p, r).Ok? <==> RootedAt(t, r)
  {
    hide *;
    if PostReservation(r) {
      PostReservationFits(s, p, t, r);
    } else {
      match r.payload.kind
      case Committed => CommitmentFits(s, p, t, r);
      case Settled => SettlementFits(s, p, t, r);
      case Denied => DenialFits(s, p, t, r);
      case Reserved => EarlyBudgetFits(s, p, t, r);
      case Released => EarlyBudgetFits(s, p, t, r);
      case Indeterminate => EarlyBudgetFits(s, p, t, r);
    }
  }

  lemma PostReservationFits(s: CallState, p: CallState, t: seq<Record>, r: Record)
    requires Reached(s) && Valid(r) && SeesParts(s, p, t) && p.historyMissing && !s.terminalSeen
    requires r.payload.BudgetTransition? && ApplyBudget(s, r).Ok?
    requires PostReservation(r)
    ensures ApplyBudget(p, r).Ok? <==> RootedAt(t, r)
  {
    hide Holds, ValidDecision;
  }

  lemma CommitmentFits(s: CallState, p: CallState, t: seq<Record>, r: Record)
    requires Reached(s) && Valid(r) && SeesParts(s, p, t) && p.historyMissing && !s.terminalSeen
    requires r.payload.BudgetTransition? && ApplyBudget(s, r).Ok?
    requires !PostReservation(r) && r.payload.kind == Committed
    ensures ApplyBudget(p, r).Ok? <==> RootedAt(t, r)
  {
    hide Holds, ValidDecision;
  }

  lemma SettlementFits(s: CallState, p: CallState, t: seq<Record>, r: Record)
    requires Reached(s) && Valid(r) && SeesParts(s, p, t) && p.historyMissing && !s.terminalSeen
    requires r.payload.BudgetTransition? && ApplyBudget(s, r).Ok?
    requires !PostReservation(r) && r.payload.kind == Settled
    ensures ApplyBudget(p, r).Ok? <==> RootedAt(t, r)
  {
    hide Holds, ValidDecision;
  }

  lemma DenialFits(s: CallState, p: CallState, t: seq<Record>, r: Record)
    requires Reached(s) && Valid(r) && SeesParts(s, p, t) && p.historyMissing && !s.terminalSeen
    requires r.payload.BudgetTransition? && ApplyBudget(s, r).Ok?
    requires !PostReservation(r) && r.payload.kind == Denied
    ensures ApplyBudget(p, r).Ok? <==> RootedAt(t, r)
  {
    hide Holds, ValidDecision;
  }

  lemma EarlyBudgetFits(s: CallState, p: CallState, t: seq<Record>, r: Record)
    requires Reached(s) && Valid(r) && SeesParts(s, p, t) && p.historyMissing && !s.terminalSeen
    requires r.payload.BudgetTransition? && ApplyBudget(s, r).Ok?
    requires !PostReservation(r)
    requires r.payload.kind == Reserved || r.payload.kind == Released || r.payload.kind == Indeterminate
    ensures ApplyBudget(p, r).Ok? <==> RootedAt(t, r)
  {
    hide Holds, ValidDecision;
  }

  lemma BudgetAdds(s: CallState, p: CallState, t: seq<Record>, r: Record)
    requires Reached(s) && Valid(r) && SeesBudget(s, p, t) && p.historyMissing
    requires r.payload.BudgetTransition? && ApplyBudget(s, r).Ok? && ApplyBudget(p, r).Ok?
    ensures SeesBudget(ApplyBudget(s, r).value, ApplyBudget(p, r).value, t + [r])
  {
    hide Holds, Valid, Has, ApplyBudget, SeesBudget, Reached;
    if r.payload.kind == Reserved {
      ReservedPhase(r);
    }
    if PostReservation(r) {
      PostUnitsAdd(s, p, t, r);
    } else {
      StageAdds(s, p, t, r);
    }
  }

  lemma ReservedPhase(r: Record)
    requires Valid(r) && r.payload.BudgetTransition? && r.payload.kind == Reserved
    ensures r.phase == PreCall || r.phase == PostResult
  {
  }

  lemma PostUnitsAdd(s: CallState, p: CallState, t: seq<Record>, r: Record)
    requires SeesBudget(s, p, t) && PostReservation(r)
    requires ApplyBudget(s, r).Ok? && ApplyBudget(p, r).Ok?
    ensures SeesBudget(ApplyBudget(s, r).value, ApplyBudget(p, r).value, t + [r])
  {
    hide Holds, BudgetRejection;
    HoldsNext(t, r);
  }

  lemma StageAdds(s: CallState, p: CallState, t: seq<Record>, r: Record)
    requires Reached(s) && SeesBudget(s, p, t) && p.historyMissing && r.payload.BudgetTransition? && !PostReservation(r)
    requires r.payload.kind == Reserved ==> r.phase == PreCall
    requires ApplyBudget(s, r).Ok? && ApplyBudget(p, r).Ok?
    ensures SeesBudget(ApplyBudget(s, r).value, ApplyBudget(p, r).value, t + [r])
  {
    hide *;
    StageFacts(s, r);
    BudgetAfter(s, r);
    BudgetAfter(p, r);
    StageSeen(s, p, t, r, ApplyBudget(s, r).value, ApplyBudget(p, r).value);
  }

  // What a budget record leaves, except one that reserves after the result.
  ghost predicate Staged(b: BudgetProgress, r: Record, after: BudgetProgress)
    requires r.payload.BudgetTransition?
  {
    var p := r.payload;
    after == BudgetProgress(true, Some(p.kind), p.reservation, p.budgetIds, EndsBudget(p.kind),
                            b.stopsCall || StopsCall(p.kind), b.postUnits)
  }

  lemma BudgetAfter(s: CallState, r: Record)
    requires r.payload.BudgetTransition? && !PostReservation(r) && ApplyBudget(s, r).Ok?
    ensures Staged(s.budget, r, ApplyBudget(s, r).value.budget)
  {
    hide BudgetRejection;
  }

  lemma StageSeen(s: CallState, p: CallState, t: seq<Record>, r: Record, s': CallState, p': CallState)
    requires SeesBudget(s, p, t) && r.payload.BudgetTransition? && !PostReservation(r)
    requires r.payload.kind == Reserved ==> r.phase == PreCall
    requires Staged(s.budget, r, s'.budget) && Staged(p.budget, r, p'.budget)
    requires !s.budget.stopsCall && (r.payload.kind == Committed ==> s.budget.postUnits == 0)
    ensures SeesBudget(s', p', t + [r])
  {
    hide Holds;
    HoldsNext(t, r);
  }

  // A budget that stopped the call takes no further record, and no units are reserved
  // after the result before the commitment.
  lemma StageFacts(s: CallState, r: Record)
    requires Reached(s) && r.payload.BudgetTransition? && !PostReservation(r) && ApplyBudget(s, r).Ok?
    ensures !s.budget.stopsCall && (r.payload.kind == Committed ==> s.budget.postUnits == 0)
  {
  }

  lemma DispatchSees(s: CallState, p: CallState, t: seq<Record>, r: Record)
    requires Reached(s) && Valid(r) && SeesParts(s, p, t) && p.historyMissing && !s.terminalSeen
    requires r.payload.Dispatch? && ApplyDispatch(s, r).Ok?
    ensures ApplyDispatch(p, r).Ok? && RootedAt(t, r)
    ensures SeesParts(ApplyDispatch(s, r).value, ApplyDispatch(p, r).value, t + [r])
  {
    hide Holds, Valid;
    DispatchFits(s, p, t, r);
    hide SeesDecision, SeesBudget, SeesApprovals;
    var s', p' := ApplyDispatch(s, r).value, ApplyDispatch(p, r).value;
    KeepDecision(s, p, t, r, s', p');
    KeepApprovals(s, p, t, r, s', p');
    KeepBudget(s, p, t, r, s', p');
    HoldsNext(t, r);
  }

  lemma DispatchFits(s: CallState, p: CallState, t: seq<Record>, r: Record)
    requires Reached(s) && SeesParts(s, p, t) && p.historyMissing
    requires r.payload.Dispatch? && ApplyDispatch(s, r).Ok?
    ensures ApplyDispatch(p, r).Ok?
  {
    hide Holds;
  }

  lemma OutcomeSees(s: CallState, p: CallState, t: seq<Record>, r: Record)
    requires Reached(s) && Valid(r) && SeesParts(s, p, t) && p.historyMissing && !s.terminalSeen
    requires r.payload.Outcome? && ApplyOutcome(s, r).Ok?
    ensures ApplyOutcome(p, r).Ok? && RootedAt(t, r)
    ensures SeesParts(ApplyOutcome(s, r).value, ApplyOutcome(p, r).value, t + [r])
  {
    hide Holds, Valid, SeesDecision, SeesBudget, SeesApprovals;
    var s', p' := ApplyOutcome(s, r).value, ApplyOutcome(p, r).value;
    KeepDecision(s, p, t, r, s', p');
    KeepApprovals(s, p, t, r, s', p');
    KeepBudget(s, p, t, r, s', p');
    HoldsNext(t, r);
  }

  lemma InspectionSees(s: CallState, p: CallState, t: seq<Record>, r: Record)
    requires Reached(s) && Valid(r) && SeesParts(s, p, t) && p.historyMissing && !s.terminalSeen
    requires r.payload.Inspection? && ApplyInspection(s, r).Ok?
    ensures ApplyInspection(p, r).Ok? && RootedAt(t, r)
    ensures SeesParts(ApplyInspection(s, r).value, ApplyInspection(p, r).value, t + [r])
  {
    hide Holds, Valid, SeesDecision, SeesBudget, SeesApprovals;
    var s', p' := ApplyInspection(s, r).value, ApplyInspection(p, r).value;
    KeepDecision(s, p, t, r, s', p');
    KeepApprovals(s, p, t, r, s', p');
    KeepBudget(s, p, t, r, s', p');
    HoldsNext(t, r);
  }

  lemma DeliverySees(s: CallState, p: CallState, t: seq<Record>, r: Record)
    requires Reached(s) && Valid(r) && SeesParts(s, p, t) && p.historyMissing && !s.terminalSeen
    requires r.payload.Delivery? && ApplyDelivery(s, r).Ok?
    ensures ApplyDelivery(p, r).Ok? && RootedAt(t, r)
    ensures SeesParts(ApplyDelivery(s, r).value, ApplyDelivery(p, r).value, t + [r])
  {
    hide Holds, Valid;
    DeliveryFits(s, p, t, r);
    hide Reached, SeesDecision, SeesBudget, SeesApprovals;
    var s', p' := ApplyDelivery(s, r).value, ApplyDelivery(p, r).value;
    KeepDecision(s, p, t, r, s', p');
    KeepApprovals(s, p, t, r, s', p');
    KeepBudget(s, p, t, r, s', p');
    HoldsNext(t, r);
  }

  lemma DeliveryFits(s: CallState, p: CallState, t: seq<Record>, r: Record)
    requires SeesParts(s, p, t) && p.historyMissing
    requires r.payload.Delivery? && ApplyDelivery(s, r).Ok?
    ensures ApplyDelivery(p, r).Ok?
  {
    hide Holds;
  }

  lemma FailureSees(s: CallState, p: CallState, t: seq<Record>, r: Record)
    requires Reached(s) && Valid(r) && SeesParts(s, p, t) && p.historyMissing && !s.terminalSeen
    requires r.payload.TerminalFailure? && ApplyFailure(s, r).Ok?
    ensures ApplyFailure(p, r).Ok? && RootedAt(t, r)
    ensures SeesParts(ApplyFailure(s, r).value, ApplyFailure(p, r).value, t + [r])
  {
    hide Holds, Valid, SeesDecision, SeesBudget, SeesApprovals;
    var s', p' := ApplyFailure(s, r).value, ApplyFailure(p, r).value;
    KeepDecision(s, p, t, r, s', p');
    KeepApprovals(s, p, t, r, s', p');
    KeepBudget(s, p, t, r, s', p');
    HoldsNext(t, r);
  }

  // One event beside the whole history: accepted of the tail exactly when rooted.
  lemma ApplySees(s: CallState, p: CallState, t: seq<Record>, r: Record)
    requires Reached(s) && Valid(r) && SeesParts(s, p, t) && p.historyMissing && !s.terminalSeen
    requires !r.payload.RequestAccepted? && Apply(s, r).Ok?
    ensures Apply(p, r).Ok? <==> RootedAt(t, r)
    ensures RootedAt(t, r) ==> SeesParts(Apply(s, r).value, Apply(p, r).value, t + [r])
  {
    GateSees(s, p, t, r);
    hide Gate, Reached, Valid, SeesParts, RootedAt, ApplyDecision, ApplyApproval, ApplyBudget, ApplyDispatch,
         ApplyOutcome, ApplyInspection, ApplyDelivery, ApplyFailure;
    match r.payload
    case PreDecision(_) => DecisionSees(s, p, t, r);
    case ApprovalTransition(_, _, _, _) => ApprovalSees(s, p, t, r);
    case BudgetTransition(_, _, _, _, _) => BudgetSees(s, p, t, r);
    case Dispatch(_) => DispatchSees(s, p, t, r);
    case Outcome(_) => OutcomeSees(s, p, t, r);
    case Inspection(_) => InspectionSees(s, p, t, r);
    case Delivery(_) => DeliverySees(s, p, t, r);
    case TerminalFailure(_, _, _) => FailureSees(s, p, t, r);
  }

  lemma StepSees(s: CallState, p: CallState, t: seq<Record>, r: Record, s': CallState)
    requires Reached(s) && Valid(r) && StepCall(false, Some(s), r) == Ok(s') && Sees(s, p, t)
    requires !r.payload.RequestAccepted?
    ensures StepCall(false, Some(p), r).Ok? <==> RootedAt(t, r)
    ensures RootedAt(t, r) ==> Sees(s', StepCall(false, Some(p), r).value, t + [r])
  {
    hide Apply, Reached, Valid, RootedAt, SeesParts;
    NotEnded(s, p, t);
    ApplySees(s, p, t, r);
    if RootedAt(t, r) {
      PartsKept(Apply(s, r).value, Apply(p, r).value, t + [r], r, s', StepCall(false, Some(p), r).value);
    }
  }

  lemma NotEnded(s: CallState, p: CallState, t: seq<Record>)
    requires Sees(s, p, t)
    ensures p.terminalSeen ==> s.terminalSeen
  {
    hide Holds;
  }

  // What every accepted record updates is not among what is compared.
  lemma PartsKept(s: CallState, p: CallState, t: seq<Record>, r: Record, s': CallState, p': CallState)
    requires SeesParts(s, p, t)
    requires s' == s.(lastTimestamp := s'.lastTimestamp,
                      status := s.status.(lastSequence := s'.status.lastSequence,
                                          evidenceComplete := s'.status.evidenceComplete))
    requires p' == p.(lastTimestamp := p'.lastTimestamp,
                      status := p.status.(lastSequence := p'.status.lastSequence,
                                          evidenceComplete := p'.status.evidenceComplete))
    ensures SeesParts(s', p', t)
  {
    hide Holds;
  }

  lemma FreshSees(s: CallState, r: Record)
    requires Reached(s) && s.binding == r.call && !r.payload.RequestAccepted?
    ensures Sees(s, Fresh(r, true), [])
  {
  }

  // Replaying h[k..j] against replaying h[..j].
  lemma {:induction false} TailRuns(h: seq<Record>, k: nat, j: nat)
    requires Accepted(h) && 1 <= k <= j <= |h|
    ensures Accepted(h[..j])
    ensures RunCall(true, h[k..j]).Ok? <==> Rooted(h[k..j])
    ensures k < j && Rooted(h[k..j]) ==>
              RunCall(true, h[k..j]).value.Some? && Sees(StateOf(h[..j]), RunCall(true, h[k..j]).value.value, h[k..j])
    decreases j
  {
    hide StepCall, Valid, AllValid, Reached, Accepted, Sees, RootedAt, Fresh;
    PrefixAccepted(h, j);
    if k < j {
      TailRuns(h, k, j - 1);
      var t, r := h[k..j - 1], h[j - 1];
      assert h[k..j] == t + [r];
      StepAt(h, j - 1);
      TailStart(h, j - 1);
      RunAppend(true, t, r);
      assert Rooted(t + [r]) <==> Rooted(t) && RootedAt(t, r) by {
        assert (t + [r])[..|t|] == t;
      }
      if Rooted(t) {
        var s, s' := StateOf(h[..j - 1]), StateOf(h[..j]);
        var prior := RunCall(true, t).value;
        StepIgnoresFlag(true, prior, r);
        if t == [] {
          FreshSees(s, r);
          StepSees(s, Fresh(r, true), t, r, s');
        } else {
          StepSees(s, prior.value, t, r, s');
        }
      }
    }
  }

  lemma TailStart(h: seq<Record>, j: nat)
    requires Accepted(h) && 1 <= j < |h| && Accepted(h[..j])
    ensures !h[j].payload.RequestAccepted? && StateOf(h[..j]).binding == h[j].call
  {
    hide RunCall, Valid, Reached;
    AcceptedReaches(h);
    AcceptedReaches(h[..j]);
  }

  // ------------------------------------------------------------- the exact condition

  lemma {:induction false} HoldsLast(m: Mark, h: seq<Record>)
    ensures Holds(m, h) <==> 0 <= Last(m, h)
    decreases |h|
  {
    if h != [] {
      HoldsLast(m, h[..|h| - 1]);
    }
  }

  // Whether h[k..j] holds a mark: its latest record before j is not before k.
  lemma {:induction false} CutHolds(m: Mark, h: seq<Record>, k: nat, j: nat)
    requires k <= j <= |h|
    ensures Holds(m, h[k..j]) <==> k <= Last(m, h[..j])
    decreases j
  {
    if k < j {
      CutHolds(m, h, k, j - 1);
      assert h[k..j][..j - k - 1] == h[k..j - 1] && h[k..j][j - k - 1] == h[j - 1];
      assert h[..j][..j - 1] == h[..j - 1] && h[..j][j - 1] == h[j - 1];
    }
  }

  // A whole history is rooted.
  lemma StepRooted(h: seq<Record>, i: nat)
    requires Accepted(h) && i < |h|
    ensures RootedAt(h[..i], h[i])
  {
    hide RunCall, AllValid, Accepted, Holds, StepCall, Reached, Valid, Last, Count;
    if i == 0 {
      AcceptedReaches(h);
    } else {
      StepAt(h, i);
      var t, s := h[..i], StateOf(h[..i]);
      HistoryDecides(t);
      HistoryStages(t);
      HistoryResults(t);
      StepNeeds(s, h[i], StateOf(h[..i + 1]));
      HoldsLast(Deciding, t);
      HoldsLast(Committing, t);
      HoldsLast(Resolving, t);
    }
  }

  lemma StepNeeds(s: CallState, r: Record, t: CallState)
    requires Reached(s) && Valid(r) && StepCall(false, Some(s), r) == Ok(t)
    ensures Has(PostApproving, r) ==> s.result.downstreamSeen
    ensures PostReservation(r) || Has(Settling, r) ==> s.budget.stage == Some(Committed)
    ensures Has(Committing, r) || Denies(r) ==> s.preDecisionSeen
  {
    hide ApplyAccepted, ApplyDecision, ApplyDispatch, ApplyOutcome, ApplyInspection, ApplyDelivery, ApplyFailure, Valid;
  }

  lemma {:induction false} WholeRooted(h: seq<Record>, n: nat)
    requires Accepted(h) && n <= |h|
    ensures Rooted(h[..n])
    decreases n
  {
    hide Accepted, RootedAt;
    if 0 < n {
      WholeRooted(h, n - 1);
      StepRooted(h, n - 1);
      assert h[..n][..n - 1] == h[..n - 1];
    }
  }

  // Replay accepts what rotation left of an accepted history exactly when it is rooted.
  lemma TailReplays(h: seq<Record>, k: nat)
    requires Accepted(h) && k <= |h|
    ensures RunCall(true, h[k..]).Ok? <==> Rooted(h[k..])
  {
    hide Accepted, RunCall, Rooted;
    if k == 0 {
      assert h[0..] == h && h[..|h|] == h;
      WholeRooted(h, |h|);
      WholeRuns(h);
    } else {
      assert h[k..|h|] == h[k..];
      TailRuns(h, k, |h|);
    }
  }

  lemma WholeRuns(h: seq<Record>)
    requires Accepted(h)
    ensures RunCall(true, h).Ok?
  {
    AcceptedReaches(h);
    FlagIrrelevant(true, h);
  }

  // The same by positions: what the record at j needs lies at or after the cut k, or
  // was never recorded.
  predicate CutAt(h: seq<Record>, k: nat, j: nat)
    requires k <= j < |h|
  {
    var before, r := h[..j], h[j];
    && (Has(PostApproving, r) ==> k <= Last(Resolving, before))
    && (PostReservation(r) ==> k <= Last(Committing, before))
    && (Has(Committing, r) && k <= Last(Reserving, before) ==> k <= Last(Deciding, before))
    && (Has(Settling, r) ==> k <= Last(Committing, before) || PostUnits(before) == 0)
    && (Denies(r) ==> k <= Last(Deciding, before) || k <= Last(PreApproving, before))
  }

  lemma CutReplays(h: seq<Record>, k: nat)
    requires Accepted(h) && k <= |h|
    ensures RunCall(true, h[k..]).Ok? <==> forall j :: k <= j < |h| ==> CutAt(h, k, j)
  {
    hide Accepted, RunCall, CutAt, Rooted;
    TailReplays(h, k);
    RootedByCuts(h, k, |h|);
    assert h[k..|h|] == h[k..];
  }

  lemma {:induction false} RootedByCuts(h: seq<Record>, k: nat, n: nat)
    requires Accepted(h) && k <= n <= |h|
    ensures Rooted(h[k..n]) <==> forall j :: k <= j < n ==> CutAt(h, k, j)
    decreases n
  {
    hide Accepted, RunCall, RootedAt, CutAt;
    if k < n {
      RootedByCuts(h, k, n - 1);
      CutRooted(h, k, n - 1);
      assert h[k..n][..n - k - 1] == h[k..n - 1] && h[k..n][n - k - 1] == h[n - 1];
    }
  }

  lemma CutRooted(h: seq<Record>, k: nat, j: nat)
    requires Accepted(h) && k <= j < |h|
    ensures RootedAt(h[k..j], h[j]) <==> CutAt(h, k, j)
  {
    hide Accepted, RunCall, Holds, Last;
    forall m: Mark
      ensures Holds(m, h[k..j]) <==> k <= Last(m, h[..j])
    {
      CutHolds(m, h, k, j);
    }
    if Has(Settling, h[j]) {
      SettlesInFull(h, j);
    }
  }

  // A settlement gives back what was reserved after the result.
  lemma SettlesInFull(h: seq<Record>, j: nat)
    requires Accepted(h) && j < |h| && Has(Settling, h[j])
    ensures h[j].payload.reservedDelta.approvalCount == -PostUnits(h[..j])
  {
    hide RunCall, AllValid, Accepted, StepCall, Reached, Valid;
    AcceptedReaches(h);
    if 0 < j {
      StepAt(h, j);
      HistoryBudgets(h[..j]);
      SettlementEffects(StateOf(h[..j]), h[j], StateOf(h[..j + 1]));
    }
  }

  // A call without budget and without post-result approval replays from every cut.
  lemma {:induction false} PlainCallReplays(h: seq<Record>, k: nat)
    requires Accepted(h) && k <= |h|
    requires forall i :: 0 <= i < |h| ==> !Has(Budgeting, h[i]) && !Has(PostApproving, h[i])
    ensures RunCall(true, h[k..]).Ok?
  {
    hide Accepted, RunCall;
    CutReplays(h, k);
  }

  // So an approved and delivered call, cut after its outcome, does not replay, although
  // its first retained record may start a call.
  lemma ApprovalCut(h: seq<Record>, k: nat, j: nat)
    requires Accepted(h) && k <= j < |h| && Has(PostApproving, h[j]) && Last(Resolving, h[..j]) < k
    ensures RunCall(true, h[k..]).Err?
  {
    hide Accepted, RunCall;
    CutReplays(h, k);
    assert !CutAt(h, k, j);
  }

  // ------------------------------------------------------------------ a whole log

  // A log whose beginning was dropped replays exactly when what is left of each call
  // is rooted, provided the log as it was appended replays.
  lemma KeptReplays(all: seq<Record>, kept: seq<Record>)
    requires AllValid(all) && Suffix(kept, all) && Statuses(all).Ok?
    requires all != [] ==> all[0].sequence == 1
    requires forall i, j :: 0 <= i < j < |all| ==> all[i].sequence < all[j].sequence
    ensures Statuses(kept).Ok? <==> forall c :: Rooted(CallRecords(kept, c))
  {
    hide StepCall, RunCall, Valid, AllValid, Statuses, Rooted, CallRecords;
    StatusesByCall(all);
    StatusesByCall(kept);
    if kept != [] {
      assert kept[0] == all[|all| - |kept|];
    }
    forall c
      ensures RunCall(DroppedHistory(kept), CallRecords(kept, c)).Ok? <==> Rooted(CallRecords(kept, c))
    {
      CallReplays(all, kept, c);
    }
  }

  lemma CallReplays(all: seq<Record>, kept: seq<Record>, c: Identity)
    requires AllValid(all) && Suffix(kept, all) && RunCall(false, CallRecords(all, c)).Ok?
    requires !DroppedHistory(kept) ==> kept == [] || kept == all
    ensures RunCall(DroppedHistory(kept), CallRecords(kept, c)).Ok? <==> Rooted(CallRecords(kept, c))
  {
    hide StepCall, Valid, Rooted;
    var h, t := CallRecords(all, c), CallRecords(kept, c);
    SuffixRecords(all, kept, c);
    NothingRooted();
    if t != [] {
      var k := |h| - |t|;
      assert t == h[k..];
      CallValid(all, c);
      TailReplays(h, k);
      if !DroppedHistory(kept) {
        assert h[..|h|] == h;
        WholeRooted(h, |h|);
      }
    }
  }

  lemma NothingRooted()
    ensures Rooted([])
  {
  }

  lemma CallValid(all: seq<Record>, c: Identity)
    requires AllValid(all)
    ensures AllValid(CallRecords(all, c))
  {
    hide Valid;
  }

  // The rule at the rotation guard that keeps a log replayable: of every call with
  // records in the archive that goes, what stays must be rooted.
  lemma RotationReplays(all: seq<Record>, oldest: seq<Record>, rest: seq<Record>)
    requires AllValid(all) && Suffix(oldest + rest, all) && Statuses(all).Ok? && Statuses(oldest + rest).Ok?
    requires all != [] ==> all[0].sequence == 1
    requires forall i, j :: 0 <= i < j < |all| ==> all[i].sequence < all[j].sequence
    ensures Statuses(rest).Ok? <==> forall c :: CallRecords(oldest, c) != [] ==> Rooted(CallRecords(rest, c))
  {
    hide RunCall, AllValid, Statuses, Rooted, CallRecords;
    assert rest == (oldest + rest)[|oldest|..];
    assert Suffix(rest, all);
    KeptReplays(all, oldest + rest);
    KeptReplays(all, rest);
    forall c
      ensures CallRecords(oldest, c) == [] ==> Rooted(CallRecords(rest, c))
    {
      assert Rooted(CallRecords(oldest + rest, c));
      CallRecordsConcat(oldest, rest, c);
      assert [] + CallRecords(rest, c) == CallRecords(rest, c);
    }
  }

  // A record whose call is still whole leaves a replayable log replayable.
  lemma KnownReplays(all: seq<Record>, kept: seq<Record>, r: Record)
    requires AllValid(all + [r]) && Suffix(kept, all) && Statuses(all).Ok?
    requires Statuses(all + [r]).Ok? && Statuses(kept).Ok?
    requires (all + [r])[0].sequence == 1
    requires forall i, j :: 0 <= i < j < |all + [r]| ==> (all + [r])[i].sequence < (all + [r])[j].sequence
    requires Known(all, kept, r)
    ensures Statuses(kept + [r]).Ok?
  {
    hide RunCall, Valid, Statuses, Rooted, CallRecords, Known, DroppedHistory;
    var c := r.CallId();
    ValidPrefix(all, r);
    assert forall i :: 0 <= i < |all| ==> (all + [r])[i] == all[i];
    SuffixNext(kept, all, r);
    KeptReplays(all, kept);
    KeptReplays(all + [r], kept + [r]);
    LawfulOne(all, c);
    LawfulOne(all + [r], c);
    KnownKept(all, kept, r);
    forall d
      ensures Rooted(CallRecords(kept + [r], d))
    {
      CallRecordsAppend(kept, r, d);
      CallRecordsAppend(all, r, d);
      if d == c {
        CallValid(all + [r], c);
        var h := CallRecords(all + [r], c);
        assert h[..|h|] == h;
        WholeRooted(h, |h|);
      }
    }
  }

  lemma SuffixNext(kept: seq<Record>, all: seq<Record>, r: Record)
    requires Suffix(kept, all)
    ensures Suffix(kept + [r], all + [r])
  {
  }

  lemma LawfulOne(all: seq<Record>, c: Identity)
    requires Statuses(all).Ok? && (all != [] ==> all[0].sequence == 1)
    ensures RunCall(false, CallRecords(all, c)).Ok?
  {
    hide RunCall, CallRecords, Statuses;
    StatusesByCall(all);
    assert RunCall(DroppedHistory(all), CallRecords(all, c)).Ok?;
  }
}
