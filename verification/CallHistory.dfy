// What the state of a call says about the records that produced it.
module CallHistory {
  import opened Wrappers
  import opened LedgerTypes
  import opened LedgerValidate
  import opened Lifecycle

  // Kinds of record the safety properties speak of.
  datatype Mark =
    | Deciding        // a pre-call or observation decision
    | PreApproving    // any pre-call approval transition
    | PreApproved
    | PostApproving
    | PostApproved
    | Budgeting       // any budget transition
    | Reserving       // a pre-call budget reservation
    | Committing
    | Settling
    | Dispatching
    | Resolving       // a downstream outcome
    | Inspecting
    | Delivering      // a delivery that is not suppressed progress
    | Failing         // a terminal failure

  predicate Has(m: Mark, r: Record) {
    match m
    case Deciding => r.payload.PreDecision? && r.phase != Progress
    case PreApproving => r.payload.ApprovalTransition? && r.phase == PreCall
    case PreApproved => r.payload.ApprovalTransition? && r.phase == PreCall && r.payload.status == Approved
    case PostApproving => r.payload.ApprovalTransition? && r.phase == PostResult
    case PostApproved => r.payload.ApprovalTransition? && r.phase == PostResult && r.payload.status == Approved
    case Budgeting => r.payload.BudgetTransition?
    case Reserving => r.payload.BudgetTransition? && r.payload.kind == Reserved && r.phase == PreCall
    case Committing => r.payload.BudgetTransition? && r.payload.kind == Committed
    case Settling => r.payload.BudgetTransition? && r.payload.kind == Settled
    case Dispatching => r.payload.Dispatch?
    case Resolving => r.payload.Outcome?
    case Inspecting => r.payload.Inspection?
    case Delivering => r.payload.Delivery? && r.payload.delivery != Suppressed
    case Failing => r.payload.TerminalFailure?
  }

  function Count(m: Mark, h: seq<Record>): nat {
    if h == [] then 0
    else Count(m, h[..|h| - 1]) + if Has(m, h[|h| - 1]) then 1 else 0
  }

  // Position of the latest record of a kind, or -1.
  function Last(m: Mark, h: seq<Record>): (k: int)
    ensures -1 <= k < |h|
    ensures 0 <= k ==> Has(m, h[k])
  {
    if h == [] then -1
    else if Has(m, h[|h| - 1]) then |h| - 1
    else Last(m, h[..|h| - 1])
  }

  lemma {:induction false} AfterLast(m: Mark, h: seq<Record>)
    ensures forall i :: Last(m, h) < i < |h| ==> !Has(m, h[i])
  {
    if h != [] && !Has(m, h[|h| - 1]) {
      AfterLast(m, h[..|h| - 1]);
      assert forall i :: 0 <= i < |h| - 1 ==> h[i] == h[..|h| - 1][i];
    }
  }

  // Approval units reserved after the result, over a whole history.
  function PostUnits(h: seq<Record>): int {
    if h == [] then 0
    else
      var r := h[|h| - 1];
      PostUnits(h[..|h| - 1]) + if PostReservation(r) then r.payload.reservedDelta.approvalCount else 0
  }

  function Flag(b: bool): nat { if b then 1 else 0 }

  predicate AllValid(h: seq<Record>) {
    forall i :: 0 <= i < |h| ==> Valid(h[i])
  }

  // An accepted history of one call, from its first record on.
  predicate Accepted(h: seq<Record>) {
    h != [] && AllValid(h) && RunCall(false, h).Ok?
  }

  function StateOf(h: seq<Record>): CallState
    requires Accepted(h)
  {
    RunCall(false, h).value.value
  }

  // ------------------------------------------------------------ state invariant

  // What holds of every state an accepted history reaches.
  predicate Reached(s: CallState) {
    && !s.historyMissing
    && s.status.requestAccepted
    && s.lastTimestamp != 0
    && s.status.lastSequence != 0
    // decision
    && (!s.preDecisionSeen ==> s.status.decision == Undecided)
    && (s.preDecisionSeen ==> s.status.decision != Undecided && s.preOutcome.Some?)
    && (s.preOutcome == Some(DispatchEligible) ==> s.status.decision == Allow || s.status.decision == Warn)
    // approvals
    && (s.preApproval.terminal <==> s.preApproval.status != NoApproval && s.preApproval.status != Pending)
    && (s.postApproval.terminal <==> s.postApproval.status != NoApproval && s.postApproval.status != Pending)
    && (s.preApproval.requestId.None? <==> s.preApproval.status == NoApproval)
    && (s.postApproval.requestId.None? <==> s.postApproval.status == NoApproval)
    && (s.preApproval.status == NoApproval ==> s.preApproval == NO_APPROVAL)
    && (s.postApproval.status == NoApproval ==> s.postApproval == NO_APPROVAL)
    && (s.preApproval.status != NoApproval ==> s.preDecisionSeen && s.status.decision == RequireApproval)
    && (s.status.approval == NoApproval <==>
          s.preApproval.status == NoApproval && s.postApproval.status == NoApproval)
    // dispatch, outcome, inspection
    && (s.dispatchSeen ==> s.preDecisionSeen && PreDispatchEligible(s) && s.status.dispatch != NotDispatched)
    && (!s.dispatchSeen ==> s.status.dispatch == NotDispatched || (s.status.dispatch == Unknown && s.terminalSeen))
    && (s.result.downstreamSeen ==> s.dispatchSeen && s.status.dispatch != Dispatched)
    && (!s.result.downstreamSeen ==> s.status.dispatch != Succeeded && s.status.dispatch != Failed)
    && (!s.result.downstreamSeen && s.status.dispatch == Unknown ==> s.terminalSeen)
    && (s.result.inspectionSeen ==> s.status.dispatch == Succeeded)
    && (s.postApproval.status != NoApproval ==>
          s.result.inspectionSeen && s.result.inspectionDecision == RequireApproval)
    // budget
    && (s.budget.seen <==> s.budget.stage.Some?)
    && (s.budget.seen ==> s.preDecisionSeen)
    && (s.budget.terminal <==> s.budget.stage.Some? && EndsBudget(s.budget.stage.value))
    && (s.budget.stopsCall <==> s.budget.stage.Some? && StopsCall(s.budget.stage.value))
    && (s.budget.stage == Some(Settled) ==> s.result.downstreamSeen)
    && (s.budget.stage == Some(Committed) ==> PreDispatchEligible(s))
    && (s.dispatchSeen && s.budget.seen ==>
          s.budget.stage.value == Committed || s.budget.stage.value == Settled || s.budget.stage.value == Indeterminate)
    && 0 <= s.budget.postUnits
    && (s.budget.postUnits != 0 ==> s.result.inspectionSeen && s.result.inspectionDecision == RequireApproval)
  }

  lemma FirstStep(r: Record)
    requires Valid(r) && StepCall(false, None, r).Ok?
    ensures r.payload.RequestAccepted? && Reached(StepCall(false, None, r).value)
    ensures var t := StepCall(false, None, r).value;
            && t.binding == r.call && t.status.firstSequence == r.sequence && t.status.lastSequence == r.sequence
            && !t.preDecisionSeen && !t.dispatchSeen && !t.terminalSeen && t.status.dispatch == NotDispatched
            && t.preApproval == NO_APPROVAL && t.postApproval == NO_APPROVAL
            && t.budget == NO_BUDGET && t.result == NO_RESULT
  {
  }

  lemma DecisionStep(s: CallState, r: Record)
    requires Reached(s) && Valid(r) && Gate(s, r).None? && r.payload.PreDecision? && ApplyDecision(s, r).Ok?
    ensures Reached(ApplyDecision(s, r).value)
  {
  }

  lemma ApprovalStep(s: CallState, r: Record)
    requires Reached(s) && Valid(r) && Gate(s, r).None? && r.payload.ApprovalTransition? && ApplyApproval(s, r).Ok?
    ensures Reached(ApplyApproval(s, r).value)
  {
  }

  lemma BudgetStep(s: CallState, r: Record)
    requires Reached(s) && Valid(r) && Gate(s, r).None? && r.payload.BudgetTransition? && s.preDecisionSeen
    requires ApplyBudget(s, r).Ok?
    ensures Reached(ApplyBudget(s, r).value)
  {
  }

  lemma DispatchStep(s: CallState, r: Record)
    requires Reached(s) && Valid(r) && Gate(s, r).None? && r.payload.Dispatch? && ApplyDispatch(s, r).Ok?
    ensures Reached(ApplyDispatch(s, r).value)
  {
  }

  lemma OutcomeStep(s: CallState, r: Record)
    requires Reached(s) && Valid(r) && Gate(s, r).None? && r.payload.Outcome? && ApplyOutcome(s, r).Ok?
    ensures Reached(ApplyOutcome(s, r).value)
  {
  }

  lemma InspectionStep(s: CallState, r: Record)
    requires Reached(s) && Valid(r) && Gate(s, r).None? && r.payload.Inspection? && ApplyInspection(s, r).Ok?
    ensures Reached(ApplyInspection(s, r).value)
  {
  }

  lemma DeliveryStep(s: CallState, r: Record)
    requires Reached(s) && Valid(r) && Gate(s, r).None? && r.payload.Delivery? && ApplyDelivery(s, r).Ok?
    ensures Reached(ApplyDelivery(s, r).value)
  {
  }

  lemma FailureStep(s: CallState, r: Record)
    requires Reached(s) && Valid(r) && Gate(s, r).None? && r.payload.TerminalFailure? && ApplyFailure(s, r).Ok?
    ensures Reached(ApplyFailure(s, r).value)
  {
  }

  lemma ReachedAccepted(s: CallState)
    requires Reached(s)
    ensures s.status.requestAccepted && !s.historyMissing && s.status.lastSequence != 0
  {
  }

  lemma ApplyStep(s: CallState, r: Record)
    requires Reached(s) && Valid(r) && Apply(s, r).Ok?
    ensures Reached(Apply(s, r).value)
    ensures !r.payload.RequestAccepted?
  {
    hide Reached, ApplyDecision, ApplyApproval, ApplyBudget, ApplyDispatch, ApplyOutcome, ApplyInspection,
         ApplyDelivery, ApplyFailure, ValidEvent, ValidDecision;
    ReachedAccepted(s);
    match r.payload
    case RequestAccepted =>
    case PreDecision(_) => DecisionStep(s, r);
    case ApprovalTransition(_, _, _, _) => ApprovalStep(s, r);
    case BudgetTransition(_, _, _, _, _) => BudgetStep(s, r);
    case Dispatch(_) => DispatchStep(s, r);
    case Outcome(_) => OutcomeStep(s, r);
    case Inspection(_) => InspectionStep(s, r);
    case Delivery(_) => DeliveryStep(s, r);
    case TerminalFailure(_, _, _) => FailureStep(s, r);
  }

  lemma NextStep(s: CallState, r: Record)
    requires Reached(s) && Valid(r) && StepCall(false, Some(s), r).Ok?
    ensures var t := StepCall(false, Some(s), r).value;
            && Reached(t) && t.binding == s.binding && r.call == s.binding
            && t.status.firstSequence == s.status.firstSequence && t.status.lastSequence == r.sequence
    ensures !r.payload.RequestAccepted?
  {
    hide Apply;
    ReachedAccepted(s);
    ApplyStep(s, r);
  }

  lemma {:induction false} PrefixAccepted(h: seq<Record>, n: nat)
    requires Accepted(h) && 1 <= n <= |h|
    ensures Accepted(h[..n])
    decreases |h|
  {
    if n < |h| {
      var init := h[..|h| - 1];
      assert init[..n] == h[..n];
      PrefixAccepted(init, n);
    } else {
      assert h[..n] == h;
    }
  }

  // The last step of an accepted history.
  lemma LastStep(h: seq<Record>)
    requires Accepted(h)
    ensures h != []
    ensures |h| == 1 ==> StepCall(false, None, h[0]) == Ok(StateOf(h))
    ensures 1 < |h| ==> Accepted(h[..|h| - 1])
    ensures 1 < |h| ==> StepCall(false, Some(StateOf(h[..|h| - 1])), h[|h| - 1]) == Ok(StateOf(h))
  {
    if |h| == 1 {
      assert h[..0] == [];
    }
  }

  // Every accepted history starts with its request and reaches an invariant state.
  lemma {:induction false} AcceptedReaches(h: seq<Record>)
    requires Accepted(h)
    ensures Reached(StateOf(h))
    ensures h[0].payload.RequestAccepted?
    ensures forall i :: 1 <= i < |h| ==> !h[i].payload.RequestAccepted?
    ensures StateOf(h).binding == h[0].call && StateOf(h).status.firstSequence == h[0].sequence
    ensures StateOf(h).status.lastSequence == h[|h| - 1].sequence
    ensures forall i :: 0 <= i < |h| ==> h[i].call == h[0].call
    decreases |h|
  {
    hide StepCall;
    LastStep(h);
    if |h| == 1 {
      FirstStep(h[0]);
    } else {
      var init := h[..|h| - 1];
      AcceptedReaches(init);
      NextStep(StateOf(init), h[|h| - 1]);
      assert forall i :: 0 <= i < |init| ==> h[i] == init[i];
    }
  }
}
