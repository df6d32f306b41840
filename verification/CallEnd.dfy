// What may still happen to a call that is reported complete.
module CallEnd {
  import opened Wrappers
  import opened LedgerTypes
  import opened LedgerValidate
  import opened Lifecycle
  import opened CallHistory
  import opened CallSafety

  // A terminal failure recorded after the downstream outcome already ended the call.
  predicate FailureTail(s: CallState, r: Record) {
    && r.payload.TerminalFailure? && !s.terminalSeen && !s.budget.stopsCall
    && s.dispatchSeen && s.status.decision != Block
    && (s.status.dispatch == Failed || s.status.dispatch == Unknown)
    && r.payload.dispatchKnown && (r.payload.deliveryKnown || s.status.delivery == NoDelivery)
  }

  // The first budget reservation of a call that its decision already blocked.
  predicate LateReservation(s: CallState, r: Record) {
    && Has(Reserving, r) && !s.terminalSeen
    && s.preDecisionSeen && s.status.decision == Block && !s.budget.seen
    && r.decision == Block && r.reason == s.status.reason
  }

  predicate InOrder(s: CallState, r: Record) {
    s.binding == r.call && s.lastTimestamp <= r.timestamp
  }

  // Exactly two kinds of record continue a complete call: a failure after a failed
  // outcome, which leaves it complete, and a late reservation, which reopens it.
  lemma TerminalContinuations(s: CallState, r: Record)
    requires Reached(s) && Valid(r) && Terminal(s)
    ensures StepCall(false, Some(s), r).Ok? <==> InOrder(s, r) && (FailureTail(s, r) || LateReservation(s, r))
    ensures StepCall(false, Some(s), r).Ok? ==>
              (Terminal(StepCall(false, Some(s), r).value) <==> FailureTail(s, r))
  {
    hide Apply, Reached, Valid;
    NeedsAcceptance(s);
    if !s.terminalSeen {
      match r.payload
      case RequestAccepted => SecondAcceptance(s, r);
      case PreDecision(_) => EndedRejectsDecision(s, r);
      case ApprovalTransition(_, _, _, _) => EndedRejectsApproval(s, r);
      case BudgetTransition(_, _, _, _, _) => EndedBudget(s, r);
      case Dispatch(_) => EndedRejectsDispatch(s, r);
      case Outcome(_) => EndedRejectsResult(s, r);
      case Inspection(_) => EndedRejectsResult(s, r);
      case Delivery(_) => EndedRejectsDelivery(s, r);
      case TerminalFailure(_, _, _) => EndedFailure(s, r);
    }
  }

  lemma NeedsAcceptance(s: CallState)
    requires Reached(s)
    ensures s.status.requestAccepted && s.lastTimestamp != 0
  {
  }

  lemma SecondAcceptance(s: CallState, r: Record)
    requires s.status.requestAccepted && r.payload.RequestAccepted?
    ensures Apply(s, r).Err?
  {
  }

  lemma EndedRejectsDecision(s: CallState, r: Record)
    requires Reached(s) && Valid(r) && Terminal(s) && !s.terminalSeen && r.payload.PreDecision?
    ensures Apply(s, r).Err?
  {
  }

  lemma EndedRejectsApproval(s: CallState, r: Record)
    requires Reached(s) && Valid(r) && Terminal(s) && !s.terminalSeen && r.payload.ApprovalTransition?
    ensures Apply(s, r).Err?
  {
  }

  lemma EndedRejectsDispatch(s: CallState, r: Record)
    requires Reached(s) && Valid(r) && Terminal(s) && !s.terminalSeen && r.payload.Dispatch?
    ensures Apply(s, r).Err?
  {
  }

  lemma EndedRejectsResult(s: CallState, r: Record)
    requires Reached(s) && Valid(r) && Terminal(s) && !s.terminalSeen && (r.payload.Outcome? || r.payload.Inspection?)
    ensures Apply(s, r).Err?
  {
  }

  lemma EndedRejectsDelivery(s: CallState, r: Record)
    requires Reached(s) && Valid(r) && Terminal(s) && !s.terminalSeen && r.payload.Delivery?
    ensures Apply(s, r).Err?
  {
  }

  lemma EndedFailure(s: CallState, r: Record)
    requires Reached(s) && Valid(r) && Terminal(s) && !s.terminalSeen && r.payload.TerminalFailure?
    ensures Apply(s, r).Ok? <==> FailureTail(s, r)
    ensures Apply(s, r).Ok? ==> Apply(s, r).value.terminalSeen
    ensures Apply(s, r).Ok? ==> Apply(s, r).value.budget == s.budget
  {
  }

  lemma EndedBudget(s: CallState, r: Record)
    requires Reached(s) && Valid(r) && Terminal(s) && !s.terminalSeen && r.payload.BudgetTransition?
    ensures Apply(s, r).Ok? <==> LateReservation(s, r)
    ensures Apply(s, r).Ok? ==> Apply(s, r).value.budget.seen && !Apply(s, r).value.budget.terminal
  {
  }

  // A call that can no longer be dispatched or delivered: complete, or reopened by
  // a late reservation.
  predicate Spent(s: CallState) {
    Terminal(s) || (s.preDecisionSeen && s.status.decision == Block)
  }

  lemma SpentStays(s: CallState, r: Record)
    requires Reached(s) && Valid(r) && Spent(s) && StepCall(false, Some(s), r).Ok?
    ensures Spent(StepCall(false, Some(s), r).value)
    ensures !r.payload.Dispatch? && !r.payload.Delivery? && !r.payload.Outcome?
  {
    hide Reached, Valid;
    if Terminal(s) {
      hide Apply;
      TerminalContinuations(s, r);
      if LateReservation(s, r) {
        EndedKeepsDecision(s, r);
      }
    } else {
      BlockedKeepsDecision(s, r);
    }
  }

  lemma EndedKeepsDecision(s: CallState, r: Record)
    requires Reached(s) && Valid(r) && Terminal(s) && Apply(s, r).Ok?
    requires LateReservation(s, r)
    ensures Apply(s, r).value.preDecisionSeen && Apply(s, r).value.status.decision == Block
  {
  }

  lemma BlockedKeepsDecision(s: CallState, r: Record)
    requires s.preDecisionSeen && s.status.decision == Block && Apply(s, r).Ok?
    ensures r.payload.BudgetTransition?
    ensures Apply(s, r).value.preDecisionSeen && Apply(s, r).value.status.decision == Block
  {
  }

  // Once an accepted history has reached completion, no continuation of it ever
  // holds another dispatch, outcome or delivery.
  lemma {:induction false} CompleteIsFinal(h: seq<Record>, n: nat, k: nat)
    requires Accepted(h) && 1 <= n <= k <= |h|
    requires Accepted(h[..n]) && Terminal(StateOf(h[..n]))
    ensures Accepted(h[..k]) && Spent(StateOf(h[..k]))
    ensures forall j :: n <= j < k ==> !h[j].payload.Dispatch? && !h[j].payload.Delivery? && !h[j].payload.Outcome?
    decreases k
  {
    hide StepCall, RunCall, Valid, AllValid, Reached;
    if n < k {
      CompleteIsFinal(h, n, k - 1);
      StepAt(h, k - 1);
      SpentStays(StateOf(h[..k - 1]), h[k - 1]);
    }
  }
}
