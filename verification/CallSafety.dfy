// Safety of every accepted history of one call.
module CallSafety {
  import opened Wrappers
  import opened LedgerTypes
  import opened LedgerValidate
  import opened Lifecycle
  import opened CallHistory

  // -------------------------------------------------- what one step changes

  lemma DecisionEffects(s: CallState, r: Record, t: CallState)
    requires Reached(s) && Valid(r) && StepCall(false, Some(s), r) == Ok(t)
    ensures t.preDecisionSeen == (s.preDecisionSeen || Has(Deciding, r))
    ensures Has(Deciding, r) ==>
              && !s.preDecisionSeen && t.status.decision == r.decision && t.status.reason == r.reason
              && t.preOutcome == Some(r.payload.outcome) && (r.phase == PreCall || t.terminalSeen)
    ensures !Has(Deciding, r) ==>
              && t.status.decision == s.status.decision && t.status.reason == s.status.reason
              && t.preOutcome == s.preOutcome
  {
    hide Reached, ApplyAccepted, ApplyApproval, ApplyBudget, ApplyDispatch, ApplyOutcome, ApplyInspection,
         ApplyDelivery, ApplyFailure;
  }

  lemma DispatchEffects(s: CallState, r: Record, t: CallState)
    requires Reached(s) && Valid(r) && StepCall(false, Some(s), r) == Ok(t)
    ensures t.dispatchSeen == (s.dispatchSeen || Has(Dispatching, r))
    ensures Has(Dispatching, r) ==>
              && !s.dispatchSeen && s.preDecisionSeen && !s.terminalSeen
              && (s.preOutcome == Some(DispatchEligible)
                  || (s.status.decision == RequireApproval && s.preApproval.status == Approved))
              && (if s.budget.seen then
                    s.budget.stage == Some(Committed) && r.payload.dispatchReservation == s.budget.reservation
                  else r.payload.dispatchReservation == None)
    ensures !s.terminalSeen
  {
    hide ApplyDecision, ApplyAccepted, ApplyApproval, ApplyBudget, ApplyOutcome, ApplyInspection, ApplyDelivery,
         ApplyFailure;
  }

  lemma ApprovalEffects(s: CallState, r: Record, t: CallState)
    requires Reached(s) && Valid(r) && StepCall(false, Some(s), r) == Ok(t)
    ensures t.preApproval.status == if Has(PreApproving, r) then r.payload.status else s.preApproval.status
    ensures Has(PreApproving, r) ==> s.preDecisionSeen && s.budget.stage != Some(Committed) && !s.preApproval.terminal
    ensures t.postApproval.status == if Has(PostApproving, r) then r.payload.status else s.postApproval.status
    ensures Has(PostApproving, r) ==> s.result.inspectionSeen && !s.postApproval.terminal
    ensures !Has(PreApproving, r) ==> t.preApproval == s.preApproval
    ensures !Has(PostApproving, r) ==> t.postApproval == s.postApproval
  {
    hide ApplyAccepted, ApplyDecision, ApplyBudget, ApplyDispatch, ApplyOutcome, ApplyInspection, ApplyDelivery,
         ApplyFailure, ValidDecision;
  }

  lemma BudgetEffects(s: CallState, r: Record, t: CallState)
    requires Reached(s) && Valid(r) && StepCall(false, Some(s), r) == Ok(t)
    ensures t.budget.seen == (s.budget.seen || Has(Budgeting, r))
    ensures Has(Budgeting, r) ==>
              && !s.budget.terminal && s.preDecisionSeen
              && (s.budget.seen ==>
                    r.payload.reservation == s.budget.reservation && r.payload.budgetIds == s.budget.ids)
              && t.budget.reservation == r.payload.reservation && t.budget.ids == r.payload.budgetIds
              && (PostReservation(r) ==>
                    && s.budget.seen && t.budget.stage == s.budget.stage && s.budget.postUnits == 0
                    && s.postApproval.status == NoApproval
                    && t.budget.postUnits == r.payload.reservedDelta.approvalCount)
              && (!PostReservation(r) ==>
                    t.budget.stage == Some(r.payload.kind) && t.budget.postUnits == s.budget.postUnits)
    ensures !Has(Budgeting, r) ==>
              && t.budget.reservation == s.budget.reservation && t.budget.ids == s.budget.ids
              && t.budget.stage == s.budget.stage && t.budget.postUnits == s.budget.postUnits
    ensures Has(Budgeting, r) && r.payload.kind == Reserved && !PostReservation(r) ==> Has(Reserving, r)
    ensures Has(Reserving, r) ==> !s.budget.seen && s.preApproval.status == NoApproval
    ensures Has(Committing, r) ==>
              && s.budget.stage == Some(Reserved)
              && (s.status.decision == RequireApproval ==> s.preApproval.status == Approved)
  {
    hide ApplyAccepted, ApplyDecision, ApplyApproval, ApplyDispatch, ApplyOutcome, ApplyInspection, ApplyDelivery,
         ApplyFailure, ValidDecision;
  }

  lemma SettlementEffects(s: CallState, r: Record, t: CallState)
    requires Reached(s) && Valid(r) && StepCall(false, Some(s), r) == Ok(t)
    ensures Has(Settling, r) ==>
              && s.budget.stage == Some(Committed)
              && r.payload.reservedDelta.approvalCount == -s.budget.postUnits
              && r.payload.consumedDelta.approvalCount ==
                   if s.postApproval.status == Approved then s.budget.postUnits else 0
  {
    hide ApplyAccepted, ApplyDecision, ApplyApproval, ApplyDispatch, ApplyOutcome, ApplyInspection, ApplyDelivery,
         ApplyFailure;
  }

  lemma OutcomeEffects(s: CallState, r: Record, t: CallState)
    requires Reached(s) && Valid(r) && StepCall(false, Some(s), r) == Ok(t)
    ensures t.result.downstreamSeen == (s.result.downstreamSeen || Has(Resolving, r))
    ensures Has(Resolving, r) ==>
              && !s.result.downstreamSeen && s.dispatchSeen
              && (t.status.dispatch == Succeeded <==> r.payload.result == DownstreamSucceeded)
    ensures !Has(Resolving, r) && t.status.dispatch == Succeeded ==> s.status.dispatch == Succeeded
  {
    hide ApplyAccepted, ApplyDecision, ApplyApproval, ApplyBudget, ApplyInspection, ApplyDelivery;
  }

  lemma InspectionEffects(s: CallState, r: Record, t: CallState)
    requires Reached(s) && Valid(r) && StepCall(false, Some(s), r) == Ok(t)
    ensures t.result.inspectionSeen == (s.result.inspectionSeen || Has(Inspecting, r))
    ensures Has(Inspecting, r) ==>
              && !s.result.inspectionSeen && s.status.dispatch == Succeeded && t.result.inspectionDecision == r.decision
    ensures !Has(Inspecting, r) ==> t.result.inspectionDecision == s.result.inspectionDecision
  {
    hide ApplyAccepted, ApplyDecision, ApplyApproval, ApplyBudget, ApplyDispatch, ApplyOutcome, ApplyDelivery,
         ApplyFailure, ValidEvent, ValidDecision;
  }

  lemma DeliveryEffects(s: CallState, r: Record, t: CallState)
    requires Reached(s) && Valid(r) && StepCall(false, Some(s), r) == Ok(t)
    ensures Has(Delivering, r) ==>
              && s.result.inspectionSeen && t.terminalSeen
              && (r.payload.delivery == Forwarded <==> InspectionPermits(s))
              && (s.budget.seen ==> s.budget.terminal && !s.budget.stopsCall)
    ensures Has(Failing, r) ==> t.terminalSeen
  {
    hide ApplyAccepted, ApplyDecision, ApplyApproval, ApplyBudget, ApplyDispatch, ApplyOutcome, ApplyInspection,
         ValidEvent, ValidDecision;
  }

  // ---------------------------------------- the state explained by the history

  ghost predicate DecisionFacts(s: CallState, h: seq<Record>) {
    var d := Last(Deciding, h);
    && Count(Deciding, h) == Flag(s.preDecisionSeen)
    && (s.preDecisionSeen <==> 0 <= d)
    && (s.preDecisionSeen ==>
          && h[d].decision == s.status.decision && h[d].reason == s.status.reason
          && s.preOutcome == Some(h[d].payload.outcome) && (h[d].phase == PreCall || s.terminalSeen))
    && Count(Dispatching, h) == Flag(s.dispatchSeen)
    && (s.dispatchSeen <==> 0 <= Last(Dispatching, h))
  }

  ghost predicate ApprovalFacts(s: CallState, h: seq<Record>) {
    && (s.preApproval.status != Approved ==> Last(PreApproved, h) == -1)
    && (s.preApproval.status == Approved ==> 0 <= Last(Deciding, h) < Last(PreApproved, h))
    && (s.postApproval.status != Approved ==> Last(PostApproved, h) == -1)
    && (s.postApproval.status == Approved ==> 0 <= Last(Inspecting, h) < Last(PostApproved, h))
  }

  ghost predicate BudgetFacts(s: CallState, h: seq<Record>) {
    && (s.budget.seen <==> 0 <= Last(Budgeting, h))
    && (forall i :: 0 <= i < |h| && Has(Budgeting, h[i]) ==>
          h[i].payload.reservation == s.budget.reservation && h[i].payload.budgetIds == s.budget.ids)
    && s.budget.postUnits == PostUnits(h)
  }

  ghost predicate StageFacts(s: CallState, h: seq<Record>) {
    && (s.budget.stage == Some(Reserved) ==>
          && 0 <= Last(Deciding, h) < Last(Reserving, h)
          && (s.preApproval.status == Approved ==> Last(Reserving, h) < Last(PreApproved, h)))
    && (s.budget.stage == Some(Committed) ==>
          && 0 <= Last(Deciding, h) < Last(Reserving, h) < Last(Committing, h)
          && (s.status.decision == RequireApproval ==>
                Last(Reserving, h) < Last(PreApproved, h) < Last(Committing, h)))
    && (s.budget.stage == Some(Settled) ==> 0 <= Last(Settling, h))
  }

  ghost predicate ResultFacts(s: CallState, h: seq<Record>) {
    var o, q := Last(Resolving, h), Last(Inspecting, h);
    && Count(Resolving, h) == Flag(s.result.downstreamSeen)
    && Count(Inspecting, h) == Flag(s.result.inspectionSeen)
    && (s.result.downstreamSeen <==> 0 <= o)
    && (s.result.inspectionSeen <==> 0 <= q)
    && (s.status.dispatch == Succeeded ==>
          0 <= Last(Dispatching, h) < o && h[o].payload.result == DownstreamSucceeded)
    && (s.result.inspectionSeen ==>
          && 0 <= Last(Dispatching, h) < o < q && h[o].payload.result == DownstreamSucceeded
          && h[q].decision == s.result.inspectionDecision)
    && (0 < Count(Delivering, h) ==> s.terminalSeen)
  }

  lemma FirstFacts(h: seq<Record>)
    requires Accepted(h) && |h| == 1
    ensures DecisionFacts(StateOf(h), h) && ApprovalFacts(StateOf(h), h)
    ensures BudgetFacts(StateOf(h), h) && StageFacts(StateOf(h), h) && ResultFacts(StateOf(h), h)
  {
    hide StepCall;
    LastStep(h);
    FirstStep(h[0]);
    assert h[..0] == [];
    assert forall m: Mark :: Last(m, []) == -1 && Count(m, []) == 0;
    assert forall m: Mark :: !Has(m, h[0]);
    assert forall m: Mark :: Last(m, h) == -1 && Count(m, h) == 0;
    assert PostUnits(h) == PostUnits([]) == 0;
  }

  lemma LastValid(h: seq<Record>)
    requires Accepted(h)
    ensures Valid(h[|h| - 1]) && Reached(StateOf(h))
    ensures 1 < |h| ==> Accepted(h[..|h| - 1]) && Reached(StateOf(h[..|h| - 1]))
  {
    hide StepCall, Reached;
    AcceptedReaches(h);
    LastStep(h);
    if 1 < |h| {
      AcceptedReaches(h[..|h| - 1]);
    }
  }

  lemma {:induction false} HistoryDecides(h: seq<Record>)
    requires Accepted(h)
    ensures DecisionFacts(StateOf(h), h)
    decreases |h|
  {
    hide StepCall, RunCall, Valid, Accepted, AllValid;
    LastStep(h);
    LastValid(h);
    if |h| == 1 {
      FirstFacts(h);
    } else {
      var init, r := h[..|h| - 1], h[|h| - 1];
      HistoryDecides(init);
      DecisionEffects(StateOf(init), r, StateOf(h));
      DispatchEffects(StateOf(init), r, StateOf(h));
    }
  }

  lemma {:induction false} HistoryApproves(h: seq<Record>)
    requires Accepted(h)
    ensures ApprovalFacts(StateOf(h), h)
    decreases |h|
  {
    hide StepCall, RunCall, Valid, Accepted, AllValid;
    LastStep(h);
    LastValid(h);
    if |h| == 1 {
      FirstFacts(h);
    } else {
      var init, r := h[..|h| - 1], h[|h| - 1];
      HistoryApproves(init);
      HistoryDecides(init);
      HistoryResults(init);
      ApprovalEffects(StateOf(init), r, StateOf(h));
      DecisionEffects(StateOf(init), r, StateOf(h));
      InspectionEffects(StateOf(init), r, StateOf(h));
    }
  }

  lemma {:induction false} HistoryResults(h: seq<Record>)
    requires Accepted(h)
    ensures ResultFacts(StateOf(h), h)
    decreases |h|
  {
    hide StepCall, RunCall, Valid, Accepted, AllValid;
    LastStep(h);
    LastValid(h);
    if |h| == 1 {
      FirstFacts(h);
    } else {
      var init, r := h[..|h| - 1], h[|h| - 1];
      HistoryResults(init);
      HistoryDecides(init);
      DispatchEffects(StateOf(init), r, StateOf(h));
      OutcomeEffects(StateOf(init), r, StateOf(h));
      InspectionEffects(StateOf(init), r, StateOf(h));
      DeliveryEffects(StateOf(init), r, StateOf(h));
    }
  }

  lemma {:induction false} HistoryBudgets(h: seq<Record>)
    requires Accepted(h)
    ensures BudgetFacts(StateOf(h), h)
    decreases |h|
  {
    hide StepCall, RunCall, Valid, Accepted, AllValid;
    LastStep(h);
    LastValid(h);
    if |h| == 1 {
      FirstFacts(h);
    } else {
      var init, r := h[..|h| - 1], h[|h| - 1];
      HistoryBudgets(init);
      AfterLast(Budgeting, init);
      BudgetEffects(StateOf(init), r, StateOf(h));
      assert forall i :: 0 <= i < |init| ==> h[i] == init[i];
    }
  }

  lemma {:induction false} HistoryStages(h: seq<Record>)
    requires Accepted(h)
    ensures StageFacts(StateOf(h), h)
    decreases |h|
  {
    hide StepCall, RunCall, Valid, Accepted, AllValid, Reached, Last, Count, Has;
    LastStep(h);
    LastValid(h);
    if |h| == 1 {
      FirstFacts(h);
    } else {
      var init, r := h[..|h| - 1], h[|h| - 1];
      HistoryStages(init);
      StageMarks(h);
      HistoryDecides(init);
      HistoryApproves(init);
      BudgetEffects(StateOf(init), r, StateOf(h));
      DecisionEffects(StateOf(init), r, StateOf(h));
      ApprovalEffects(StateOf(init), r, StateOf(h));
    }
  }

  // Where the marks of the stages last stand, one record on; none of them stands
  // past the end of the history, and one record bears at most one of them.
  lemma StageMarks(h: seq<Record>)
    requires 1 < |h|
    ensures var init, r := h[..|h| - 1], h[|h| - 1];
            && (forall m: Mark :: Last(m, h) == if Has(m, r) then |init| else Last(m, init))
            && (forall m: Mark :: Last(m, init) < |init|)
            && (Has(Deciding, r) ==> !Has(Budgeting, r) && !Has(PreApproving, r))
            && (Has(PreApproving, r) ==> !Has(Budgeting, r))
            && (Has(PreApproved, r) <==> Has(PreApproving, r) && r.payload.status == Approved)
            && (Has(Reserving, r) || Has(Committing, r) || Has(Settling, r) ==> Has(Budgeting, r))
            && (Has(Budgeting, r) ==>
                  && (Has(Committing, r) <==> r.payload.kind == Committed)
                  && (Has(Settling, r) <==> r.payload.kind == Settled)
                  && (Has(Reserving, r) ==> r.payload.kind == Reserved))
  {
  }

  // -------------------------------------------------------------- the theorems

  lemma AcceptedStarts(h: seq<Record>)
    requires Accepted(h)
    ensures h != [] && h[0].payload.RequestAccepted?
  {
    hide StepCall, Reached;
    AcceptedReaches(h);
  }

  // A decision that lets a dispatch follow is a pre-call decision.
  lemma PreCallDecision(p: seq<Record>, r: Record)
    requires Accepted(p) && Valid(r) && StepCall(false, Some(StateOf(p)), r).Ok?
    requires DecisionFacts(StateOf(p), p) && StateOf(p).preDecisionSeen
    ensures p[Last(Deciding, p)].phase == PreCall
    ensures StateOf(p).preOutcome == Some(DispatchEligible) ==>
              StateOf(p).status.decision == Allow || StateOf(p).status.decision == Warn
  {
    hide Apply;
    AcceptedReaches(p);
  }

  // What is known at position i of an accepted history: the prefix before it is
  // accepted, and its record is one accepted step from there.
  lemma StepAt(h: seq<Record>, i: nat)
    requires Accepted(h) && 1 <= i < |h|
    ensures Accepted(h[..i]) && Reached(StateOf(h[..i]))
    ensures Accepted(h[..i + 1]) && Valid(h[i])
    ensures StepCall(false, Some(StateOf(h[..i])), h[i]) == Ok(StateOf(h[..i + 1]))
  {
    hide StepCall, Reached;
    PrefixAccepted(h, i + 1);
    var p := h[..i + 1];
    LastStep(p);
    assert p[..i] == h[..i];
    AcceptedReaches(h[..i]);
  }

  lemma {:induction false} AtMostOne(m: Mark, h: seq<Record>)
    ensures Count(m, h) == 0 ==> forall i :: 0 <= i < |h| ==> !Has(m, h[i])
    ensures Count(m, h) == 1 ==> forall i, j :: 0 <= i < |h| && 0 <= j < |h| && Has(m, h[i]) && Has(m, h[j]) ==> i == j
  {
    if h != [] {
      var init := h[..|h| - 1];
      AtMostOne(m, init);
      assert forall i :: 0 <= i < |init| ==> h[i] == init[i];
    }
  }

  ghost predicate OnlyAt(m: Mark, h: seq<Record>, k: int) {
    0 <= k < |h| && Has(m, h[k]) && forall j :: 0 <= j < |h| && Has(m, h[j]) ==> j == k
  }

  ghost predicate Between(m: Mark, h: seq<Record>, low: int, high: int) {
    exists a :: 0 <= low < a < high <= |h| && Has(m, h[a])
  }

  ghost predicate Unbudgeted(h: seq<Record>, i: int)
    requires i <= |h|
  {
    forall b :: 0 <= b < i ==> !Has(Budgeting, h[b])
  }

  // The dispatch at i is backed by the decision at d.
  ghost predicate DecisionAllows(h: seq<Record>, d: int, i: int) {
    && OnlyAt(Deciding, h, d) && d < i && h[d].phase == PreCall
    && (|| h[d].decision == Allow || h[d].decision == Warn
        || (h[d].decision == RequireApproval && Between(PreApproved, h, d, i)))
  }

  // The dispatch at i spends the reservation made at r and committed at c.
  ghost predicate BudgetAllows(h: seq<Record>, d: int, r: int, c: int, i: int) {
    && 0 <= d < r < c < i < |h| && h[i].payload.Dispatch?
    && Has(Reserving, h[r]) && Has(Committing, h[c])
    && h[r].payload.reservation == h[c].payload.reservation == h[i].payload.dispatchReservation
    && h[r].payload.budgetIds == h[c].payload.budgetIds
    && (h[d].decision == RequireApproval ==> Between(PreApproved, h, r, c))
  }

  ghost predicate DispatchJustified(h: seq<Record>, i: nat)
    requires i < |h| && Has(Dispatching, h[i])
  {
    && OnlyAt(Dispatching, h, i)
    && exists d ::
         && DecisionAllows(h, d, i)
         && if Unbudgeted(h, i) then h[i].payload.dispatchReservation == None
            else exists r, c :: BudgetAllows(h, d, r, c, i)
  }

  // Every dispatch of an accepted call is the only one and was decided, approved
  // where approval was required, and reserved and committed where budgeted.
  lemma {:induction false} DispatchSafety(h: seq<Record>, i: nat)
    requires Accepted(h) && i < |h| && Has(Dispatching, h[i])
    ensures DispatchJustified(h, i)
  {
    hide StepCall, RunCall, Valid, Accepted, AllValid;
    AcceptedStarts(h);
    StepAt(h, i);
    var p := h[..i];
    var s := StateOf(p);
    DispatchEffects(s, h[i], StateOf(h[..i + 1]));
    HistoryDecides(p);
    HistoryApproves(p);
    HistoryBudgets(p);
    HistoryStages(p);
    HistoryDecides(h);
    AtMostOne(Dispatching, h);
    AtMostOne(Deciding, h);
    var d := Last(Deciding, p);
    assert h[d] == p[d];
    PreCallDecision(p, h[i]);
    if s.status.decision == RequireApproval {
      assert Has(PreApproved, h[Last(PreApproved, p)]);
    }
    assert DecisionAllows(h, d, i);
    if s.budget.seen {
      var r, c := Last(Reserving, p), Last(Committing, p);
      BudgetSpent(h, i, d);
      assert BudgetAllows(h, d, r, c, i) && Has(Budgeting, h[r]);
    } else {
      AfterLast(Budgeting, p);
      assert forall b :: 0 <= b < i ==> h[b] == p[b];
    }
  }

  // The reservation and the commitment of a budgeted dispatch.
  lemma BudgetSpent(h: seq<Record>, i: nat, d: int)
    requires Accepted(h) && 1 <= i < |h| && Has(Dispatching, h[i]) && Accepted(h[..i])
    requires StateOf(h[..i]).budget.seen && d == Last(Deciding, h[..i])
    ensures var r, c := Last(Reserving, h[..i]), Last(Committing, h[..i]);
            BudgetAllows(h, d, r, c, i) && Has(Budgeting, h[r])
  {
    hide StepCall, RunCall, Valid, Accepted, AllValid, Reached;
    StepAt(h, i);
    var p := h[..i];
    DispatchEffects(StateOf(p), h[i], StateOf(h[..i + 1]));
    HistoryDecides(p);
    HistoryApproves(p);
    HistoryBudgets(p);
    HistoryStages(p);
    var r, c := Last(Reserving, p), Last(Committing, p);
    assert h[d] == p[d];
    assert Has(Budgeting, p[r]) && Has(Budgeting, p[c]) && p[r] == h[r] && p[c] == h[c];
    if h[d].decision == RequireApproval {
      assert Has(PreApproved, h[Last(PreApproved, p)]);
    }
  }

  // The delivery at i follows the inspection at q of the successful outcome at o
  // of the dispatch at p.
  ghost predicate ResultChain(h: seq<Record>, p: int, o: int, q: int, i: int) {
    && 0 <= p < o < q < i < |h|
    && OnlyAt(Dispatching, h, p)
    && OnlyAt(Resolving, h, o) && h[o].payload.result == DownstreamSucceeded
    && OnlyAt(Inspecting, h, q)
  }

  ghost predicate Permitted(h: seq<Record>, q: int, i: int) {
    && 0 <= q < |h|
    && (|| h[q].decision == Allow || h[q].decision == Warn
        || (h[q].decision == RequireApproval && Between(PostApproved, h, q, i)))
  }

  // The delivery forwards the result exactly when its one inspection permits it.
  ghost predicate Inspected(h: seq<Record>, i: nat)
    requires i < |h| && Has(Delivering, h[i])
  {
    exists p, o, q :: ResultChain(h, p, o, q, i) && (h[i].payload.delivery == Forwarded <==> Permitted(h, q, i))
  }

  ghost predicate DeliveryJustified(h: seq<Record>, i: nat)
    requires i < |h| && Has(Delivering, h[i])
  {
    && i == |h| - 1
    && OnlyAt(Delivering, h, i)
    && Inspected(h, i)
    && (Unbudgeted(h, i) || exists e :: 0 <= e < i && Has(Settling, h[e]))
  }

  // Every final delivery of an accepted call is its last record, follows one
  // successful outcome, one inspection and the settlement of any budget, and
  // forwards the result exactly when the inspection permits it.
  lemma {:induction false} DeliverySafety(h: seq<Record>, i: nat)
    requires Accepted(h) && i < |h| && Has(Delivering, h[i])
    ensures DeliveryJustified(h, i)
  {
    hide StepCall, RunCall, Valid, Accepted, AllValid, Reached;
    AcceptedStarts(h);
    StepAt(h, i);
    DeliveryEffects(StateOf(h[..i]), h[i], StateOf(h[..i + 1]));
    NothingAfterEnd(h, i);
    DeliveryUnique(h, i);
    DeliveryInspected(h, i);
    DeliverySettled(h, i);
  }

  lemma NothingAfterEnd(h: seq<Record>, i: nat)
    requires Accepted(h) && 1 <= i < |h| && Accepted(h[..i + 1]) && StateOf(h[..i + 1]).terminalSeen
    ensures i == |h| - 1
  {
    hide StepCall, RunCall, Valid, Accepted, AllValid, Reached;
    if i + 1 < |h| {
      StepAt(h, i + 1);
      DispatchEffects(StateOf(h[..i + 1]), h[i + 1], StateOf(h[..i + 2]));
    }
  }

  lemma DeliveryUnique(h: seq<Record>, i: nat)
    requires Accepted(h) && 1 <= i == |h| - 1 && Has(Delivering, h[i])
    ensures OnlyAt(Delivering, h, i)
  {
    hide StepCall, RunCall, Valid, Accepted, AllValid, Reached;
    StepAt(h, i);
    var f := h[..i];
    DispatchEffects(StateOf(f), h[i], StateOf(h[..i + 1]));
    HistoryResults(f);
    AtMostOne(Delivering, f);
    assert forall b :: 0 <= b < i ==> h[b] == f[b];
  }

  lemma DeliveryInspected(h: seq<Record>, i: nat)
    requires Accepted(h) && 1 <= i < |h| && Has(Delivering, h[i])
    ensures Inspected(h, i)
  {
    hide StepCall, RunCall, Valid, Accepted, AllValid, Reached;
    StepAt(h, i);
    var f := h[..i];
    var s := StateOf(f);
    DeliveryEffects(s, h[i], StateOf(h[..i + 1]));
    HistoryApproves(f);
    HistoryResults(f);
    HistoryDecides(h);
    HistoryResults(h);
    AtMostOne(Dispatching, h);
    AtMostOne(Resolving, h);
    AtMostOne(Inspecting, h);
    var p, o, q := Last(Dispatching, f), Last(Resolving, f), Last(Inspecting, f);
    assert f[p] == h[p] && f[o] == h[o] && f[q] == h[q];
    assert ResultChain(h, p, o, q, i);
    AfterLast(PostApproved, f);
    assert forall b :: 0 <= b < i ==> h[b] == f[b];
    if s.postApproval.status == Approved {
      assert Has(PostApproved, h[Last(PostApproved, f)]);
    }
  }

  lemma DeliverySettled(h: seq<Record>, i: nat)
    requires Accepted(h) && 1 <= i < |h| && Has(Delivering, h[i])
    ensures Unbudgeted(h, i) || exists e :: 0 <= e < i && Has(Settling, h[e])
  {
    hide StepCall, RunCall, Valid, Accepted, AllValid;
    StepAt(h, i);
    var f := h[..i];
    var s := StateOf(f);
    DeliveryEffects(s, h[i], StateOf(h[..i + 1]));
    HistoryBudgets(f);
    HistoryStages(f);
    AfterLast(Budgeting, f);
    if s.budget.seen {
      assert Has(Settling, h[Last(Settling, f)]);
    } else {
      assert forall b :: 0 <= b < i ==> h[b] == f[b];
    }
  }

  ghost predicate Awaits(r: Record) {
    r.payload.ApprovalTransition? && r.payload.status == Pending
  }

  // While an approval is pending, the only record the call accepts is the answer
  // to that very approval request.
  lemma {:induction false} PendingApprovalExcludesAll(h: seq<Record>, i: nat)
    requires Accepted(h) && i + 1 < |h| && Awaits(h[i])
    ensures var answer := h[i + 1];
            && answer.payload.ApprovalTransition? && answer.payload.status != Pending
            && answer.phase == h[i].phase
            && answer.payload.requestId == h[i].payload.requestId && answer.payload.policyId == h[i].payload.policyId
  {
    hide StepCall, Reached, Accepted, RunCall;
    AcceptedStarts(h);
    StepAt(h, i);
    StepAt(h, i + 1);
    AwaitsAnswer(StateOf(h[..i]), h[i], StateOf(h[..i + 1]), h[i + 1]);
  }

  lemma AwaitsAnswer(s: CallState, asked: Record, t: CallState, answer: Record)
    requires Reached(s) && Valid(asked) && Awaits(asked) && StepCall(false, Some(s), asked) == Ok(t)
    requires Reached(t) && Valid(answer) && StepCall(false, Some(t), answer).Ok?
    ensures answer.payload.ApprovalTransition? && answer.payload.status != Pending && answer.phase == asked.phase
    ensures answer.payload.requestId == asked.payload.requestId && answer.payload.policyId == asked.payload.policyId
  {
    hide ApplyAccepted, ApplyDecision, ApplyBudget, ApplyDispatch, ApplyOutcome, ApplyInspection, ApplyDelivery,
         ApplyFailure, ValidDecision;
  }

  // ------------------------------------------------------------------- budgets

  ghost predicate SettledInFull(h: seq<Record>, i: nat)
    requires i < |h| && Has(Settling, h[i])
  {
    var units := PostUnits(h[..i]);
    && h[i].payload.reservedDelta.approvalCount == -units
    && h[i].payload.consumedDelta.approvalCount ==
         if exists a :: 0 <= a < i && Has(PostApproved, h[a]) then units else 0
  }

  // One reservation and one budget set for the whole call.
  lemma {:induction false} BudgetBoundOnce(h: seq<Record>, i: nat, j: nat)
    requires Accepted(h) && i < |h| && j < |h| && Has(Budgeting, h[i]) && Has(Budgeting, h[j])
    ensures h[i].payload.reservation == h[j].payload.reservation
    ensures h[i].payload.budgetIds == h[j].payload.budgetIds
  {
    hide StepCall, RunCall, Valid, Accepted, AllValid;
    HistoryBudgets(h);
  }

  // A budget ends at most once: no budget record follows one that ends it.
  lemma {:induction false} BudgetEndsOnce(h: seq<Record>, i: nat, j: nat)
    requires Accepted(h) && i < j < |h| && Has(Budgeting, h[i]) && EndsBudget(h[i].payload.kind)
    ensures !Has(Budgeting, h[j])
    decreases j
  {
    hide StepCall, RunCall, Valid, Accepted, AllValid, Reached;
    AcceptedStarts(h);
    StepAt(h, j);
    if Has(Budgeting, h[j]) {
      BudgetEffects(StateOf(h[..j]), h[j], StateOf(h[..j + 1]));
      BudgetStaysEnded(h, i, j);
    }
  }

  lemma {:induction false} BudgetStaysEnded(h: seq<Record>, i: nat, j: nat)
    requires Accepted(h) && i < j <= |h| && Has(Budgeting, h[i]) && EndsBudget(h[i].payload.kind)
    ensures Accepted(h[..j]) && StateOf(h[..j]).budget.terminal
    decreases j
  {
    hide StepCall, RunCall, Valid, Accepted, AllValid;
    AcceptedStarts(h);
    PrefixAccepted(h, j);
    LastValid(h[..j]);
    StepAt(h, j - 1);
    BudgetEffects(StateOf(h[..j - 1]), h[j - 1], StateOf(h[..j]));
    if i < j - 1 {
      BudgetStaysEnded(h, i, j - 1);
    }
  }

  // At settlement the approval units reserved after the result go back in full,
  // and are consumed exactly when the post-result approval was approved by then.
  lemma {:induction false} SettlementConserves(h: seq<Record>, i: nat)
    requires Accepted(h) && i < |h| && Has(Settling, h[i])
    ensures SettledInFull(h, i)
  {
    hide StepCall, RunCall, Valid, Accepted, AllValid;
    AcceptedStarts(h);
    StepAt(h, i);
    var f := h[..i];
    SettlementEffects(StateOf(f), h[i], StateOf(h[..i + 1]));
    HistoryBudgets(f);
    HistoryApproves(f);
    AfterLast(PostApproved, f);
    assert forall b :: 0 <= b < i ==> h[b] == f[b];
    if StateOf(f).postApproval.status == Approved {
      assert Has(PostApproved, h[Last(PostApproved, f)]);
    }
  }
}
