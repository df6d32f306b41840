// The protocol guarantees over a whole log that nothing was dropped from.
module LedgerSafety {
  import opened Wrappers
  import opened LedgerTypes
  import opened LedgerValidate
  import opened Lifecycle
  import opened CallHistory
  import opened CallSafety
  import opened Replay

  // A log of valid records, from sequence 1 on, that replay accepts.
  predicate AcceptedLog(log: seq<Record>) {
    && log != [] && log[0].sequence == 1
    && AllValid(log)
    && Statuses(log).Ok?
  }

  lemma CallAccepted(log: seq<Record>, c: Identity)
    requires AcceptedLog(log)
    ensures CallRecords(log, c) != [] ==> Accepted(CallRecords(log, c))
    ensures CallRecords(log, c) != [] ==>
              c in Statuses(log).value && Statuses(log).value[c] == Finish(StateOf(CallRecords(log, c)))
  {
    hide StepCall, RunCall, Valid;
    ReplayByCall(false, log);
    RunKeepsEmptiness(CallRecords(log, c));
  }

  lemma RunKeepsEmptiness(h: seq<Record>)
    ensures RunCall(false, h).Ok? ==> (RunCall(false, h).value.Some? <==> h != [])
  {
  }

  ghost predicate DispatchesJustified(h: seq<Record>) {
    forall i :: 0 <= i < |h| && Has(Dispatching, h[i]) ==> DispatchJustified(h, i)
  }

  ghost predicate DeliveriesJustified(h: seq<Record>) {
    forall i :: 0 <= i < |h| && Has(Delivering, h[i]) ==> DeliveryJustified(h, i)
  }

  ghost predicate ApprovalsAnswered(h: seq<Record>) {
    forall i :: 0 <= i && i + 1 < |h| && Awaits(h[i]) ==>
      && h[i + 1].payload.ApprovalTransition? && h[i + 1].payload.status != Pending
      && h[i + 1].payload.requestId == h[i].payload.requestId
  }

  ghost predicate BudgetBound(h: seq<Record>) {
    forall i, j :: 0 <= i < |h| && 0 <= j < |h| && Has(Budgeting, h[i]) && Has(Budgeting, h[j]) ==>
      && h[i].payload.reservation == h[j].payload.reservation
      && h[i].payload.budgetIds == h[j].payload.budgetIds
  }

  ghost predicate BudgetEnded(h: seq<Record>) {
    forall i, j :: 0 <= i < j < |h| && Has(Budgeting, h[i]) && EndsBudget(h[i].payload.kind) ==> !Has(Budgeting, h[j])
  }

  ghost predicate SettlementsConserve(h: seq<Record>) {
    forall i :: 0 <= i < |h| && Has(Settling, h[i]) ==> SettledInFull(h, i)
  }

  // In every accepted log, each call is dispatched at most once and only when
  // decided, approved and budgeted; its result is delivered at most once and only
  // as its inspection permits; a pending approval excludes every other event; one
  // reservation and one budget set serve the call, its budget ends at most once,
  // and settlement gives back the post-result approval units in full.
  lemma {:induction false} LogSafety(log: seq<Record>, c: Identity)
    requires AcceptedLog(log)
    ensures DispatchesJustified(CallRecords(log, c))
    ensures DeliveriesJustified(CallRecords(log, c))
    ensures ApprovalsAnswered(CallRecords(log, c))
    ensures BudgetBound(CallRecords(log, c))
    ensures BudgetEnded(CallRecords(log, c))
    ensures SettlementsConserve(CallRecords(log, c))
  {
    hide StepCall, RunCall, Valid, Statuses, AllValid, Accepted;
    hide DispatchJustified, DeliveryJustified, SettledInFull;
    CallAccepted(log, c);
    var h := CallRecords(log, c);
    if h != [] {
      forall i | 0 <= i < |h| && Has(Dispatching, h[i])
        ensures DispatchJustified(h, i)
      {
        DispatchSafety(h, i);
      }
      forall i | 0 <= i < |h| && Has(Delivering, h[i])
        ensures DeliveryJustified(h, i)
      {
        DeliverySafety(h, i);
      }
      forall i | 0 <= i && i + 1 < |h| && Awaits(h[i])
        ensures h[i + 1].payload.ApprovalTransition? && h[i + 1].payload.status != Pending
        ensures h[i + 1].payload.requestId == h[i].payload.requestId
      {
        PendingApprovalExcludesAll(h, i);
      }
      forall i, j | 0 <= i < |h| && 0 <= j < |h| && Has(Budgeting, h[i]) && Has(Budgeting, h[j])
        ensures h[i].payload.reservation == h[j].payload.reservation
        ensures h[i].payload.budgetIds == h[j].payload.budgetIds
      {
        BudgetBoundOnce(h, i, j);
      }
      forall i, j | 0 <= i < j < |h| && Has(Budgeting, h[i]) && EndsBudget(h[i].payload.kind)
        ensures !Has(Budgeting, h[j])
      {
        BudgetEndsOnce(h, i, j);
      }
      forall i | 0 <= i < |h| && Has(Settling, h[i])
        ensures SettledInFull(h, i)
      {
        SettlementConserves(h, i);
      }
    }
  }
}
