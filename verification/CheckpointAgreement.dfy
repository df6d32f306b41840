// When advancing the checkpoint by one record gives what rebuilding it from the
// whole log would, and when it does not.
module CheckpointAgreement {
  import opened Wrappers
  import opened LedgerTypes
  import opened LedgerValidate
  import opened Lifecycle
  import opened CallHistory
  import opened CallEnd
  import opened Replay
  import opened Chain
  import opened Checkpoint

  // ------------------------------------------------------------- call by call

  // The state a call's records lead to does not depend on the dropped-history flag
  // when they start with the request.
  lemma {:induction false} FlagIrrelevant(dropped: bool, h: seq<Record>)
    requires h == [] || h[0].payload.RequestAccepted?
    ensures RunCall(dropped, h) == RunCall(false, h)
    decreases |h|
  {
    if h != [] {
      hide Apply;
      FlagIrrelevant(dropped, h[..|h| - 1]);
    }
  }

  lemma {:induction false} WholeHistoryStarts(h: seq<Record>)
    requires RunCall(false, h).Ok? && h != []
    ensures h[0].payload.RequestAccepted?
    decreases |h|
  {
    if |h| == 1 {
      assert h[..0] == [];
      FirstMustAccept(h[0]);
    } else {
      hide StepCall;
      WholeHistoryStarts(h[..|h| - 1]);
    }
  }

  lemma FirstMustAccept(r: Record)
    requires StepCall(false, None, r).Ok?
    ensures r.payload.RequestAccepted?
  {
  }

  lemma StatusesByCall(log: seq<Record>)
    ensures Statuses(log).Ok? <==> forall c :: RunCall(DroppedHistory(log), CallRecords(log, c)).Ok?
    ensures Statuses(log).Ok? ==>
              forall c :: c in Statuses(log).value <==> CallRecords(log, c) != []
    ensures Statuses(log).Ok? ==>
              forall c :: c in Statuses(log).value ==>
                && RunCall(DroppedHistory(log), CallRecords(log, c)).Ok?
                && RunCall(DroppedHistory(log), CallRecords(log, c)).value.Some?
                && Statuses(log).value[c] == Finish(RunCall(DroppedHistory(log), CallRecords(log, c)).value.value)
  {
    hide StepCall, Terminal;
    ReplayByCall(DroppedHistory(log), log);
    if Statuses(log).Ok? {
      forall c
        ensures c in Statuses(log).value <==> CallRecords(log, c) != []
      {
        RunEmptiness(DroppedHistory(log), CallRecords(log, c));
      }
    }
  }

  lemma RunEmptiness(dropped: bool, h: seq<Record>)
    ensures RunCall(dropped, h).Ok? ==> (RunCall(dropped, h).value.Some? <==> h != [])
  {
  }

  lemma {:induction false} ActiveByCall(log: seq<Record>, statuses: CallTable, c: Identity)
    ensures CallRecords(ActiveOf(log, statuses), c) ==
            if Complete(statuses, c) then [] else CallRecords(log, c)
  {
    if log != [] {
      var init, r := log[..|log| - 1], log[|log| - 1];
      ActiveByCall(init, statuses, c);
      CallRecordsAppend(ActiveOf(init, statuses), r, c);
    }
  }

  // ------------------------------------------------------------- the two routes

  // A log nothing was dropped from, that replay accepts.
  ghost predicate WholeLog(log: seq<Record>) {
    && log != [] && !DroppedHistory(log)
    && Statuses(log).Ok?
    && forall i, j :: 0 <= i < j < |log| ==> log[i].sequence < log[j].sequence
  }

  ghost predicate Next(log: seq<Record>, r: Record)
    requires log != []
  {
    log[|log| - 1].sequence < r.sequence
  }

  // The record starts a call late: the call has no record yet, the event is not its
  // request, and no active call keeps the log's first record, so that the active
  // records alone look like a log whose beginning was dropped.
  predicate LateStart(log: seq<Record>, active: seq<Record>, r: Record) {
    && CallRecords(log, r.CallId()) == []
    && !r.payload.RequestAccepted?
    && DroppedHistory(active + [r])
    && StartsMissingHistory(r)
  }

  // The events that a call whose beginning is missing may start with.
  predicate StartsMissingHistory(r: Record) {
    match r.payload
    case RequestAccepted => false
    case ApprovalTransition(_, _, _, _) => r.phase == PreCall
    case BudgetTransition(kind, _, _, reserved, consumed) =>
      && !PostReservation(r) && kind != Denied
      && (kind == Settled ==> reserved.approvalCount == 0 && consumed.approvalCount == 0)
    case _ => true
  }

  lemma StartingLate(r: Record)
    requires Valid(r)
    ensures !r.payload.RequestAccepted? ==> StepCall(false, None, r).Err?
    ensures !r.payload.RequestAccepted? ==> (StepCall(true, None, r).Ok? <==> StartsMissingHistory(r))
  {
  }

  // Lifecycle part of the agreement, for a call that is not complete.
  lemma {:induction false} SameLifecycle(log: seq<Record>, statuses: CallTable, r: Record)
    requires WholeLog(log) && Statuses(log) == Ok(statuses)
    requires !Complete(statuses, r.CallId()) && Valid(r) && Next(log, r)
    requires !LateStart(log, ActiveOf(log, statuses), r)
    ensures var active := ActiveOf(log, statuses) + [r];
            && (Statuses(log + [r]).Ok? <==> Statuses(active).Ok?)
            && (Statuses(active).Ok? ==>
                  && r.CallId() in Statuses(active).value
                  && Statuses(log + [r]).value == statuses[r.CallId() := Statuses(active).value[r.CallId()]])
  {
    hide StepCall, RunCall, Valid, Statuses, CallRecords, ActiveOf, LateStart, Finish;
    FullRoute(log, statuses, r);
    ActiveRoute(log, statuses, r);
    SameLastStep(log, statuses, r, DroppedHistory(ActiveOf(log, statuses) + [r]));
  }

  // Replaying the whole log with the record depends only on the record's own call.
  lemma FullRoute(log: seq<Record>, statuses: CallTable, r: Record)
    requires WholeLog(log) && Statuses(log) == Ok(statuses)
    ensures var run := RunCall(false, CallRecords(log, r.CallId()) + [r]);
            && (Statuses(log + [r]).Ok? <==> run.Ok?)
            && (run.Ok? ==>
                  && run.value.Some?
                  && Statuses(log + [r]) == Ok(statuses[r.CallId() := Finish(run.value.value)]))
  {
    hide StepCall, RunCall, Statuses, CallRecords, Finish;
    var d, full := r.CallId(), log + [r];
    StatusesByCall(log);
    StatusesByCall(full);
    RunEmptiness(false, CallRecords(log, d) + [r]);
    forall c
      ensures CallRecords(full, c) == if c == d then CallRecords(log, d) + [r] else CallRecords(log, c)
    {
      CallRecordsAppend(log, r, c);
    }
    assert !DroppedHistory(full);
    if RunCall(false, CallRecords(log, d) + [r]).Ok? {
      forall c
        ensures RunCall(DroppedHistory(full), CallRecords(full, c)).Ok?
      {
        assert RunCall(DroppedHistory(log), CallRecords(log, c)).Ok?;
      }
      var updated := statuses[d := Finish(RunCall(false, CallRecords(log, d) + [r]).value.value)];
      assert Statuses(full).value.Keys == updated.Keys;
      assert Statuses(full).value == updated;
    } else {
      assert RunCall(false, CallRecords(full, d)).Err?;
    }
  }

  // So does replaying the active records with the record.
  lemma ActiveRoute(log: seq<Record>, statuses: CallTable, r: Record)
    requires WholeLog(log) && Statuses(log) == Ok(statuses) && !Complete(statuses, r.CallId())
    ensures var active := ActiveOf(log, statuses) + [r];
            var run := RunCall(DroppedHistory(active), CallRecords(log, r.CallId()) + [r]);
            && (Statuses(active).Ok? <==> run.Ok?)
            && (run.Ok? ==>
                  && run.value.Some? && r.CallId() in Statuses(active).value
                  && Statuses(active).value[r.CallId()] == Finish(run.value.value))
  {
    hide StepCall, RunCall, Statuses, CallRecords, Finish, ActiveOf;
    var d, active := r.CallId(), ActiveOf(log, statuses) + [r];
    StatusesByCall(active);
    RunEmptiness(DroppedHistory(active), CallRecords(log, d) + [r]);
    forall c
      ensures c == d ==> CallRecords(active, c) == CallRecords(log, d) + [r]
      ensures c != d ==> RunCall(DroppedHistory(active), CallRecords(active, c)).Ok?
    {
      OtherCallsAccepted(log, statuses, r, c);
    }
    assert RunCall(DroppedHistory(active), CallRecords(active, d)) ==
           RunCall(DroppedHistory(active), CallRecords(log, d) + [r]);
  }

  lemma OtherCallsAccepted(log: seq<Record>, statuses: CallTable, r: Record, c: Identity)
    requires WholeLog(log) && Statuses(log) == Ok(statuses) && !Complete(statuses, r.CallId())
    ensures var active := ActiveOf(log, statuses) + [r];
            && (c == r.CallId() ==> CallRecords(active, c) == CallRecords(log, c) + [r])
            && (c != r.CallId() ==> RunCall(DroppedHistory(active), CallRecords(active, c)).Ok?)
  {
    hide StepCall, Statuses, ActiveOf;
    StatusesByCall(log);
    CallRecordsAppend(ActiveOf(log, statuses), r, c);
    ActiveByCall(log, statuses, c);
    if CallRecords(log, c) != [] {
      WholeHistoryStarts(CallRecords(log, c));
    }
    FlagIrrelevant(DroppedHistory(ActiveOf(log, statuses) + [r]), CallRecords(log, c));
  }

  lemma RunNothing(dropped: bool)
    ensures RunCall(dropped, []) == Ok(None)
  {
  }

  lemma SameLastStep(log: seq<Record>, statuses: CallTable, r: Record, flag: bool)
    requires WholeLog(log) && Statuses(log) == Ok(statuses) && Valid(r)
    requires flag == DroppedHistory(ActiveOf(log, statuses) + [r])
    requires !LateStart(log, ActiveOf(log, statuses), r)
    ensures var h := CallRecords(log, r.CallId()) + [r];
            && (RunCall(flag, h).Ok? <==> RunCall(false, h).Ok?)
            && (RunCall(flag, h).Ok? ==> RunCall(flag, h) == RunCall(false, h))
  {
    hide StepCall, Valid, Statuses;
    var h := CallRecords(log, r.CallId());
    StatusesByCall(log);
    if h != [] {
      WholeHistoryStarts(h);
      FlagIrrelevant(flag, h + [r]);
    } else {
      RunAppend(flag, h, r);
      RunAppend(false, h, r);
      RunNothing(flag);
      RunNothing(false);
      if r.payload.RequestAccepted? {
        FlagIrrelevant(flag, h + [r]);
      } else {
        StartingLate(r);
      }
    }
  }

  // ------------------------------------------------------- collections and digest

  lemma {:induction false} OrderUnchanged(log: seq<Record>, before: CallTable, after: CallTable, d: Identity)
    requires d in after && after == before[d := after[d]] && !Complete(before, d)
    requires forall i :: 0 <= i < |log| ==> log[i].sequence != after[d].lastSequence
    ensures CompletionOrder(log, after) == CompletionOrder(log, before)
  {
    if log != [] {
      OrderUnchanged(log[..|log| - 1], before, after, d);
    }
  }

  lemma {:induction false} ActiveDrops(log: seq<Record>, before: CallTable, after: CallTable, d: Identity)
    requires d in after && after == before[d := after[d]] && !Complete(before, d)
    ensures ActiveOf(log, after) ==
            if Complete(after, d) then Without(ActiveOf(log, before), d) else ActiveOf(log, before)
  {
    if log != [] {
      var init, r := log[..|log| - 1], log[|log| - 1];
      ActiveDrops(init, before, after, d);
      WithoutAppend(ActiveOf(init, before), r, d);
    }
  }

  lemma WithoutAppend(log: seq<Record>, r: Record, d: Identity)
    ensures Without(log + [r], d) == if r.CallId() == d then Without(log, d) else Without(log, d) + [r]
  {
    assert (log + [r])[..|log|] == log;
  }

  // What rebuilding makes of a log with one more record of a call that was open.
  lemma RebuildAfter(mix: Mix, log: seq<Record>, statuses: CallTable, r: Record, head: Head, after: CallTable)
    requires WholeLog(log) && Statuses(log) == Ok(statuses) && !Complete(statuses, r.CallId()) && Next(log, r)
    requires Statuses(log + [r]) == Ok(after)
    requires r.CallId() in after && after == statuses[r.CallId() := after[r.CallId()]]
    requires after[r.CallId()].lastSequence == r.sequence
    ensures var d, order, active := r.CallId(), CompletionOrder(log, statuses), ActiveOf(log, statuses) + [r];
            var built := FromRecords(mix, log + [r], Some(head));
            && built.Ok?
            && built.value.checkpoint ==
                 if Complete(after, d) then
                   Checkpoint(head, r, Without(active, d), |order| + 1, Some(mix(FoldDigest(mix, order), d)))
                 else
                   Checkpoint(head, r, active, |order|, FoldDigest(mix, order))
  {
    hide Statuses;
    var d, full := r.CallId(), log + [r];
    assert full[..|log|] == log;
    OrderUnchanged(log, statuses, after, d);
    ActiveDrops(log, statuses, after, d);
    WithoutAppend(ActiveOf(log, statuses), r, d);
    var order := CompletionOrder(log, statuses);
    assert (order + [d])[..|order|] == order;
  }

  // The checkpoint of a whole log.
  ghost predicate CheckpointOf(mix: Mix, log: seq<Record>, cp: Checkpoint, statuses: CallTable) {
    WholeLog(log) && FromRecords(mix, log, Some(cp.head)) == Ok(Built(cp, statuses))
  }

  // The fast and the slow route agree: both reject the record, or both accept it
  // with the same checkpoint and the same set of complete calls.
  ghost predicate RoutesAgree(mix: Mix, log: seq<Record>, cp: Checkpoint, statuses: CallTable, r: Record)
    requires AdvanceHead(cp.head, r).Ok?
  {
    var fast := Advance(mix, cp, TerminalIds(statuses), r);
    var slow := FromRecords(mix, log + [r], Some(AdvanceHead(cp.head, r).value));
    && (fast.Ok? <==> slow.Ok?)
    && (fast.Ok? ==>
          && fast.value.checkpoint == slow.value.checkpoint
          && TerminalIds(slow.value.statuses) ==
               TerminalIds(statuses) + if fast.value.completed.Some? then {fast.value.completed.value} else {})
  }

  // The routes part for a complete call when replay still accepts the record.
  predicate CompleteCallContinues(log: seq<Record>, statuses: CallTable, r: Record) {
    && Complete(statuses, r.CallId())
    && var run := RunCall(false, CallRecords(log, r.CallId()));
    && run.Ok? && run.value.Some?
    && InOrder(run.value.value, r)
    && (FailureTail(run.value.value, r) || LateReservation(run.value.value, r))
  }

  lemma LastStatus(log: seq<Record>)
    requires log != [] && Statuses(log).Ok?
    ensures var r := log[|log| - 1];
            r.CallId() in Statuses(log).value && Statuses(log).value[r.CallId()].lastSequence == r.sequence
  {
    hide Apply, Terminal;
  }

  lemma TerminalIdsAfter(before: CallTable, after: CallTable, d: Identity)
    requires d in after && after == before[d := after[d]] && !Complete(before, d)
    ensures TerminalIds(after) == TerminalIds(before) + if Complete(after, d) then {d} else {}
  {
  }

  lemma OpenCallsAgree(mix: Mix, log: seq<Record>, cp: Checkpoint, statuses: CallTable, r: Record)
    requires CheckpointOf(mix, log, cp, statuses) && Valid(r) && Next(log, r) && AdvanceHead(cp.head, r).Ok?
    requires !Complete(statuses, r.CallId()) && !LateStart(log, cp.activeRecords, r)
    ensures RoutesAgree(mix, log, cp, statuses, r)
  {
    hide StepCall, RunCall, Valid, Statuses, StartsMissingHistory, LateStart, AdvanceHead;
    var active, d := cp.activeRecords + [r], r.CallId();
    SameLifecycle(log, statuses, r);
    if Statuses(active).Ok? {
      LastStatus(active);
      assert active[|active| - 1] == r;
      var after := statuses[d := Statuses(active).value[d]];
      RebuildAfter(mix, log, statuses, r, AdvanceHead(cp.head, r).value, after);
      TerminalIdsAfter(statuses, after, d);
    }
  }

  lemma LateStartsDisagree(mix: Mix, log: seq<Record>, cp: Checkpoint, statuses: CallTable, r: Record)
    requires CheckpointOf(mix, log, cp, statuses) && Valid(r) && Next(log, r) && AdvanceHead(cp.head, r).Ok?
    requires !Complete(statuses, r.CallId()) && LateStart(log, cp.activeRecords, r)
    ensures Advance(mix, cp, TerminalIds(statuses), r).Ok?
    ensures FromRecords(mix, log + [r], Some(AdvanceHead(cp.head, r).value)).Err?
  {
    hide StepCall, RunCall, Valid, Statuses, AdvanceHead, LateStart;
    FullRoute(log, statuses, r);
    ActiveRoute(log, statuses, r);
    LateStartParts(log, cp.activeRecords, r);
  }

  // A late start is accepted from the active records and rejected from the whole log.
  lemma LateStartParts(log: seq<Record>, active: seq<Record>, r: Record)
    requires LateStart(log, active, r) && Valid(r)
    ensures RunCall(DroppedHistory(active + [r]), CallRecords(log, r.CallId()) + [r]).Ok?
    ensures RunCall(false, CallRecords(log, r.CallId()) + [r]).Err?
  {
    hide StepCall;
    RunAppend(true, [], r);
    RunAppend(false, [], r);
    RunNothing(true);
    RunNothing(false);
    StartingLate(r);
  }

  // A complete call is always rejected on the fast route; on the slow route, exactly
  // when the record does not continue it.
  lemma CompleteCallsDiffer(mix: Mix, log: seq<Record>, cp: Checkpoint, statuses: CallTable, r: Record)
    requires CheckpointOf(mix, log, cp, statuses) && AllValid(log) && Valid(r) && AdvanceHead(cp.head, r).Ok?
    requires Complete(statuses, r.CallId())
    ensures Advance(mix, cp, TerminalIds(statuses), r).Err?
    ensures FromRecords(mix, log + [r], Some(AdvanceHead(cp.head, r).value)).Ok? <==>
              CompleteCallContinues(log, statuses, r)
  {
    hide StepCall, RunCall, Valid, Statuses, AdvanceHead, Terminal, CompletionOrder, ActiveOf, FoldDigest;
    FullRoute(log, statuses, r);
    CompleteContinuation(log, statuses, r);
  }

  lemma CompleteContinuation(log: seq<Record>, statuses: CallTable, r: Record)
    requires WholeLog(log) && Statuses(log) == Ok(statuses) && AllValid(log) && Valid(r)
    requires Complete(statuses, r.CallId())
    ensures RunCall(false, CallRecords(log, r.CallId()) + [r]).Ok? <==> CompleteCallContinues(log, statuses, r)
  {
    hide StepCall, RunCall, Valid, Statuses, Terminal, Reached, FailureTail, LateReservation, InOrder;
    var h := CallRecords(log, r.CallId());
    StatusesByCall(log);
    assert Accepted(h);
    AcceptedReaches(h);
    RunAppend(false, h, r);
    TerminalContinuations(StateOf(h), r);
  }

  // Advancing the checkpoint agrees with rebuilding it from the whole log exactly
  // when the record neither starts a call late nor continues a complete one.
  lemma {:induction false} AdvanceAgreesWithRebuild(mix: Mix, log: seq<Record>, cp: Checkpoint, statuses: CallTable,
                                                    r: Record)
    requires CheckpointOf(mix, log, cp, statuses) && AllValid(log)
    requires Valid(r) && Next(log, r) && AdvanceHead(cp.head, r).Ok?
    ensures RoutesAgree(mix, log, cp, statuses, r) <==>
              !LateStart(log, cp.activeRecords, r) && !CompleteCallContinues(log, statuses, r)
  {
    hide StepCall, RunCall, Valid, Statuses, Advance, LateStart, AdvanceHead;
    if Complete(statuses, r.CallId()) {
      CompleteCallsDiffer(mix, log, cp, statuses, r);
      CompleteNotLate(log, statuses, cp.activeRecords, r);
    } else if LateStart(log, cp.activeRecords, r) {
      LateStartsDisagree(mix, log, cp, statuses, r);
    } else {
      OpenCallsAgree(mix, log, cp, statuses, r);
    }
  }

  lemma CompleteNotLate(log: seq<Record>, statuses: CallTable, active: seq<Record>, r: Record)
    requires WholeLog(log) && Statuses(log) == Ok(statuses) && Complete(statuses, r.CallId())
    ensures !LateStart(log, active, r)
  {
    hide StepCall, RunCall, Statuses;
    StatusesByCall(log);
  }

  // ------------------------------------------------------------ the append route

  // How an append computes the next checkpoint: a budget record of a complete call
  // is checked against all retained records, which are replayed first; every other
  // record advances.
  function NextCheckpoint(mix: Mix, retained: seq<Record>, current: Checkpoint, terminalIds: set<Identity>, r: Record)
    : Result<Advanced, CheckpointError>
  {
    if r.CallId() in terminalIds && r.payload.BudgetTransition? then
      if Statuses(retained).Err? then Err(LifecycleRejected(Statuses(retained).error))
      else if !(exists i ::
                  0 <= i < |retained| && retained[i].CallId() == r.CallId() && retained[i].payload.RequestAccepted?)
      then Err(AcceptanceNotRetained)
      else
        match AdvanceHead(current.head, r)
        case Err(e) => Err(HeadRejected(e))
        case Ok(head) =>
          match FromRecords(mix, retained + [r], Some(head))
          case Err(e) => Err(e)
          case Ok(built) => Ok(Advanced(built.checkpoint, built.statuses, None))
    else
      Advance(mix, current, terminalIds, r)
  }

  predicate FailureAfterOutcome(log: seq<Record>, statuses: CallTable, r: Record) {
    CompleteCallContinues(log, statuses, r) && r.payload.TerminalFailure?
  }

  // The append route agrees with rebuilding from the whole log exactly when the
  // record neither starts a call late nor is a terminal failure that follows an
  // outcome by which the call was already complete.
  lemma {:induction false} AppendAgreesWithRebuild(mix: Mix, log: seq<Record>, cp: Checkpoint, statuses: CallTable,
                                                   r: Record)
    requires CheckpointOf(mix, log, cp, statuses) && AllValid(log)
    requires Valid(r) && Next(log, r) && AdvanceHead(cp.head, r).Ok?
    ensures var fast := NextCheckpoint(mix, log, cp, TerminalIds(statuses), r);
            var slow := FromRecords(mix, log + [r], Some(AdvanceHead(cp.head, r).value));
            (&& (fast.Ok? <==> slow.Ok?)
             && (fast.Ok? ==> fast.value.checkpoint == slow.value.checkpoint)) <==>
              !LateStart(log, cp.activeRecords, r) && !FailureAfterOutcome(log, statuses, r)
  {
    hide StepCall, RunCall, Valid, Statuses, LateStart, AdvanceHead, Advance;
    AdvanceAgreesWithRebuild(mix, log, cp, statuses, r);
    if Complete(statuses, r.CallId()) {
      CompleteNotLate(log, statuses, cp.activeRecords, r);
      CompleteCallsDiffer(mix, log, cp, statuses, r);
      AcceptanceRetained(log, statuses, r.CallId());
    } else {
      RoutesAgreeWhenOpen(mix, log, cp, statuses, r);
    }
  }

  lemma AcceptanceRetained(log: seq<Record>, statuses: CallTable, c: Identity)
    requires WholeLog(log) && Statuses(log) == Ok(statuses) && c in statuses
    ensures exists i :: 0 <= i < |log| && log[i].CallId() == c && log[i].payload.RequestAccepted?
  {
    hide StepCall, RunCall, Statuses;
    StatusesByCall(log);
    var h := CallRecords(log, c);
    WholeHistoryStarts(h);
    assert h[0] in log;
  }

  lemma RoutesAgreeWhenOpen(mix: Mix, log: seq<Record>, cp: Checkpoint, statuses: CallTable, r: Record)
    requires CheckpointOf(mix, log, cp, statuses) && AllValid(log)
    requires Valid(r) && Next(log, r) && AdvanceHead(cp.head, r).Ok?
    requires !Complete(statuses, r.CallId())
    ensures var fast := Advance(mix, cp, TerminalIds(statuses), r);
            var slow := FromRecords(mix, log + [r], Some(AdvanceHead(cp.head, r).value));
            RoutesAgree(mix, log, cp, statuses, r) <==>
              (fast.Ok? <==> slow.Ok?) && (fast.Ok? ==> fast.value.checkpoint == slow.value.checkpoint)
  {
    hide StepCall, RunCall, Valid, Statuses, LateStart, AdvanceHead, Advance, FromRecords;
    if LateStart(log, cp.activeRecords, r) {
      LateStartsDisagree(mix, log, cp, statuses, r);
    } else {
      OpenCallsAgree(mix, log, cp, statuses, r);
    }
  }
}
