// Two concrete logs on which the fast checkpoint and the whole log part.
module CheckpointExamples {
  import opened Wrappers
  import opened LedgerTypes
  import opened LedgerValidate
  import opened Lifecycle
  import opened CallHistory
  import opened Replay
  import opened Chain
  import opened Checkpoint
  import opened CheckpointAgreement

  function Entry(sequence: nat, c: Identity, phase: Phase, decision: Decision, reason: Reason,
                 payload: Payload): Record
  {
    Record(sequence, if sequence <= 1 then None else Some(sequence - 1), Some(sequence), 7,
           CallBinding(c, 0, []), phase, decision, reason, true, true, true, payload)
  }

  const REQUEST := Entry(1, 1, PreCall, Undecided, NoReason, RequestAccepted)
  const BLOCKED := Entry(2, 1, PreCall, Block, OtherReason(0), PreDecision(DispatchBlocked))
  // The first record of call 2 is its decision: its request was never recorded.
  const UNREQUESTED := Entry(3, 2, PreCall, Allow, DeclaredTool, PreDecision(DispatchEligible))

  const ALLOWED := Entry(2, 1, PreCall, Allow, DeclaredTool, PreDecision(DispatchEligible))
  const DISPATCHED := Entry(3, 1, PreCall, Allow, DeclaredTool, Dispatch(None))
  const FAILED := Entry(4, 1, PostResult, Block, DownstreamError, Outcome(DownstreamFailed))
  const FAILURE := Entry(5, 1, PostResult, Block, DownstreamError, TerminalFailure(ActiveCall, true, true))

  const CLOSED_LOG := [REQUEST, BLOCKED]
  const FAILED_LOG := [REQUEST, ALLOWED, DISPATCHED, FAILED]

  lemma ReplayOne(log: seq<Record>, r: Record, calls: Calls)
    requires ReplayLog(false, log) == Ok(calls)
    ensures ReplayLog(false, log + [r]) == match StepCall(false, PriorOf(calls, r.CallId()), r)
                                           case Err(e) => Err(e)
                                           case Ok(s) => Ok(calls[r.CallId() := s])
  {
    hide StepCall;
    assert (log + [r])[..|log|] == log;
  }

  lemma ClosedLogReplays()
    ensures Statuses(CLOSED_LOG).Ok?
    ensures 1 in Statuses(CLOSED_LOG).value && Complete(Statuses(CLOSED_LOG).value, 1)
    ensures AllValid(CLOSED_LOG)
  {
    hide ReplayLog, StepCall, Terminal, Complete, AllValid;
    var one := FirstReplay();
    var two := BlockedStep(one);
    assert [REQUEST] + [BLOCKED] == CLOSED_LOG;
    ReplaySame([REQUEST], BLOCKED, one, two);
    ReplayCompletes(CLOSED_LOG, two);
    ClosedLogValid();
  }

  lemma ClosedLogValid()
    ensures AllValid(CLOSED_LOG)
  {
  }

  lemma BlockedStep(one: CallState) returns (two: CallState)
    requires StepCall(false, None, REQUEST) == Ok(one)
    ensures StepCall(false, Some(one), BLOCKED) == Ok(two) && Terminal(two)
  {
    two := StepCall(false, Some(one), BLOCKED).value;
  }

  // A call whose first record is not its request is accepted by advancing the
  // checkpoint, although replaying the same records rejects it.
  lemma LateStartAccepted(mix: Mix)
    ensures Statuses(CLOSED_LOG).Ok?
    ensures var statuses := Statuses(CLOSED_LOG).value;
            var cp := FromRecords(mix, CLOSED_LOG, Some(HeadOf(CLOSED_LOG))).value.checkpoint;
            && Advance(mix, cp, TerminalIds(statuses), UNREQUESTED).Ok?
            && Statuses(CLOSED_LOG + [UNREQUESTED]).Err?
  {
    hide StepCall, RunCall, Valid, Statuses, LateStart;
    ClosedLogReplays();
    var statuses := Statuses(CLOSED_LOG).value;
    var cp := FromRecords(mix, CLOSED_LOG, Some(HeadOf(CLOSED_LOG))).value.checkpoint;
    ClosedLogIsLate(statuses);
    LateStartsDisagree(mix, CLOSED_LOG, cp, statuses, UNREQUESTED);
  }

  lemma ClosedLogIsLate(statuses: CallTable)
    requires Statuses(CLOSED_LOG) == Ok(statuses)
    ensures Valid(UNREQUESTED) && !Complete(statuses, 2)
    ensures WholeLog(CLOSED_LOG)
    ensures LateStart(CLOSED_LOG, ActiveOf(CLOSED_LOG, statuses), UNREQUESTED)
  {
    ClosedLogReplays();
    hide Valid, Statuses, Complete, CallRecords, ActiveOf, AllValid;
    UnrequestedValid();
    ClosedLogOnlyCall(statuses);
    ClosedLogActive(statuses);
  }

  lemma UnrequestedValid()
    ensures Valid(UNREQUESTED)
  {
  }

  lemma ClosedLogOnlyCall(statuses: CallTable)
    requires Statuses(CLOSED_LOG) == Ok(statuses)
    ensures CallRecords(CLOSED_LOG, 2) == [] && !Complete(statuses, 2)
  {
    hide StepCall, RunCall, ReplayLog, Valid;
    assert [REQUEST, BLOCKED][..1] == [REQUEST];
    assert [REQUEST][..0] == [];
    assert CallRecords([], 2) == CallRecords([REQUEST], 2) == CallRecords(CLOSED_LOG, 2) == [];
    StatusesByCall(CLOSED_LOG);
  }

  lemma ClosedLogActive(statuses: CallTable)
    requires Complete(statuses, 1)
    ensures ActiveOf(CLOSED_LOG, statuses) == []
  {
    hide Complete;
    assert [REQUEST, BLOCKED][..1] == [REQUEST];
    assert [REQUEST][..0] == [];
    assert ActiveOf([REQUEST], statuses) == [];
  }

  lemma FailedLogReplays() returns (s: CallState)
    ensures ReplayLog(false, FAILED_LOG) == Ok(map[1 := s])
    ensures Reached(s) && s.status.dispatch == Failed && s.dispatchSeen && !s.terminalSeen && s.budget == NO_BUDGET
    ensures s.status.decision == Allow && s.status.delivery == NoDelivery && s.binding == FAILURE.call
    ensures s.lastTimestamp == 7
    ensures AllValid(FAILED_LOG)
  {
    hide ReplayLog;
    var three := DispatchedReplays();
    s := StepCall(false, Some(three), FAILED).value;
    assert [REQUEST, ALLOWED, DISPATCHED] + [FAILED] == FAILED_LOG;
    ReplaySame([REQUEST, ALLOWED, DISPATCHED], FAILED, three, s);
  }

  lemma DispatchedReplays() returns (three: CallState)
    ensures ReplayLog(false, [REQUEST, ALLOWED, DISPATCHED]) == Ok(map[1 := three])
    ensures Reached(three) && three.dispatchSeen && !three.terminalSeen && three.budget == NO_BUDGET
    ensures three.result == NO_RESULT && three.preApproval == NO_APPROVAL && three.postApproval == NO_APPROVAL
    ensures three.status.decision == Allow && three.status.delivery == NoDelivery && three.binding == FAILURE.call
    ensures three.lastTimestamp == 7
  {
    hide ReplayLog, StepCall, Reached;
    var one := FirstReplay();
    var two := AllowedStep(one);
    assert [REQUEST] + [ALLOWED] == [REQUEST, ALLOWED];
    ReplaySame([REQUEST], ALLOWED, one, two);
    three := DispatchedStep(two);
    assert [REQUEST, ALLOWED] + [DISPATCHED] == [REQUEST, ALLOWED, DISPATCHED];
    ReplaySame([REQUEST, ALLOWED], DISPATCHED, two, three);
  }

  lemma AllowedStep(one: CallState) returns (two: CallState)
    requires StepCall(false, None, REQUEST) == Ok(one)
    ensures StepCall(false, Some(one), ALLOWED) == Ok(two) && Reached(two)
    ensures two.preDecisionSeen && two.preOutcome == Some(DispatchEligible) && two.budget == NO_BUDGET
    ensures !two.dispatchSeen && !two.terminalSeen && two.result == NO_RESULT
    ensures two.preApproval == NO_APPROVAL && two.postApproval == NO_APPROVAL
    ensures two.status.decision == Allow && two.status.delivery == NoDelivery && two.status.approval == NoApproval
    ensures two.binding == FAILURE.call && two.lastTimestamp == 7 && !two.historyMissing
    ensures two.status.requestAccepted && two.status.firstSequence == 1 && two.status.callId == 1
  {
    two := StepCall(false, Some(one), ALLOWED).value;
  }

  lemma DispatchedStep(two: CallState) returns (three: CallState)
    requires Reached(two)
    requires two.preDecisionSeen && two.preOutcome == Some(DispatchEligible) && two.budget == NO_BUDGET
    requires !two.dispatchSeen && !two.terminalSeen && two.result == NO_RESULT
    requires two.preApproval == NO_APPROVAL && two.postApproval == NO_APPROVAL
    requires two.status.decision == Allow && two.status.delivery == NoDelivery && two.status.approval == NoApproval
    requires two.binding == FAILURE.call && two.lastTimestamp == 7 && !two.historyMissing
    requires two.status.requestAccepted && two.status.firstSequence == 1 && two.status.callId == 1
    ensures StepCall(false, Some(two), DISPATCHED) == Ok(three) && Reached(three)
    ensures three.dispatchSeen && !three.terminalSeen && three.budget == NO_BUDGET
    ensures three.result == NO_RESULT && three.preApproval == NO_APPROVAL && three.postApproval == NO_APPROVAL
    ensures three.status.decision == Allow && three.status.delivery == NoDelivery && three.binding == FAILURE.call
    ensures three.lastTimestamp == 7
  {
    three := StepCall(false, Some(two), DISPATCHED).value;
  }

  lemma FirstReplay() returns (one: CallState)
    ensures StepCall(false, None, REQUEST) == Ok(one) && ReplayLog(false, [REQUEST]) == Ok(map[1 := one])
  {
    one := StepCall(false, None, REQUEST).value;
    assert [REQUEST][..0] == [];
  }

  lemma ReplaySame(log: seq<Record>, r: Record, s: CallState, t: CallState)
    requires ReplayLog(false, log) == Ok(map[1 := s]) && r.CallId() == 1
    requires StepCall(false, Some(s), r) == Ok(t)
    ensures ReplayLog(false, log + [r]) == Ok(map[1 := t])
  {
    hide StepCall;
    ReplayOne(log, r, map[1 := s]);
    assert map[1 := s][1 := t] == map[1 := t];
  }

  // A terminal failure recorded after a failed outcome is rejected by advancing the
  // checkpoint, although replaying the same records accepts it.
  lemma FailureAfterOutcomeRejected(mix: Mix)
    ensures Statuses(FAILED_LOG).Ok?
    ensures var statuses := Statuses(FAILED_LOG).value;
            var cp := FromRecords(mix, FAILED_LOG, Some(HeadOf(FAILED_LOG))).value.checkpoint;
            && Advance(mix, cp, TerminalIds(statuses), FAILURE).Err?
            && Statuses(FAILED_LOG + [FAILURE]).Ok?
  {
    var s := FailedLogReplays();
    hide Statuses, ReplayLog, RunCall;
    FailedLogStatuses(s);
    ReplayOne(FAILED_LOG, FAILURE, map[1 := s]);
    StatusesFromReplay(FAILED_LOG + [FAILURE]);
  }

  lemma StatusesFromReplay(log: seq<Record>)
    requires log != [] && log[0].sequence == 1
    ensures Statuses(log).Ok? <==> ReplayLog(false, log).Ok?
    ensures Statuses(log).Ok? ==> Statuses(log).value == Finished(ReplayLog(false, log).value)
  {
  }

  lemma ReplayCompletes(log: seq<Record>, s: CallState)
    requires log != [] && log[0].sequence == 1
    requires ReplayLog(false, log) == Ok(map[1 := s]) && Terminal(s)
    ensures Statuses(log).Ok? && 1 in Statuses(log).value && Complete(Statuses(log).value, 1)
  {
    hide ReplayLog;
    StatusesFromReplay(log);
  }

  lemma FailedLogStatuses(s: CallState)
    requires ReplayLog(false, FAILED_LOG) == Ok(map[1 := s]) && Terminal(s)
    ensures Statuses(FAILED_LOG).Ok? && Complete(Statuses(FAILED_LOG).value, 1)
  {
    hide ReplayLog;
    ReplayCompletes(FAILED_LOG, s);
  }
}
