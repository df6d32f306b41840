// What a blocked call records: its request and its decision, and perhaps the late
// reservation and its denial.
module BlockedCall {
  import opened Wrappers
  import opened LedgerTypes
  import opened LedgerValidate
  import opened Lifecycle
  import opened CallHistory
  import opened Replay
  import opened Checkpoint
  import opened CheckpointAgreement
  import opened Retention
  import opened Truncation

  function Event(c: Identity, phase: Phase, decision: Decision, reason: Reason, payload: Payload): Record {
    Record(0, None, None, 7, CallBinding(c, 0, []), phase, decision, reason, true, true, true, payload)
  }

  const ONE_CALL := BudgetDelta(1, 0, 0, 0, 0, 0, 0, 0)
  const ONE_CALL_BACK := BudgetDelta(-1, 0, 0, 0, 0, 0, 0, 0)
  const NOTHING := BudgetDelta(0, 0, 0, 0, 0, 0, 0, 0)
  const ONE_DENIAL := BudgetDelta(0, 1, 0, 0, 0, 0, 0, 0)

  function Request(c: Identity): Record {
    Event(c, PreCall, Undecided, NoReason, RequestAccepted)
  }

  function Blocking(c: Identity): Record {
    Event(c, PreCall, Block, OtherReason(0), PreDecision(DispatchBlocked))
  }

  function Reserving(c: Identity): Record {
    Event(c, PreCall, Block, OtherReason(0), BudgetTransition(Reserved, Some(5), [6], ONE_CALL, NOTHING))
  }

  function Denying(c: Identity): Record {
    Event(c, PreCall, Block, OtherReason(0), BudgetTransition(Denied, Some(5), [6], ONE_CALL_BACK, ONE_DENIAL))
  }

  // The record with another envelope.
  predicate Like(r: Record, e: Record) {
    r == e.(sequence := r.sequence, previousDigest := r.previousDigest, digest := r.digest) && r.sequence != 0
  }

  // ------------------------------------------------- what the records do to a call

  lemma RunTwo(c: Identity, a: Record, b: Record) returns (s: CallState, t: CallState)
    requires Like(a, Request(c)) && Like(b, Blocking(c))
    ensures RunCall(false, [a]) == Ok(Some(s)) && !Terminal(s) && s.status.firstSequence == a.sequence
    ensures RunCall(false, [a, b]) == Ok(Some(t)) && Terminal(t)
    ensures t.preDecisionSeen && t.status.decision == Block && t.status.reason == OtherReason(0)
    ensures t.preApproval == NO_APPROVAL && t.postApproval == NO_APPROVAL && t.budget == NO_BUDGET
    ensures !t.dispatchSeen && !t.terminalSeen && t.status.approval == NoApproval && !t.historyMissing
    ensures t.binding == CallBinding(c, 0, []) && t.status.requestAccepted && t.lastTimestamp == 7
    ensures t.status.firstSequence == a.sequence
  {
    assert RunCall(false, []) == Ok(None);
    s := StepCall(false, None, a).value;
    t := StepCall(false, Some(s), b).value;
    hide RunCall;
    RunAppend(false, [], a);
    RunAppend(false, [a], b);
    assert [] + [a] == [a] && [a] + [b] == [a, b];
  }

  lemma RunReserved(c: Identity, a: Record, b: Record, d: Record) returns (u: CallState)
    requires Like(a, Request(c)) && Like(b, Blocking(c)) && Like(d, Reserving(c))
    ensures RunCall(false, [a, b, d]) == Ok(Some(u)) && !Terminal(u) && u.status.firstSequence == a.sequence
    ensures u.preDecisionSeen && u.status.decision == Block && u.status.reason == OtherReason(0)
    ensures u.preApproval == NO_APPROVAL && !u.dispatchSeen && !u.terminalSeen && !u.historyMissing
    ensures u.postApproval == NO_APPROVAL && u.status.requestAccepted
    ensures u.budget == BudgetProgress(true, Some(Reserved), Some(5), [6], false, false, 0)
    ensures u.binding == CallBinding(c, 0, []) && u.lastTimestamp == 7
  {
    var s, t := RunTwo(c, a, b);
    u := StepCall(false, Some(t), d).value;
    hide RunCall;
    RunAppend(false, [a, b], d);
    assert [a, b] + [d] == [a, b, d];
  }

  lemma RunDenied(c: Identity, a: Record, b: Record, d: Record, e: Record) returns (v: CallState)
    requires Like(a, Request(c)) && Like(b, Blocking(c)) && Like(d, Reserving(c)) && Like(e, Denying(c))
    ensures RunCall(false, [a, b, d, e]) == Ok(Some(v)) && Terminal(v)
  {
    var u := RunReserved(c, a, b, d);
    v := StepCall(false, Some(u), e).value;
    hide RunCall;
    RunAppend(false, [a, b, d], e);
    assert [a, b, d] + [e] == [a, b, d, e];
  }

  lemma RunLate(c: Identity, d: Record) returns (u: CallState)
    requires Like(d, Reserving(c))
    ensures RunCall(true, [d]) == Ok(Some(u)) && !Terminal(u) && u.status.firstSequence == d.sequence
  {
    assert RunCall(true, []) == Ok(None);
    u := StepCall(true, None, d).value;
    hide RunCall;
    RunAppend(true, [], d);
    assert [] + [d] == [d];
  }

  lemma ValidLike(r: Record, c: Identity)
    requires Like(r, Request(c)) || Like(r, Blocking(c)) || Like(r, Reserving(c)) || Like(r, Denying(c))
    requires r.sequence == 1 <==> r.previousDigest.None?
    ensures Valid(r)
  {
  }

  // A denial without the decision before it is not rooted.
  lemma DenialUnrooted(t: seq<Record>, c: Identity, d: Record, e: Record)
    requires Like(d, Reserving(c)) && Like(e, Denying(c)) && (t == [d, e] || t == [e])
    ensures !Rooted(t)
  {
    assert t[..|t| - 1] == [] || t[..|t| - 1] == [d];
    assert [d][..0] == [] && !Holds(Deciding, [d]) && !Holds(PreApproving, [d]);
  }

  // Requests and decisions are rooted after any cut.
  lemma {:induction false} PlainRooted(t: seq<Record>)
    requires forall i :: 0 <= i < |t| ==> t[i].payload.RequestAccepted? || t[i].payload.PreDecision?
    ensures Rooted(t)
    decreases |t|
  {
    if t != [] {
      PlainRooted(t[..|t| - 1]);
    }
  }

  lemma PairBlocked(all: seq<Record>, c: Identity, a: Record, b: Record)
    requires CallRecords(all, c) == [a, b] && Like(a, Request(c)) && Like(b, Blocking(c))
    ensures Blocked(all, c)
  {
    hide RunCall, CallRecords, Terminal;
    var s, t := RunTwo(c, a, b);
  }

  // ------------------------------------------------------------ the statuses of a log

  lemma Alone(log: seq<Record>, c: Identity)
    requires forall i :: 0 <= i < |log| ==> log[i].CallId() == c
    ensures CallRecords(log, c) == log
    ensures forall d :: d != c ==> CallRecords(log, d) == []
  {
    if log != [] {
      var last := |log| - 1;
      Alone(log[..last], c);
      assert log == log[..last] + [log[last]];
    }
  }

  // The statuses of a log of one call that starts with its request.
  lemma SoloStatuses(log: seq<Record>, c: Identity, s: CallState)
    requires log != [] && (forall i :: 0 <= i < |log| ==> log[i].CallId() == c)
    requires RunCall(DroppedHistory(log), log) == Ok(Some(s))
    ensures Statuses(log) == Ok(map[c := Finish(s)])
  {
    hide RunCall, Statuses, CallRecords, Finish;
    Alone(log, c);
    EmptyRuns(DroppedHistory(log));
    StatusesByCall(log);
    var statuses := Statuses(log).value;
    assert statuses.Keys == {c};
    assert statuses == map[c := Finish(s)];
  }

  lemma EmptyRuns(dropped: bool)
    ensures RunCall(dropped, []) == Ok(None)
  {
  }

  // The statuses of one request.
  lemma RequestAlone(c: Identity, a: Record) returns (statuses: CallTable)
    requires Like(a, Request(c))
    ensures Statuses([a]) == Ok(statuses) && statuses.Keys == {c} && !Complete(statuses, c)
    ensures statuses[c].firstSequence == a.sequence && TerminalIds(statuses) == {} && ActiveOf([a], statuses) == [a]
  {
    hide RunCall, Statuses, Terminal;
    var b := Blocking(c).(sequence := 1);
    var s, t := RunTwo(c, a, b);
    FlagIrrelevant(DroppedHistory([a]), [a]);
    SoloStatuses([a], c, s);
    statuses := Statuses([a]).value;
    assert [a][..0] == [];
  }

  // Blocking call c, of which only the request is active, completes it.
  lemma BlockedStatuses(c: Identity, a: Record, b: Record) returns (statuses: CallTable)
    requires Like(a, Request(c)) && Like(b, Blocking(c))
    ensures Statuses([a] + [b]) == Ok(statuses) && Complete(statuses, c) && statuses.Keys == {c}
    ensures Without([a] + [b], c) == []
  {
    hide RunCall, Statuses, Terminal;
    var s, t := RunTwo(c, a, b);
    assert [a] + [b] == [a, b] && [a, b][..1] == [a] && [a][..0] == [];
    FlagIrrelevant(DroppedHistory([a, b]), [a, b]);
    SoloStatuses([a, b], c, t);
    statuses := Statuses([a, b]).value;
    assert [a, b] == [a] + [b];
    WithoutOnly([a, b], c);
  }

  lemma WithoutOnly(log: seq<Record>, c: Identity)
    requires forall i :: 0 <= i < |log| ==> log[i].CallId() == c
    ensures Without(log, c) == []
  {
    if log != [] {
      WithoutOnly(log[..|log| - 1], c);
    }
  }

  lemma DeniedStatuses(a: Record, b: Record, d: Record, e: Record) returns (statuses: CallTable)
    requires Like(a, Request(1)) && Like(b, Blocking(1)) && Like(d, Reserving(1)) && Like(e, Denying(1))
    ensures Statuses([a, b, d] + [e]) == Ok(statuses) && Complete(statuses, 1) && statuses.Keys == {1}
    ensures Without([a, b, d] + [e], 1) == []
  {
    hide RunCall, Statuses, Terminal;
    var log := [a, b, d] + [e];
    assert log == [a, b, d, e];
    var v := RunDenied(1, a, b, d, e);
    FlagIrrelevant(DroppedHistory(log), log);
    SoloStatuses(log, 1, v);
    statuses := Statuses(log).value;
    WithoutOnly(log, 1);
  }

  // A reservation alone, of a call whose other records were dropped.
  lemma LateStatuses(l: Record) returns (statuses: CallTable)
    requires Like(l, Reserving(1)) && 1 < l.sequence
    ensures Statuses([l]) == Ok(statuses) && statuses.Keys == {1} && !Complete(statuses, 1)
    ensures statuses[1].firstSequence == l.sequence
  {
    hide RunCall, Statuses, Terminal;
    var u := RunLate(1, l);
    SoloStatuses([l], 1, u);
    statuses := Statuses([l]).value;
  }

  // When one call is open and every other complete, only its records are active.
  lemma {:induction false} OneActive(log: seq<Record>, c: Identity, statuses: CallTable)
    requires forall i :: 0 <= i < |log| ==> (Complete(statuses, log[i].CallId()) <==> log[i].CallId() != c)
    ensures ActiveOf(log, statuses) == CallRecords(log, c)
    decreases |log|
  {
    hide Complete;
    if log != [] {
      var front := log[..|log| - 1];
      assert forall i :: 0 <= i < |front| ==> front[i] == log[i];
      OneActive(front, c, statuses);
    }
  }

  lemma {:induction false} NoneActive(log: seq<Record>, statuses: CallTable)
    requires forall i :: 0 <= i < |log| ==> Complete(statuses, log[i].CallId())
    ensures ActiveOf(log, statuses) == []
    decreases |log|
  {
    hide Complete;
    if log != [] {
      var front := log[..|log| - 1];
      assert forall i :: 0 <= i < |front| ==> front[i] == log[i];
      NoneActive(front, statuses);
    }
  }
}
