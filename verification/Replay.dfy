// Replaying a whole retained log (BuildCallStatuses in internal/actionledger/lifecycle.go).
// Its callers in this model take the statuses keyed by call.
module Replay {
  import opened Wrappers
  import opened LedgerTypes
  import opened Lifecycle
  import opened LifecycleObject

  type Calls = map<Identity, CallState>

  function PriorOf(calls: Calls, c: Identity): Option<CallState> {
    if c in calls then Some(calls[c]) else None
  }

  // The records of one call, in log order.
  function CallRecords(log: seq<Record>, c: Identity): (h: seq<Record>)
    ensures forall i :: 0 <= i < |h| ==> h[i].CallId() == c && h[i] in log
  {
    if log == [] then []
    else
      var r, earlier := log[|log| - 1], CallRecords(log[..|log| - 1], c);
      if r.CallId() == c then earlier + [r] else earlier
  }

  function ReplayLog(dropped: bool, log: seq<Record>): Result<Calls, Rejection> {
    if log == [] then Ok(map[])
    else
      var r := log[|log| - 1];
      match ReplayLog(dropped, log[..|log| - 1])
      case Err(e) => Err(e)
      case Ok(calls) =>
        match StepCall(dropped, PriorOf(calls, r.CallId()), r)
        case Err(e) => Err(e)
        case Ok(s) => Ok(calls[r.CallId() := s])
  }

  predicate DroppedHistory(log: seq<Record>) {
    log != [] && 1 < log[0].sequence
  }

  function Finished(calls: Calls): map<Identity, CallStatus> {
    map c | c in calls :: Finish(calls[c])
  }

  // The statuses of a log, keyed by call.
  function Statuses(log: seq<Record>): Result<map<Identity, CallStatus>, Rejection> {
    match ReplayLog(DroppedHistory(log), log)
    case Err(e) => Err(e)
    case Ok(calls) => Ok(Finished(calls))
  }

  // A log that replays could be replayed before its last record too.
  lemma ReplaysBefore(log: seq<Record>, r: Record)
    requires log != [] && Statuses(log + [r]).Ok?
    ensures Statuses(log).Ok?
  {
    assert (log + [r])[..|log|] == log && (log + [r])[0] == log[0];
  }

  lemma CallRecordsAppend(log: seq<Record>, r: Record, c: Identity)
    ensures CallRecords(log + [r], c) == if r.CallId() == c then CallRecords(log, c) + [r] else CallRecords(log, c)
  {
    assert (log + [r])[..|log|] == log;
  }

  lemma RunAppend(dropped: bool, h: seq<Record>, r: Record)
    ensures RunCall(dropped, h).Err? ==> RunCall(dropped, h + [r]).Err?
    ensures RunCall(dropped, h).Ok? ==>
              RunCall(dropped, h + [r]) == match StepCall(dropped, RunCall(dropped, h).value, r)
                                           case Err(e) => Err(e)
                                           case Ok(s) => Ok(Some(s))
  {
    assert (h + [r])[..|h|] == h;
  }

  // Replay treats the calls of a log independently: it accepts a log exactly when
  // each call's own records are accepted, and then holds each call's own state.
  lemma {:induction false} ReplayByCall(dropped: bool, log: seq<Record>)
    ensures ReplayLog(dropped, log).Ok? <==> forall c :: RunCall(dropped, CallRecords(log, c)).Ok?
    ensures ReplayLog(dropped, log).Ok? ==>
              forall c :: RunCall(dropped, CallRecords(log, c)) == Ok(PriorOf(ReplayLog(dropped, log).value, c))
  {
    hide StepCall;
    if log == [] {
      assert forall c :: CallRecords(log, c) == [];
    } else {
      var init, r := log[..|log| - 1], log[|log| - 1];
      ReplayByCall(dropped, init);
      assert init + [r] == log;
      var d := r.CallId();
      forall c
        ensures c != d ==> CallRecords(log, c) == CallRecords(init, c)
        ensures c == d ==> CallRecords(log, c) == CallRecords(init, d) + [r]
      {
        CallRecordsAppend(init, r, c);
      }
      RunAppend(dropped, CallRecords(init, d), r);
      if ReplayLog(dropped, init).Ok? {
        assert RunCall(dropped, CallRecords(init, d)) == Ok(PriorOf(ReplayLog(dropped, init).value, d));
        if ReplayLog(dropped, log).Err? {
          assert RunCall(dropped, CallRecords(log, d)).Err?;
        }
      } else {
        var c :| RunCall(dropped, CallRecords(init, c)).Err?;
        assert RunCall(dropped, CallRecords(log, c)).Err?;
      }
    }
  }

  // The loop of the source: one lifecycle object per call, updated record by record.
  method ReplayCalls(records: seq<Record>) returns (out: Result<map<Identity, CallStatus>, Rejection>)
    ensures out == Statuses(records)
  {
    hide StepCall, ReplayLog, Fresh, Terminal, LifecycleState.View;
    var states: map<Identity, LifecycleState> := map[];
    ghost var calls: Calls := map[];
    var dropped := |records| > 0 && 1 < records[0].sequence;
    ReplayNothing(dropped, records);
    var i := 0;
    while i < |records|
      invariant 0 <= i <= |records|
      invariant forall c :: c in states ==> fresh(states[c])
      invariant forall c, d :: c in states && d in states && c != d ==> states[c] != states[d]
      invariant ReplayLog(dropped, records[..i]) == Ok(calls)
      invariant states.Keys == calls.Keys
      invariant forall c :: c in states ==> states[c].View() == calls[c]
    {
      var record := records[i];
      var c := record.CallId();
      ReplayStep(dropped, records, i, calls);
      var state: LifecycleState;
      if c in states {
        state := states[c];
      } else {
        state := new LifecycleState(record, dropped);
      }
      assert state.View() == if c in calls then calls[c] else Fresh(record, dropped);
      var err := state.Step(record);
      if err.Some? {
        return Err(err.value);
      }
      states := states[c := state];
      calls := calls[c := state.View()];
      i := i + 1;
    }
    assert records[..i] == records;
    out := Ok(map c | c in states :: Finish(states[c].View()));
    assert out.value == Finished(calls);
  }

  lemma ReplayNothing(dropped: bool, log: seq<Record>)
    ensures ReplayLog(dropped, log[..0]) == Ok(map[])
  {
  }

  lemma ReplayStep(dropped: bool, log: seq<Record>, i: nat, calls: Calls)
    requires i < |log| && ReplayLog(dropped, log[..i]) == Ok(calls)
    ensures var r := log[i];
            var s := if r.CallId() in calls then calls[r.CallId()] else Fresh(r, dropped);
            match StepCall(false, Some(s), r)
            case Err(e) => ReplayLog(dropped, log) == Err(e)
            case Ok(t) => ReplayLog(dropped, log[..i + 1]) == Ok(calls[r.CallId() := t])
  {
    hide StepCall;
    assert log[..i + 1][..i] == log[..i];
    StepIgnoresFlag(dropped, PriorOf(calls, log[i].CallId()), log[i]);
    if ReplayLog(dropped, log[..i + 1]).Err? {
      ReplayFails(dropped, log, i + 1);
    }
  }

  lemma StepIgnoresFlag(dropped: bool, prior: Option<CallState>, r: Record)
    ensures StepCall(dropped, prior, r) ==
            StepCall(false, Some(if prior.Some? then prior.value else Fresh(r, dropped)), r)
  {
  }

  // A prefix that fails makes the whole log fail with the same rejection.
  lemma {:induction false} ReplayFails(dropped: bool, log: seq<Record>, n: nat)
    requires n <= |log| && ReplayLog(dropped, log[..n]).Err?
    ensures ReplayLog(dropped, log) == ReplayLog(dropped, log[..n])
    decreases |log|
  {
    if n == |log| {
      assert log[..n] == log;
    } else {
      var init := log[..|log| - 1];
      assert init[..n] == log[..n];
      ReplayFails(dropped, init, n);
    }
  }

  // ------------------------------------------------------------- the list of statuses

  // The statuses of a map, one for each call, in the order of their identifiers.
  ghost predicate Lists(statuses: map<Identity, CallStatus>, list: seq<CallStatus>) {
    && (forall i, j :: 0 <= i < j < |list| ==> list[i].callId < list[j].callId)
    && (forall i :: 0 <= i < |list| ==> list[i].callId in statuses && statuses[list[i].callId] == list[i])
    && (forall c :: c in statuses ==> statuses[c] in list)
  }

  // Every status names its call.
  ghost predicate Named(calls: Calls) {
    forall c :: c in calls ==> calls[c].status.callId == c && calls[c].binding.callId == c
  }

  lemma StepNamed(dropped: bool, prior: Option<CallState>, r: Record, c: Identity)
    requires StepCall(dropped, prior, r).Ok? && r.CallId() == c
    requires prior.Some? ==> prior.value.status.callId == c && prior.value.binding.callId == c
    ensures StepCall(dropped, prior, r).value.status.callId == c
    ensures StepCall(dropped, prior, r).value.binding.callId == c
  {
    hide Apply;
  }

  lemma {:induction false} ReplayNamed(dropped: bool, log: seq<Record>)
    requires ReplayLog(dropped, log).Ok?
    ensures Named(ReplayLog(dropped, log).value)
    decreases |log|
  {
    hide StepCall;
    if log != [] {
      var front, r := log[..|log| - 1], log[|log| - 1];
      ReplayNamed(dropped, front);
      StepNamed(dropped, PriorOf(ReplayLog(dropped, front).value, r.CallId()), r, r.CallId());
    }
  }

  lemma StatusesNamed(log: seq<Record>)
    requires Statuses(log).Ok?
    ensures forall c :: c in Statuses(log).value ==> Statuses(log).value[c].callId == c
  {
    hide ReplayLog, Terminal;
    ReplayNamed(DroppedHistory(log), log);
  }

  // Inserts a status into a list sorted by call; the source sorts the list once at the
  // end, with the same outcome.
  method InsertStatus(list: seq<CallStatus>, status: CallStatus) returns (out: seq<CallStatus>)
    requires forall i, j :: 0 <= i < j < |list| ==> list[i].callId < list[j].callId
    requires forall i :: 0 <= i < |list| ==> list[i].callId != status.callId
    ensures forall i, j :: 0 <= i < j < |out| ==> out[i].callId < out[j].callId
    ensures forall x :: x in out <==> x in list || x == status
  {
    var k := |list|;
    while 0 < k && status.callId < list[k - 1].callId
      invariant 0 <= k <= |list|
      invariant forall j :: k <= j < |list| ==> status.callId < list[j].callId
    {
      k := k - 1;
    }
    out := list[..k] + [status] + list[k..];
    InsertedSorted(list, status, k);
    assert list == list[..k] + list[k..];
  }

  lemma InsertedSorted(list: seq<CallStatus>, status: CallStatus, k: nat)
    requires forall i, j :: 0 <= i < j < |list| ==> list[i].callId < list[j].callId
    requires k <= |list| && (k > 0 ==> list[k - 1].callId < status.callId)
    requires forall j :: k <= j < |list| ==> status.callId < list[j].callId
    ensures var out := list[..k] + [status] + list[k..];
            forall i, j :: 0 <= i < j < |out| ==> out[i].callId < out[j].callId
  {
    var out := list[..k] + [status] + list[k..];
    forall i, j | 0 <= i < j < |out|
      ensures out[i].callId < out[j].callId
    {
      assert i < k ==> out[i] == list[i];
      assert i > k ==> out[i] == list[i - 1];
      assert j < k ==> out[j] == list[j];
      assert j > k ==> out[j] == list[j - 1];
    }
  }

  // The statuses as the program lists them.
  method BuildCallStatuses(records: seq<Record>) returns (out: Result<seq<CallStatus>, Rejection>)
    ensures out.Ok? <==> Statuses(records).Ok?
    ensures out.Err? ==> Statuses(records) == Err(out.error)
    ensures out.Ok? ==> Lists(Statuses(records).value, out.value)
  {
    hide Statuses;
    var replayed := ReplayCalls(records);
    if replayed.Err? {
      return Err(replayed.error);
    }
    StatusesNamed(records);
    var statuses := replayed.value;
    var list: seq<CallStatus> := [];
    var todo := statuses.Keys;
    while todo != {}
      invariant todo <= statuses.Keys
      invariant forall i, j :: 0 <= i < j < |list| ==> list[i].callId < list[j].callId
      invariant forall x :: x in list <==> x.callId in statuses && x.callId !in todo && statuses[x.callId] == x
    {
      var c :| c in todo;
      list := InsertStatus(list, statuses[c]);
      todo := todo - {c};
    }
    return Ok(list);
  }
}
