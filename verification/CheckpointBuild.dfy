// The loops that build and advance the checkpoint, proved against module Checkpoint.
module CheckpointBuild {
  import opened Wrappers
  import opened LedgerTypes
  import opened Lifecycle
  import opened Replay
  import opened Chain
  import opened Checkpoint

  ghost predicate Increasing(log: seq<Record>) {
    forall i, j :: 0 <= i < j < |log| ==> log[i].sequence < log[j].sequence
  }

  ghost predicate Sorted(calls: seq<Identity>, statuses: CallTable) {
    && (forall c :: c in calls ==> c in statuses)
    && forall i, j :: 0 <= i < j < |calls| ==> statuses[calls[i]].lastSequence < statuses[calls[j]].lastSequence
  }

  // ------------------------------------------------ completion order is unique

  lemma {:induction false} OrderHolds(log: seq<Record>, statuses: CallTable)
    requires Increasing(log)
    ensures Sorted(CompletionOrder(log, statuses), statuses)
    ensures forall c :: c in CompletionOrder(log, statuses) ==>
              Complete(statuses, c) && exists i :: 0 <= i < |log| && log[i].sequence == statuses[c].lastSequence
    ensures forall i :: 0 <= i < |log| && Complete(statuses, log[i].CallId())
                        && statuses[log[i].CallId()].lastSequence == log[i].sequence ==>
              log[i].CallId() in CompletionOrder(log, statuses)
  {
    if log != [] {
      var init := log[..|log| - 1];
      OrderHolds(init, statuses);
      assert forall i :: 0 <= i < |init| ==> init[i] == log[i];
    }
  }

  function Members(calls: seq<Identity>): set<Identity> {
    set c | c in calls
  }

  lemma LastApart(calls: seq<Identity>, statuses: CallTable)
    requires Sorted(calls, statuses) && calls != []
    ensures Sorted(calls[..|calls| - 1], statuses)
    ensures Members(calls[..|calls| - 1]) == Members(calls) - {calls[|calls| - 1]}
    ensures forall c :: c in calls ==> statuses[c].lastSequence <= statuses[calls[|calls| - 1]].lastSequence
  {
    var init := calls[..|calls| - 1];
    assert calls == init + [calls[|calls| - 1]];
  }

  lemma {:induction false} SortedUnique(a: seq<Identity>, b: seq<Identity>, statuses: CallTable)
    requires Sorted(a, statuses) && Sorted(b, statuses)
    requires Members(a) == Members(b)
    ensures a == b
    decreases |a|
  {
    assert a != [] ==> a[0] in Members(a);
    assert b != [] ==> b[0] in Members(b);
    if a != [] && b != [] {
      var x, y := a[|a| - 1], b[|b| - 1];
      LastApart(a, statuses);
      LastApart(b, statuses);
      assert x in Members(b) && y in Members(a);
      assert x == y;
      SortedUnique(a[..|a| - 1], b[..|b| - 1], statuses);
      assert a == a[..|a| - 1] + [x] && b == b[..|b| - 1] + [x];
    }
  }

  // Every call's status ends at one of the call's own records in the log.
  lemma {:induction false} LastRecordInLog(log: seq<Record>, dropped: bool, c: Identity) returns (i: nat)
    requires ReplayLog(dropped, log).Ok? && c in ReplayLog(dropped, log).value
    ensures i < |log| && log[i].CallId() == c
    ensures log[i].sequence == ReplayLog(dropped, log).value[c].status.lastSequence
  {
    hide Apply;
    var n := |log| - 1;
    if log[n].CallId() == c {
      i := n;
    } else {
      i := LastRecordInLog(log[..n], dropped, c);
    }
  }

  lemma AllCompleteOrdered(log: seq<Record>, statuses: CallTable)
    requires Increasing(log) && Statuses(log) == Ok(statuses)
    ensures forall c :: c in CompletionOrder(log, statuses) <==> Complete(statuses, c)
  {
    hide StepCall, ReplayLog, Terminal;
    OrderHolds(log, statuses);
    forall c | Complete(statuses, c)
      ensures c in CompletionOrder(log, statuses)
    {
      var i := LastRecordInLog(log, DroppedHistory(log), c);
    }
  }

  // -------------------------------------------------------------------- methods

  // Inserts a call into a list sorted by last sequence; the source sorts the list
  // once at the end, with the same outcome.
  method InsertByLastSequence(calls: seq<Identity>, statuses: CallTable, c: Identity) returns (out: seq<Identity>)
    requires Sorted(calls, statuses) && c in statuses
    requires forall d :: d in calls ==> statuses[d].lastSequence != statuses[c].lastSequence
    ensures Sorted(out, statuses)
    ensures forall d :: d in out <==> d in calls || d == c
  {
    var k := |calls|;
    while 0 < k && statuses[c].lastSequence < statuses[calls[k - 1]].lastSequence
      invariant 0 <= k <= |calls|
      invariant forall j :: k <= j < |calls| ==> statuses[c].lastSequence < statuses[calls[j]].lastSequence
    {
      k := k - 1;
    }
    out := calls[..k] + [c] + calls[k..];
    InsertedHolds(calls, k, c);
    InsertedSorted(calls, statuses, k, c);
  }

  lemma InsertedHolds(calls: seq<Identity>, k: nat, c: Identity)
    requires k <= |calls|
    ensures forall d :: d in calls[..k] + [c] + calls[k..] <==> d in calls || d == c
  {
    assert calls == calls[..k] + calls[k..];
  }

  lemma InsertedSorted(calls: seq<Identity>, statuses: CallTable, k: nat, c: Identity)
    requires Sorted(calls, statuses) && c in statuses && k <= |calls|
    requires forall j :: k <= j < |calls| ==> statuses[c].lastSequence < statuses[calls[j]].lastSequence
    requires 0 < k ==> statuses[calls[k - 1]].lastSequence < statuses[c].lastSequence
    ensures Sorted(calls[..k] + [c] + calls[k..], statuses)
  {
    var out := calls[..k] + [c] + calls[k..];
    InsertedHolds(calls, k, c);
    forall i, j | 0 <= i < j < |out|
      ensures statuses[out[i]].lastSequence < statuses[out[j]].lastSequence
    {
      if j < k {
        assert out[i] == calls[i] && out[j] == calls[j];
      } else if k < i {
        assert out[i] == calls[i - 1] && out[j] == calls[j - 1];
      } else if i < k {
        assert out[i] == calls[i] && statuses[calls[i]].lastSequence <= statuses[calls[k - 1]].lastSequence;
        assert j == k ==> out[j] == c;
        assert k < j ==> out[j] == calls[j - 1];
      } else {
        assert out[i] == c && out[j] == calls[j - 1];
      }
    }
  }

  ghost predicate DistinctEnds(statuses: CallTable) {
    forall c, d :: c in statuses && d in statuses && c != d ==> statuses[c].lastSequence != statuses[d].lastSequence
  }

  lemma EndsDiffer(log: seq<Record>, statuses: CallTable)
    requires Increasing(log) && Statuses(log) == Ok(statuses)
    ensures DistinctEnds(statuses)
  {
    hide StepCall, ReplayLog, Terminal;
    forall c, d | c in statuses && d in statuses && c != d
      ensures statuses[c].lastSequence != statuses[d].lastSequence
    {
      var i := LastRecordInLog(log, DroppedHistory(log), c);
      var j := LastRecordInLog(log, DroppedHistory(log), d);
    }
  }

  method TerminalCalls(ghost log: seq<Record>, statuses: CallTable) returns (terminal: seq<Identity>)
    requires Increasing(log) && Statuses(log) == Ok(statuses)
    ensures terminal == CompletionOrder(log, statuses)
  {
    hide StepCall, Statuses;
    EndsDiffer(log, statuses);
    terminal := [];
    var left := statuses.Keys;
    while left != {}
      invariant left <= statuses.Keys
      invariant Sorted(terminal, statuses)
      invariant forall c :: c in terminal <==> c !in left && Complete(statuses, c)
      decreases |left|
    {
      var c :| c in left;
      left := left - {c};
      if statuses[c].terminalComplete {
        terminal := InsertByLastSequence(terminal, statuses, c);
      }
    }
    AllCompleteOrdered(log, statuses);
    OrderHolds(log, statuses);
    SortedUnique(terminal, CompletionOrder(log, statuses), statuses);
  }

  method KeepActive(records: seq<Record>, statuses: CallTable) returns (active: seq<Record>)
    ensures active == ActiveOf(records, statuses)
  {
    active := [];
    for i := 0 to |records|
      invariant active == ActiveOf(records[..i], statuses)
    {
      assert records[..i + 1][..i] == records[..i];
      var c := records[i].CallId();
      if !(c in statuses && statuses[c].terminalComplete) {
        active := active + [records[i]];
      }
    }
    assert records[..|records|] == records;
  }

  method DropCall(records: seq<Record>, c: Identity) returns (filtered: seq<Record>)
    ensures filtered == Without(records, c)
  {
    filtered := [];
    for i := 0 to |records|
      invariant filtered == Without(records[..i], c)
    {
      assert records[..i + 1][..i] == records[..i];
      if records[i].CallId() != c {
        filtered := filtered + [records[i]];
      }
    }
    assert records[..|records|] == records;
  }

  method DigestCalls(mix: Mix, calls: seq<Identity>) returns (digest: Option<Digest>)
    ensures digest == FoldDigest(mix, calls)
  {
    digest := None;
    for i := 0 to |calls|
      invariant digest == FoldDigest(mix, calls[..i])
    {
      assert calls[..i + 1][..i] == calls[..i];
      digest := Some(mix(digest, calls[i]));
    }
    assert calls[..|calls|] == calls;
  }

  method CheckpointFromRecords(mix: Mix, records: seq<Record>, head: Option<Head>)
    returns (out: Result<Built, CheckpointError>)
    requires Increasing(records)
    ensures out == FromRecords(mix, records, head)
  {
    hide Statuses, ActiveOf, CompletionOrder, FoldDigest;
    if |records| == 0 || head.None? {
      return Err(NoRetainedChain);
    }
    var built := ReplayCalls(records);
    if built.Err? {
      return Err(LifecycleRejected(built.error));
    }
    var statuses := built.value;
    var activeRecords := KeepActive(records, statuses);
    var terminal := TerminalCalls(records, statuses);
    var digest := DigestCalls(mix, terminal);
    return Ok(Built(Checkpoint(head.value, records[|records| - 1], activeRecords, |terminal|, digest), statuses));
  }

  method AdvanceCheckpoint(mix: Mix, current: Checkpoint, terminalIds: set<Identity>, r: Record)
    returns (out: Result<Advanced, CheckpointError>)
    ensures out == Advance(mix, current, terminalIds, r)
  {
    hide Statuses, Without, AdvanceHead;
    var c := r.CallId();
    if c in terminalIds {
      return Err(EventAfterTerminalCall);
    }
    var head := AdvanceHead(current.head, r);
    if head.Err? {
      return Err(HeadRejected(head.error));
    }
    var activeRecords := current.activeRecords + [r];
    var built := ReplayCalls(activeRecords);
    if built.Err? {
      return Err(LifecycleRejected(built.error));
    }
    var statuses := built.value;
    if !(c in statuses && statuses[c].terminalComplete) {
      return Ok(Advanced(Checkpoint(head.value, r, activeRecords, current.terminalCount, current.terminalDigest),
                         statuses, None));
    }
    var filtered := DropCall(activeRecords, c);
    return Ok(Advanced(Checkpoint(head.value, r, filtered, current.terminalCount + 1,
                                  Some(mix(current.terminalDigest, c))), statuses, Some(c)));
  }
}
