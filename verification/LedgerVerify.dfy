// Verification of the retained records before anything trusts them
// (loadVerifiedLocked in internal/actionledger/verify.go).
module LedgerVerify {
  import opened Wrappers
  import opened LedgerTypes
  import opened LedgerValidate
  import opened Lifecycle
  import opened Replay
  import opened Chain
  import opened Checkpoint

  datatype VerifyError =
    | ForeignRecord
    | BrokenChain
    | LifecycleInvalid(rejection: Rejection)
    | HeadMissing
    | HeadMismatch

  datatype Report = Report(
    recordCount: nat, firstRetained: nat, lastRetained: nat, dropped: bool,
    incompleteEvents: nat, incompleteCalls: nat)

  predicate EvidenceGap(r: Record) {
    !r.complete || !r.selectedComplete
  }

  predicate CallGap(status: CallStatus) {
    !status.terminalComplete || !status.evidenceComplete
  }

  ghost function EventGaps(log: seq<Record>): set<nat> {
    set i: nat | i < |log| && EvidenceGap(log[i])
  }

  ghost function CallGaps(statuses: CallTable): set<Identity> {
    set c | c in statuses && CallGap(statuses[c])
  }

  ghost predicate Verifiable(hash: Hash, repository: Identity, log: seq<Record>, head: Option<Head>) {
    Chained(hash, repository, log) && Statuses(log).Ok? && head.Some? && HeadMatches(log, head.value, repository)
  }

  // The first fault of the records themselves lies at i.
  ghost predicate FaultAt(hash: Hash, repository: Identity, log: seq<Record>, i: nat) {
    && i < |log| && Chained(hash, repository, log[..i])
    && (log[i].call.repository != repository || (0 < i && !Links(log[i - 1], log[i])))
  }

  // The checks in their order: repository and link of each record, the counters, the
  // lifecycle of every call, the head. Reported are the gaps of exactly these records.
  method VerifyLog(hash: Hash, repository: Identity, records: seq<Record>, head: Option<Head>)
    returns (out: Result<Report, VerifyError>)
    requires forall i :: 0 <= i < |records| ==> Sealed(hash, records[i])
    requires records != []
    ensures out.Ok? <==> Verifiable(hash, repository, records, head)
    ensures out.Ok? ==>
              out.value == Report(|records|, records[0].sequence, records[|records| - 1].sequence,
                                  records[0].sequence != 1, |EventGaps(records)|, |CallGaps(Statuses(records).value)|)
    ensures out.Err? ==>
              match out.error
              case ForeignRecord =>
                exists i: nat :: FaultAt(hash, repository, records, i) && records[i].call.repository != repository
              case BrokenChain =>
                exists i: nat :: FaultAt(hash, repository, records, i) && records[i].call.repository == repository
              case LifecycleInvalid(e) => Chained(hash, repository, records) && Statuses(records) == Err(e)
              case HeadMissing => Chained(hash, repository, records) && Statuses(records).Ok? && head.None?
              case HeadMismatch => Chained(hash, repository, records) && Statuses(records).Ok? && head.Some?
  {
    hide Sealed, Valid, Statuses, EventGaps, CallGaps;
    var fault := VerifyChain(hash, repository, records);
    if fault.Some? {
      return Err(fault.value);
    }
    var incompleteEvents := CountEvents(records);
    var replayed := ReplayCalls(records);
    if replayed.Err? {
      return Err(LifecycleInvalid(replayed.error));
    }
    var incompleteCalls := CountCalls(replayed.value);
    if head.None? {
      return Err(HeadMissing);
    }
    var first, last := records[0], records[|records| - 1];
    var h := head.value;
    if h.firstSequence != 1 || h.entryCount != h.lastSequence || h.lastSequence != last.sequence
       || h.lastDigest != last.digest || h.updatedAt != last.timestamp || h.repository != repository {
      return Err(HeadMismatch);
    }
    var dropped := false;
    if first.sequence == 1 {
      if first.previousDigest.Some? || h.firstDigest != first.digest {
        return Err(HeadMismatch);
      }
    } else {
      dropped := true;
    }
    out := Ok(Report(|records|, first.sequence, last.sequence, dropped, incompleteEvents, incompleteCalls));
  }

  method VerifyChain(hash: Hash, repository: Identity, records: seq<Record>) returns (fault: Option<VerifyError>)
    requires forall i :: 0 <= i < |records| ==> Sealed(hash, records[i])
    ensures fault.None? <==> Chained(hash, repository, records)
    ensures fault.Some? ==>
              exists i: nat :: FaultAt(hash, repository, records, i)
                          && fault.value == if records[i].call.repository != repository then ForeignRecord
                                            else BrokenChain
  {
    hide Sealed, Valid;
    for index := 0 to |records|
      invariant Chained(hash, repository, records[..index])
    {
      var record := records[index];
      if record.call.repository != repository {
        assert FaultAt(hash, repository, records, index);
        return Some(ForeignRecord);
      }
      if 0 < index && (record.sequence != records[index - 1].sequence + 1
                       || record.previousDigest != records[index - 1].digest) {
        assert !Links(records[index - 1], record);
        assert FaultAt(hash, repository, records, index);
        return Some(BrokenChain);
      }
      assert forall i :: 0 <= i <= index ==> records[..index + 1][i] == records[i];
      assert forall i :: 0 < i < index ==> Links(records[..index][i - 1], records[..index][i]);
    }
    assert records[..|records|] == records;
    return None;
  }

  method CountEvents(records: seq<Record>) returns (incomplete: nat)
    ensures incomplete == |EventGaps(records)|
  {
    incomplete := 0;
    for index := 0 to |records|
      invariant incomplete == |EventGaps(records[..index])|
    {
      GapsNext(records, index);
      if !records[index].complete || !records[index].selectedComplete {
        incomplete := incomplete + 1;
      }
    }
    assert records[..|records|] == records;
  }

  lemma GapsNext(log: seq<Record>, i: nat)
    requires i < |log|
    ensures |EventGaps(log[..i + 1])| == |EventGaps(log[..i])| + if EvidenceGap(log[i]) then 1 else 0
  {
    var next := if EvidenceGap(log[i]) then {i} else {};
    assert EventGaps(log[..i + 1]) == EventGaps(log[..i]) + next;
  }

  method CountCalls(statuses: CallTable) returns (incomplete: nat)
    ensures incomplete == |CallGaps(statuses)|
  {
    incomplete := 0;
    var todo := statuses.Keys;
    ghost var gaps := CallGaps(statuses);
    assert gaps - todo == {};
    while todo != {}
      invariant todo <= statuses.Keys
      invariant incomplete == |gaps - todo|
    {
      var c :| c in todo;
      GapCounted(gaps, todo, c);
      if !statuses[c].terminalComplete || !statuses[c].evidenceComplete {
        incomplete := incomplete + 1;
      }
      todo := todo - {c};
    }
    assert gaps - {} == gaps;
  }

  lemma GapCounted(gaps: set<Identity>, todo: set<Identity>, c: Identity)
    requires c in todo
    ensures |gaps - (todo - {c})| == |gaps - todo| + if c in gaps then 1 else 0
  {
    assert gaps - (todo - {c}) == (gaps - todo) + if c in gaps then {c} else {};
  }
}
