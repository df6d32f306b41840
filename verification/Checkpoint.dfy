// The append checkpoint: built from a whole retained log, and advanced by one
// record (internal/actionledger/checkpoint.go).
module Checkpoint {
  import opened Wrappers
  import opened LedgerTypes
  import opened Lifecycle
  import opened Replay
  import opened Chain

  // Folds a completed call into the digest of the calls completed before it.
  type Mix = (Option<Digest>, Identity) -> Digest

  datatype Checkpoint = Checkpoint(
    head: Head, lastRecord: Record, activeRecords: seq<Record>,
    terminalCount: nat, terminalDigest: Option<Digest>)

  type CallTable = map<Identity, CallStatus>

  datatype CheckpointError =
    | NoRetainedChain
    | LifecycleRejected(rejection: Rejection)
    | HeadRejected(headError: HeadError)
    | EventAfterTerminalCall
    | AcceptanceNotRetained

  // A checkpoint with the statuses it was computed from.
  datatype Built = Built(checkpoint: Checkpoint, statuses: CallTable)

  // An advanced checkpoint; `completed` is the call that the record completed.
  datatype Advanced = Advanced(checkpoint: Checkpoint, statuses: CallTable, completed: Option<Identity>)

  predicate Complete(statuses: CallTable, c: Identity) {
    c in statuses && statuses[c].terminalComplete
  }

  function TerminalIds(statuses: CallTable): set<Identity> {
    set c | c in statuses && statuses[c].terminalComplete
  }

  // The records of the calls that are not complete.
  function ActiveOf(log: seq<Record>, statuses: CallTable): seq<Record> {
    if log == [] then []
    else
      var r, earlier := log[|log| - 1], ActiveOf(log[..|log| - 1], statuses);
      if Complete(statuses, r.CallId()) then earlier else earlier + [r]
  }

  function Without(log: seq<Record>, c: Identity): seq<Record> {
    if log == [] then []
    else
      var r, earlier := log[|log| - 1], Without(log[..|log| - 1], c);
      if r.CallId() == c then earlier else earlier + [r]
  }

  // The complete calls in the order of their last records.
  function CompletionOrder(log: seq<Record>, statuses: CallTable): seq<Identity> {
    if log == [] then []
    else
      var r, earlier := log[|log| - 1], CompletionOrder(log[..|log| - 1], statuses);
      if Complete(statuses, r.CallId()) && statuses[r.CallId()].lastSequence == r.sequence then earlier + [r.CallId()]
      else earlier
  }

  function FoldDigest(mix: Mix, calls: seq<Identity>): Option<Digest> {
    if calls == [] then None
    else Some(mix(FoldDigest(mix, calls[..|calls| - 1]), calls[|calls| - 1]))
  }

  function FromRecords(mix: Mix, log: seq<Record>, head: Option<Head>): Result<Built, CheckpointError> {
    if log == [] || head.None? then Err(NoRetainedChain)
    else
      match Statuses(log)
      case Err(e) => Err(LifecycleRejected(e))
      case Ok(statuses) =>
        var order := CompletionOrder(log, statuses);
        Ok(Built(Checkpoint(head.value, log[|log| - 1], ActiveOf(log, statuses), |order|, FoldDigest(mix, order)),
                 statuses))
  }

  function Advance(mix: Mix, current: Checkpoint, terminalIds: set<Identity>, r: Record)
    : Result<Advanced, CheckpointError>
  {
    var c := r.CallId();
    if c in terminalIds then Err(EventAfterTerminalCall)
    else
      match AdvanceHead(current.head, r)
      case Err(e) => Err(HeadRejected(e))
      case Ok(head) =>
        var active := current.activeRecords + [r];
        match Statuses(active)
        case Err(e) => Err(LifecycleRejected(e))
        case Ok(statuses) =>
          if Complete(statuses, c) then
            Ok(Advanced(Checkpoint(head, r, Without(active, c), current.terminalCount + 1,
                                   Some(mix(current.terminalDigest, c))), statuses, Some(c)))
          else
            Ok(Advanced(Checkpoint(head, r, active, current.terminalCount, current.terminalDigest), statuses, None))
  }
}
