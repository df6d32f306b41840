// Why rotation forgets no open call: the argument on values, before the store.
module Retention {
  import opened Wrappers
  import opened LedgerTypes
  import opened LedgerValidate
  import opened Lifecycle
  import opened CallHistory
  import opened CallSafety
  import opened CallEnd
  import opened Replay
  import opened Checkpoint
  import opened CheckpointAgreement

  // The state of a call by its whole history, dropped records included.
  function TrueState(all: seq<Record>, c: Identity): Option<CallState> {
    match RunCall(false, CallRecords(all, c))
    case Err(_) => None
    case Ok(s) => s
  }

  // The call's whole history is accepted and does not complete it.
  predicate Open(all: seq<Record>, c: Identity) {
    TrueState(all, c).Some? && !Terminal(TrueState(all, c).value)
  }

  // The call is complete by its blocking decision alone, so that a budget
  // reservation may still reopen it.
  predicate Blocked(all: seq<Record>, c: Identity) {
    && TrueState(all, c).Some?
    && var s := TrueState(all, c).value;
    && Terminal(s) && s.preDecisionSeen && s.status.decision == Block && !s.budget.seen
  }

  predicate Suffix(kept: seq<Record>, all: seq<Record>) {
    |kept| <= |all| && kept == all[|all| - |kept|..]
  }

  // Every open call keeps all its records, except those in `lost`.
  ghost predicate KeepsOpenCalls(all: seq<Record>, kept: seq<Record>, lost: set<Identity>) {
    forall c :: c !in lost && Open(all, c) ==> CallRecords(kept, c) == CallRecords(all, c)
  }

  // What the append checkpoint knows of the calls.
  ghost predicate IndexGood(all: seq<Record>, kept: seq<Record>, active: seq<Record>, terminalIds: set<Identity>,
                            lost: set<Identity>) {
    && (forall c :: c !in lost && Open(all, c) ==> c !in terminalIds && CallRecords(active, c) == CallRecords(all, c))
    && (forall c :: c !in lost && Blocked(all, c) && CallRecords(kept, c) != [] ==> c in terminalIds)
    && (forall c :: c !in lost && Done(all, c) && CallRecords(kept, c) == CallRecords(all, c) ==> c in terminalIds)
    && (forall i :: 0 <= i < |active| ==> active[i] in all)
  }

  // The call's whole history is accepted and completes it.
  predicate Done(all: seq<Record>, c: Identity) {
    TrueState(all, c).Some? && Terminal(TrueState(all, c).value)
  }

  // Of a call in `lost`, records are missing indeed.
  ghost predicate LostMissing(all: seq<Record>, kept: seq<Record>, lost: set<Identity>) {
    forall c :: c in lost ==> |CallRecords(kept, c)| < |CallRecords(all, c)|
  }

  lemma {:induction false} CallRecordsConcat(a: seq<Record>, b: seq<Record>, c: Identity)
    ensures CallRecords(a + b, c) == CallRecords(a, c) + CallRecords(b, c)
    decreases |b|
  {
    if b == [] {
      assert a + b == a;
    } else {
      var init, r := b[..|b| - 1], b[|b| - 1];
      CallRecordsConcat(a, init, c);
      assert a + b == (a + init) + [r];
      CallRecordsAppend(a + init, r, c);
      assert b == init + [r];
      CallRecordsAppend(init, r, c);
    }
  }

  lemma {:induction false} NoRecords(log: seq<Record>, c: Identity)
    requires forall i :: 0 <= i < |log| ==> log[i].CallId() != c
    ensures CallRecords(log, c) == []
  {
    if log != [] {
      NoRecords(log[..|log| - 1], c);
    }
  }

  // A record changes the state of its own call only.
  lemma TrueStateAppend(all: seq<Record>, r: Record, c: Identity)
    ensures c != r.CallId() ==> TrueState(all + [r], c) == TrueState(all, c)
    ensures c == r.CallId() && TrueState(all + [r], c).Some? ==>
              && RunCall(false, CallRecords(all, c)).Ok?
              && StepCall(false, TrueState(all, c), r) == Ok(TrueState(all + [r], c).value)
  {
    hide StepCall;
    CallRecordsAppend(all, r, c);
    RunAppend(false, CallRecords(all, c), r);
  }

  lemma TrueHistory(all: seq<Record>, c: Identity)
    requires AllValid(all) && TrueState(all, c).Some?
    ensures Accepted(CallRecords(all, c)) && StateOf(CallRecords(all, c)) == TrueState(all, c).value
    ensures Reached(TrueState(all, c).value)
  {
    hide StepCall, Valid, Reached;
    RunEmptiness(false, CallRecords(all, c));
    AcceptedReaches(CallRecords(all, c));
  }

  // ------------------------------------------------- seen through kept records

  // A log that keeps all records of an open call shows its true state.
  lemma SeenExactly(all: seq<Record>, log: seq<Record>, c: Identity)
    requires Statuses(log).Ok? && TrueState(all, c).Some? && CallRecords(log, c) == CallRecords(all, c)
    ensures c in Statuses(log).value && Statuses(log).value[c] == Finish(TrueState(all, c).value)
  {
    hide StepCall, Statuses, Finish;
    var h := CallRecords(all, c);
    RunEmptiness(false, h);
    WholeHistoryStarts(h);
    FlagIrrelevant(DroppedHistory(log), h);
    StatusesByCall(log);
  }

  // A blocked call's history is its request and its decision.
  lemma BlockedShape(all: seq<Record>, c: Identity)
    requires AllValid(all) && Blocked(all, c)
    ensures var h := CallRecords(all, c);
            |h| == 2 && h[1].payload.PreDecision? && h[1].phase != Progress && h[1].decision == Block
  {
    hide StepCall, RunCall, Valid, Statuses;
    TrueHistory(all, c);
    var h := CallRecords(all, c);
    var s := StateOf(h);
    LastStep(h);
    LastValid(h);
    if |h| == 1 {
      FirstStep(h[0]);
    } else {
      var init := h[..|h| - 1];
      DecisionEffects(StateOf(init), h[|h| - 1], s);
      BlockedLast(StateOf(init), h[|h| - 1], s);
      DispatchEffects(StateOf(init), h[|h| - 1], s);
      UndecidedShape(init);
    }
  }

  lemma BlockedLast(s: CallState, r: Record, t: CallState)
    requires Reached(s) && Valid(r) && StepCall(false, Some(s), r) == Ok(t)
    requires t.preDecisionSeen && t.status.decision == Block && !t.budget.seen
    ensures Has(Deciding, r) && r.decision == Block && !s.preDecisionSeen
  {
    hide ApplyAccepted, ApplyApproval, ApplyDispatch, ApplyOutcome, ApplyInspection, ApplyDelivery, ApplyFailure,
         ValidDecision;
  }

  // Before its decision a call has its request only, unless a failure ended it.
  lemma UndecidedShape(h: seq<Record>)
    requires Accepted(h) && !StateOf(h).preDecisionSeen && !StateOf(h).terminalSeen
    ensures |h| == 1
  {
    hide StepCall, RunCall, Valid;
    if 1 < |h| {
      LastStep(h);
      LastValid(h);
      UndecidedLast(StateOf(h[..|h| - 1]), h[|h| - 1], StateOf(h));
    }
  }

  lemma UndecidedLast(s: CallState, r: Record, t: CallState)
    requires Reached(s) && Valid(r) && StepCall(false, Some(s), r) == Ok(t)
    ensures t.preDecisionSeen || t.terminalSeen
  {
  }

  // A log that keeps the end of a blocked call's history still shows it complete.
  lemma BlockedSeenComplete(all: seq<Record>, log: seq<Record>, c: Identity)
    requires AllValid(all) && Blocked(all, c)
    requires Statuses(log).Ok? && Suffix(log, all) && CallRecords(log, c) != []
    ensures Complete(Statuses(log).value, c)
  {
    hide StepCall, RunCall, Valid, Statuses, Reached, CallRecords, Terminal;
    BlockedShape(all, c);
    SuffixRecords(all, log, c);
    var h, kept := CallRecords(all, c), CallRecords(log, c);
    if |kept| == 2 {
      assert kept == h;
      SeenExactly(all, log, c);
    } else {
      assert kept == [h[1]];
      TrueHistory(all, c);
      LastDecisionValid(h);
      DecisionSeenComplete(log, c, h[1]);
    }
  }

  lemma LastDecisionValid(h: seq<Record>)
    requires Accepted(h) && |h| == 2 && h[1].payload.PreDecision?
    ensures h[1].phase != PostResult
  {
    hide RunCall;
  }

  lemma DecisionSeenComplete(log: seq<Record>, c: Identity, r: Record)
    requires Statuses(log).Ok? && CallRecords(log, c) == [r]
    requires r.payload.PreDecision? && r.phase != Progress && r.phase != PostResult && r.decision == Block
    ensures Complete(Statuses(log).value, c)
  {
    hide StepCall, RunCall, Statuses, CallRecords, Terminal;
    StatusesByCall(log);
    DecisionAloneCompletes(DroppedHistory(log), r);
  }

  lemma DecisionAloneCompletes(dropped: bool, r: Record)
    requires RunCall(dropped, [r]).Ok? && r.payload.PreDecision? && r.phase != Progress && r.phase != PostResult
    requires r.decision == Block
    ensures RunCall(dropped, [r]).value.Some? && Terminal(RunCall(dropped, [r]).value.value)
  {
    assert [r][..0] == [];
  }

  lemma SuffixRecords(all: seq<Record>, kept: seq<Record>, c: Identity)
    requires Suffix(kept, all)
    ensures Suffix(CallRecords(kept, c), CallRecords(all, c))
  {
    var dropped := all[..|all| - |kept|];
    assert all == dropped + kept;
    CallRecordsConcat(dropped, kept, c);
  }

  // Rebuilding the index from kept records that hold every open call gives a good index.
  lemma RebuiltIndexGood(all: seq<Record>, kept: seq<Record>, lost: set<Identity>)
    requires AllValid(all) && Suffix(kept, all) && Statuses(kept).Ok? && KeepsOpenCalls(all, kept, lost)
    ensures IndexGood(all, kept, ActiveOf(kept, Statuses(kept).value), TerminalIds(Statuses(kept).value), lost)
  {
    hide StepCall, RunCall, Valid, Statuses, CallRecords, ActiveOf, Open, Blocked, Done;
    var statuses := Statuses(kept).value;
    forall c | c !in lost && Open(all, c)
      ensures c !in TerminalIds(statuses) && CallRecords(ActiveOf(kept, statuses), c) == CallRecords(all, c)
    {
      OpenSeen(all, kept, c);
      ActiveByCall(kept, statuses, c);
    }
    forall c | c !in lost && Blocked(all, c) && CallRecords(kept, c) != []
      ensures c in TerminalIds(statuses)
    {
      BlockedSeenComplete(all, kept, c);
    }
    forall c | c !in lost && Done(all, c) && CallRecords(kept, c) == CallRecords(all, c)
      ensures c in TerminalIds(statuses)
    {
      DoneSeen(all, kept, c);
    }
    ActiveWithin(kept, statuses);
  }

  lemma DoneSeen(all: seq<Record>, log: seq<Record>, c: Identity)
    requires Done(all, c) && Statuses(log).Ok? && CallRecords(log, c) == CallRecords(all, c)
    ensures Complete(Statuses(log).value, c)
  {
    hide StepCall, RunCall, Statuses, CallRecords, Terminal;
    SeenExactly(all, log, c);
  }

  lemma {:induction false} ActiveWithin(log: seq<Record>, statuses: CallTable)
    ensures forall i :: 0 <= i < |ActiveOf(log, statuses)| ==> ActiveOf(log, statuses)[i] in log
  {
    if log != [] {
      ActiveWithin(log[..|log| - 1], statuses);
    }
  }

  lemma {:induction false} WithoutWithin(log: seq<Record>, d: Identity)
    ensures forall i :: 0 <= i < |Without(log, d)| ==> Without(log, d)[i] in log
  {
    if log != [] {
      WithoutWithin(log[..|log| - 1], d);
    }
  }

  lemma {:induction false} WithoutByCall(log: seq<Record>, d: Identity, c: Identity)
    ensures c != d ==> CallRecords(Without(log, d), c) == CallRecords(log, c)
  {
    if log != [] {
      var init, r := log[..|log| - 1], log[|log| - 1];
      WithoutByCall(init, d, c);
      CallRecordsAppend(Without(init, d), r, c);
    }
  }

  lemma OpenSeen(all: seq<Record>, log: seq<Record>, c: Identity)
    requires Open(all, c) && Statuses(log).Ok? && CallRecords(log, c) == CallRecords(all, c)
    ensures c in Statuses(log).value && !Complete(Statuses(log).value, c)
    ensures CallRecords(all, c) != [] && Statuses(log).value[c].firstSequence == CallRecords(all, c)[0].sequence
  {
    hide StepCall, Statuses;
    SeenExactly(all, log, c);
    RunEmptiness(false, CallRecords(all, c));
    FirstSequenceIs(CallRecords(all, c));
  }

  lemma {:induction false} FirstSequenceIs(h: seq<Record>)
    requires RunCall(false, h).Ok? && h != []
    ensures RunCall(false, h).value.value.status.firstSequence == h[0].sequence
    decreases |h|
  {
    hide Apply;
    if |h| == 1 {
      assert h[..0] == [];
    } else {
      FirstSequenceIs(h[..|h| - 1]);
    }
  }

  // ------------------------------------------------------------------- rotation

  // The guard before rotation: no status still open begins in the archive that goes.
  predicate RotationAllowed(statuses: CallTable, droppedThrough: nat) {
    forall c :: c in statuses && !statuses[c].terminalComplete ==> droppedThrough < statuses[c].firstSequence
  }

  // Dropping the oldest archive keeps all records of a call that begins after it.
  lemma RotationKeeps(oldest: seq<Record>, rest: seq<Record>, c: Identity, droppedThrough: nat)
    requires forall i :: 0 <= i < |oldest| ==> oldest[i].sequence <= droppedThrough
    requires var h := CallRecords(oldest + rest, c); h != [] ==> droppedThrough < h[0].sequence
    ensures CallRecords(rest, c) == CallRecords(oldest + rest, c)
  {
    CallRecordsConcat(oldest, rest, c);
    assert forall r :: r in CallRecords(oldest, c) ==> r.sequence <= droppedThrough;
  }

  // --------------------------------------------------------------- one more record

  // The call has records, but none is retained any more.
  predicate Forgotten(all: seq<Record>, kept: seq<Record>, c: Identity) {
    CallRecords(all, c) != [] && CallRecords(kept, c) == []
  }

  // The calls whose retention is no longer claimed after appending r: a forgotten
  // call that r reopens joins them.
  function LostAfter(all: seq<Record>, kept: seq<Record>, lost: set<Identity>, r: Record): set<Identity> {
    if Forgotten(all, kept, r.CallId()) && Open(all + [r], r.CallId()) then lost + {r.CallId()} else lost
  }

  // The appended record was checked on the route of its call.
  ghost predicate Routed(kept: seq<Record>, terminalIds: set<Identity>, r: Record) {
    r.CallId() in terminalIds ==>
      exists i :: 0 <= i < |kept| && kept[i].CallId() == r.CallId() && kept[i].payload.RequestAccepted?
  }

  lemma AcceptanceKeepsAll(all: seq<Record>, kept: seq<Record>, c: Identity)
    requires AllValid(all) && Suffix(kept, all) && TrueState(all, c).Some?
    requires exists i :: 0 <= i < |kept| && kept[i].CallId() == c && kept[i].payload.RequestAccepted?
    ensures CallRecords(kept, c) == CallRecords(all, c)
  {
    hide StepCall, RunCall, Valid, Reached;
    TrueHistory(all, c);
    var h, k := CallRecords(all, c), CallRecords(kept, c);
    AcceptedReaches(h);
    SuffixRecords(all, kept, c);
    var i :| 0 <= i < |kept| && kept[i].CallId() == c && kept[i].payload.RequestAccepted?;
    InCallRecords(kept, i);
    var j :| 0 <= j < |k| && k[j] == kept[i];
    assert h[|h| - |k| + j] == k[j];
  }

  lemma {:induction false} InCallRecords(log: seq<Record>, i: nat)
    requires i < |log|
    ensures log[i] in CallRecords(log, log[i].CallId())
    decreases |log|
  {
    if i < |log| - 1 {
      InCallRecords(log[..|log| - 1], i);
    }
  }

  // How an open call of the longer history was before the record.
  lemma OpenBefore(all: seq<Record>, r: Record)
    requires AllValid(all + [r]) && Open(all + [r], r.CallId())
    ensures CallRecords(all, r.CallId()) == [] || Open(all, r.CallId()) || Blocked(all, r.CallId())
  {
    hide StepCall, RunCall, Valid, CallRecords, Reached, Terminal, LateReservation, FailureTail;
    var c := r.CallId();
    TrueStateAppend(all, r, c);
    RunEmptiness(false, CallRecords(all, c));
    assert all + [r] == all + [r] && Valid((all + [r])[|all|]);
    ValidPrefix(all, r);
    if CallRecords(all, c) != [] && !Open(all, c) {
      TrueHistory(all, c);
      TerminalContinuations(TrueState(all, c).value, r);
      LateMeansBlocked(TrueState(all, c).value, r);
    }
  }

  lemma ValidPrefix(all: seq<Record>, r: Record)
    requires AllValid(all + [r])
    ensures AllValid(all) && Valid(r)
  {
    hide Valid;
    assert (all + [r])[|all|] == r;
    assert forall i :: 0 <= i < |all| ==> (all + [r])[i] == all[i];
  }

  lemma LateMeansBlocked(s: CallState, r: Record)
    ensures LateReservation(s, r) ==> s.preDecisionSeen && s.status.decision == Block && !s.budget.seen
  {
  }

  // Appending keeps every open call's records, before any rotation.
  lemma {:induction false} AppendKeeps(all: seq<Record>, kept: seq<Record>, active: seq<Record>,
                                      terminalIds: set<Identity>, lost: set<Identity>, r: Record)
    requires AllValid(all + [r]) && Suffix(kept, all)
    requires KeepsOpenCalls(all, kept, lost) && IndexGood(all, kept, active, terminalIds, lost)
    requires Routed(kept, terminalIds, r)
    ensures KeepsOpenCalls(all + [r], kept + [r], LostAfter(all, kept, lost, r))
  {
    hide StepCall, RunCall, Valid, CallRecords, Open, Blocked, TrueState;
    ValidPrefix(all, r);
    forall c | c !in LostAfter(all, kept, lost, r) && Open(all + [r], c)
      ensures CallRecords(kept + [r], c) == CallRecords(all + [r], c)
    {
      CallRecordsAppend(all, r, c);
      CallRecordsAppend(kept, r, c);
      if c == r.CallId() {
        OpenBefore(all, r);
        SuffixRecords(all, kept, c);
        if Blocked(all, c) {
          if c in terminalIds {
            BlockedHasState(all, c);
            AcceptanceKeepsAll(all, kept, c);
          }
        }
      } else {
        OpenUnaffected(all, r, c);
      }
    }
  }

  lemma BlockedHasState(all: seq<Record>, c: Identity)
    requires Blocked(all, c)
    ensures TrueState(all, c).Some?
  {
  }

  lemma OpenUnaffected(all: seq<Record>, r: Record, c: Identity)
    requires c != r.CallId()
    ensures Open(all + [r], c) <==> Open(all, c)
    ensures Blocked(all + [r], c) <==> Blocked(all, c)
  {
    hide RunCall, CallRecords, Terminal;
    TrueStateAppend(all, r, c);
  }

  // The statuses of the next checkpoint hold every open call, with its true start.
  ghost predicate ShowsOpenCalls(all: seq<Record>, statuses: CallTable, lost: set<Identity>) {
    forall c :: c !in lost && Open(all, c) ==>
      && c in statuses && !statuses[c].terminalComplete
      && CallRecords(all, c) != [] && statuses[c].firstSequence == CallRecords(all, c)[0].sequence
  }

  // On the fast route a call outside the terminal index is open or new.
  lemma FastRouteSees(all: seq<Record>, kept: seq<Record>, active: seq<Record>, terminalIds: set<Identity>,
                      lost: set<Identity>, r: Record, c: Identity)
    requires AllValid(all + [r]) && Suffix(kept, all)
    requires IndexGood(all, kept, active, terminalIds, lost) && r.CallId() !in terminalIds
    requires c !in LostAfter(all, kept, lost, r) && Open(all + [r], c)
    ensures CallRecords(active + [r], c) == CallRecords(all + [r], c)
    ensures CallRecords(all, c) == [] || (Open(all, c) && c !in terminalIds)
  {
    hide StepCall, RunCall, Valid, CallRecords, Open, Blocked, TrueState;
    CallRecordsAppend(all, r, c);
    CallRecordsAppend(active, r, c);
    if c == r.CallId() {
      OpenBefore(all, r);
      if CallRecords(all, c) == [] {
        NewCallNotActive(all, active, c);
      }
    } else {
      OpenUnaffected(all, r, c);
    }
  }

  lemma NewCallNotActive(all: seq<Record>, active: seq<Record>, c: Identity)
    requires CallRecords(all, c) == [] && forall i :: 0 <= i < |active| ==> active[i] in all
    ensures CallRecords(active, c) == []
  {
    hide CallRecords;
    forall i | 0 <= i < |active|
      ensures active[i].CallId() != c
    {
      var k :| 0 <= k < |all| && all[k] == active[i];
      InCallRecords(all, k);
    }
    NoRecords(active, c);
  }

  lemma FastRouteShows(all: seq<Record>, kept: seq<Record>, active: seq<Record>, terminalIds: set<Identity>,
                       lost: set<Identity>, r: Record)
    requires AllValid(all + [r]) && Suffix(kept, all)
    requires IndexGood(all, kept, active, terminalIds, lost) && r.CallId() !in terminalIds
    requires Statuses(active + [r]).Ok?
    ensures ShowsOpenCalls(all + [r], Statuses(active + [r]).value, LostAfter(all, kept, lost, r))
  {
    hide Valid, CallRecords, Open, Statuses, IndexGood;
    forall c | c !in LostAfter(all, kept, lost, r) && Open(all + [r], c)
      ensures c in Statuses(active + [r]).value && !Complete(Statuses(active + [r]).value, c)
      ensures CallRecords(all + [r], c) != []
      ensures Statuses(active + [r]).value[c].firstSequence == CallRecords(all + [r], c)[0].sequence
    {
      FastRouteSees(all, kept, active, terminalIds, lost, r, c);
      OpenSeen(all + [r], active + [r], c);
    }
  }

  lemma SlowRouteShows(all: seq<Record>, kept: seq<Record>, lost: set<Identity>)
    requires KeepsOpenCalls(all, kept, lost) && Statuses(kept).Ok?
    ensures ShowsOpenCalls(all, Statuses(kept).value, lost)
  {
    hide CallRecords, Open, Statuses;
    forall c | c !in lost && Open(all, c)
      ensures c in Statuses(kept).value && !Complete(Statuses(kept).value, c)
      ensures CallRecords(all, c) != [] && Statuses(kept).value[c].firstSequence == CallRecords(all, c)[0].sequence
    {
      OpenSeen(all, kept, c);
    }
  }

  // Dropping the oldest archive under the guard keeps every open call.
  lemma RotationKeepsOpen(all: seq<Record>, oldest: seq<Record>, rest: seq<Record>, statuses: CallTable,
                          lost: set<Identity>, droppedThrough: nat)
    requires KeepsOpenCalls(all, oldest + rest, lost) && ShowsOpenCalls(all, statuses, lost)
    requires RotationAllowed(statuses, droppedThrough)
    requires forall i :: 0 <= i < |oldest| ==> oldest[i].sequence <= droppedThrough
    ensures KeepsOpenCalls(all, rest, lost)
  {
    hide CallRecords, Open;
    forall c | c !in lost && Open(all, c)
      ensures CallRecords(rest, c) == CallRecords(all, c)
    {
      RotationKeeps(oldest, rest, c, droppedThrough);
    }
  }

  // The index stays good on the fast route.
  lemma {:induction false} FastRouteIndex(all: seq<Record>, kept: seq<Record>, active: seq<Record>,
                                         terminalIds: set<Identity>, lost: set<Identity>, r: Record, kept': seq<Record>)
    requires AllValid(all + [r]) && Suffix(kept, all) && Suffix(kept', kept + [r])
    requires IndexGood(all, kept, active, terminalIds, lost) && r.CallId() !in terminalIds
    requires Statuses(active + [r]).Ok?
    ensures var c0 := r.CallId();
            var done := Complete(Statuses(active + [r]).value, c0);
            IndexGood(all + [r], kept', if done then Without(active + [r], c0) else active + [r],
                      if done then terminalIds + {c0} else terminalIds, LostAfter(all, kept, lost, r))
  {
    hide Valid, CallRecords, Open, Blocked, Done, Statuses, StepCall, RunCall, TrueState, Without;
    var c0, lost' := r.CallId(), LostAfter(all, kept, lost, r);
    var done := Complete(Statuses(active + [r]).value, c0);
    var active' := if done then Without(active + [r], c0) else active + [r];
    var ids' := if done then terminalIds + {c0} else terminalIds;
    FastRouteShows(all, kept, active, terminalIds, lost, r);
    forall c | c !in lost' && Open(all + [r], c)
      ensures c !in ids' && CallRecords(active', c) == CallRecords(all + [r], c)
    {
      FastRouteSees(all, kept, active, terminalIds, lost, r, c);
      WithoutByCall(active + [r], c0, c);
      NewNotTerminal(all, kept, active, terminalIds, lost, r, c);
    }
    forall c | c !in lost' && Blocked(all + [r], c) && CallRecords(kept', c) != []
      ensures c in ids'
    {
      if c == c0 {
        FastRouteBlocks(all, kept, active, terminalIds, lost, r);
      } else {
        OpenUnaffected(all, r, c);
        SuffixRecords(kept + [r], kept', c);
        CallRecordsAppend(kept, r, c);
      }
    }
    forall c | c !in lost' && Done(all + [r], c) && CallRecords(kept', c) == CallRecords(all + [r], c)
      ensures c in ids'
    {
      FastRouteDone(all, kept, active, terminalIds, lost, r, kept', c);
    }
    WithoutWithin(active + [r], c0);
    assert forall i :: 0 <= i < |active + [r]| ==> (active + [r])[i] in all + [r];
  }

  // All records of the call are kept after r only if all were kept before.
  lemma KeptBefore(all: seq<Record>, kept: seq<Record>, r: Record, kept': seq<Record>, c: Identity)
    requires Suffix(kept, all) && Suffix(kept', kept + [r])
    requires CallRecords(kept', c) == CallRecords(all + [r], c)
    ensures CallRecords(kept, c) == CallRecords(all, c)
  {
    hide CallRecords;
    SuffixRecords(all, kept, c);
    SuffixRecords(kept + [r], kept', c);
    CallRecordsAppend(all, r, c);
    CallRecordsAppend(kept, r, c);
  }

  // A call that is complete after r, with all its records kept, is in the index: it
  // was there before, or the active records hold its whole history.
  lemma FastRouteDone(all: seq<Record>, kept: seq<Record>, active: seq<Record>, terminalIds: set<Identity>,
                      lost: set<Identity>, r: Record, kept': seq<Record>, c: Identity)
    requires AllValid(all + [r]) && Suffix(kept, all) && Suffix(kept', kept + [r])
    requires IndexGood(all, kept, active, terminalIds, lost) && r.CallId() !in terminalIds
    requires Statuses(active + [r]).Ok? && c !in lost
    requires Done(all + [r], c) && CallRecords(kept', c) == CallRecords(all + [r], c)
    ensures c in terminalIds || (c == r.CallId() && Complete(Statuses(active + [r]).value, c))
  {
    hide Valid, CallRecords, Statuses, StepCall, RunCall, Terminal;
    KeptBefore(all, kept, r, kept', c);
    TrueStateAppend(all, r, c);
    if c == r.CallId() {
      KnownActive(all, kept, active, terminalIds, lost, c);
      CallRecordsAppend(all, r, c);
      CallRecordsAppend(active, r, c);
      DoneSeen(all + [r], active + [r], c);
    }
  }

  // Of a call outside the index whose records are all kept, the active records hold
  // the whole history.
  lemma KnownActive(all: seq<Record>, kept: seq<Record>, active: seq<Record>, terminalIds: set<Identity>,
                    lost: set<Identity>, c: Identity)
    requires IndexGood(all, kept, active, terminalIds, lost) && c !in terminalIds && c !in lost
    requires CallRecords(kept, c) == CallRecords(all, c) && RunCall(false, CallRecords(all, c)).Ok?
    ensures CallRecords(active, c) == CallRecords(all, c)
  {
    hide CallRecords, RunCall, Terminal;
    RunEmptiness(false, CallRecords(all, c));
    if CallRecords(all, c) == [] {
      NewCallNotActive(all, active, c);
    }
  }

  lemma NewNotTerminal(all: seq<Record>, kept: seq<Record>, active: seq<Record>, terminalIds: set<Identity>,
                       lost: set<Identity>, r: Record, c: Identity)
    requires r.CallId() !in terminalIds && Open(all + [r], c)
    requires CallRecords(all, c) == [] || (Open(all, c) && c !in terminalIds)
    ensures c !in terminalIds
  {
    hide StepCall;
    if CallRecords(all, c) == [] && c != r.CallId() {
      TrueStateAppend(all, r, c);
    }
  }

  // A call that the record blocks is put in the index by the fast route.
  lemma FastRouteBlocks(all: seq<Record>, kept: seq<Record>, active: seq<Record>, terminalIds: set<Identity>,
                        lost: set<Identity>, r: Record)
    requires AllValid(all + [r]) && Suffix(kept, all)
    requires IndexGood(all, kept, active, terminalIds, lost) && r.CallId() !in terminalIds
    requires r.CallId() !in lost && Blocked(all + [r], r.CallId())
    requires Statuses(active + [r]).Ok?
    ensures Complete(Statuses(active + [r]).value, r.CallId())
  {
    hide Valid, CallRecords, Statuses, StepCall, RunCall, TrueState, IndexGood;
    var c := r.CallId();
    BlockedWasOpen(all, r);
    assert IndexGood(all, kept, active, terminalIds, lost);
    OpenIndexed(all, kept, active, terminalIds, lost, c);
    CallRecordsAppend(all, r, c);
    CallRecordsAppend(active, r, c);
    SeenExactly(all + [r], active + [r], c);
  }

  lemma OpenIndexed(all: seq<Record>, kept: seq<Record>, active: seq<Record>, terminalIds: set<Identity>,
                    lost: set<Identity>, c: Identity)
    requires IndexGood(all, kept, active, terminalIds, lost) && c !in lost && Open(all, c)
    ensures CallRecords(active, c) == CallRecords(all, c)
  {
  }

  lemma BlockedWasOpen(all: seq<Record>, r: Record)
    requires AllValid(all + [r]) && Blocked(all + [r], r.CallId())
    ensures Open(all, r.CallId())
  {
    hide StepCall, RunCall, Valid, CallRecords, Reached;
    var c := r.CallId();
    BlockedShape(all + [r], c);
    CallRecordsAppend(all, r, c);
    var h := CallRecords(all, c);
    TrueStateAppend(all, r, c);
    ValidPrefix(all, r);
    RunEmptiness(false, h);
    TrueHistory(all, c);
    LastStep(h);
    FirstStep(h[0]);
    LastValid(h);
  }

  lemma IndexMonotone(all: seq<Record>, kept: seq<Record>, kept': seq<Record>, active: seq<Record>,
                      terminalIds: set<Identity>, lost: set<Identity>)
    requires IndexGood(all, kept, active, terminalIds, lost) && Suffix(kept', kept) && Suffix(kept, all)
    ensures IndexGood(all, kept', active, terminalIds, lost)
  {
    hide CallRecords, Open, Blocked, Done;
    forall c | c !in lost && Blocked(all, c) && CallRecords(kept', c) != []
      ensures c in terminalIds
    {
      SuffixRecords(kept, kept', c);
    }
    forall c | c !in lost && Done(all, c) && CallRecords(kept', c) == CallRecords(all, c)
      ensures c in terminalIds
    {
      SuffixRecords(kept, kept', c);
      SuffixRecords(all, kept, c);
    }
  }

  // ------------------------------------------------------- what the caller can ensure

  // The record is the request of a call not seen before, or its call's request is
  // still retained.
  predicate Known(all: seq<Record>, kept: seq<Record>, r: Record) {
    || (CallRecords(all, r.CallId()) == [] && r.payload.RequestAccepted?)
    || exists i :: 0 <= i < |kept| && kept[i].CallId() == r.CallId() && kept[i].payload.RequestAccepted?
  }

  lemma KnownKept(all: seq<Record>, kept: seq<Record>, r: Record)
    requires AllValid(all) && Suffix(kept, all) && RunCall(false, CallRecords(all, r.CallId())).Ok?
    requires Known(all, kept, r)
    ensures CallRecords(kept, r.CallId()) == CallRecords(all, r.CallId())
    ensures CallRecords(all, r.CallId()) == [] ==> r.payload.RequestAccepted?
  {
    hide RunCall, Valid, CallRecords, Terminal;
    var c := r.CallId();
    RunEmptiness(false, CallRecords(all, c));
    SuffixRecords(all, kept, c);
    if i :| 0 <= i < |kept| && kept[i].CallId() == c && kept[i].payload.RequestAccepted? {
      InCallRecords(kept, i);
      AcceptanceKeepsAll(all, kept, c);
    }
  }

  // A log that ends in r and holds r's call whole is accepted only if that call's own
  // history is.
  lemma SeenLawful(all: seq<Record>, log: seq<Record>, r: Record)
    requires Statuses(log + [r]).Ok? && CallRecords(log, r.CallId()) == CallRecords(all, r.CallId())
    requires RunCall(false, CallRecords(all, r.CallId())).Ok?
    requires CallRecords(all, r.CallId()) == [] ==> r.payload.RequestAccepted?
    ensures RunCall(false, CallRecords(all + [r], r.CallId())).Ok?
  {
    hide StepCall, RunCall, Statuses, CallRecords;
    var c := r.CallId();
    CallRecordsAppend(all, r, c);
    CallRecordsAppend(log, r, c);
    StatusesByCall(log + [r]);
    var h := CallRecords(all, c);
    if h != [] {
      WholeHistoryStarts(h);
    }
    FlagIrrelevant(DroppedHistory(log + [r]), h + [r]);
  }

  // Appending keeps the whole log lawful on the slow route and on the fast one.
  lemma SlowRouteLawful(all: seq<Record>, kept: seq<Record>, r: Record)
    requires AllValid(all) && Suffix(kept, all) && RunCall(false, CallRecords(all, r.CallId())).Ok?
    requires Known(all, kept, r) && Statuses(kept + [r]).Ok?
    ensures RunCall(false, CallRecords(all + [r], r.CallId())).Ok?
  {
    hide RunCall, Valid, CallRecords, Statuses;
    KnownKept(all, kept, r);
    SeenLawful(all, kept, r);
  }

  lemma FastRouteLawful(all: seq<Record>, kept: seq<Record>, active: seq<Record>, terminalIds: set<Identity>,
                        lost: set<Identity>, r: Record)
    requires AllValid(all) && Suffix(kept, all) && RunCall(false, CallRecords(all, r.CallId())).Ok?
    requires IndexGood(all, kept, active, terminalIds, lost) && r.CallId() !in terminalIds && r.CallId() !in lost
    requires Known(all, kept, r) && Statuses(active + [r]).Ok?
    ensures RunCall(false, CallRecords(all + [r], r.CallId())).Ok?
  {
    hide RunCall, Valid, CallRecords, Statuses, IndexGood;
    KnownKept(all, kept, r);
    KnownActive(all, kept, active, terminalIds, lost, r.CallId());
    SeenLawful(all, active, r);
  }

  // The whole log replays exactly when one more call's history does.
  lemma LawfulNext(all: seq<Record>, r: Record)
    requires Statuses(all).Ok? && (all + [r])[0].sequence == 1
    requires RunCall(false, CallRecords(all + [r], r.CallId())).Ok?
    ensures Statuses(all + [r]).Ok?
  {
    hide RunCall, CallRecords, Statuses;
    StatusesByCall(all);
    StatusesByCall(all + [r]);
    forall c
      ensures RunCall(false, CallRecords(all + [r], c)).Ok?
    {
      CallRecordsAppend(all, r, c);
      assert RunCall(DroppedHistory(all), CallRecords(all, c)).Ok?;
    }
  }

  // Nothing is lost by a known record.
  lemma KnownNotLost(all: seq<Record>, kept: seq<Record>, lost: set<Identity>, r: Record)
    requires Known(all, kept, r)
    ensures LostAfter(all, kept, lost, r) == lost
  {
    hide CallRecords, Open;
    if i :| 0 <= i < |kept| && kept[i].CallId() == r.CallId() && kept[i].payload.RequestAccepted? {
      InCallRecords(kept, i);
    }
  }

  // Lost calls stay short of records, however the log grows and is cut.
  lemma LostStays(all: seq<Record>, kept: seq<Record>, lost: set<Identity>, r: Record)
    requires LostMissing(all, kept, lost)
    ensures LostMissing(all + [r], kept + [r], LostAfter(all, kept, lost, r))
  {
    hide CallRecords, Open;
    forall c | c in LostAfter(all, kept, lost, r)
      ensures |CallRecords(kept + [r], c)| < |CallRecords(all + [r], c)|
    {
      CallRecordsAppend(all, r, c);
      CallRecordsAppend(kept, r, c);
    }
  }

  lemma LostShrinks(all: seq<Record>, kept: seq<Record>, kept': seq<Record>, lost: set<Identity>)
    requires LostMissing(all, kept, lost) && Suffix(kept', kept)
    ensures LostMissing(all, kept', lost)
  {
    hide CallRecords;
    forall c | c in lost
      ensures |CallRecords(kept', c)| < |CallRecords(all, c)|
    {
      SuffixRecords(kept, kept', c);
    }
  }
}
