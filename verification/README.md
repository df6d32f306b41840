# Verified models of Reconc's action control

Reconc stands between an agent and the tools it calls. It decides each call by a
policy, asks for approval where the policy says so, keeps budgets, and writes down
every step in a ledger that nobody can silently shorten or reorder. This project
models the five parts of it where a mistake is hardest to see, and proves what each
of them promises.

**The action ledger** (`LedgerTypes`, `LedgerValidate`, `Lifecycle`, `LifecycleObject`,
`CallHistory`, `CallSafety`, `CallEnd`, `Replay`, `LedgerSafety`, `Chain`,
`LedgerVerify`, `Checkpoint`, `CheckpointBuild`, `CheckpointAgreement`, `Retention`,
`Truncation`, `LedgerStore`, `BlockedCall`). A call is a protocol of nine kinds of
event. `Lifecycle` is the protocol as a function on values, `LifecycleObject` the object
that the program updates field by field, proved to follow it. `CallSafety` explains
every state by the history that led to it and derives the safety of dispatch, delivery,
approval and budget; `CallEnd` says what may still follow a complete call. `Checkpoint`
is the fast route that checks an appended record against active calls only;
`CheckpointAgreement` says exactly when it agrees with replaying everything.
`LedgerStore` is the store with its live file, two archives, detached head and cached
checkpoint; its `Append` can die after the record or after the head, and its invariant
holds over every run of appends, crashes, restarts and recoveries. `Truncation` says
exactly which beginnings of a call rotation may drop without breaking the replay of what
is left. The digest is any function of the unsealed record, injective only where a
theorem says so.

**The glob engine** (`GlobMatch`, `GlobComplete`, `GlobIrregular`, `GlobRun`,
`GlobCompile`, `GlobReading`, `GlobCount`, `GlobStates`, `GlobExpansion`, `GlobExpand`).
What a program means is the relation `Matches`: some split of the value among its tokens
matches. The search with its two backtrack points is proved sound always, and exact on
regular programs; for one family of programs it is exact on no others. The loop that
runs it under a work budget and a control is proved to give the search's answer at the
search's exact cost, or to say why it stopped. Expansion works on the syntax tree of a
brace pattern and is proved to give exactly the strings the pattern denotes.

**Canonical values** (`Decimal`, `DecimalSyntax`, `DecimalOrder`, `DecimalParse`,
`UintText`, `JsonValue`, `JsonRead`, `JsonLimits`, `JsonCodec`, `JsonText`, `Pointer`).
Decimals have exact values as reals; parsing, printing and comparing are proved against
these. The printer, the reader, the validator and the size computation are proved to
agree with each other, and every admitted value is read back from its printed text.
Pointers follow RFC 6901.

**Conditions** (`Condition`, `ConditionSkip`, `ConditionMeaning`, `ConditionCompile`,
`ConditionCanonical`). The evaluator that skips subtrees under a decided parent is
proved to return what evaluating everything returns; the state is the Kleene value of
the tree; compiling in any order of children gives one canonical tree.

**Bounded stateful pieces** (`DecisionCache`, `ApprovalStore`, `Marker`, `MarkerScan`).
A cache that evicts the oldest first, the approval records and the streaming scan for
the build marker, each as the loop or object that the program has.

## Where the code parts from what one expects

Each of these is shown by a lemma or a run with a concrete input, and the exact
condition stands beside it where there is one. Only the last is a statement about every
input.

- Advancing the checkpoint takes the dropped-history flag from the active records only
  (`internal/actionledger/lifecycle.go:80`), so a call that starts without its request
  is accepted on the fast route and rejected by replay
  (`CheckpointExamples.LateStartAccepted`). Advancing also rejects a terminal failure
  after a failed outcome, which replay accepts
  (`CheckpointExamples.FailureAfterOutcomeRejected`). `AdvanceAgreesWithRebuild` and
  `AppendAgreesWithRebuild` say that these are the only differences.
- Rotation is allowed to cut a complete call anywhere, and what is left of it need not
  replay; after a restart the ledger then refuses every append.
  `RetentionExamples.DenialRun` is such a run of appends, for records and files of any
  size within the program's limits: a blocked call whose late reservation was denied
  loses the decision before the denial. The exact condition: what is left of an accepted
  history replays if and only if it is rooted (`Truncation.TailReplays`), that is, every
  post-result approval still has its outcome, every post-result reservation and every
  settlement that gives units back its commitment, every denial its decision or its
  approval, and every commitment whose reservation is left its decision. `CutReplays`
  says the same by the positions of these records, `LedgerStore.Store.RetainedReplays`
  and `LoadsExactly` say it of the store, and `RotationRule` is the rule that would keep
  the log replayable: of each call with records in the archive that goes, what stays is
  rooted.
- A blocked call whose records were all rotated away is unknown to a rebuilt checkpoint;
  a late budget reservation then reopens it without its start
  (`RetentionExamples.ForgottenRun`, such a run of appends too). The store's invariant
  tracks exactly these calls: every other open call keeps all its records, and each of
  these misses some. No append makes a call lost unless all records of its call were
  dropped before; and while every appended record is the request of a new call, or
  belongs to a call whose request is still retained, the whole log keeps replaying
  (`LedgerStore.Store.Append`).
- A receipt that rejects a request, and whose identifier another record has already, is
  refused by the validation before the write: the request stays pending, while a receipt
  that approves ends it as replayed (`ApprovalExamples.RejectionLost`;
  `ApprovalStore.ApprovalStore.Refuse` is the exact rule).
- The greedy matcher can miss a match when a class after a star takes both a '/' and
  another character of the value (`GlobExamples.ClassWithSlashMissesMatch`; between two
  stars among literals it then always misses one, `GlobIrregular.ExactBetween`), or when
  a suffix marked as matching the empty value holds a `**/`
  (`GlobExamples.TrailingDirectoriesMissMatch`).
- A cached result stored again under its own identity keeps its old place in the order,
  so its growth can evict it at once, although it is reported as stored
  (`DecisionCacheExamples.GrownOut`; `DecisionCache.SurvivesExactly` is the exact rule,
  and a new identity is never evicted on arrival). One identity stands for one
  evaluation and so has one result; the cache itself accepts a second, larger one.
- A provenance marker longer than the tail kept between reads is found by one read of
  the file and missed by small ones (`MarkerExamples.ReadsDiffer`). Every way of reading
  a file gives the right answer exactly when no marker is that long, or two of them are
  not (`MarkerScan.ScanExact`).
- The limit on the alternatives of one brace group in the expansion loop can never be
  met there: the count that comes first already refuses every such pattern
  (`GlobCount.ReplaceCount`, and the error clause of `GlobExpand.ExpandAlternatives`).

## Model

| member | source | states |
|---|---|---|
| Lifecycle.Apply | internal/actionledger/lifecycle.go:130-294 | One accepted record never changes which call the state is about; with the frame contracts of the nine event functions below it, each event touches only its own part of the state. |
| LifecycleObject.LifecycleState.ApplyApprovalTransition | internal/actionledger/lifecycle.go:296-334 | The method that updates the approval fields in place succeeds and fails exactly as the transition on values does, with the same error, and leaves exactly its state. |
| LifecycleObject.LifecycleState.ApplyBudgetTransition | internal/actionledger/lifecycle.go:336-435 | The same for the budget fields, branch by branch. |
| LifecycleObject.LifecycleState.Apply | internal/actionledger/lifecycle.go:130-294 | The same for the dispatch over all nine events. |
| LifecycleObject.LifecycleState.Step | internal/actionledger/lifecycle.go:93-121 | One round of the replay loop on a known call: order and binding checks, the event, and the updates every record makes. |
| Replay.BuildCallStatuses | internal/actionledger/lifecycle.go:78-128 | The statuses that replaying the log gives, one for each call, sorted by call; or the first rejection. |
| Replay.ReplayCalls | internal/actionledger/lifecycle.go:78-121 | The loop over a log, with one mutable lifecycle object per call, gives the statuses (or the first error) of the recursive fold. |
| Replay.ReplayByCall | internal/actionledger/lifecycle.go:78-128 | Replay keeps calls apart: a log is accepted exactly when each call's own records are, and each call ends in the state of its own records alone. |
| CallHistory.AcceptedReaches | internal/actionledger/lifecycle.go:78-294 | Every accepted history starts with its one request_accepted record, keeps one binding, and reaches a state that satisfies the global invariant Reached. |
| CallHistory.NextStep | internal/actionledger/lifecycle.go:89-294 | Every accepted step from an invariant state leads to an invariant state. |
| CallHistory.PrefixAccepted | internal/actionledger/lifecycle.go:78-128 | Acceptance is prefix-closed. |
| CallSafety.HistoryDecides | internal/actionledger/lifecycle.go:159-222 | In every accepted history the decision and dispatch fields record exactly the decision and dispatch events, each at most once. |
| CallSafety.HistoryApproves | internal/actionledger/lifecycle.go:296-334 | The approval fields show approved only when the approving record lies after the decision (or after the inspection). |
| CallSafety.HistoryResults | internal/actionledger/lifecycle.go:223-273 | The result fields record exactly the outcome and the inspection, in the order dispatch, outcome, inspection. |
| CallSafety.HistoryBudgets | internal/actionledger/lifecycle.go:336-435 | All budget records carry the reservation and budget set of the state, and the post-result units are those of the history. |
| CallSafety.HistoryStages | internal/actionledger/lifecycle.go:336-435 | A committed budget was reserved after the decision and committed after the reservation, and after the approval where approval was required. |
| CallSafety.DispatchSafety | internal/actionledger/lifecycle.go:198-222 | Every dispatch in an accepted call is the only one, follows the one pre-call decision, which was allow or warn or required approval and was approved, never block, and if budgeted follows reserved and dispatch_committed with its own reservation. |
| CallSafety.DeliveryInspected | internal/actionledger/lifecycle.go:223-273 | A result is forwarded exactly when the one inspection of the one successful outcome of the one dispatch permits it, or required approval that was approved in between. |
| CallSafety.DeliverySafety | internal/actionledger/lifecycle.go:245-273 | Every final delivery is the only one and the last record of its call, is inspected as above, and comes after the settlement of any budget. |
| CallSafety.PendingApprovalExcludesAll | internal/actionledger/lifecycle.go:141-144 | After a pending approval the next record of the call is the answer to that very request. |
| CallSafety.BudgetBoundOnce | internal/actionledger/lifecycle.go:336-361 | Any two budget records of a call name the same reservation and the same budget set. |
| CallSafety.BudgetEndsOnce | internal/actionledger/lifecycle.go:336-435 | No budget record follows one that ends the budget. |
| CallSafety.SettlementConserves | internal/actionledger/lifecycle.go:394-410 | At settlement the approval units reserved after the result are given back in full and are consumed exactly when the post-result approval was approved by then. |
| LedgerSafety.LogSafety | internal/actionledger/lifecycle.go:78-294 | All of these hold of every call of every accepted log that starts at sequence 1. |
| LedgerSafety.CallAccepted | internal/actionledger/lifecycle.go:78-128 | The status a log reports for a call is the finish of the call's own accepted history. |
| CallEnd.TerminalContinuations | internal/actionledger/lifecycle.go:130-152 | From a complete call exactly two kinds of record are accepted: a terminal failure after a failed outcome, which leaves it complete, and a late reservation after a block, which reopens it. |
| CallEnd.CompleteIsFinal | internal/actionledger/lifecycle.go:130-152 | Once a prefix of an accepted history is complete, no later record of it is a dispatch, an outcome or a delivery. |
| Chain.HeadFollowsChain | internal/actionledger/head.go:47-70 | Advancing the head by a sealed record succeeds exactly when the record extends the chain, and gives the head of the longer chain. |
| Chain.SequencesConsecutive | internal/actionledger/verify.go:163-181 | A verified chain has consecutive sequence numbers. |
| Chain.HeadPinsChain | internal/actionledger/verify.go:162-239 | With an injective digest, two verified retained chains of equal length under one head are identical. |
| LedgerVerify.VerifyLog | internal/actionledger/verify.go:130-240 | Verification accepts exactly the chained records whose calls all replay and that match the head; it reports their span, the dropped-history flag, the exact numbers of events and calls with gaps, and otherwise the first failing check. |
| CheckpointBuild.TerminalCalls | internal/actionledger/checkpoint.go:60-79 | Collecting and sorting the terminal calls gives them in the order of their last records. |
| CheckpointBuild.KeepActive | internal/actionledger/checkpoint.go:73-78 | The filter keeps exactly the records of calls that are not complete, in order. |
| CheckpointBuild.DropCall | internal/actionledger/checkpoint.go:112-120 | The in-place filter removes exactly the records of one call. |
| CheckpointBuild.DigestCalls | internal/actionledger/checkpoint.go:158-164 | The digest loop is the fold over the completed calls. |
| CheckpointBuild.CheckpointFromRecords | internal/actionledger/checkpoint.go:51-90 | Rebuilding with its loops computes the fold over all records. |
| CheckpointBuild.AdvanceCheckpoint | internal/actionledger/checkpoint.go:92-131 | Advancing with its loops computes the one-record step on values. |
| CheckpointAgreement.AdvanceAgreesWithRebuild | internal/actionledger/checkpoint.go:51-131 | On a whole log, advancing by one record and rebuilding from all records agree, in acceptance, head, last record, active records, count and digest, exactly when the record neither starts an unseen call without request_accepted nor continues a complete call. |
| CheckpointAgreement.AppendAgreesWithRebuild | internal/actionledger/checkpoint.go:92-156 | With the terminal-budget route included, the append path agrees with rebuilding exactly when the record is neither such a late start nor a terminal failure after an outcome that completed the call. |
| CheckpointAgreement.CompleteCallsDiffer | internal/actionledger/checkpoint.go:97-99 | A complete call is always refused by advancing; rebuilding accepts exactly the continuations of a complete call. |
| CheckpointAgreement.StartingLate | internal/actionledger/lifecycle.go:80-104 | A first record other than request_accepted is refused with whole history, and with dropped history accepted exactly for the events that may start a call whose beginning is missing. |
| CheckpointAgreement.FullRoute | internal/actionledger/lifecycle.go:78-128 | Replaying the log with one more record depends on that record's call only, and changes that call's status only. |
| CheckpointAgreement.ActiveRoute | internal/actionledger/checkpoint.go:104-108 | So does replaying the active records with it. |
| CheckpointExamples.LateStartAccepted | internal/actionledger/lifecycle.go:80 | A log on which advancing accepts a call that starts late and replaying rejects it: the dropped-history flag was taken from the active records only. |
| CheckpointExamples.FailureAfterOutcomeRejected | internal/actionledger/checkpoint.go:97-99 | A log on which advancing rejects a terminal failure that replaying accepts. |
| Retention.AppendKeeps | internal/actionledger/checkpoint.go:136-156 | Appending on either route keeps every open call's records, including a blocked call reopened by a late reservation, unless the call was forgotten before. |
| Retention.RotationKeepsOpen | internal/actionledger/store.go:290-315 | Dropping the oldest archive under the guard keeps all records of every open call. |
| Retention.FastRouteIndex | internal/actionledger/checkpoint.go:92-131 | Advancing keeps the checkpoint an exact index of the open calls. |
| Retention.FastRouteBlocks | internal/actionledger/checkpoint.go:109-124 | A call that the record blocks is put among the terminal calls, so that its late reservation takes the revalidating route. |
| Retention.RebuiltIndexGood | internal/actionledger/checkpoint.go:51-90 | Rebuilding from kept records that hold every open call gives an exact index again. |
| Retention.BlockedSeenComplete | internal/actionledger/lifecycle.go:437-445 | A log that keeps only the end of a blocked call still shows it complete. |
| Retention.LostStays | internal/actionledger/checkpoint.go:136-156 | A call that was reopened after its records were dropped misses records, and goes on missing them. |
| Retention.KnownNotLost | internal/actionledger/store.go:199-288 | A record that requests a new call, or whose call still has its request retained, makes no call lost. |
| Retention.SlowRouteLawful | internal/actionledger/checkpoint.go:136-156 | Such a record accepted by replaying the retained records is accepted by its call's whole history. |
| Retention.FastRouteLawful | internal/actionledger/checkpoint.go:92-131 | So is one accepted by advancing the checkpoint. |
| Truncation.TailReplays | internal/actionledger/lifecycle.go:78-445 | Replay accepts what rotation left of an accepted history if and only if every record left still finds, among the records left before it, what missing history does not excuse. |
| Truncation.CutReplays | internal/actionledger/lifecycle.go:296-435 | The same by positions: it is the place of outcome, commitment, decision and approval before each later record, at or after the cut, that decides. |
| Truncation.ApprovalCut | internal/actionledger/lifecycle.go:296-334 | A call with a post-result approval, cut between its outcome and that approval, does not replay. |
| Truncation.PlainCallReplays | internal/actionledger/lifecycle.go:78-294 | A call without budget and without post-result approval replays from every cut. |
| Truncation.KeptReplays | internal/actionledger/lifecycle.go:78-128 | A whole log with its beginning dropped replays if and only if the rest of every call is rooted. |
| Truncation.RotationReplays | internal/actionledger/store.go:290-315 | Dropping an archive keeps a replayable log replayable if and only if the rest of every call with records in it is rooted. |
| Truncation.KnownReplays | internal/actionledger/store.go:199-288 | A record of a call that is still whole leaves a replayable log replayable. |
| RetentionExamples.ForgottenRun | internal/actionledger/checkpoint.go:92-131 | For any sizes of records and files within the limits: a run of appends and a restart after which a blocked call, whose records were all rotated away, is open again and misses its start. |
| RetentionExamples.DenialRun | internal/actionledger/store.go:290-315 | For any sizes too: a run of appends that follow the protocol, with permitted rotations only, whose retained log does not replay; after a restart every append is refused. |
| LedgerStore.Store.Append | internal/actionledger/store.go:199-288 | Over every run of appends, crashes, restarts and recoveries: the retained records stay a suffix of all appended ones, open calls keep all their records but for the reopened ones, of which each misses some, and the head is at the tail or one behind. Outcome, chain, files and published checkpoint are exactly the effects of the decision on the starting checkpoint. A call that still has a retained record is never lost; and while the caller appends only requests of new calls and records of calls whose request is retained, the whole log replays. |
| LedgerStore.Store.RetainedReplays | internal/actionledger/lifecycle.go:78-128 | The retained log of a good store, of which the whole log replays, replays itself if and only if what it holds of each call is rooted. |
| LedgerStore.Store.LoadsExactly | internal/actionledger/store.go:470-484 | A restarted store loads its checkpoint exactly then, and refuses every append otherwise. |
| LedgerStore.Store.RotationRule | internal/actionledger/store.go:290-315 | The next append leaves the retained log replayable if and only if it does not rotate, or leaves a rooted rest of each call in the archive that goes. |
| LedgerStore.Store.Prepare | internal/actionledger/store.go:224-268 | The prepare step decides as specified: repeated record, invalid, too large, refused by its route, or unsafe to rotate for, in this order. |
| LedgerStore.Store.Route | internal/actionledger/store.go:252-262 | First record, terminal budget or advance: the result is that of the next-checkpoint function, and the new checkpoint indexes every open call exactly. |
| LedgerStore.Store.ProtectActiveCalls | internal/actionledger/store.go:290-315 | True exactly when no rotation is due, nothing would be dropped, or every open call starts after what would be dropped. |
| LedgerStore.Store.Write | internal/actionledger/store.go:269-288 | The record goes to the live file or, after rotation, to a fresh one; a crash after the record leaves the head one behind. |
| LedgerStore.Store.LoadCheckpoint | internal/actionledger/store.go:470-484 | The cached checkpoint, or one rebuilt from the verified records; on a good store the chain and head checks never fail, so it is refused exactly when the retained records do not replay. |
| LedgerStore.Store.CommitHead | internal/actionledger/store.go:421-468 | Recovery publishes the head of the tail whatever follows, and succeeds exactly when the retained records replay. |
| LedgerStore.Store.RecoverTwice | internal/actionledger/store.go:396-468 | After a recovery the head matches the tail, and a second one changes neither head nor checkpoint. |
| LedgerStore.Store.HeadPosition | internal/actionledger/store.go:434-452 | The test that recovery makes tells exactly whether a crash left the head behind, and then the tail advances it. |
| LedgerStore.Store.Verifies | internal/actionledger/verify.go:162-239 | The chain and head checks pass on every reachable store that is not between crash and recovery. |
| LedgerStore.Store.VerificationRefuses | internal/actionledger/verify.go:130-240 | Verification of a good store fails in its lifecycle replay only, and then rebuilding the checkpoint fails with the same rejection. |
| GlobMatch.RoundProgress | internal/action/glob.go:663-748 | Every round of the greedy search keeps its configuration sane and lowers a lexicographic measure, so the search ends without any budget. |
| GlobMatch.SearchSound | internal/action/glob.go:663-748 | A positive answer is right for every program: some split of the value matches. |
| GlobComplete.SearchComplete | internal/action/glob.go:663-748 | On regular programs no round gives up the last matching split. |
| GlobComplete.GreedyDecides | internal/action/glob.go:663-748 | With two backtrack points the greedy search decides exactly whether some split matches, when `**/` is segment-aligned, no class after a branching token takes both a '/' and another character of the value, and no suffix marked empty holds a `**/`. |
| GlobIrregular.ExactBetween | internal/action/glob.go:663-748 | Of a program that is two stars with a class between them, among literals, the search decides every value exactly when the class does not accept both '/' and another character. |
| GlobExamples.ClassWithSlashMissesMatch | internal/action/glob.go:663-748 | `*[a/]*b` on "a/b": a split exists, and the search misses it. |
| GlobExamples.TrailingDirectoriesMissMatch | internal/action/glob.go:663-752 | `**/a/**/` on "a/a": a split exists, and the search misses it. |
| GlobRun.SkipSegment | internal/action/glob.go:663-748 | The scan for the next segment spends one unit a code point and finds the next '/', or the counter stops it. |
| GlobRun.Backtrack | internal/action/glob.go:663-748 | A failed attempt resumes the star, else the directories token, at the exact cost, or the counter stops it. |
| GlobRun.Match | internal/action/glob.go:663-748 | The loop over backtrack variables gives the answer of the search, and stops early exactly when the counter yields less than the search's work: because too little remains, or because the control gave a reason. |
| GlobRun.MatchWithWork | internal/action/glob.go:592-617 | Under a shared budget and a control a complete answer depends on neither, a complete match is real, and on regular programs a complete miss is too; an incomplete one has a reason of the control, or the limit was too small. |
| GlobRun.MatchWorkLimit | internal/action/glob.go:619-636 | The guarded sum is the smaller of the limit and the exact total. |
| GlobRun.MatchWork.Take | internal/action/glob.go:645-661 | The counter yields one unit exactly while any is left before the control, asked every 64 units, gives a reason to stop. |
| GlobCompile.CompileClass | internal/action/glob.go:529-565 | Reading a class in place gives the class of the text after '['. |
| GlobCompile.PlainClassAccepts | internal/action/glob.go:754-771 | A class of plain characters accepts exactly these, and its negation exactly the others. |
| GlobCompile.RangeClassAccepts | internal/action/glob.go:539-556 | A class of one range accepts the range, and its lower end even when the range is empty. |
| GlobCompile.CompileToken | internal/action/glob.go:454-506 | The token at a place is the one that the grammar reads there; none only for an unclosed class. |
| GlobCompile.CompileProgram | internal/action/glob.go:449-527 | The tokens spell the whole pattern, each as its place calls for, the program is segment-aligned, and compiling fails only at a class that is never closed. |
| GlobReading.ReadingUnique | internal/action/glob.go:449-527 | The grammar is unambiguous: the program that compiling returns is the only one for its pattern. |
| GlobReading.UnclosedUnread | internal/action/glob.go:529-565 | A pattern with an unclosed class has no reading, so compiling fails exactly there. |
| GlobCount.CountPrograms | internal/action/glob.go:171-200 | The count is exact up to the limit and refused above it, without an intermediate number above it. |
| GlobCount.ReplaceCount | internal/action/glob.go:212-247 | Replacing a group never raises the count, and no group has more alternatives than its pattern has programs. |
| GlobExpansion.ReplaceSound | internal/action/glob.go:212-247 | Replacing a group by one of its alternatives adds no string. |
| GlobExpansion.ReplaceComplete | internal/action/glob.go:212-247 | Replacing it by each of them loses none. |
| GlobExpansion.DenotedBound | internal/action/glob.go:119-200 | Distinct denoted strings are no more than the count. |
| GlobExpand.PushAlternatives | internal/action/glob.go:150-165 | One group adds exactly its new alternatives to the queue, and stops exactly at the state limit. |
| GlobExpand.ExpandAlternatives | internal/action/glob.go:119-169 | The expansion ends; its programs are exactly the strings the nested expression denotes, each once and no more than counted; it is refused exactly when the count, or the number of reachable states, exceeds its limit. |
| GlobStates.AllVisited | internal/action/glob.go:134-166 | A queue that is done holds every reachable state. |
| DecimalSyntax.Unambiguous | internal/action/value.go:80-148 | A JSON number (section 6 of RFC 8259) splits into sign, integer, fraction and exponent in one way. |
| DecimalParse.ScanNumber | internal/action/value.go:80-148 | The scan accepts exactly the JSON numbers with an exponent in range, and finds their parts. |
| DecimalParse.Accumulate | internal/action/value.go:131-144 | The exponent is accumulated exactly, and refused exactly when it leaves the range. |
| DecimalParse.Normalize | internal/action/value.go:149-203 | Cutting leading and trailing zeros keeps the exact value, gives the normal form, and refuses exactly the normal forms outside the limits. |
| DecimalParse.ParseDecimal | internal/action/value.go:76-204 | A lexeme is accepted exactly when a canonical decimal has the value it writes, and that decimal is returned, the only one. |
| DecimalParse.SameWritten | internal/action/value.go:76-204 | No lexeme writes two canonical decimals. |
| DecimalParse.ParsePrinted | internal/action/value.go:206-223 | Parsing the printed form of a canonical decimal gives it back. |
| DecimalOrder.CompareDigits | internal/action/value.go:302-321 | Comparing digit strings padded with zeros is the sign of the difference of their numbers. |
| DecimalOrder.CompareMagnitude | internal/action/value.go:290-300 | Comparing by decimal magnitude first is the sign of the exact difference of magnitudes. |
| DecimalOrder.Compare | internal/action/value.go:255-288 | Comparison is the sign of the exact difference, hence a total order. |
| DecimalOrder.NormalUnique | internal/action/value.go:149-203 | Every value has one normal form. |
| DecimalOrder.EqualIffSameValue | internal/action/value.go:243-251 | Equality of representations is equality of values. |
| UintText.DecodesPrinted | internal/actionapproval/types.go:115-145 | Every uint64 is read back from its canonical print, with or without an exponent. |
| JsonRead.ReadsBack | internal/action/value.go:650-873 | Whatever the validator admits at a depth and item count is read back from its print, with the same item count, so the reader's own limits never refuse it. |
| JsonRead.AscendingObject | internal/action/value.go:361-376 | An object with ascending names is made of its members unchanged. |
| JsonLimits.AdmitExact | internal/action/request_normalize.go:375-446 | The validator's running counter admits exactly the values whose parts fit and whose total item count is within the limit, and ends at that total. |
| JsonLimits.ReadFits | internal/action/value.go:789-873 | Whatever the reader produces fits every limit of the validator, sorted and free of duplicates, with its items counted. |
| JsonLimits.ReaderAgrees | internal/action/request_normalize.go:375-446 | A value can be produced by the reader exactly when the validator admits it. |
| JsonCodec.AppendJson | internal/action/value.go:650-708 | Printing appends exactly the printed pieces, or fails exactly when the value is too deep. |
| JsonCodec.QuotedSize | internal/action/value.go:613-641 | The size of a quoted string is the length of its escaped text in UTF-8. |
| JsonCodec.DecimalDigits | internal/action/value.go:598-611 | The digit count is the length of the printed exponent, with its sign. |
| JsonCodec.NumberSize | internal/action/value.go:584-596 | The size of a number is its printed length. |
| JsonCodec.CanonicalSize | internal/action/value.go:499-582 | The size computed without printing is exactly the printed length, at every depth. |
| JsonCodec.AdmittedShape | internal/action/request_normalize.go:375-446 | Whatever is admitted can be printed and measured. |
| JsonCodec.Reader.Read | internal/action/value.go:789-819 | The reader with its mutable position and item counter follows the recursive reading, in result, position and count. |
| JsonCodec.Reader.ReadArray | internal/action/value.go:821-842 | The same for the array loop. |
| JsonCodec.Reader.ReadObject | internal/action/value.go:844-873 | The same for the object loop. |
| JsonCodec.ParseJson | internal/action/value.go:730-750 | A text is accepted exactly when its length is within the limit and the tokens delivered of it are one value and nothing more. |
| JsonText.QuotedReads | internal/action/value.go:710-719 | The printed form of a string is read back up to its closing quote, whatever follows. |
| JsonText.EscapesApart | internal/action/value.go:710-719 | No two strings have one printed form. |
| JsonText.RenderReads | internal/action/value.go:650-708 | The tokens (sections 2 to 7 of RFC 8259) of a printed text are the pieces it was printed from. |
| JsonText.ValueDelivered | internal/action/value.go:650-708 | Every separator of a printed value is in its place, and the decoder delivers the rest. |
| JsonText.ParseText | internal/action/value.go:730-750 | A text is accepted exactly when its length is within the limit and it denotes a value within the reader's limits, which is returned. |
| JsonText.TextRoundTrip | internal/action/value.go:650-873 | The printed text of every admitted value denotes that value. |
| JsonText.PrintThenRead | internal/action/value.go:650-873 | Printing an admitted value and parsing the text gives the value, exactly when the text is within the byte limit. |
| JsonText.TextsApart | internal/action/value.go:650-708 | No two admitted values have one printed text. |
| JsonText.CanonicalText | internal/action/value.go:650-873 | Whatever a text denotes is admitted, and its printed text denotes it again. |
| Pointer.UnescapeEscaped | internal/actioninspect/engine.go:730-732 | Unescaping an escaped token gives the token (sections 3 and 4 of RFC 6901), and no '/' is left in it. |
| Pointer.EscapeUnescaped | internal/action/predicate.go:26-49 | An accepted token is the escaped form of what it stands for. |
| Pointer.CompilePointer | internal/action/predicate.go:18-50 | The loops over tokens and bytes compute the pointer's tokens, or refuse it. |
| Pointer.CompileRoundTrip | internal/action/predicate.go:18-50 | Escaping tokens and compiling the pointer gives the tokens back. |
| Pointer.PointerOfCompiled | internal/action/predicate.go:18-50 | An accepted pointer is the only one for its tokens. |
| Pointer.Lookup | internal/action/value.go:435-444 | Binary search finds the member of that name, if there is one. |
| Pointer.ResolveTokens | internal/action/pointer_eval.go:31-59 | The loop over tokens steps through objects and arrays as specified, and stops at the first token that fails. |
| Pointer.IndexReadsBack | internal/action/pointer_eval.go:61-75 | Every array index is read back from its decimal print. |
| Pointer.ScannedPointerResolves | internal/actioninspect/engine.go:424-475 | The pointer built while walking a value compiles to its tokens and resolves to the part that was visited. |
| Pointer.AdmittedSorted | internal/action/request_normalize.go:401-429 | Admitted values have sorted objects and indexable arrays, as resolving needs. |
| ConditionSkip.SkippedExact | internal/action/condition_eval.go:177-236 | A subtree recognised as skippable has, whatever the request, exactly the metadata that evaluating it gives. |
| ConditionSkip.SkippedMetadata | internal/action/condition_eval.go:177-236 | The recogniser with its loop computes that recognition. |
| ConditionSkip.EvaluateLogical | internal/action/condition_eval.go:113-165 | The loop that skips under a decided parent returns what evaluating every child returns. |
| ConditionSkip.Evaluate | internal/action/condition_eval.go:24-57 | The whole evaluator returns the same state, reason, provenances, completeness, summary and node count as evaluating everything. |
| ConditionMeaning.EvaluationMeans | internal/action/condition_eval.go:24-165 | Within the limits the state is the Kleene value of the tree and the count is its size. |
| ConditionMeaning.EvaluationConsistent | internal/action/condition_eval.go:24-303 | Every evaluation is complete exactly when it is decided, and has a reason exactly when it is not. |
| ConditionCompile.SortSorts | internal/action/predicate.go:143-150 | The stable sort of children is sorted and a permutation. |
| ConditionCompile.CompileAccepts | internal/action/predicate.go:52-122 | A condition compiles exactly when it is well shaped, its predicates compile, it is no deeper than the limit and its total node count is within the limit, although each level checks its own count. |
| ConditionCompile.CompiledFits | internal/action/predicate.go:52-122 | A compiled tree is proper, within depth and node limits, and its reported count is its size. |
| ConditionCanonical.CompileTree | internal/action/predicate.go:52-122 | The compiler with its loops computes the compiled tree or the first error. |
| ConditionCanonical.CompileChildren | internal/action/predicate.go:124-152 | So does the loop over the children of a group. |
| ConditionCanonical.ReorderedCompile | internal/action/predicate.go:124-152 | Conditions that differ in the order of children only are refused alike or give the same canonical tree. |
| ConditionCanonical.CanonicalRecompiles | internal/action/predicate.go:52-180 | The canonical source of a compiled tree compiles to the same tree. |
| ConditionCanonical.CompiledEvaluation | internal/action/condition_eval.go:24-57 | Evaluating a compiled condition gives the Kleene meaning of its source, never trips the depth or node limit, and counts every node. |
| DecisionCache.DecisionCache.StoreIdentity | internal/action/decision_cache.go:101-134 | Stored exactly when admissible; the order stays the key set without repeats, the counter the sum of sizes, both bounds hold; what is left is exactly the longest fitting tail, with entries unchanged; a new identity is found afterwards. |
| DecisionCache.DecisionCache.LookupIdentity | internal/action/decision_cache.go:67-85 | The result stored under an eligible identity, and nothing else. |
| DecisionCache.DecisionCache.Evict | internal/action/decision_cache.go:124-131 | The eviction loop ends and leaves that tail. |
| DecisionCache.KeptIsLongest | internal/action/decision_cache.go:124-131 | No longer tail fits: nothing is evicted without need. |
| DecisionCache.SurvivesExactly | internal/action/decision_cache.go:101-134 | An entry survives exactly when it and everything younger fit together. |
| DecisionCache.NewestStays | internal/action/decision_cache.go:101-134 | A new entry is never evicted by its own arrival. |
| DecisionCacheExamples.GrownOut | internal/action/decision_cache.go:112-131 | A run in which a result stored again under its identity is reported as stored and is not found. |
| ApprovalStore.ApprovalStore.RecordIndex | internal/actionstate/approval.go:1042-1050 | Binary search finds the record of a request, or tells that there is none. |
| ApprovalStore.ApprovalStore.Write | internal/actionstate/store.go:311-372 | A state is published exactly when its records are valid and the files take it; otherwise nothing changes. |
| ApprovalStore.ApprovalStore.Issue | internal/actionstate/approval.go:379-438 | Issued exactly when there is room, the call phase has no record and the identifier none, the call is admissible, its reservation is there and chargeable and the write succeeds; then the records gain one, in order. |
| ApprovalStore.ApprovalStore.Finish | internal/actionstate/approval.go:788-852 | The error, or the new record and reservations, are exactly those of ending the reservation and counting its denial; a receipt that another record has is refused; an exhausted capacity for denials is reported although the state was written. |
| ApprovalStore.ApprovalStore.Consume | internal/actionstate/approval.go:452-632 | Approved exactly when the pending record, version, binding, receipt, charge and write allow it and the receipt is used nowhere else; a receipt that does not approve is answered exactly as its refusal calls for. |
| ApprovalStore.ApprovalStore.Refuse | internal/actionstate/approval.go:488-506 | A receipt that does not approve ends the request with the status and receipt it calls for, or reports exactly why it could not and changes nothing. |
| ApprovalExamples.RejectionLost | internal/actionstate/approval.go:497-506 | A run in which a receipt that was used before rejects a second request: the write is refused and the request stays pending; had it approved, the request would have ended. |
| ApprovalStore.ApprovalStore.Finalize | internal/actionstate/approval.go:646-684 | Exact success condition; a finished record is reported again, with the denial it counted, and nothing changes; an exhausted capacity is an error the first time only. |
| ApprovalStore.ApprovalStore.Reconcile | internal/actionstate/approval.go:710-756 | Expires exactly the due records, with their reservations ended and their denials counted one after the other, or changes nothing; an exhausted capacity is reported exactly when one of them met it. |
| ApprovalStore.ApprovalStore.ReconcileTwice | internal/actionstate/approval.go:710-756 | A second reconciliation at the same time finds nothing to do. |
| ApprovalStore.ApprovalStore.Abandon | internal/actionstate/budget_transition.go:224-250 | Ends exactly the owner's pending approvals with live reservations and marks exactly its reservations indeterminate, or changes nothing; exact success condition. |
| ApprovalStore.ApprovalStore.ScanAbandoned | internal/actionstate/approval.go:854-875 | The loop over pending approvals, with its exact failure condition. |
| ApprovalStore.RunKeepsFinished | internal/actionstate/approval.go:379-875 | Over every run a record leaves pending at most once: once finished it never changes again. |
| ApprovalStore.RunEvolves | internal/actionstate/approval.go:379-875 | Over every run each record of an earlier state is still there in a later one, unchanged or finished from pending. |
| ApprovalStore.ReceiptSpentOnce | internal/actionstate/approval.go:594-612 | Over every run a receipt decides at most one request, and a call phase has at most one finished record. |
| ApprovalStore.ApprovalStore.PerformAll | internal/actionstate/approval.go:379-875 | Any sequence of issuing, consuming, finalizing, reconciling and abandoning is such a run. |
| ApprovalStore.FinishKeepsGood | internal/actionstate/state_validate.go:256-349 | Finishing a pending record gives valid records exactly when its receipt, if any, is used nowhere else. |
| ApprovalStore.InsertKeepsGood | internal/actionstate/state_validate.go:256-349 | Inserting a pending one gives valid records exactly when no record has its identifier. |
| ApprovalStore.ExpireTwice | internal/actionstate/approval.go:710-756 | Expiring twice at one time is expiring once. |
| ApprovalStore.EndReservationExact | internal/actionstate/approval.go:820-852 | Only a call that was never dispatched loses its reservation, and no other does. |
| Marker.NoOverlap | buildprovenance/provenance.go:38-48 | No marker begins inside another. |
| Marker.OneEnd | buildprovenance/provenance.go:38-48 | At most one marker stands at a place. |
| Marker.RecogniseExact | buildprovenance/provenance.go:38-48 | The recogniser finds the marker at a place exactly when one stands there. |
| Marker.MovedSpan | buildprovenance/provenance.go:38-48 | Whether a stretch is a marker depends on the stretch alone. |
| MarkerScan.FindAllExact | buildprovenance/provenance.go:205-206 | Searching left to right without overlap finds every marker of a window. |
| MarkerScan.ScanWindow | buildprovenance/provenance.go:205-216 | The loop over the matches of a window gives what they add to what was seen, or finds that a second marker is among them. |
| MarkerScan.WindowKnown | buildprovenance/provenance.go:202-222 | After one window the scan has seen markers only, and every one that is not too long; a second one makes the file ambiguous. |
| MarkerScan.OneAnswer | buildprovenance/provenance.go:188-230 | Every content has one answer. |
| MarkerScan.ScanBinaryMarker | buildprovenance/provenance.go:188-230 | The loop over the reads computes the scan; its answer (none, one with its text, ambiguous, too large) is that of the whole content, however the file is split into reads, when no marker is longer than 1024 bytes or two are not. |
| MarkerScan.ScanAnswers | buildprovenance/provenance.go:188-230 | The same of the scan as a function of its reads. |
| MarkerScan.ScanExact | buildprovenance/provenance.go:188-230 | For a file within the size limit that condition is exact: otherwise some way of reading it gives a wrong answer. |
| MarkerExamples.LongMarkerSplit | buildprovenance/provenance.go:217-221 | A content that is one marker of more than 1024 bytes is answered by one read, and missed by reads of one byte. |
| MarkerExamples.ReadsDiffer | buildprovenance/provenance.go:217-221 | There is such a content. |

## Left out

Of the ledger:

- Lifecycle.Apply: its contract states the frame of a step only; what each event needs and changes is stated by the theorems of `CallSafety` and `CallEnd` over whole histories.
- Budget deltas are unbounded integers; the program's are 64-bit, and it negates one of them when a budget settles.
- The checkpoint and the verification take the statuses keyed by call, not as the sorted list that `Replay.BuildCallStatuses` returns.
- The check that a record's identity keys are of the store's key generation, and label, path, enum and identity formats.
- Locks, leases, the JSONL transaction and its own recovery, file permissions: a crash is modelled at two points, after the record and after the head.
- File generations: whether the cached checkpoint may be used is an input of `Append` and `LoadCheckpoint`.
- Files with foreign or damaged content: the model's store holds only what it wrote, so on it the chain and head checks never fail; `LedgerVerify.VerifyLog` covers arbitrary sealed records.
- LedgerVerify.VerifyLog: takes decoded, sealed records; the archive count and the state of a report between two failures are left out.
- Retention.AppendKeeps: speaks of the calls outside `lost`; that those inside miss records is `Retention.LostStays`, and that a disciplined caller loses none is `Retention.KnownNotLost`.
- Latency, retention of evidence details, report rendering, export, and the control mapping.

Of the glob engine:

- GlobComplete.GreedyDecides: the condition is sufficient, not necessary; some irregular programs are decided correctly on every value. It is exact for the programs of `GlobIrregular.ExactBetween`.
- GlobCompile.CompileProgram: compiles brace-free patterns; the byte accounting of the result is left out.
- GlobExpand.PushAlternatives: duplicates are recognised on syntax trees, not by the program's keys of text and overrides.
- GlobExpand.ExpandAlternatives: without the override states, the limit on expansion bytes and the final sort.
- Brace overrides (`zeroOverrides`, `starOverrides`, `segmentResets`): matching is proved on brace-free programs and expansion on the syntax tree of a brace pattern.
- Finding and splitting brace groups in the text, the limit on expansion bytes, and the final sort of the programs by their keys.
- The library's answer for the empty value, from which the table of empty suffixes is filled, is a parameter of `GlobCompile.CompileProgram`.
- Values and patterns are code points, one unit of work each; the program counts UTF-8 bytes in its work limit and steps by code point.

Of the values:

- The token decoder of JSON is a library; `JsonText` models it by the tokens and separators of RFC 8259. Which of several errors a refused text reports is not modelled.
- JsonRead.ReadsBack: is about delivered tokens; `JsonText.TextRoundTrip` is the same about texts.
- JsonCodec.ParseJson: starts from delivered tokens and the length of the text; `JsonText.ParseText` starts from the text.
- Invalid UTF-8; strings are sequences of code points, with lengths in UTF-8 bytes.
- `addJSONSize` guards an overflow of a 64-bit size that the model's unbounded integers do not have.
- `decodeCanonicalUint64` also trims surrounding white space, which no canonical print has.
- Order and kind of the errors of a refused JSON object.
- Pointer.ScannedPointerResolves: speaks of the parts whose pointer is within the length bound; the scan's detectors, limits and evidence are left out.

Of the conditions:

- The operators other than `exists`, the selection of context values and the operand summaries are parameters; so is compiling one predicate.
- The write-back of the sorted children into the compiler's input.
- ConditionCanonical.ReorderedCompile: needs a sort key that tells compiled children apart; the program's key is their JSON text.

Of the stateful pieces:

- The size estimate of a cached result is a parameter, and results are immutable values, so cloning leaves no trace.
- What charging a reservation comes to (refused, or made with the denials counted) is a parameter; the clock and the state file are left out.
- ApprovalStore.ApprovalStore.Consume: binding checks and signatures are parameters.
- ApprovalStore.ApprovalStore.Write: its validation covers order, call phases, receipts and capacities of the approval records, not nonces, signatures and charges.
- ApprovalStore.RunKeepsFinished: holds of a record until it is pruned; pruning of finished approvals is left out.
- Receipts' signatures and the sealing of request states.
- MarkerScan.ScanBinaryMarker: read errors are left out, and the regular expression is matched by a recogniser of its own.
- Selectors, policies, detectors, control packs, gateways and the command line are not part of this project.
