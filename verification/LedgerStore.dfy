// The ledger store: append with rotation into two archives, crash and recovery
// (internal/actionledger/store.go). Files hold records; an empty file is absent.
module LedgerStore {
  import opened Wrappers
  import opened LedgerTypes
  import opened LedgerValidate
  import opened Lifecycle
  import opened CallHistory
  import opened Replay
  import opened Chain
  import opened LedgerVerify
  import opened Checkpoint
  import opened CheckpointAgreement
  import opened CheckpointBuild
  import opened Retention
  import opened Truncation

  datatype AppendError =
    | RepositoryMismatch
    | InvalidRecord
    | LedgerCorrupt
    | Refused(cause: CheckpointError)
    | WouldPruneOpenCall
    | RecordTooLarge

  datatype AppendOutcome = Appended(record: Record) | NotAppended(error: AppendError) | Crashed

  // Where the process dies during an append: never, after the record is in the
  // live file, or after the head is published too.
  datatype Crash = NoCrash | AfterRecord | AfterHead

  datatype Cache = Cache(checkpoint: Checkpoint, terminalIds: set<Identity>)

  // What an append reports and leaves: its outcome, the whole chain, the three files,
  // and the checkpoint it publishes if it wrote a record.
  datatype Effect = Effect(
    out: AppendOutcome, all: seq<Record>, files: (seq<Record>, seq<Record>, seq<Record>), published: Option<Cache>)

  // What the prepare step hands to the write: the last record again, or a new one.
  datatype Prepared =
    | Duplicate(sealed: Record)
    | Next(sealed: Record, cache: Cache, statuses: CallTable)

  const MAX_RECORD_BYTES := 65536

  function LastSequence(log: seq<Record>): nat {
    if log == [] then 0 else log[|log| - 1].sequence
  }

  class Store {
    const repository: Identity
    const hash: Hash
    const mix: Mix
    const size: Record -> nat   // encoded bytes of a record, without its newline
    const maxBytes: nat

    var live: seq<Record>
    var archive1: seq<Record>
    var archive2: seq<Record>
    var head: Option<Head>
    var pending: bool           // an append was cut between record and head
    var cache: Option<Cache>

    ghost var all: seq<Record>        // every record ever appended
    ghost var lost: set<Identity>     // calls reopened after all their records were dropped

    function Retained(): seq<Record>
      reads this`live, this`archive1, this`archive2
    {
      archive2 + archive1 + live
    }

    function FileBytes(log: seq<Record>): nat
    {
      if log == [] then 0 else FileBytes(log[..|log| - 1]) + size(log[|log| - 1]) + 1
    }

    ghost predicate WholeChain()
      reads this
    {
      && Chained(hash, repository, all)
      && (all != [] ==> all[0].sequence == 1 && live != [])
      && (archive2 != [] ==> archive1 != [])
      && Suffix(Retained(), all)
    }

    ghost predicate HeadGood()
      reads this
    {
      if pending then
        all != [] && cache.None? && head == if |all| == 1 then None else Some(HeadOf(all[..|all| - 1]))
      else
        head == if all == [] then None else Some(HeadOf(all))
    }

    ghost predicate CacheGood()
      reads this
    {
      cache.Some? ==>
        var cp := cache.value.checkpoint;
        && all != [] && !pending
        && cp.head == HeadOf(all) && cp.lastRecord == all[|all| - 1]
        && IndexGood(all, Retained(), cp.activeRecords, cache.value.terminalIds, lost)
    }

    // The retained records are a suffix of one whole chain; the head is at its end,
    // or one record behind after a crash; every open call keeps all its records,
    // except the calls in `lost`, of which some are missing; the cache knows every
    // open call exactly.
    ghost predicate Good()
      reads this
    {
      && WholeChain() && HeadGood() && CacheGood()
      && KeepsOpenCalls(all, Retained(), lost) && LostMissing(all, Retained(), lost)
    }

    constructor (repository: Identity, hash: Hash, mix: Mix, size: Record -> nat, maxBytes: nat)
      ensures Good() && all == [] && lost == {} && !pending && cache.None?
      ensures live == [] && archive1 == [] && archive2 == []
      ensures this.repository == repository && this.hash == hash && this.mix == mix
      ensures this.size == size && this.maxBytes == maxBytes
    {
      this.repository, this.hash, this.mix, this.size, this.maxBytes := repository, hash, mix, size, maxBytes;
      live, archive1, archive2 := [], [], [];
      head, pending, cache := None, false, None;
      all, lost := [], {};
    }

    // The process ends: only what is durable stays.
    method Restart()
      requires Good()
      modifies this`cache
      ensures Good() && cache.None?
    {
      cache := None;
    }

    lemma RetainedFacts()
      requires WholeChain()
      ensures AllValid(all) && AllValid(Retained())
      ensures all != [] ==> Retained() != [] && Retained()[|Retained()| - 1] == all[|all| - 1]
      ensures Increasing(all) && Increasing(Retained())
      ensures Chained(hash, repository, Retained())
    {
      hide Valid;
      SuffixFacts(hash, repository, all, Retained());
    }

    // The chain and head checks of verification always pass on a good store.
    lemma Verifies()
      requires Good() && !pending && all != []
      ensures head.Some? && Chained(hash, repository, Retained()) && HeadMatches(Retained(), head.value, repository)
      ensures forall i :: 0 <= i < |Retained()| ==> Sealed(hash, Retained()[i])
    {
      hide Valid, Sealed, HeadMatches, HeadOf, KeepsOpenCalls, CacheGood;
      RetainedFacts();
      KeptVerifies(hash, repository, all, Retained());
    }

    // So verification of a good store fails in one way only, and then rebuilding fails
    // alike.
    lemma VerificationRefuses(e: VerifyError)
      requires Good() && !pending && all != []
      requires match e
               case LifecycleInvalid(x) => Statuses(Retained()) == Err(x)
               case HeadMissing => head.None?
               case HeadMismatch => !(head.Some? && HeadMatches(Retained(), head.value, repository))
               case _ => exists i: nat :: FaultAt(hash, repository, Retained(), i)
      ensures e.LifecycleInvalid? && FromRecords(mix, Retained(), head) == Err(LifecycleRejected(e.rejection))
    {
      hide Valid, Statuses, KeepsOpenCalls, CacheGood, LostMissing, HeadMatches, HeadOf;
      Verifies();
    }

    // The cache that rebuilding from the retained records gives.
    function RebuiltCache(): Option<Cache>
      reads this
    {
      match FromRecords(mix, Retained(), head)
      case Err(_) => None
      case Ok(built) => Some(Cache(built.checkpoint, TerminalIds(built.statuses)))
    }

    lemma RebuiltCacheGood()
      requires Good() && !pending && RebuiltCache().Some?
      ensures all != []
      ensures var cp := RebuiltCache().value.checkpoint;
              && cp.head == HeadOf(all) && cp.lastRecord == all[|all| - 1]
              && IndexGood(all, Retained(), cp.activeRecords, RebuiltCache().value.terminalIds, lost)
    {
      hide Valid, Statuses, IndexGood, KeepsOpenCalls, HeadOf, ActiveOf, CompletionOrder;
      RetainedFacts();
      RebuiltIndexGood(all, Retained(), lost);
    }

    // Publishes the head of the retained tail, unless it is already there.
    method PublishHead()
      requires Good() && all != []
      modifies this`head, this`pending
      ensures Good() && !pending && head == Some(HeadOf(all))
      ensures !old(pending) ==> head == old(head)
    {
      hide Valid, KeepsOpenCalls, IndexGood, HeadOf, AdvanceHead, NewHead, Chained;
      RetainedFacts();
      HeadPosition();
      var records := Retained();
      var last := records[|records| - 1];
      if !(head.Some? && head.value.lastSequence == last.sequence && head.value.lastDigest == last.digest) {
        if head.None? {
          head := Some(NewHead(last));
        } else {
          var next := AdvanceHead(head.value, last);
          head := Some(next.value);
        }
        pending := false;
      }
    }

    // Verifies the retained records and rebuilds the checkpoint from them.
    method RebuildCheckpoint() returns (err: Option<AppendError>)
      requires Good() && !pending && all != []
      modifies this`cache
      ensures Good()
      ensures err.None? <==> RebuiltCache().Some?
      ensures err.None? ==> cache == RebuiltCache()
      ensures err.Some? ==> cache == old(cache) && Rebuilt(head) == Err(err.value)
    {
      hide Valid, Statuses, IndexGood, KeepsOpenCalls, FromRecords, HeadOf, HeadMatches, Chained, Increasing;
      RetainedFacts();
      Verifies();
      var records := Retained();
      var verified := VerifyLog(hash, repository, records, head);
      if verified.Err? {
        VerificationRefuses(verified.error);
        return Some(Refused(LifecycleRejected(verified.error.rejection)));
      }
      var built := CheckpointFromRecords(mix, records, head);
      if built.Err? {
        return Some(Refused(built.error));
      }
      RebuiltCacheGood();
      cache := Some(Cache(built.value.checkpoint, TerminalIds(built.value.statuses)));
      return None;
    }

    // The commit callback of recovery: the head first, then the checkpoint. Appended
    // records stay in any case.
    method CommitHead() returns (err: Option<AppendError>)
      requires Good()
      modifies this`head, this`pending, this`cache
      ensures Good()
      ensures all == [] ==> err.Some? && head == old(head)
      ensures all != [] ==> !pending && head == Some(HeadOf(all))
      ensures !old(pending) ==> head == old(head)
      ensures all != [] ==> (err.None? <==> RebuiltCache().Some?)
      ensures err.None? ==> all != [] && cache == RebuiltCache()
      ensures err.Some? && all != [] ==> Rebuilt(head) == Err(err.value)
    {
      hide Valid, Good, FromRecords, HeadOf;
      if |Retained()| == 0 {
        EmptyStore();
        return Some(LedgerCorrupt);
      }
      NonEmptyStore();
      PublishHead();
      err := RebuildCheckpoint();
    }

    lemma EmptyStore()
      requires Good() && Retained() == []
      ensures all == []
    {
    }

    lemma NonEmptyStore()
      requires Good() && Retained() != []
      ensures all != []
    {
    }

    // A second recovery changes nothing: not the files, the head nor the checkpoint.
    method RecoverTwice() returns (first: Option<AppendError>, second: Option<AppendError>)
      requires Good() && all != []
      modifies this`head, this`pending, this`cache
      ensures Good() && !pending && head == Some(HeadOf(all))
      ensures first.None? ==> second.None? && cache == RebuiltCache()
    {
      hide Good, FromRecords, Statuses, HeadOf;
      first := CommitHead();
      ghost var recovered := head;
      ghost var rebuilt := cache;
      second := CommitHead();
      assert head == recovered;
      assert first.None? && second.None? ==> cache == rebuilt;
    }

    ghost predicate CheckpointHolds(all': seq<Record>, lost': set<Identity>, kept: seq<Record>, c: Cache) {
      && all' != []
      && c.checkpoint.head == HeadOf(all') && c.checkpoint.lastRecord == all'[|all'| - 1]
      && IndexGood(all', kept, c.checkpoint.activeRecords, c.terminalIds, lost')
    }

    ghost predicate CheckpointGood(c: Cache)
      reads this
    {
      CheckpointHolds(all, lost, Retained(), c)
    }

    // The checkpoint that the retained records and a head give.
    function Rebuilt(h: Option<Head>): Result<Option<Cache>, AppendError>
      reads this`live, this`archive1, this`archive2
    {
      match FromRecords(mix, Retained(), h)
      case Err(e) => Err(Refused(e))
      case Ok(built) => Ok(Some(Cache(built.checkpoint, TerminalIds(built.statuses))))
    }

    // The checkpoint an append starts from: the cached one while the files are
    // unchanged since it was published, otherwise one rebuilt from verified records.
    function Loaded(cacheUsable: bool): Result<Option<Cache>, AppendError>
      reads this
    {
      if cacheUsable && cache.Some? then Ok(cache) else if Retained() == [] then Ok(None) else Rebuilt(head)
    }

    method LoadCheckpoint(cacheUsable: bool) returns (out: Result<Option<Cache>, AppendError>)
      requires Good() && !pending
      ensures out == Loaded(cacheUsable)
      ensures out.Ok? ==> (out.value.None? <==> all == [])
      ensures out.Ok? && out.value.Some? ==> CheckpointGood(out.value.value)
    {
      hide Valid, Statuses, IndexGood, KeepsOpenCalls, FromRecords, HeadOf, HeadMatches, Chained, Increasing;
      if cacheUsable && cache.Some? {
        return Ok(cache);
      }
      var records := Retained();
      if |records| == 0 {
        return Ok(None);
      }
      RetainedFacts();
      Verifies();
      var verified := VerifyLog(hash, repository, records, head);
      if verified.Err? {
        VerificationRefuses(verified.error);
        return Err(Refused(LifecycleRejected(verified.error.rejection)));
      }
      var built := CheckpointFromRecords(mix, records, head);
      if built.Err? {
        return Err(Refused(built.error));
      }
      RebuiltCacheGood();
      return Ok(Some(Cache(built.value.checkpoint, TerminalIds(built.value.statuses))));
    }

    // What the next checkpoint must know before the record is written.
    ghost predicate NextGood(r: Record, c: Cache, statuses: CallTable)
      reads this
    {
      var lost' := LostAfter(all, Retained(), lost, r);
      && c.checkpoint.head == HeadOf(all + [r]) && c.checkpoint.lastRecord == r
      && ShowsOpenCalls(all + [r], statuses, lost')
      && KeepsOpenCalls(all + [r], Retained() + [r], lost')
      && IndexGood(all + [r], Retained() + [r], c.checkpoint.activeRecords, c.terminalIds, lost')
      && KeepsLawful(r)
    }

    // While nothing is lost, a record that its caller may append keeps the whole log
    // one that replays.
    ghost predicate KeepsLawful(r: Record)
      reads this
    {
      lost == {} && Statuses(all).Ok? && Known(all, Retained(), r) ==> Statuses(all + [r]).Ok?
    }

    lemma SlowKeepsLawful(r: Record)
      requires Good() && Extends(r) && Statuses(Retained() + [r]).Ok?
      ensures KeepsLawful(r)
    {
      hide Valid, Sealed, Statuses, HeadGood, CacheGood, KeepsOpenCalls, Known, LostMissing;
      if lost == {} && Statuses(all).Ok? && Known(all, Retained(), r) {
        RetainedFacts();
        LawfulCall(r);
        SlowRouteLawful(all, Retained(), r);
        LawfulNext(all, r);
      }
    }

    lemma FastKeepsLawful(c: Cache, r: Record)
      requires Good() && Extends(r) && CheckpointGood(c) && r.CallId() !in c.terminalIds
      requires Statuses(c.checkpoint.activeRecords + [r]).Ok?
      ensures KeepsLawful(r)
    {
      hide Valid, Sealed, Statuses, HeadGood, CacheGood, KeepsOpenCalls, Known, LostMissing, IndexGood, HeadOf;
      if lost == {} && Statuses(all).Ok? && Known(all, Retained(), r) {
        RetainedFacts();
        LawfulCall(r);
        FastRouteLawful(all, Retained(), c.checkpoint.activeRecords, c.terminalIds, lost, r);
        LawfulNext(all, r);
      }
    }

    lemma LawfulCall(r: Record)
      requires Good() && Extends(r) && Statuses(all).Ok?
      ensures (all + [r])[0].sequence == 1 && RunCall(false, CallRecords(all, r.CallId())).Ok?
    {
      hide Valid, Sealed, Statuses, HeadGood, CacheGood, KeepsOpenCalls, LostMissing, RunCall, CallRecords;
      StatusesByCall(all);
      assert RunCall(DroppedHistory(all), CallRecords(all, r.CallId())).Ok?;
    }

    ghost predicate Extends(r: Record)
      reads this
    {
      Chained(hash, repository, all + [r]) && (all == [] ==> r.sequence == 1)
    }

    function First(r: Record): Result<(Cache, CallTable), CheckpointError> {
      match FromRecords(mix, [r], Some(NewHead(r)))
      case Err(e) => Err(e)
      case Ok(built) => Ok((Cache(built.checkpoint, TerminalIds(built.statuses)), built.statuses))
    }

    function After(c: Cache, r: Record): Result<(Cache, CallTable), CheckpointError>
      reads this`live, this`archive1, this`archive2
    {
      match NextCheckpoint(mix, Retained(), c.checkpoint, c.terminalIds, r)
      case Err(e) => Err(e)
      case Ok(next) => Ok((Cache(next.checkpoint, IdsAfter(c, r, next)), next.statuses))
    }

    function IdsAfter(c: Cache, r: Record, next: Advanced): set<Identity> {
      if r.CallId() in c.terminalIds && r.payload.BudgetTransition? then TerminalIds(next.statuses)
      else c.terminalIds + if next.completed.Some? then {next.completed.value} else {}
    }

    // The next checkpoint with the statuses it rests on.
    function RouteOf(loaded: Option<Cache>, r: Record): Result<(Cache, CallTable), CheckpointError>
      reads this`live, this`archive1, this`archive2
    {
      if loaded.None? then First(r) else After(loaded.value, r)
    }

    // The three ways an append computes the next checkpoint.
    method Route(loaded: Option<Cache>, r: Record) returns (out: Result<(Cache, CallTable), CheckpointError>)
      requires Good() && !pending && Extends(r)
      requires loaded.None? <==> all == []
      requires loaded.Some? ==> CheckpointGood(loaded.value)
      ensures out == RouteOf(loaded, r)
      ensures out.Ok? ==> NextGood(r, out.value.0, out.value.1)
    {
      hide Good, Valid, Statuses, IndexGood, KeepsOpenCalls, ShowsOpenCalls, HeadOf, Chained, LostAfter, NextGood,
           CheckpointGood, First, After;
      if loaded.None? {
        out := RouteFirst(r);
      } else if r.CallId() in loaded.value.terminalIds && r.payload.BudgetTransition? {
        out := RouteTerminalBudget(loaded.value, r);
      } else {
        out := RouteAdvance(loaded.value, r);
      }
    }

    method RouteFirst(r: Record) returns (out: Result<(Cache, CallTable), CheckpointError>)
      requires Good() && all == [] && Extends(r)
      ensures out == First(r)
      ensures out.Ok? ==> NextGood(r, out.value.0, out.value.1)
    {
      hide Valid, Statuses, IndexGood, KeepsOpenCalls, ShowsOpenCalls, ActiveOf, CompletionOrder, Open, KeepsLawful,
           LostMissing;
      assert Retained() == [] && all + [r] == [r] && Retained() + [r] == [r];
      var built := CheckpointFromRecords(mix, [r], Some(NewHead(r)));
      if built.Err? {
        return Err(built.error);
      }
      SuffixFacts(hash, repository, [r], [r]);
      KeepsItself([r], lost);
      SlowRouteShows([r], [r], lost);
      RebuiltIndexGood([r], [r], lost);
      assert CallRecords(all, r.CallId()) == [];
      SlowKeepsLawful(r);
      return Ok((Cache(built.value.checkpoint, TerminalIds(built.value.statuses)), built.value.statuses));
    }

    // A budget record of a complete call: revalidated against all retained records.
    method RouteTerminalBudget(c: Cache, r: Record) returns (out: Result<(Cache, CallTable), CheckpointError>)
      requires Good() && !pending && Extends(r) && CheckpointGood(c)
      requires r.CallId() in c.terminalIds && r.payload.BudgetTransition?
      ensures out == After(c, r)
      ensures out.Ok? ==> NextGood(r, out.value.0, out.value.1)
    {
      hide Valid, Statuses, IndexGood, KeepsOpenCalls, ShowsOpenCalls, ActiveOf, CompletionOrder, Open, Blocked,
           HeadOf, HeadMatches, AdvanceHead, Chained, LostAfter, Increasing, Forgotten, KeepsLawful, LostMissing;
      var retained := Retained();
      CheckpointNonEmpty(c);
      RetainedFacts();
      Verifies();
      var verified := VerifyLog(hash, repository, retained, head);
      if verified.Err? {
        VerificationRefuses(verified.error);
        return Err(LifecycleRejected(verified.error.rejection));
      }
      var accepted := false;
      for i := 0 to |retained|
        invariant !accepted
        invariant forall k :: 0 <= k < i ==>
                    !(retained[k].CallId() == r.CallId() && retained[k].payload.RequestAccepted?)
      {
        if retained[i].CallId() == r.CallId() && retained[i].payload.RequestAccepted? {
          accepted := true;
          break;
        }
      }
      if !accepted || head.None? {
        return Err(AcceptanceNotRetained);
      }
      NextHead(r);
      var next := AdvanceHead(head.value, r);
      SuffixAppend(all, retained, r);
      SuffixFacts(hash, repository, all + [r], retained + [r]);
      var built := CheckpointFromRecords(mix, retained + [r], Some(next.value));
      if built.Err? {
        return Err(built.error);
      }
      ghost var lost' := LostAfter(all, retained, lost, r);
      AppendKeeps(all, retained, c.checkpoint.activeRecords, c.terminalIds, lost, r);
      SlowRouteShows(all + [r], retained + [r], lost');
      RebuiltIndexGood(all + [r], retained + [r], lost');
      assert (retained + [r])[|retained|] == r;
      SlowKeepsLawful(r);
      return Ok((Cache(built.value.checkpoint, TerminalIds(built.value.statuses)), built.value.statuses));
    }

    lemma CheckpointNonEmpty(c: Cache)
      requires CheckpointGood(c)
      ensures all != []
    {
    }

    method RouteAdvance(c: Cache, r: Record) returns (out: Result<(Cache, CallTable), CheckpointError>)
      requires Good() && !pending && Extends(r) && CheckpointGood(c)
      requires !(r.CallId() in c.terminalIds && r.payload.BudgetTransition?)
      ensures out == After(c, r)
      ensures out.Ok? ==> NextGood(r, out.value.0, out.value.1)
    {
      hide Valid, Statuses, IndexGood, KeepsOpenCalls, ShowsOpenCalls, ActiveOf, CompletionOrder, Open, Blocked,
           HeadOf, AdvanceHead, Chained, LostAfter, Increasing, Forgotten, Without, KeepsLawful, LostMissing;
      NextHead(r);
      var advanced := AdvanceCheckpoint(mix, c.checkpoint, c.terminalIds, r);
      if advanced.Err? {
        return Err(advanced.error);
      }
      ghost var retained := Retained();
      ghost var active := c.checkpoint.activeRecords;
      RetainedFacts();
      SuffixAppend(all, retained, r);
      SuffixFacts(hash, repository, all + [r], retained + [r]);
      AppendKeeps(all, retained, active, c.terminalIds, lost, r);
      FastRouteShows(all, retained, active, c.terminalIds, lost, r);
      FastRouteIndex(all, retained, active, c.terminalIds, lost, r, retained + [r]);
      FastKeepsLawful(c, r);
      assert c.terminalIds + {} == c.terminalIds;
      var ids := c.terminalIds;
      if advanced.value.completed.Some? {
        ids := ids + {advanced.value.completed.value};
      }
      return Ok((Cache(advanced.value.checkpoint, ids), advanced.value.statuses));
    }

    // ------------------------------------------------------------------- append

    predicate RotationDue(r: Record)
      reads this`live, this`archive1, this`archive2
    {
      live != [] && maxBytes < FileBytes(live) + size(r) + 1
    }

    // Rotation is refused while an open call begins in the archive that would go.
    predicate RotationSafe(r: Record, statuses: CallTable)
      reads this`live, this`archive1, this`archive2
    {
      RotationDue(r) && LastSequence(archive2) != 0 ==> RotationAllowed(statuses, LastSequence(archive2))
    }

    method ProtectActiveCalls(r: Record, statuses: CallTable) returns (ok: bool)
      ensures ok <==> RotationSafe(r, statuses)
    {
      if !RotationDue(r) {
        return true;
      }
      var droppedThrough := LastSequence(archive2);
      if droppedThrough == 0 {
        return true;
      }
      var todo := statuses.Keys;
      while todo != {}
        invariant todo <= statuses.Keys
        invariant forall c :: c in statuses && c !in todo ==>
                    statuses[c].terminalComplete || droppedThrough < statuses[c].firstSequence
      {
        var c :| c in todo;
        if !statuses[c].terminalComplete && statuses[c].firstSequence <= droppedThrough {
          return false;
        }
        todo := todo - {c};
      }
      return true;
    }

    function SealedNext(loaded: Option<Cache>, record: Record): Record {
      if loaded.None? then Seal(hash, record, 1, None)
      else
        var last := loaded.value.checkpoint.lastRecord;
        Seal(hash, record, last.sequence + 1, last.digest)
    }

    // What the prepare step decides about a record, from the checkpoint it starts from:
    // the record to write with the checkpoint to publish after it.
    function Decide(start: Result<Option<Cache>, AppendError>, record: Record): Result<Prepared, AppendError>
      reads this`live, this`archive1, this`archive2
    {
      if start.Err? then Err(start.error)
      else if start.value.Some? && SameRecordInput(start.value.value.checkpoint.lastRecord, record) then
        Ok(Duplicate(start.value.value.checkpoint.lastRecord))
      else
        var r := SealedNext(start.value, record);
        if !Valid(r) then Err(InvalidRecord)
        else if MAX_RECORD_BYTES < size(r) + 1 || maxBytes < size(r) + 1 then Err(RecordTooLarge)
        else
          match RouteOf(start.value, r)
          case Err(e) => Err(Refused(e))
          case Ok(next) => if RotationSafe(r, next.1) then Ok(Next(r, next.0, next.1)) else Err(WouldPruneOpenCall)
    }

    method Prepare(record: Record, cacheUsable: bool) returns (out: Result<Prepared, AppendError>)
      requires Good() && !pending && record.call.repository == repository
      ensures out == Decide(Loaded(cacheUsable), record)
      ensures out.Ok? && out.value.Duplicate? ==>
                all != [] && out.value.sealed == all[|all| - 1] && SameRecordInput(out.value.sealed, record)
      ensures out.Ok? && out.value.Next? ==>
                && Extends(out.value.sealed) && SameRecordInput(out.value.sealed, record)
                && NextGood(out.value.sealed, out.value.cache, out.value.statuses)
                && RotationSafe(out.value.sealed, out.value.statuses)
    {
      hide Good, Valid, IndexGood, KeepsOpenCalls, ShowsOpenCalls, HeadOf, NextGood, RotationSafe, CheckpointGood,
           Loaded, RouteOf;
      var load := LoadCheckpoint(cacheUsable);
      if load.Err? {
        return Err(load.error);
      }
      var loaded := load.value;
      var sequence, previous := 1, None;
      if loaded.Some? {
        LoadedLast(loaded.value);
        var last := loaded.value.checkpoint.lastRecord;
        sequence, previous := last.sequence + 1, last.digest;
        if SameRecordInput(last, record) {
          return Ok(Duplicate(last));
        }
      }
      var r := Seal(hash, record, sequence, previous);
      if !Valid(r) {
        return Err(InvalidRecord);
      }
      if MAX_RECORD_BYTES < size(r) + 1 || maxBytes < size(r) + 1 {
        return Err(RecordTooLarge);
      }
      SealExtends(record, r);
      var route := Route(loaded, r);
      if route.Err? {
        return Err(Refused(route.error));
      }
      var safe := ProtectActiveCalls(r, route.value.1);
      if !safe {
        return Err(WouldPruneOpenCall);
      }
      return Ok(Next(r, route.value.0, route.value.1));
    }

    lemma LoadedLast(c: Cache)
      requires CheckpointGood(c)
      ensures all != [] && c.checkpoint.lastRecord == all[|all| - 1]
    {
    }

    lemma SealExtends(record: Record, r: Record)
      requires Good() && Valid(r) && record.call.repository == repository
      requires all == [] ==> r == Seal(hash, record, 1, None)
      requires all != [] ==> r == Seal(hash, record, all[|all| - 1].sequence + 1, all[|all| - 1].digest)
      ensures Extends(r) && SameRecordInput(r, record)
    {
      hide Valid, HeadGood, CacheGood, KeepsOpenCalls;
      var next := all + [r];
      assert Sealed(hash, r);
      forall i | 0 < i < |next|
        ensures Links(next[i - 1], next[i])
      {
        if i < |all| {
          assert Links(all[i - 1], all[i]);
        }
      }
    }

    // The whole chain and its files, as values: what a write must leave.
    ghost predicate FilesHold(all': seq<Record>, lost': set<Identity>, live': seq<Record>, archive1': seq<Record>,
                              archive2': seq<Record>)
    {
      && Chained(hash, repository, all') && all' != [] && all'[0].sequence == 1
      && live' != [] && (archive2' != [] ==> archive1' != [])
      && Suffix(archive2' + archive1' + live', all')
      && KeepsOpenCalls(all', archive2' + archive1' + live', lost')
      && LostMissing(all', archive2' + archive1' + live', lost')
    }

    // Writes the prepared record, rotating first when the live file would grow too
    // long, and publishes the head and the checkpoint unless the process dies.
    method Write(r: Record, next: Cache, statuses: CallTable, crash: Crash)
      requires Good() && !pending && Extends(r) && NextGood(r, next, statuses) && RotationSafe(r, statuses)
      modifies this
      ensures Good() && all == old(all) + [r] && lost == LostAfter(old(all), old(Retained()), old(lost), r)
      ensures pending <==> crash == AfterRecord
      ensures !pending ==> head == Some(HeadOf(all))
      ensures cache == if crash == NoCrash then Some(next) else None
      ensures (live, archive1, archive2) == old(Placed(r))
    {
      hide Good, Valid, NextGood, Extends, RotationSafe, HeadOf, LostAfter, HeadGood, CacheGood, WholeChain,
           CheckpointHolds, FilesHold, FileBytes;
      ghost var before := all;
      WriteFacts(r, next, statuses);
      Place(r);
      all, lost := all + [r], LostAfter(all, old(Retained()), lost, r);
      assert all[..|all| - 1] == before && FilesHold(all, lost, live, archive1, archive2);
      if crash == AfterRecord {
        pending, cache := true, None;
        GoodPending();
      } else {
        head := Some(next.checkpoint.head);
        cache := if crash == NoCrash then Some(next) else None;
        GoodCommitted(next);
      }
    }

    // The record goes to the live file, or to a fresh one after rotation.
    function Placed(r: Record): (seq<Record>, seq<Record>, seq<Record>)
      reads this`live, this`archive1, this`archive2
    {
      if RotationDue(r) then ([r], live, archive1) else (live + [r], archive1, archive2)
    }

    method Place(r: Record)
      modifies this`live, this`archive1, this`archive2
      ensures (live, archive1, archive2) == old(Placed(r))
    {
      hide FileBytes;
      if RotationDue(r) {
        archive2 := archive1;
        archive1 := live;
        live := [r];
      } else {
        live := live + [r];
      }
    }

    lemma WriteFacts(r: Record, next: Cache, statuses: CallTable)
      requires Good() && !pending && Extends(r) && NextGood(r, next, statuses) && RotationSafe(r, statuses)
      ensures head == if all == [] then None else Some(HeadOf(all))
      ensures next.checkpoint.head == HeadOf(all + [r])
      ensures var all', lost' := all + [r], LostAfter(all, Retained(), lost, r);
              if RotationDue(r) then
                && FilesHold(all', lost', [r], live, archive1)
                && CheckpointHolds(all', lost', archive1 + live + [r], next)
              else
                && FilesHold(all', lost', live + [r], archive1, archive2)
                && CheckpointHolds(all', lost', archive2 + archive1 + (live + [r]), next)
    {
      hide Valid, IndexGood, KeepsOpenCalls, ShowsOpenCalls, HeadOf, Chained, Forgotten, CallRecords, LostAfter, Open,
           LostMissing, KeepsLawful;
      SuffixAppend(all, Retained(), r);
      LostStays(all, Retained(), lost, r);
      assert (all + [r])[|all|] == r;
      if RotationDue(r) {
        RotationStep(r, next, statuses);
        var kept := archive1 + live + [r];
        assert (Retained() + [r])[|archive2|..] == kept;
        LostShrinks(all + [r], Retained() + [r], kept, LostAfter(all, Retained(), lost, r));
      } else {
        assert Retained() + [r] == archive2 + archive1 + (live + [r]);
      }
    }

    lemma GoodPending()
      requires FilesHold(all, lost, live, archive1, archive2) && all != [] && pending && cache.None?
      requires head == if |all| == 1 then None else Some(HeadOf(all[..|all| - 1]))
      ensures Good()
    {
      hide KeepsOpenCalls, HeadOf, Chained;
    }

    lemma GoodCommitted(next: Cache)
      requires FilesHold(all, lost, live, archive1, archive2) && all != [] && !pending && head == Some(HeadOf(all))
      requires CheckpointHolds(all, lost, Retained(), next) && (cache.Some? ==> cache.value == next)
      ensures Good()
    {
      hide IndexGood, KeepsOpenCalls, HeadOf, Chained;
    }

    lemma RotationStep(r: Record, next: Cache, statuses: CallTable)
      requires Good() && !pending && Extends(r) && NextGood(r, next, statuses) && RotationSafe(r, statuses)
      requires RotationDue(r)
      ensures var kept := archive1 + live + [r];
              var lost' := LostAfter(all, Retained(), lost, r);
              && Suffix(kept, all + [r])
              && KeepsOpenCalls(all + [r], kept, lost')
              && IndexGood(all + [r], kept, next.checkpoint.activeRecords, next.terminalIds, lost')
    {
      hide Valid, IndexGood, KeepsOpenCalls, ShowsOpenCalls, HeadOf, Forgotten, CallRecords, LostAfter, Open, Chained;
      var kept, lost' := archive1 + live + [r], LostAfter(all, Retained(), lost, r);
      assert Retained() + [r] == archive2 + kept;
      SuffixAppend(all, Retained(), r);
      if archive2 == [] {
        assert archive2 + kept == kept;
      } else {
        RetainedFacts();
        ArchiveOrder();
        RotationKeepsOpen(all + [r], archive2, kept, statuses, lost', LastSequence(archive2));
      }
      IndexMonotone(all + [r], Retained() + [r], kept, next.checkpoint.activeRecords, next.terminalIds, lost');
    }

    lemma ArchiveOrder()
      requires Good()
      ensures forall i :: 0 <= i < |archive2| ==> archive2[i].sequence <= LastSequence(archive2)
      ensures archive2 != [] ==> 0 < LastSequence(archive2)
    {
      hide Valid, KeepsOpenCalls, HeadGood, CacheGood, Chained;
      RetainedFacts();
      assert forall i :: 0 <= i < |archive2| ==> archive2[i] == Retained()[i];
      if archive2 != [] {
        ValidSequence(Retained()[|archive2| - 1]);
      }
    }

    // What an append decides: after a crash, it starts from a checkpoint rebuilt under
    // the recovered head.
    ghost function Decision(record: Record, cacheUsable: bool): Result<Prepared, AppendError>
      reads this
    {
      if record.call.repository != repository then Err(RepositoryMismatch)
      else if pending && all != [] then Decide(Rebuilt(Some(HeadOf(all))), record)
      else Decide(Loaded(cacheUsable), record)
    }

    // What an append does about its decision: a new record goes to its file, a repeated
    // one is reported again, a refused one leaves the chain and its files as they were.
    ghost function Effects(record: Record, cacheUsable: bool, crash: Crash): Effect
      reads this
    {
      match Decision(record, cacheUsable)
      case Err(e) => Effect(NotAppended(e), all, (live, archive1, archive2), None)
      case Ok(Duplicate(r)) => Effect(Appended(r), all, (live, archive1, archive2), None)
      case Ok(Next(r, next, _)) =>
        Effect(if crash == NoCrash then Appended(r) else Crashed, all + [r], Placed(r), Some(next))
    }

    // Nothing is lost, and the log as it was appended replays.
    ghost predicate Lawful()
      reads this`all, this`lost
    {
      lost == {} && Statuses(all).Ok?
    }

    // Appends one record (Append), with exactly these effects, apart from a head still
    // to be published. A crash leaves the record in the chain.
    method Append(record: Record, cacheUsable: bool, crash: Crash) returns (out: AppendOutcome)
      requires Good()
      modifies this
      ensures Good()
      ensures var effect := old(Effects(record, cacheUsable, crash));
              && out == effect.out && all == effect.all && (live, archive1, archive2) == effect.files
              && (effect.published.Some? ==>
                    && cache == (if crash == NoCrash then effect.published else None)
                    && pending == (crash == AfterRecord))
      ensures old(!Forgotten(all, Retained(), record.CallId())) ==> lost == old(lost)
      ensures old(Lawful() && Known(all, Retained(), record)) ==> Lawful()
      ensures out.Appended? ==>
                && SameRecordInput(out.record, record)
                && all != [] && out.record == all[|all| - 1] && !pending && head == Some(HeadOf(all))
                && (all == old(all) || all == old(all) + [out.record])
      ensures out.NotAppended? ==> all == old(all)
      ensures out.Crashed? ==> exists r :: all == old(all) + [r] && SameRecordInput(r, record)
      ensures all == old(all) ==> lost == old(lost)
      ensures all != old(all) ==>
                all != [] && lost == LostAfter(old(all), old(Retained()), old(lost), all[|all| - 1])
    {
      hide *;
      DecisionCases(record, cacheUsable);
      EffectCases(record, cacheUsable, crash);
      if record.call.repository != repository {
        return NotAppended(RepositoryMismatch);
      }
      if pending {
        var failed := CommitHead();
        if failed.Some? {
          StartRefused(failed.value, record);
          return NotAppended(failed.value);
        }
        RecoveredLoads(cacheUsable);
      }
      var step := Prepare(record, cacheUsable);
      if step.Err? {
        return NotAppended(step.error);
      }
      var prepared := step.value;
      if prepared.Duplicate? {
        HeadAtTail();
        return Appended(prepared.sealed);
      }
      WriteKeepsLawful(record, prepared.sealed, prepared.cache, prepared.statuses);
      Write(prepared.sealed, prepared.cache, prepared.statuses, crash);
      LawfulNow();
      if crash != NoCrash {
        return Crashed;
      }
      return Appended(prepared.sealed);
    }

    lemma EffectCases(record: Record, cacheUsable: bool, crash: Crash)
      ensures var effect := Effects(record, cacheUsable, crash);
              match Decision(record, cacheUsable)
              case Err(e) =>
                effect.out == NotAppended(e) && effect.all == all && effect.files == (live, archive1, archive2)
                && effect.published.None?
              case Ok(Duplicate(r)) =>
                effect.out == Appended(r) && effect.all == all && effect.files == (live, archive1, archive2)
                && effect.published.None?
              case Ok(Next(r, next, _)) =>
                && effect.out == (if crash == NoCrash then Appended(r) else Crashed)
                && effect.all == all + [r] && effect.files == Placed(r) && effect.published == Some(next)
    {
      hide Decision;
    }

    lemma LawfulNow()
      ensures Lawful() <==> lost == {} && Statuses(all).Ok?
    {
    }

    lemma WriteKeepsLawful(record: Record, r: Record, next: Cache, statuses: CallTable)
      requires NextGood(r, next, statuses) && SameRecordInput(r, record)
      ensures !Forgotten(all, Retained(), record.CallId()) ==> LostAfter(all, Retained(), lost, r) == lost
      ensures Lawful() && Known(all, Retained(), record) ==>
                LostAfter(all, Retained(), lost, r) == {} && Statuses(all + [r]).Ok?
    {
      hide Statuses, IndexGood, ShowsOpenCalls, KeepsOpenCalls, HeadOf, CallRecords, Open;
      if Lawful() && Known(all, Retained(), record) {
        KnownNotLost(all, Retained(), lost, r);
      }
    }

    // Which retained logs still replay, when the log as it was appended does: those
    // that hold, of each call, a rooted tail.
    lemma RetainedReplays()
      requires Good() && Statuses(all).Ok?
      ensures Statuses(Retained()).Ok? <==> forall c :: Rooted(CallRecords(Retained(), c))
    {
      hide Valid, Statuses, Rooted, CallRecords, HeadGood, CacheGood, KeepsOpenCalls, LostMissing, Chained;
      RetainedFacts();
      KeptReplays(all, Retained());
    }

    // So a restarted store loads exactly then, and refuses every append otherwise.
    lemma LoadsExactly(record: Record)
      requires Good() && !pending && all != [] && Statuses(all).Ok?
      ensures Loaded(false).Ok? <==> forall c :: Rooted(CallRecords(Retained(), c))
      ensures Loaded(false).Err? ==> Decide(Loaded(false), record).Err?
    {
      hide Valid, Statuses, Rooted, CallRecords, CacheGood, KeepsOpenCalls, LostMissing, Chained;
      RetainedFacts();
      RetainedReplays();
    }

    // The rule at the rotation guard that keeps the retained log replayable: of every
    // call with records in the archive that goes, what stays is rooted.
    lemma RotationRule(r: Record)
      requires Good() && Extends(r) && Known(all, Retained(), r)
      requires Statuses(all).Ok? && Statuses(all + [r]).Ok? && Statuses(Retained()).Ok?
      ensures Statuses(Placed(r).2 + Placed(r).1 + Placed(r).0).Ok? <==>
                (RotationDue(r) ==>
                   forall c :: CallRecords(archive2, c) != [] ==> Rooted(CallRecords(archive1 + live + [r], c)))
    {
      hide Valid, Statuses, Rooted, CallRecords, HeadGood, CacheGood, KeepsOpenCalls, LostMissing, Chained, Known,
           RotationDue;
      SuffixAppend(all, Retained(), r);
      SuffixFacts(hash, repository, all, Retained());
      SuffixFacts(hash, repository, all + [r], Retained() + [r]);
      assert (all + [r])[0].sequence == 1;
      KnownReplays(all, Retained(), r);
      if RotationDue(r) {
        assert Retained() + [r] == archive2 + (archive1 + live + [r]);
        RotationReplays(all + [r], archive2, archive1 + live + [r]);
      } else {
        assert archive2 + archive1 + (live + [r]) == Retained() + [r];
      }
    }

    lemma HeadAtTail()
      requires Good() && !pending && all != []
      ensures head == Some(HeadOf(all))
    {
    }

    lemma DecisionCases(record: Record, cacheUsable: bool)
      requires Good()
      ensures record.call.repository != repository ==> Decision(record, cacheUsable) == Err(RepositoryMismatch)
      ensures record.call.repository == repository ==>
                if pending then all != [] && Decision(record, cacheUsable) == Decide(Rebuilt(Some(HeadOf(all))), record)
                else Decision(record, cacheUsable) == Decide(Loaded(cacheUsable), record)
    {
      hide Decide, Rebuilt, Loaded, HeadOf, KeepsOpenCalls, CacheGood, WholeChain;
    }

    lemma StartRefused(e: AppendError, record: Record)
      ensures Decide(Err(e), record) == Err(e)
    {
    }

    // Right after recovery the cache and the files give the same checkpoint.
    lemma RecoveredLoads(cacheUsable: bool)
      requires Good() && !pending && all != [] && cache == RebuiltCache() && RebuiltCache().Some?
      ensures Loaded(cacheUsable) == Rebuilt(head)
    {
      hide FromRecords, KeepsOpenCalls, CacheGood, HeadGood, Chained;
      RetainedFacts();
    }

    lemma NextHead(r: Record)
      requires Good() && !pending && Extends(r) && all != []
      ensures head == Some(HeadOf(all)) && AdvanceHead(HeadOf(all), r) == Ok(HeadOf(all + [r]))
    {
      hide Valid, Sealed, KeepsOpenCalls, CacheGood;
      assert (all + [r])[|all|] == r;
      assert Sealed(hash, r);
      HeadFollowsChain(hash, repository, all, r);
    }

    // After a crash the head is one record behind the tail, and the tail advances it.
    lemma HeadPosition()
      requires Good() && all != []
      ensures var last := all[|all| - 1];
              && (pending <==> !(head.Some? && head.value.lastSequence == last.sequence
                                 && head.value.lastDigest == last.digest))
              && (pending && head.None? ==> |Retained()| == 1 && last.sequence == 1 && NewHead(last) == HeadOf(all))
              && (pending && head.Some? ==> AdvanceHead(head.value, last) == Ok(HeadOf(all)))
    {
      hide Valid, KeepsOpenCalls, CacheGood, AdvanceHead;
      RetainedFacts();
      TailAdvances(hash, repository, all);
    }
  }

  lemma SuffixFacts(hash: Hash, repository: Identity, all: seq<Record>, kept: seq<Record>)
    requires Chained(hash, repository, all) && Suffix(kept, all)
    ensures AllValid(all) && AllValid(kept)
    ensures all != [] && kept != [] ==> kept[|kept| - 1] == all[|all| - 1]
    ensures Increasing(all) && Increasing(kept)
    ensures Chained(hash, repository, kept)
  {
    hide Valid;
    ChainIncreasing(hash, repository, all);
    var k := |all| - |kept|;
    assert forall i :: 0 <= i < |kept| ==> kept[i] == all[k + i];
    forall i | 0 < i < |kept|
      ensures Links(kept[i - 1], kept[i])
    {
      assert Links(all[k + i - 1], all[k + i]);
    }
    assert forall i :: 0 <= i < |all| ==> Sealed(hash, all[i]);
  }

  lemma ValidSequence(r: Record)
    requires Valid(r)
    ensures 1 <= r.sequence
  {
  }

  lemma KeepsItself(all: seq<Record>, lost: set<Identity>)
    ensures KeepsOpenCalls(all, all, lost)
  {
  }

  lemma SuffixAppend(all: seq<Record>, kept: seq<Record>, r: Record)
    requires Suffix(kept, all)
    ensures Suffix(kept + [r], all + [r])
  {
  }

  lemma SealedFirst(hash: Hash, r: Record)
    requires Sealed(hash, r)
    ensures r.sequence == 1 ==> r.previousDigest.None?
    ensures r.digest.Some? && 1 <= r.sequence
  {
  }

  lemma KeptVerifies(hash: Hash, repository: Identity, all: seq<Record>, kept: seq<Record>)
    requires Chained(hash, repository, all) && all != [] && all[0].sequence == 1
    requires Suffix(kept, all) && kept != []
    ensures HeadMatches(kept, HeadOf(all), repository)
  {
    hide Valid, Sealed;
    var last, k := |all| - 1, |all| - |kept|;
    SequencesConsecutive(hash, repository, all, last);
    SequencesConsecutive(hash, repository, all, k);
    SealedFirst(hash, all[0]);
    assert kept[0] == all[k] && kept[|kept| - 1] == all[last];
  }

  lemma TailAdvances(hash: Hash, repository: Identity, all: seq<Record>)
    requires Chained(hash, repository, all) && all != [] && all[0].sequence == 1
    ensures |all| == 1 ==> all[0].sequence == 1 && NewHead(all[0]) == HeadOf(all)
    ensures 1 < |all| ==>
              && HeadOf(all[..|all| - 1]).lastSequence < all[|all| - 1].sequence
              && AdvanceHead(HeadOf(all[..|all| - 1]), all[|all| - 1]) == Ok(HeadOf(all))
  {
    hide Valid, Sealed;
    var n := |all| - 1;
    var before, last := all[..n], all[n];
    assert all == before + [last];
    if 0 < n {
      ChainPrefix(hash, repository, all, n);
      HeadFollowsChain(hash, repository, before, last);
      assert Links(all[n - 1], all[n]);
    }
  }

  lemma ChainPrefix(hash: Hash, repository: Identity, log: seq<Record>, n: nat)
    requires Chained(hash, repository, log) && n <= |log|
    ensures Chained(hash, repository, log[..n])
  {
    hide Valid, Sealed;
    assert forall i :: 0 <= i < n ==> log[..n][i] == log[i];
    assert forall i :: 0 < i < n ==> Links(log[i - 1], log[i]);
  }

  lemma ChainIncreasing(hash: Hash, repository: Identity, log: seq<Record>)
    requires Chained(hash, repository, log)
    ensures Increasing(log)
  {
    hide Valid;
    forall i, j | 0 <= i < j < |log|
      ensures log[i].sequence < log[j].sequence
    {
      SequencesConsecutive(hash, repository, log, i);
      SequencesConsecutive(hash, repository, log, j);
    }
  }
}
