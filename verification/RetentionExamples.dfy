// Two runs of the store that mark where retention stops: a rotation after which the
// retained log no longer replays, and a forgotten call that a late reservation reopens.
// Records may have any sizes within the limit on one record, and files any limit that
// two records fit in.
module RetentionExamples {
  import opened Wrappers
  import opened LedgerTypes
  import opened LedgerValidate
  import opened Lifecycle
  import CallHistory
  import opened Replay
  import opened Chain
  import opened Checkpoint
  import opened CheckpointAgreement
  import opened Retention
  import opened Truncation
  import opened LedgerStore
  import opened BlockedCall

  // ----------------------------------------------------------------- one append at a time

  // Every record is within the limit, and two of them fit in a file.
  ghost predicate Roomy(size: Record -> nat, maxBytes: nat) {
    2 * MAX_RECORD_BYTES <= maxBytes && forall r :: size(r) + 1 <= MAX_RECORD_BYTES
  }

  // A store between two appends.
  ghost predicate Idle(s: Store)
    reads s
  {
    && s.Good() && !s.pending && s.all != []
    && s.repository == 0 && Roomy(s.size, s.maxBytes) && s.FileBytes(s.live) <= s.maxBytes
    && (forall i :: 0 <= i < |s.all| ==> s.all[i].sequence == i + 1)
  }

  // The checkpoint the next append starts from.
  ghost predicate Starts(s: Store, c: Cache)
    requires s.all != []
    reads s
  {
    && s.Loaded(true) == Ok(Some(c))
    && c.checkpoint.lastRecord == s.all[|s.all| - 1] && c.checkpoint.head == HeadOf(s.all)
  }

  // What the next record becomes when it is sealed.
  ghost predicate SealedNext(s: Store, record: Record, r: Record)
    requires s.all != []
    reads s
  {
    r == Seal(s.hash, record, |s.all| + 1, s.all[|s.all| - 1].digest) && r.previousDigest.Some?
  }

  lemma CacheStarts(s: Store)
    requires Idle(s) && s.cache.Some?
    ensures Starts(s, s.cache.value)
  {
    hide KeepsOpenCalls, LostMissing, IndexGood, Valid, HeadOf;
  }

  // A restarted store whose retained records replay.
  lemma RebuiltStarts(s: Store, statuses: CallTable) returns (c: Cache)
    requires Idle(s) && s.cache.None? && Statuses(s.Retained()) == Ok(statuses)
    ensures Starts(s, c) && c.terminalIds == TerminalIds(statuses)
    ensures c.checkpoint.activeRecords == ActiveOf(s.Retained(), statuses)
  {
    hide KeepsOpenCalls, LostMissing, IndexGood, Valid, HeadOf, Statuses, Chained, CompletionOrder;
    s.RetainedFacts();
    c := s.Loaded(true).value.value;
  }

  lemma SealNext(s: Store, record: Record) returns (r: Record)
    requires Idle(s)
    ensures s.all != [] && SealedNext(s, record, r)
  {
    hide Valid, KeepsOpenCalls, LostMissing;
    assert Sealed(s.hash, s.all[|s.all| - 1]);
    r := Seal(s.hash, record, |s.all| + 1, s.all[|s.all| - 1].digest);
  }

  lemma HeadAdvances(s: Store, record: Record, r: Record)
    requires Idle(s) && record.call.repository == 0 && SealedNext(s, record, r) && Valid(r)
    ensures s.Extends(r) && AdvanceHead(HeadOf(s.all), r).Ok?
  {
    hide Valid, KeepsOpenCalls, LostMissing, HeadOf, Chained, AdvanceHead;
    s.SealExtends(record, r);
    s.NextHead(r);
  }

  // What advancing the checkpoint gives.
  lemma AdvanceGives(s: Store, c: Cache, record: Record, r: Record, statuses: CallTable)
    requires Idle(s) && Starts(s, c) && record.call.repository == 0 && SealedNext(s, record, r) && Valid(r)
    requires r.CallId() !in c.terminalIds && Statuses(c.checkpoint.activeRecords + [r]) == Ok(statuses)
    ensures s.After(c, r).Ok?
    ensures var next := s.After(c, r).value;
            && next.1 == statuses
            && next.0.checkpoint.activeRecords == NextActive(c.checkpoint.activeRecords, r, statuses)
            && next.0.terminalIds == NextIds(c.terminalIds, r, statuses)
  {
    hide Statuses, Valid, Idle, HeadOf, AdvanceHead, Store.Loaded;
    HeadAdvances(s, record, r);
  }

  function NextActive(active: seq<Record>, r: Record, statuses: CallTable): seq<Record> {
    if Complete(statuses, r.CallId()) then Without(active + [r], r.CallId()) else active + [r]
  }

  function NextIds(ids: set<Identity>, r: Record, statuses: CallTable): set<Identity> {
    if Complete(statuses, r.CallId()) then ids + {r.CallId()} else ids
  }

  // What a budget record of a complete call gives, when its request is retained.
  lemma BudgetGives(s: Store, c: Cache, record: Record, r: Record, i: nat, statuses: CallTable)
    requires Idle(s) && Starts(s, c) && record.call.repository == 0 && SealedNext(s, record, r) && Valid(r)
    requires r.CallId() in c.terminalIds && r.payload.BudgetTransition?
    requires i < |s.Retained()| && s.Retained()[i].CallId() == r.CallId() && s.Retained()[i].payload.RequestAccepted?
    requires Statuses(s.Retained() + [r]) == Ok(statuses)
    ensures s.After(c, r).Ok?
    ensures var next := s.After(c, r).value;
            && next.1 == statuses
            && next.0.checkpoint.activeRecords == ActiveOf(s.Retained() + [r], statuses)
            && next.0.terminalIds == TerminalIds(statuses)
  {
    hide Statuses, Valid, Idle, HeadOf, AdvanceHead, Store.Loaded, ActiveOf, CompletionOrder;
    HeadAdvances(s, record, r);
    ReplaysBefore(s.Retained(), r);
  }

  lemma Decides(s: Store, c: Cache, record: Record, r: Record, next: (Cache, CallTable))
    requires Idle(s) && Starts(s, c) && record.call.repository == 0 && SealedNext(s, record, r) && Valid(r)
    requires !SameRecordInput(s.all[|s.all| - 1], record)
    requires s.After(c, r) == Ok(next) && s.RotationSafe(r, next.1)
    ensures s.Decision(record, true) == Ok(Next(r, next.0, next.1))
  {
    hide Valid, KeepsOpenCalls, LostMissing, IndexGood, HeadOf, Store.Good, Store.Loaded, Store.After,
         Store.RotationSafe;
  }

  // The bytes of a file with one record more; one that is due for rotation starts afresh.
  lemma PlacedBytes(s: Store, r: Record)
    requires Idle(s)
    ensures s.live != [] && s.FileBytes([r]) <= MAX_RECORD_BYTES
    ensures s.FileBytes(s.live + [r]) == s.FileBytes(s.live) + s.size(r) + 1
    ensures s.RotationDue(r) <==> s.maxBytes < s.FileBytes(s.live) + s.size(r) + 1
    ensures s.FileBytes(s.Placed(r).0) <= s.maxBytes
    ensures s.FileBytes(s.live) <= MAX_RECORD_BYTES ==> !s.RotationDue(r)
  {
    hide KeepsOpenCalls, LostMissing, IndexGood, Valid, HeadOf, Chained;
    assert (s.live + [r])[..|s.live|] == s.live && [r][..0] == [];
  }

  // One append with its outcome.
  method AppendNext(s: Store, record: Record, ghost c: Cache, ghost r: Record, ghost next: (Cache, CallTable))
    requires Idle(s) && Starts(s, c) && record.call.repository == 0 && SealedNext(s, record, r) && Valid(r)
    requires !SameRecordInput(s.all[|s.all| - 1], record)
    requires s.After(c, r) == Ok(next) && s.RotationSafe(r, next.1)
    modifies s
    ensures Idle(s) && s.all == old(s.all) + [r] && (s.live, s.archive1, s.archive2) == old(s.Placed(r))
    ensures s.cache == Some(next.0)
    ensures s.lost == LostAfter(old(s.all), old(s.Retained()), old(s.lost), r)
    ensures old(s.Lawful() && Known(s.all, s.Retained(), record)) ==> s.Lawful()
  {
    hide Statuses, Valid, Known, LostAfter, Store.Good, Store.After, Store.Decision, Store.RotationSafe, Store.Placed,
         Store.Loaded, Store.FileBytes;
    Decides(s, c, record, r, next);
    PlacedBytes(s, r);
    var out := s.Append(record, true, NoCrash);
  }

  // A record is safe to append while there is no second archive, or when every call that
  // it leaves open began after everything appended so far.
  lemma SafeNext(s: Store, r: Record, statuses: CallTable)
    requires Idle(s) && (s.archive2 == [] || RotationAllowed(statuses, |s.all|))
    ensures s.RotationSafe(r, statuses)
  {
    hide Valid, KeepsOpenCalls, LostMissing, IndexGood, HeadOf, Chained;
    if s.archive2 != [] {
      var k := |s.all| - |s.Retained()| + |s.archive2| - 1;
      assert s.archive2[|s.archive2| - 1] == s.Retained()[|s.archive2| - 1] == s.all[k];
    }
  }

  // Every appended call but perhaps one is below n, and so is every terminal identifier.
  ghost predicate Below(s: Store, n: Identity)
    reads s
  {
    && s.cache.Some? && (forall c :: c in s.cache.value.terminalIds ==> c < n)
    && forall i :: 0 <= i < |s.all| ==> s.all[i].CallId() < n
  }

  // Nothing is open, nothing is lost, and the log replays.
  ghost predicate Quiet(s: Store, n: Identity)
    reads s
  {
    && Idle(s) && s.Lawful() && Below(s, n) && s.cache.value.checkpoint.activeRecords == []
    && 1 in s.cache.value.terminalIds
  }

  lemma FirstGives(s: Store, a: Record)
    requires s.Good() && s.all == [] && !s.pending && s.cache.None?
    requires s.live == [] && s.archive1 == [] && s.archive2 == []
    requires s.repository == 0 && Roomy(s.size, s.maxBytes) && a == Seal(s.hash, Request(1), 1, None)
    ensures s.First(a).Ok? && s.First(a).value.0.checkpoint.activeRecords == [a] && s.First(a).value.0.terminalIds == {}
    ensures s.Decision(Request(1), true) == Ok(Next(a, s.First(a).value.0, s.First(a).value.1))
    ensures s.Placed(a) == ([a], [], []) && s.FileBytes([a]) <= MAX_RECORD_BYTES
    ensures Like(a, Request(1)) && a.sequence == 1 && Valid(a) && Statuses([]).Ok?
  {
    hide Valid, KeepsOpenCalls, LostMissing, IndexGood, HeadOf, CompletionOrder, Statuses;
    ValidLike(a, 1);
    var statuses := RequestAlone(1, a);
    NothingReplays();
    assert [] + [a] == [a] && [a][..0] == [];
  }

  lemma NothingReplays()
    ensures Statuses([]).Ok?
  {
  }

  // A fresh store with the request of call 1.
  method Begin(hash: Hash, mix: Mix, size: Record -> nat, maxBytes: nat) returns (s: Store, ghost a: Record)
    requires Roomy(size, maxBytes)
    ensures fresh(s) && Idle(s) && s.size == size && s.maxBytes == maxBytes
    ensures s.all == [a] && Like(a, Request(1)) && s.live == [a] && s.archive1 == [] && s.archive2 == []
    ensures s.cache.Some? && s.cache.value.checkpoint.activeRecords == [a] && s.cache.value.terminalIds == {}
    ensures s.Lawful() && s.FileBytes(s.live) <= MAX_RECORD_BYTES
  {
    hide Statuses, Valid, LostAfter, Store.Good, Store.First, Store.Decision, Store.FileBytes, Store.Placed;
    s := new Store(0, hash, mix, size, maxBytes);
    a := Seal(hash, Request(1), 1, None);
    FirstGives(s, a);
    var out := s.Append(Request(1), true, NoCrash);
    ghost var statuses := RequestAlone(1, a);
  }

  lemma Numbered(s: Store, i: nat)
    requires Idle(s) && i < |s.all|
    ensures s.all[i].sequence == i + 1
  {
  }

  lemma SealedLike(s: Store, record: Record, r: Record)
    requires s.all != [] && SealedNext(s, record, r)
    ensures Like(r, record) && r.sequence == |s.all| + 1 && r.previousDigest.Some?
  {
  }

  // A request that is still there.
  lemma RequestKept(s: Store, record: Record, i: nat)
    requires i < |s.Retained()| && s.Retained()[i].CallId() == record.CallId()
    requires s.Retained()[i].payload.RequestAccepted?
    ensures Known(s.all, s.Retained(), record)
  {
  }

  // The request of a call not seen before, while no call is active.
  method RequestNew(s: Store, c: Identity) returns (ghost f: Record)
    requires Quiet(s, c)
    modifies s
    ensures Idle(s) && s.Lawful() && s.all == old(s.all) + [f] && Like(f, Request(c)) && f.sequence == |s.all|
    ensures (s.live, s.archive1, s.archive2) == old(s.Placed(f))
    ensures s.cache.Some? && s.cache.value.checkpoint.activeRecords == [f]
    ensures s.cache.value.terminalIds == old(s.cache.value.terminalIds)
  {
    hide Statuses, Valid, LostAfter, Store.Good, Store.Loaded, Store.After, Idle, Starts, SealedNext,
         Store.RotationSafe, Store.Placed, CallRecords;
    f := SealNext(s, Request(c));
    SealedLike(s, Request(c), f);
    ValidLike(f, c);
    ghost var statuses := RequestAlone(c, f);
    assert [] + [f] == [f];
    CacheStarts(s);
    AdvanceGives(s, s.cache.value, Request(c), f, statuses);
    SafeNext(s, f, statuses);
    NoRecords(s.all, c);
    LastBelow(s, c);
    AppendNext(s, Request(c), s.cache.value, f, s.After(s.cache.value, f).value);
  }

  lemma LastBelow(s: Store, n: Identity)
    requires Idle(s) && Below(s, n)
    ensures s.all != [] && s.all[|s.all| - 1].CallId() < n
  {
  }

  // The block of the call just requested, which completes it.
  method BlockNew(s: Store, c: Identity, ghost g: Record) returns (ghost h: Record)
    requires Idle(s) && s.Lawful() && s.cache.Some? && c !in s.cache.value.terminalIds
    requires s.cache.value.checkpoint.activeRecords == [g] && Like(g, Request(c)) && s.all[|s.all| - 1] == g
    modifies s
    ensures Idle(s) && s.Lawful() && s.all == old(s.all) + [h] && Like(h, Blocking(c))
    ensures (s.live, s.archive1, s.archive2) == old(s.Placed(h))
    ensures s.cache.Some? && s.cache.value.checkpoint.activeRecords == []
    ensures s.cache.value.terminalIds == old(s.cache.value.terminalIds) + {c}
  {
    hide Statuses, Valid, LostAfter, Store.Good, Store.Loaded, Store.After, Idle, Starts, SealedNext,
         Store.RotationSafe, Store.Placed, Complete, Without, CallRecords;
    h := SealNext(s, Blocking(c));
    SealedLike(s, Blocking(c), h);
    ValidLike(h, c);
    ghost var statuses := BlockedStatuses(c, g, h);
    CacheStarts(s);
    AdvanceGives(s, s.cache.value, Blocking(c), h, statuses);
    NothingOpen(statuses, c, |s.all|);
    SafeNext(s, h, statuses);
    LastKept(s);
    RequestKept(s, Blocking(c), |s.Retained()| - 1);
    AppendNext(s, Blocking(c), s.cache.value, h, s.After(s.cache.value, h).value);
  }

  lemma NothingOpen(statuses: CallTable, c: Identity, droppedThrough: nat)
    requires statuses.Keys == {c} && Complete(statuses, c)
    ensures RotationAllowed(statuses, droppedThrough)
  {
  }

  lemma LastKept(s: Store)
    requires Idle(s)
    ensures s.Retained() != [] && s.Retained()[|s.Retained()| - 1] == s.all[|s.all| - 1]
  {
    hide Valid, KeepsOpenCalls, LostMissing, IndexGood, HeadOf, Chained;
  }

  // ------------------------------------------------------------------------- padding

  // How many records were dropped, and where the first archive and the live file begin.
  ghost function Dropped(s: Store): nat
    requires |s.Retained()| <= |s.all|
    reads s
  {
    |s.all| - |s.Retained()|
  }

  ghost function Middle(s: Store): nat
    requires |s.Retained()| <= |s.all|
    reads s
  {
    Dropped(s) + |s.archive2|
  }

  ghost function Front(s: Store): nat
    requires |s.Retained()| <= |s.all|
    reads s
  {
    Dropped(s) + |s.archive2| + |s.archive1|
  }

  lemma KeptWithin(s: Store)
    requires Idle(s)
    ensures |s.Retained()| <= |s.all| && s.live != [] && Front(s) + |s.live| == |s.all|
  {
    hide Valid, KeepsOpenCalls, LostMissing, IndexGood, HeadOf, Chained;
  }

  // A complete call rotates the files at most once.
  twostate predicate Padded(s: Store)
    reads s
  {
    && |old(s.Retained())| <= |old(s.all)| && |s.Retained()| <= |s.all|
    && if Dropped(s) == old(Dropped(s)) && Middle(s) == old(Middle(s)) && Front(s) == old(Front(s))
       then s.FileBytes(old(s.live)) < s.FileBytes(s.live)
       else Dropped(s) == old(Middle(s)) && Middle(s) == old(Front(s)) && |old(s.all)| <= Front(s)
  }

  // A call that is requested and blocked.
  method PadCall(s: Store, n: Identity) returns (ghost p: Record, ghost q: Record)
    requires Quiet(s, n)
    modifies s
    ensures Quiet(s, n + 1) && Padded(s)
    ensures s.all == old(s.all) + [p, q] && Like(p, Request(n)) && Like(q, Blocking(n))
  {
    hide Statuses, Idle, Store.Good, Store.FileBytes, Store.Lawful;
    KeptWithin(s);
    ghost var before, live := s.all, s.live;
    p := RequestNew(s, n);
    KeptWithin(s);
    RoomFor(s, live, p);
    ghost var mid := s.live;
    q := BlockNew(s, n, p);
    KeptWithin(s);
    RoomFor(s, mid, q);
    assert s.all == before + [p, q];
  }

  lemma RoomFor(s: Store, log: seq<Record>, r: Record)
    requires Idle(s)
    ensures s.FileBytes([r]) <= MAX_RECORD_BYTES && s.size(r) + 1 <= MAX_RECORD_BYTES
    ensures 2 * MAX_RECORD_BYTES <= s.maxBytes
    ensures s.FileBytes(log + [r]) == s.FileBytes(log) + s.size(r) + 1
  {
    hide Store.Good;
    assert (log + [r])[..|log|] == log && [r][..0] == [];
  }

  // Every call was requested and blocked, and nothing else.
  ghost predicate AllBlocked(all: seq<Record>) {
    && (forall c :: CallRecords(all, c) != [] ==> Blocked(all, c))
    && forall i :: 0 <= i < |all| ==> all[i].payload.RequestAccepted? || all[i].payload.PreDecision?
  }

  lemma PairApart(all: seq<Record>, p: Record, q: Record, n: Identity, c: Identity)
    requires (forall i :: 0 <= i < |all| ==> all[i].CallId() < n) && p.CallId() == n && q.CallId() == n
    ensures CallRecords(all + [p, q], c) == if c == n then [p, q] else CallRecords(all, c)
  {
    hide CallRecords;
    assert (all + [p]) + [q] == all + [p, q];
    CallRecordsAppend(all, p, c);
    CallRecordsAppend(all + [p], q, c);
    NoRecords(all, n);
    assert [] + [p] == [p] && [p] + [q] == [p, q];
  }

  lemma PairKeepsBlocked(all: seq<Record>, p: Record, q: Record, n: Identity)
    requires AllBlocked(all) && (forall i :: 0 <= i < |all| ==> all[i].CallId() < n)
    requires Like(p, Request(n)) && Like(q, Blocking(n))
    ensures AllBlocked(all + [p, q])
  {
    hide RunCall, CallRecords, Terminal;
    forall c
      ensures CallRecords(all + [p, q], c) != [] ==> Blocked(all + [p, q], c)
    {
      PairApart(all, p, q, n, c);
      if c == n {
        PairBlocked(all + [p, q], n, p, q);
      }
    }
  }

  // Call 1 is requested and blocked, in one file.
  method BlockedStart(hash: Hash, mix: Mix, size: Record -> nat, maxBytes: nat)
    returns (s: Store, ghost a: Record, ghost b: Record)
    requires Roomy(size, maxBytes)
    ensures fresh(s) && Quiet(s, 2) && s.size == size && s.maxBytes == maxBytes
    ensures s.all == [a, b] && Like(a, Request(1)) && Like(b, Blocking(1))
    ensures s.live == [a, b] && s.archive1 == [] && s.archive2 == []
    ensures AllBlocked(s.all) && CallRecords(s.all, 1) == [a, b]
  {
    hide Statuses, Idle, CallRecords, Store.Good, Store.FileBytes, Store.Lawful, Blocked;
    s, a := Begin(hash, mix, size, maxBytes);
    b := BlockNew(s, 1, a);
    RoomFor(s, [a], b);
    assert [a] + [b] == [a, b];
    assert {} + {1} == {1};
    PairApart([], a, b, 1, 1);
    NoneBlocked();
    PairKeepsBlocked([], a, b, 1);
    assert [] + [a, b] == [a, b];
  }

  lemma NoneBlocked()
    ensures AllBlocked([])
  {
  }

  // ---------------------------------------------------- a log that no longer replays

  // What the late reservation of call 1 does to the statuses of the whole log.
  lemma ReservedStatuses(all: seq<Record>, a: Record, b: Record, d: Record, n: Identity) returns (statuses: CallTable)
    requires AllBlocked(all) && CallRecords(all, 1) == [a, b] && Statuses(all).Ok? && all != [] && all[0].sequence == 1
    requires Like(a, Request(1)) && Like(b, Blocking(1)) && Like(d, Reserving(1))
    requires forall i :: 0 <= i < |all| ==> all[i].CallId() < n
    ensures Statuses(all + [d]) == Ok(statuses) && ActiveOf(all + [d], statuses) == [a, b, d]
    ensures 1 !in TerminalIds(statuses) && forall c :: c in TerminalIds(statuses) ==> c < n
  {
    hide RunCall, Statuses, Terminal, CallRecords, Finish, ActiveOf;
    var u := RunReserved(1, a, b, d);
    CallRecordsAppend(all, d, 1);
    assert [a, b] + [d] == [a, b, d];
    assert (all + [d])[0] == all[0];
    LawfulNext(all, d);
    statuses := Statuses(all + [d]).value;
    OpenSeen(all + [d], all + [d], 1);
    forall c: Identity
      ensures c != 1 && CallRecords(all + [d], c) != [] ==> c < n && Complete(statuses, c)
    {
      CallRecordsAppend(all, d, c);
      if c != 1 && CallRecords(all, c) != [] {
        OtherComplete(all, d, c, n);
      }
    }
    StatusesByCall(all + [d]);
    forall i | 0 <= i < |all + [d]|
      ensures Complete(statuses, (all + [d])[i].CallId()) <==> (all + [d])[i].CallId() != 1
    {
      InCallRecords(all + [d], i);
    }
    OneActive(all + [d], 1, statuses);
  }

  lemma OtherComplete(all: seq<Record>, d: Record, c: Identity, n: Identity)
    requires Blocked(all, c) && CallRecords(all, c) != [] && CallRecords(all + [d], c) == CallRecords(all, c)
    requires Statuses(all + [d]).Ok? && forall i :: 0 <= i < |all| ==> all[i].CallId() < n
    ensures Complete(Statuses(all + [d]).value, c) && c < n
  {
    hide RunCall, Statuses, Terminal;
    SeenExactly(all + [d], all + [d], c);
    var r := CallRecords(all, c)[0];
    assert r in all && r.CallId() == c;
  }

  // A record drops nothing while there is no second archive, or room in the live file.
  lemma PlacedKeeps(s: Store, r: Record)
    requires Idle(s) && (s.archive2 == [] || s.FileBytes(s.live) <= MAX_RECORD_BYTES)
    ensures var (live, archive1, archive2) := s.Placed(r);
            && archive2 + archive1 + live == s.Retained() + [r] && live != []
            && |s.archive1| + |s.archive2| <= |archive1| + |archive2|
            && (s.archive2 == [] ==> archive2 == [] || s.FileBytes(live) <= MAX_RECORD_BYTES)
  {
    hide Store.Good, Store.FileBytes, Store.RotationDue;
    PlacedBytes(s, r);
  }

  // The late reservation of the blocked call, on the route that looks at all retained
  // records.
  method ReserveLate(s: Store, ghost a: Record, ghost b: Record, ghost n: Identity) returns (ghost d: Record)
    requires Quiet(s, n) && s.archive2 == [] && 2 <= |s.archive1| && s.Retained() == s.all && 1 < n
    requires AllBlocked(s.all) && CallRecords(s.all, 1) == [a, b] && |s.all| > 2 && s.all[0] == a
    requires Like(a, Request(1)) && Like(b, Blocking(1)) && s.all[|s.all| - 1].CallId() != 1
    modifies s
    ensures Idle(s) && s.Lawful() && Below(s, n) && s.all == old(s.all) + [d] && Like(d, Reserving(1))
    ensures s.Retained() == s.all && 2 <= |s.archive1| + |s.archive2|
    ensures s.archive2 == [] || s.FileBytes(s.live) <= MAX_RECORD_BYTES
    ensures s.cache.value.checkpoint.activeRecords == [a, b, d] && 1 !in s.cache.value.terminalIds
  {
    hide Statuses, Valid, LostAfter, Store.Good, Store.Loaded, Store.After, Idle, Starts, SealedNext, ActiveOf,
         TerminalIds, Store.RotationSafe, Store.Placed, Known, CallRecords, AllBlocked;
    d := SealNext(s, Reserving(1));
    SealedLike(s, Reserving(1), d);
    ValidLike(d, 1);
    Numbered(s, 0);
    ghost var statuses := ReservedStatuses(s.all, a, b, d, n);
    CacheStarts(s);
    BudgetGives(s, s.cache.value, Reserving(1), d, 0, statuses);
    SafeNext(s, d, statuses);
    RequestKept(s, Reserving(1), 0);
    PlacedKeeps(s, d);
    AppendNext(s, Reserving(1), s.cache.value, d, s.After(s.cache.value, d).value);
  }

  // The denial completes the call, so that its records may go.
  method Deny(s: Store, ghost a: Record, ghost b: Record, ghost d: Record, ghost n: Identity) returns (ghost e: Record)
    requires Idle(s) && s.Lawful() && Below(s, n) && s.Retained() == s.all && 1 < n
    requires 2 <= |s.archive1| + |s.archive2| && (s.archive2 == [] || s.FileBytes(s.live) <= MAX_RECORD_BYTES)
    requires |s.all| > 3 && s.all[0] == a && s.all[|s.all| - 1] == d
    requires Like(a, Request(1)) && Like(b, Blocking(1)) && Like(d, Reserving(1))
    requires s.cache.value.checkpoint.activeRecords == [a, b, d] && 1 !in s.cache.value.terminalIds
    modifies s
    ensures Quiet(s, n) && s.all == old(s.all) + [e] && Like(e, Denying(1))
    ensures s.Retained() == s.all && 2 <= |s.archive1| + |s.archive2| < |s.all|
  {
    hide Statuses, Valid, LostAfter, Store.Good, Store.Loaded, Store.After, Idle, Starts, SealedNext, Without,
         Store.RotationSafe, Store.Placed, Known;
    e := SealNext(s, Denying(1));
    SealedLike(s, Denying(1), e);
    ValidLike(e, 1);
    ghost var statuses := DeniedStatuses(a, b, d, e);
    CacheStarts(s);
    AdvanceGives(s, s.cache.value, Denying(1), e, statuses);
    NothingOpen(statuses, 1, |s.all|);
    SafeNext(s, e, statuses);
    RequestKept(s, Denying(1), 0);
    PlacedKeeps(s, e);
    AppendNext(s, Denying(1), s.cache.value, e, s.After(s.cache.value, e).value);
  }

  // The records of call 1, and where its block and its denial stand against the files.
  ghost predicate Denied(s: Store, four: seq<Record>, m: nat)
    reads s
  {
    && |four| == 4 && CallRecords(s.all, 1) == four && 2 <= m < |s.all| && s.all[m] == four[3]
    && s.all[0] == four[0] && s.all[1] == four[1]
    && |s.Retained()| <= |s.all| && Dropped(s) <= m
    && (Dropped(s) <= 1 ==> (if 1 < Middle(s) then Middle(s) <= m else 1 < Front(s) <= m))
  }

  // The first retained record tells how many were dropped.
  lemma FirstTells(s: Store)
    requires Idle(s)
    ensures |s.Retained()| <= |s.all| && s.Retained() != [] && s.Retained()[0].sequence == Dropped(s) + 1
    ensures s.FileBytes(s.live) <= s.maxBytes && s.Retained() == s.all[Dropped(s)..]
  {
    hide Valid, KeepsOpenCalls, LostMissing, IndexGood, HeadOf, Chained, Store.FileBytes;
    KeptWithin(s);
    assert s.Retained()[0] == s.all[Dropped(s)];
  }

  // Calls go by until the file with the block of call 1 is dropped, and no later one.
  method DropBlock(s: Store, n: Identity, ghost four: seq<Record>, ghost m: nat)
    requires Quiet(s, n) && 1 < n && Denied(s, four, m)
    modifies s
    ensures Idle(s) && s.Lawful() && Denied(s, four, m) && 1 < Dropped(s)
  {
    hide Idle, Store.Good, Store.FileBytes, Store.Lawful, CallRecords;
    var next := n;
    FirstTells(s);
    while s.Retained()[0].sequence <= 2
      invariant s.Retained() != [] && 1 < next && Quiet(s, next) && Denied(s, four, m)
      invariant s.Retained()[0].sequence == Dropped(s) + 1 && s.FileBytes(s.live) <= s.maxBytes
      decreases if 1 < Dropped(s) then 0 else if 1 < Middle(s) then 1 else 2, s.maxBytes - s.FileBytes(s.live)
    {
      ghost var before := s.all;
      ghost var p, q := PadCall(s, next);
      PairApart(before, p, q, next, 1);
      next := next + 1;
      FirstTells(s);
      KeptWithin(s);
    }
  }

  // What is left of call 1 then is its denial, perhaps with the reservation before it.
  lemma DenialLeft(s: Store, four: seq<Record>, m: nat)
    requires Idle(s) && Denied(s, four, m) && 1 < Dropped(s)
    requires Like(four[0], Request(1)) && Like(four[1], Blocking(1))
    requires Like(four[2], Reserving(1)) && Like(four[3], Denying(1))
    ensures !Rooted(CallRecords(s.Retained(), 1))
  {
    hide CallRecords, Store.Good, Rooted;
    FirstTells(s);
    var k := Dropped(s);
    var gone, left := CallRecords(s.all[..k], 1), CallRecords(s.Retained(), 1);
    assert s.all == s.all[..k] + s.Retained();
    CallRecordsConcat(s.all[..k], s.Retained(), 1);
    assert s.all[..k] == [four[0], four[1]] + s.all[2..k];
    CallRecordsConcat([four[0], four[1]], s.all[2..k], 1);
    Alone([four[0], four[1]], 1);
    assert s.Retained()[m - k] == four[3];
    InCallRecords(s.Retained(), m - k);
    assert gone + left == four && 2 <= |gone|;
    assert left == four[|gone|..];
    assert left == [four[2], four[3]] || left == [four[3]];
    DenialUnrooted(left, 1, four[2], four[3]);
  }

  // What the loops over calls need of a quiet store.
  lemma Settled(s: Store, n: Identity)
    requires Quiet(s, n)
    ensures Idle(s) && |s.Retained()| <= |s.all| && s.Retained() != [] && s.Retained()[0].sequence == Dropped(s) + 1
    ensures s.live != [] && Front(s) + |s.live| == |s.all| && s.FileBytes(s.live) <= s.maxBytes
    ensures s.Retained() == s.all[Dropped(s)..] && forall i :: 0 <= i < |s.all| ==> s.all[i].CallId() < n
  {
    hide Idle;
    FirstTells(s);
    KeptWithin(s);
  }

  // Nothing is dropped yet, and the records of call 1 are the first in their file.
  ghost predicate Filling(s: Store, n: Identity, a: Record, b: Record)
    reads s
  {
    && 2 <= n && Quiet(s, n) && s.archive2 == [] && s.Retained() == s.all && 2 <= |s.all|
    && AllBlocked(s.all) && CallRecords(s.all, 1) == [a, b] && s.all[..2] == [a, b]
    && (s.archive1 != [] ==> 2 <= |s.archive1| && 2 < n)
    && (2 < n ==> 2 < |s.all| && s.all[|s.all| - 1].CallId() != 1)
  }

  method FillStep(s: Store, n: Identity, ghost a: Record, ghost b: Record)
    requires Filling(s, n, a, b) && s.archive1 == []
    modifies s
    ensures Filling(s, n + 1, a, b) && s.FileBytes(s.live) <= s.maxBytes
    ensures s.archive1 == [] ==> s.FileBytes(old(s.live)) < s.FileBytes(s.live)
  {
    hide Quiet, Idle, Below, Like, Store.FileBytes, CallRecords, AllBlocked;
    ghost var before := s.all;
    Settled(s, n);
    ghost var p, q := PadCall(s, n);
    CallsNext(before, p, q, n, a, b);
    Settled(s, n + 1);
  }

  lemma CallsNext(all: seq<Record>, p: Record, q: Record, n: Identity, a: Record, b: Record)
    requires 1 < n && Like(p, Request(n)) && Like(q, Blocking(n)) && forall i :: 0 <= i < |all| ==> all[i].CallId() < n
    requires AllBlocked(all) && CallRecords(all, 1) == [a, b] && 2 <= |all| && all[..2] == [a, b]
    ensures AllBlocked(all + [p, q]) && CallRecords(all + [p, q], 1) == [a, b] && (all + [p, q])[..2] == [a, b]
    ensures (all + [p, q])[|all| + 1].CallId() != 1
  {
    hide CallRecords, AllBlocked;
    PairApart(all, p, q, n, 1);
    PairKeepsBlocked(all, p, q, n);
  }

  // Calls go by until the file with the block of call 1 is archived.
  method FillFile(s: Store, ghost a: Record, ghost b: Record) returns (n: Identity)
    requires Quiet(s, 2) && s.all == [a, b] && s.live == s.all && s.archive1 == [] && s.archive2 == []
    requires AllBlocked(s.all) && CallRecords(s.all, 1) == [a, b]
    modifies s
    ensures Filling(s, n, a, b) && s.archive1 != []
  {
    hide Quiet, Store.FileBytes, CallRecords, AllBlocked;
    n := 2;
    Settled(s, n);
    while s.archive1 == []
      invariant Filling(s, n, a, b) && s.FileBytes(s.live) <= s.maxBytes
      decreases s.archive1 == [], s.maxBytes - s.FileBytes(s.live)
    {
      FillStep(s, n, a, b);
      n := n + 1;
    }
  }

  // The late reservation and its denial, in a later file than the block.
  method DenyLate(s: Store, n: Identity, ghost a: Record, ghost b: Record)
    returns (ghost four: seq<Record>, ghost m: nat)
    requires Filling(s, n, a, b) && s.archive1 != [] && Like(a, Request(1)) && Like(b, Blocking(1))
    modifies s
    ensures Quiet(s, n) && 1 < n && Denied(s, four, m) && |four| == 4 && four[..2] == [a, b]
    ensures Like(four[2], Reserving(1)) && Like(four[3], Denying(1))
  {
    hide Idle, Store.Good, Store.FileBytes, Store.Lawful, CallRecords, AllBlocked, Below;
    ghost var before := s.all;
    ghost var d := ReserveLate(s, a, b, n);
    ghost var e := Deny(s, a, b, d, n);
    four, m := [a, b, d, e], |s.all| - 1;
    FourRecords(before, a, b, d, e);
    assert before[..2][0] == before[0] && before[..2][1] == before[1];
    KeptWithin(s);
  }

  // Call 1 is blocked, its late reservation is denied, and its block is in an older file
  // than its denial.
  method DeniedStart(hash: Hash, mix: Mix, size: Record -> nat, maxBytes: nat)
    returns (s: Store, n: Identity, ghost four: seq<Record>, ghost m: nat)
    requires Roomy(size, maxBytes)
    ensures fresh(s) && Quiet(s, n) && 1 < n && s.size == size && s.maxBytes == maxBytes && Denied(s, four, m)
    ensures Like(four[0], Request(1)) && Like(four[1], Blocking(1))
    ensures Like(four[2], Reserving(1)) && Like(four[3], Denying(1))
  {
    hide Quiet, Filling, Denied, CallRecords, AllBlocked;
    ghost var a, b;
    s, a, b := BlockedStart(hash, mix, size, maxBytes);
    n := FillFile(s, a, b);
    four, m := DenyLate(s, n, a, b);
    assert four[..2][0] == four[0] && four[..2][1] == four[1];
  }

  lemma FourRecords(all: seq<Record>, a: Record, b: Record, d: Record, e: Record)
    requires CallRecords(all, 1) == [a, b] && d.CallId() == 1 && e.CallId() == 1
    ensures CallRecords(all + [d] + [e], 1) == [a, b, d, e]
  {
    hide CallRecords;
    CallRecordsAppend(all, d, 1);
    CallRecordsAppend(all + [d], e, 1);
    assert [a, b] + [d] + [e] == [a, b, d, e];
  }

  // A run in which every append follows the protocol and every rotation is permitted,
  // and whose retained log replay rejects: after a restart every append is refused.
  method DenialRun(hash: Hash, mix: Mix, size: Record -> nat, maxBytes: nat, record: Record)
    returns (s: Store, out: AppendOutcome)
    requires Roomy(size, maxBytes)
    ensures fresh(s) && s.Good() && s.Lawful() && s.size == size && s.maxBytes == maxBytes
    ensures Statuses(s.Retained()).Err? && out.NotAppended?
  {
    hide Statuses, Valid, Store.Good, Store.Loaded, Rooted, CallRecords, Known, Store.Decide, HeadOf, Store.FileBytes,
         AllBlocked;
    var n;
    ghost var four, m;
    s, n, four, m := DeniedStart(hash, mix, size, maxBytes);
    DropBlock(s, n, four, m);
    DenialLeft(s, four, m);
    s.RetainedReplays();
    s.Restart();
    s.LoadsExactly(record);
    s.DecisionCases(record, false);
    out := s.Append(record, false, NoCrash);
  }

  // ------------------------------------------------- a forgotten call that is reopened

  // Perhaps the first files are dropped, with the records of call 1.
  ghost predicate Dropping(s: Store, n: Identity, a: Record, b: Record)
    reads s
  {
    && 2 <= n && Quiet(s, n) && s.Retained() != [] && |s.Retained()| <= |s.all| && 2 <= |s.all|
    && s.Retained()[0].sequence == Dropped(s) + 1
    && AllBlocked(s.all) && CallRecords(s.all, 1) == [a, b] && s.all[..2] == [a, b]
    && (1 < Dropped(s) ==> s.all[|s.all| - 1].CallId() != 1)
  }

  // How many files still stand between the records of call 1 and the end.
  ghost function Place(s: Store): nat
    requires |s.Retained()| <= |s.all|
    reads s
  {
    if 1 < Dropped(s) then 0 else if 1 < Middle(s) then 1 else if 1 < Front(s) then 2 else 3
  }

  method DropStep(s: Store, n: Identity, ghost a: Record, ghost b: Record)
    requires Dropping(s, n, a, b) && Dropped(s) <= 1
    modifies s
    ensures Dropping(s, n + 1, a, b) && s.FileBytes(s.live) <= s.maxBytes
    ensures Place(s) < old(Place(s)) || (Place(s) == old(Place(s)) && s.FileBytes(old(s.live)) < s.FileBytes(s.live))
  {
    hide Quiet, Idle, Below, Like, Store.FileBytes, CallRecords, AllBlocked;
    ghost var before := s.all;
    Settled(s, n);
    ghost var p, q := PadCall(s, n);
    CallsNext(before, p, q, n, a, b);
    Settled(s, n + 1);
  }

  // Calls go by until the files with the records of call 1 are dropped.
  method DropCall(s: Store, ghost a: Record, ghost b: Record)
    requires Quiet(s, 2) && s.all == [a, b] && AllBlocked(s.all) && CallRecords(s.all, 1) == [a, b]
    requires s.live == s.all && s.archive1 == [] && s.archive2 == []
    modifies s
    ensures exists n :: Dropping(s, n, a, b)
    ensures |s.Retained()| <= |s.all| && 1 < Dropped(s)
  {
    hide Quiet, Store.FileBytes, CallRecords, AllBlocked;
    var n := 2;
    Settled(s, n);
    while s.Retained()[0].sequence <= 2
      invariant Dropping(s, n, a, b) && s.FileBytes(s.live) <= s.maxBytes
      decreases Place(s), s.maxBytes - s.FileBytes(s.live)
    {
      DropStep(s, n, a, b);
      n := n + 1;
    }
  }

  lemma DroppedFacts(s: Store, n: Identity, a: Record, b: Record)
    requires Dropping(s, n, a, b) && 1 < Dropped(s)
    ensures Idle(s) && s.Lawful() && AllBlocked(s.all) && CallRecords(s.all, 1) == [a, b] && s.all[..2] == [a, b]
    ensures s.all[|s.all| - 1].CallId() != 1
  {
    hide Idle, CallRecords, AllBlocked;
  }

  lemma CallGone(s: Store, a: Record, b: Record)
    requires Idle(s) && |s.Retained()| <= |s.all| && 1 < Dropped(s)
    requires CallRecords(s.all, 1) == [a, b] && s.all[..2] == [a, b] && a.CallId() == 1 && b.CallId() == 1
    ensures CallRecords(s.Retained(), 1) == []
  {
    hide CallRecords, Store.Good;
    FirstTells(s);
    var k := Dropped(s);
    assert s.all == s.all[..k] + s.Retained();
    CallRecordsConcat(s.all[..k], s.Retained(), 1);
    assert s.all[..k] == s.all[..2] + s.all[2..k];
    CallRecordsConcat([a, b], s.all[2..k], 1);
    Alone([a, b], 1);
  }

  // What is retained of requested and blocked calls replays, with nothing active.
  lemma OthersRebuilt(s: Store) returns (statuses: CallTable)
    requires Idle(s) && s.Lawful() && AllBlocked(s.all) && CallRecords(s.Retained(), 1) == []
    ensures Statuses(s.Retained()) == Ok(statuses) && ActiveOf(s.Retained(), statuses) == []
    ensures 1 !in TerminalIds(statuses)
  {
    hide Statuses, CallRecords, Blocked, Rooted, Store.Good, Complete;
    KeptFacts(s);
    forall c
      ensures Rooted(CallRecords(s.Retained(), c))
    {
      PlainRooted(CallRecords(s.Retained(), c));
    }
    s.RetainedReplays();
    statuses := Statuses(s.Retained()).value;
    StatusesByCall(s.Retained());
    NotComplete(statuses, 1);
    forall i | 0 <= i < |s.Retained()|
      ensures Complete(statuses, s.Retained()[i].CallId())
    {
      var c := s.Retained()[i].CallId();
      InCallRecords(s.Retained(), i);
      SuffixRecords(s.all, s.Retained(), c);
      BlockedSeenComplete(s.all, s.Retained(), c);
    }
    NoneActive(s.Retained(), statuses);
  }

  lemma KeptFacts(s: Store)
    requires Idle(s)
    ensures CallHistory.AllValid(s.all) && Suffix(s.Retained(), s.all) && forall r :: r in s.Retained() ==> r in s.all
  {
    hide Valid, KeepsOpenCalls, LostMissing, IndexGood, HeadOf, Chained;
    s.RetainedFacts();
  }

  lemma NotComplete(statuses: CallTable, c: Identity)
    ensures c !in statuses ==> c !in TerminalIds(statuses)
  {
  }

  method ReserveForgotten(s: Store) returns (ghost l: Record)
    requires Idle(s) && s.Lawful() && s.cache.None? && AllBlocked(s.all) && CallRecords(s.Retained(), 1) == []
    requires s.all[|s.all| - 1].CallId() != 1
    modifies s
    ensures Idle(s) && s.all == old(s.all) + [l] && Like(l, Reserving(1))
    ensures s.lost == LostAfter(old(s.all), old(s.Retained()), {}, l)
  {
    hide Statuses, Valid, LostAfter, Store.Good, Store.Loaded, Store.After, Idle, Starts, SealedNext,
         Store.RotationSafe, Store.Placed, CallRecords, Complete, TerminalIds, ActiveOf, RotationAllowed, AllBlocked;
    ghost var rebuilt := OthersRebuilt(s);
    ghost var c := RebuiltStarts(s, rebuilt);
    l := SealNext(s, Reserving(1));
    SealedLike(s, Reserving(1), l);
    ValidLike(l, 1);
    LastKept(s);
    ghost var statuses := LateStatuses(l);
    assert [] + [l] == [l];
    AdvanceGives(s, c, Reserving(1), l, statuses);
    LateSafe(statuses, l.sequence, |s.all|);
    SafeNext(s, l, statuses);
    AppendNext(s, Reserving(1), c, l, s.After(c, l).value);
  }

  lemma LateSafe(statuses: CallTable, first: nat, droppedThrough: nat)
    requires statuses.Keys == {1} && statuses[1].firstSequence == first && droppedThrough < first
    ensures RotationAllowed(statuses, droppedThrough)
  {
  }

  // Call 1 is reopened by its reservation, after all its records were dropped.
  lemma Reopened(all: seq<Record>, kept: seq<Record>, a: Record, b: Record, l: Record)
    requires CallRecords(all, 1) == [a, b] && CallRecords(kept, 1) == []
    requires Like(a, Request(1)) && Like(b, Blocking(1)) && Like(l, Reserving(1))
    ensures LostAfter(all, kept, {}, l) == {1} && Open(all + [l], 1)
  {
    hide RunCall, CallRecords, Terminal;
    CallRecordsAppend(all, l, 1);
    assert [a, b] + [l] == [a, b, l];
    var u := RunReserved(1, a, b, l);
  }

  // A run of permitted appends and rotations, with a restart, after which an open call
  // has lost its start.
  method ForgottenRun(hash: Hash, mix: Mix, size: Record -> nat, maxBytes: nat) returns (s: Store)
    requires Roomy(size, maxBytes)
    ensures fresh(s) && s.Good() && s.size == size && s.maxBytes == maxBytes
    ensures s.lost == {1} && Open(s.all, 1) && |CallRecords(s.Retained(), 1)| < |CallRecords(s.all, 1)|
  {
    hide Statuses, Valid, LostAfter, Store.Good, Idle, CallRecords, Open, AllBlocked, Store.FileBytes;
    ghost var a, b;
    s, a, b := BlockedStart(hash, mix, size, maxBytes);
    DropCall(s, a, b);
    ghost var n :| Dropping(s, n, a, b);
    DroppedFacts(s, n, a, b);
    CallGone(s, a, b);
    RestartIdle(s);
    ghost var before, kept := s.all, s.Retained();
    ghost var l := ReserveForgotten(s);
    Reopened(before, kept, a, b, l);
    OpenLost(s);
  }

  method RestartIdle(s: Store)
    requires Idle(s)
    modifies s`cache
    ensures Idle(s) && s.cache.None?
  {
    s.Restart();
  }

  lemma OpenLost(s: Store)
    requires Idle(s) && s.lost == {1}
    ensures s.Good() && |CallRecords(s.Retained(), 1)| < |CallRecords(s.all, 1)|
  {
    hide CallRecords;
  }
}
