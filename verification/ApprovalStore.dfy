// Approval records (internal/actionstate/approval.go): issue, consume, finalize,
// reconcile and abandon. Budget charges are abstract: a charge step succeeds or fails,
// or finds the capacity for denials exhausted, as its parameter says. A failed
// operation leaves the state as it was. Every write validates the records first
// (state_validate.go).
module ApprovalStore {
  import opened Wrappers

  const MAX_RECORDS := 65536
  const MAX_PENDING := 4

  type Identity = nat

  datatype Status = Pending | Approved | Rejected | Expired | Cancelled | Unavailable | Malformed | Replayed

  datatype Phase = PreCall | PostResult

  datatype Request = Request(requestId: Identity, callId: Identity, phase: Phase, expiresAt: int,
                             reservation: Option<Identity>)

  // What counting a denial came to.
  datatype Denial = Denial(consumed: nat, exhausted: bool)

  // What charging a reservation comes to; only denials are counted.
  datatype Charge = Refused | Made(denial: Denial)

  datatype ApprovalRecord = ApprovalRecord(
    request: Request, status: Status, receipt: Option<Identity>, updatedAt: int, denial: Option<Denial>)

  // An ended approval, and whether ending it reports an error although it was written.
  datatype Finalized = Finalized(record: ApprovalRecord, exhausted: bool)

  datatype ReservationStatus = Reserved | Dispatched | Indeterminate

  datatype Reservation = Reservation(owner: Identity, callId: Identity, status: ReservationStatus)

  type Records = seq<ApprovalRecord>

  type Reservations = map<Identity, Reservation>

  // A sealed request state: what it names, and the version it was issued at.
  datatype Token = Token(request: Request, issuedVersion: nat)

  datatype StateError =
    | CapacityExhausted | AlreadyRecorded | NotAdmissible | ReservationChanged
    | ChargeFailed | WriteFailed | StateCorrupt
    | UnknownRequest | BindingChanged | NotConsumable | StaleVersion | StatusInvalid | NotYetExpired
    | ReservationMissing | ReservationPassedDispatch
    | ReceiptInvalid | ReceiptRejected | ReceiptReplayed

  // How a receipt may fail to verify.
  type Failure = s: Status | s !in {Pending, Approved, Rejected} witness Malformed

  // What verifying a receipt yields.
  datatype Verification = Verified(receiptId: Identity, approve: bool) | Failed(failure: Failure)

  // ------------------------------------------------------------------ on records

  predicate Sorted(records: Records) {
    forall i, j :: 0 <= i < j < |records| ==> records[i].request.requestId < records[j].request.requestId
  }

  predicate OnePerCallPhase(records: Records) {
    forall i, j :: 0 <= i < j < |records| ==>
      records[i].request.callId != records[j].request.callId || records[i].request.phase != records[j].request.phase
  }

  // No two records have one receipt.
  predicate ReceiptsUnique(records: Records) {
    forall i, j :: 0 <= i < j < |records| && records[i].receipt.Some? ==> records[i].receipt != records[j].receipt
  }

  // Exactly the records an authority decided have a receipt.
  predicate ReceiptsFollowDecision(records: Records) {
    forall i :: 0 <= i < |records| ==>
      (records[i].receipt.Some? <==> records[i].status == Approved || records[i].status == Rejected)
  }

  function PendingCount(records: Records): nat {
    if records == [] then 0
    else PendingCount(records[..|records| - 1]) + if records[|records| - 1].status == Pending then 1 else 0
  }

  // What the validation before every write demands of the records.
  predicate GoodRecords(records: Records) {
    && Sorted(records) && OnePerCallPhase(records) && ReceiptsUnique(records) && ReceiptsFollowDecision(records)
    && |records| <= MAX_RECORDS && PendingCount(records) <= MAX_PENDING
  }

  predicate ReceiptExists(records: Records, receipt: Identity, except: nat) {
    exists i :: 0 <= i < |records| && i != except && records[i].receipt == Some(receipt)
  }

  predicate Recorded(records: Records, callId: Identity, phase: Phase) {
    exists i :: 0 <= i < |records| && records[i].request.callId == callId && records[i].request.phase == phase
  }

  // Whether one record may become another: a pending one may take any status once, a
  // finished one never changes.
  predicate MayBecome(a: ApprovalRecord, b: ApprovalRecord) {
    b.request == a.request && (a.status != Pending ==> b == a)
  }

  ghost predicate Survives(r: ApprovalRecord, after: Records) {
    exists j :: 0 <= j < |after| && MayBecome(r, after[j])
  }

  // Every record of before is still there, perhaps finished; at most new ones joined.
  ghost predicate Evolves(before: Records, after: Records) {
    forall i :: 0 <= i < |before| ==> Survives(before[i], after)
  }

  lemma EvolvesSelf(records: Records)
    ensures Evolves(records, records)
  {
    EvolvesInPlace(records, records);
  }

  lemma EvolvesInPlace(before: Records, after: Records)
    requires |before| == |after| && forall i :: 0 <= i < |before| ==> MayBecome(before[i], after[i])
    ensures Evolves(before, after)
  {
    forall i | 0 <= i < |before|
      ensures Survives(before[i], after)
    {
      assert MayBecome(before[i], after[i]);
    }
  }

  lemma EvolvesTrans(a: Records, b: Records, c: Records)
    requires Evolves(a, b) && Evolves(b, c)
    ensures Evolves(a, c)
  {
    forall i | 0 <= i < |a|
      ensures Survives(a[i], c)
    {
      assert Survives(a[i], b);
      var j :| 0 <= j < |b| && MayBecome(a[i], b[j]);
      assert Survives(b[j], c);
      var k :| 0 <= k < |c| && MayBecome(b[j], c[k]);
      assert MayBecome(a[i], c[k]);
    }
  }

  // A run of states, each evolved from the one before.
  ghost predicate Run(states: seq<Records>) {
    && states != [] && (forall n :: 0 <= n < |states| ==> GoodRecords(states[n]))
    && forall n :: 0 < n < |states| ==> Evolves(states[n - 1], states[n])
  }

  lemma {:induction false} RunEvolves(states: seq<Records>, i: nat, j: nat)
    requires Run(states) && i <= j < |states|
    ensures Evolves(states[i], states[j])
    decreases j
  {
    hide GoodRecords, Evolves;
    if i == j {
      EvolvesSelf(states[i]);
    } else {
      RunEvolves(states, i, j - 1);
      EvolvesTrans(states[i], states[j - 1], states[j]);
    }
  }

  // Over a whole run, a record that left pending keeps its status and its receipt.
  lemma RunKeepsFinished(states: seq<Records>, i: nat, j: nat, k: nat)
    requires Run(states) && i <= j < |states| && k < |states[i]| && states[i][k].status != Pending
    ensures states[i][k] in states[j]
  {
    hide GoodRecords;
    RunEvolves(states, i, j);
    assert Survives(states[i][k], states[j]);
  }

  // Over a whole run a receipt decides at most one request, and a call phase has at
  // most one decided request.
  lemma ReceiptSpentOnce(states: seq<Records>, i: nat, k: nat, j: nat, m: nat)
    requires Run(states) && i < |states| && k < |states[i]| && j < |states| && m < |states[j]|
    requires states[i][k].status != Pending && states[j][m].status != Pending
    requires (states[i][k].receipt.Some? && states[i][k].receipt == states[j][m].receipt)
             || (states[i][k].request.callId == states[j][m].request.callId
                 && states[i][k].request.phase == states[j][m].request.phase)
    ensures states[i][k] == states[j][m]
  {
    hide Evolves, Sorted, PendingCount;
    var last := |states| - 1;
    RunKeepsFinished(states, i, last, k);
    RunKeepsFinished(states, j, last, m);
    var a :| 0 <= a < |states[last]| && states[last][a] == states[i][k];
    var b :| 0 <= b < |states[last]| && states[last][b] == states[j][m];
    assert a == b;
  }

  // --------------------------------------------------------------- one position changes

  lemma {:induction false} PendingAfterFinish(records: Records, index: nat, r: ApprovalRecord)
    requires index < |records| && r.status != Pending
    ensures PendingCount(records[index := r]) <= PendingCount(records)
    decreases |records|
  {
    var last := |records| - 1;
    if index < last {
      PendingAfterFinish(records[..last], index, r);
      assert records[index := r][..last] == records[..last][index := r];
    } else {
      assert records[index := r][..last] == records[..last];
    }
  }

  lemma SameRequests(before: Records, after: Records)
    requires |before| == |after| && forall i :: 0 <= i < |before| ==> after[i].request == before[i].request
    requires Sorted(before) && OnePerCallPhase(before)
    ensures Sorted(after) && OnePerCallPhase(after)
  {
  }

  // Finishing one pending record keeps the records good exactly when its receipt, if
  // it has one, is used nowhere else.
  lemma FinishKeepsGood(records: Records, index: nat, r: ApprovalRecord)
    requires GoodRecords(records) && index < |records| && records[index].status == Pending
    requires r.request == records[index].request && r.status != Pending
    requires r.receipt.Some? <==> r.status == Approved || r.status == Rejected
    ensures GoodRecords(records[index := r]) <==> !(r.receipt.Some? && ReceiptExists(records, r.receipt.value, index))
    ensures Evolves(records, records[index := r])
  {
    hide Sorted, OnePerCallPhase, PendingCount;
    PendingAfterFinish(records, index, r);
    SameRequests(records, records[index := r]);
    FinishKeepsReceipts(records, index, r);
    EvolvesInPlace(records, records[index := r]);
  }

  lemma FinishKeepsReceipts(records: Records, index: nat, r: ApprovalRecord)
    requires ReceiptsUnique(records) && ReceiptsFollowDecision(records) && index < |records|
    requires r.receipt.Some? <==> r.status == Approved || r.status == Rejected
    ensures ReceiptsFollowDecision(records[index := r])
    ensures ReceiptsUnique(records[index := r]) <==>
              !(r.receipt.Some? && ReceiptExists(records, r.receipt.value, index))
  {
    var after := records[index := r];
    if r.receipt.Some? && ReceiptExists(records, r.receipt.value, index) {
      var i :| 0 <= i < |records| && i != index && records[i].receipt == r.receipt;
      assert after[i].receipt == after[index].receipt;
    }
  }

  // ------------------------------------------------------------------- insertion

  function InsertAt(records: Records, r: ApprovalRecord): (at: nat)
    ensures at <= |records|
    ensures forall i :: 0 <= i < at ==> records[i].request.requestId <= r.request.requestId
    ensures at < |records| ==> r.request.requestId < records[at].request.requestId
  {
    if records == [] || r.request.requestId < records[0].request.requestId then 0
    else 1 + InsertAt(records[1..], r)
  }

  // The records with one more, in their order.
  function Inserted(records: Records, r: ApprovalRecord): Records {
    records[..InsertAt(records, r)] + [r] + records[InsertAt(records, r)..]
  }

  lemma {:induction false} PendingConcat(a: Records, b: Records)
    ensures PendingCount(a + b) == PendingCount(a) + PendingCount(b)
    decreases |b|
  {
    if b == [] {
      assert a + b == a;
    } else {
      assert (a + b)[..|a + b| - 1] == a + b[..|b| - 1];
      PendingConcat(a, b[..|b| - 1]);
    }
  }

  // The inserted list, position by position.
  predicate InsertedAt(records: Records, r: ApprovalRecord, at: nat, after: Records) {
    && |after| == |records| + 1 && at <= |records| && after[at] == r
    && (forall i :: 0 <= i < at ==> after[i] == records[i])
    && (forall i :: at < i < |after| ==> after[i] == records[i - 1])
  }

  predicate Named(records: Records, requestId: Identity) {
    exists i :: 0 <= i < |records| && records[i].request.requestId == requestId
  }

  // A new pending record is good exactly when no record has its identifier.
  lemma InsertKeepsGood(records: Records, r: ApprovalRecord)
    requires GoodRecords(records) && |records| < MAX_RECORDS && PendingCount(records) < MAX_PENDING
    requires r.status == Pending && r.receipt.None? && !Recorded(records, r.request.callId, r.request.phase)
    ensures GoodRecords(Inserted(records, r)) <==> !Named(records, r.request.requestId)
    ensures Evolves(records, Inserted(records, r))
  {
    hide *;
    var at, after := InsertAt(records, r), Inserted(records, r);
    GoodParts(records);
    InsertPlaces(records, r);
    InsertPending(records, r);
    InsertSorted(records, r, at, after);
    InsertUnique(records, r, at, after);
    InsertReceipts(records, r, at, after);
    InsertEvolves(records, r, at, after);
    GoodParts(after);
  }

  lemma GoodParts(records: Records)
    ensures GoodRecords(records) <==>
            && Sorted(records) && OnePerCallPhase(records) && ReceiptsUnique(records) && ReceiptsFollowDecision(records)
            && |records| <= MAX_RECORDS && PendingCount(records) <= MAX_PENDING
  {
  }

  lemma InsertPlaces(records: Records, r: ApprovalRecord)
    ensures InsertedAt(records, r, InsertAt(records, r), Inserted(records, r))
    ensures |Inserted(records, r)| == |records| + 1
  {
    hide InsertAt;
  }

  lemma InsertPending(records: Records, r: ApprovalRecord)
    requires r.status == Pending
    ensures PendingCount(Inserted(records, r)) == PendingCount(records) + 1
  {
    hide InsertAt;
    var at := InsertAt(records, r);
    assert records == records[..at] + records[at..];
    PendingConcat(records[..at], records[at..]);
    PendingConcat(records[..at] + [r], records[at..]);
    PendingConcat(records[..at], [r]);
    assert [r][..0] == [];
  }

  lemma InsertSorted(records: Records, r: ApprovalRecord, at: nat, after: Records)
    requires Sorted(records) && at == InsertAt(records, r) && InsertedAt(records, r, at, after)
    ensures Sorted(after) <==> !Named(records, r.request.requestId)
  {
    hide *;
    if Named(records, r.request.requestId) {
      InsertDoubled(records, r, at, after);
    } else {
      InsertAscends(records, r, at, after);
    }
  }

  lemma InsertDoubled(records: Records, r: ApprovalRecord, at: nat, after: Records)
    requires Named(records, r.request.requestId) && InsertedAt(records, r, at, after)
    ensures !Sorted(after)
  {
    var i :| 0 <= i < |records| && records[i].request.requestId == r.request.requestId;
    if i < at {
      assert after[i].request.requestId == after[at].request.requestId;
    } else {
      assert after[at].request.requestId == after[i + 1].request.requestId;
    }
  }

  lemma InsertAscends(records: Records, r: ApprovalRecord, at: nat, after: Records)
    requires Sorted(records) && at == InsertAt(records, r) && InsertedAt(records, r, at, after)
    requires !Named(records, r.request.requestId)
    ensures Sorted(after)
  {
    hide InsertAt, Sorted, InsertedAt;
    forall i, j | 0 <= i < j < |after|
      ensures after[i].request.requestId < after[j].request.requestId
    {
      InsertOrders(records, r, at, after, i, j);
    }
    AllOrdered(after);
  }

  lemma InsertOrders(records: Records, r: ApprovalRecord, at: nat, after: Records, i: nat, j: nat)
    requires Sorted(records) && at == InsertAt(records, r) && InsertedAt(records, r, at, after)
    requires !Named(records, r.request.requestId) && i < j < |after|
    ensures after[i].request.requestId < after[j].request.requestId
  {
    hide InsertAt;
    if at < i {
      assert records[i - 1].request.requestId < records[j - 1].request.requestId;
    } else if i == at {
      assert r.request.requestId < records[at].request.requestId;
    } else if j == at {
      assert records[i].request.requestId != r.request.requestId;
    }
  }

  lemma AllOrdered(after: Records)
    requires forall i, j :: 0 <= i < j < |after| ==> after[i].request.requestId < after[j].request.requestId
    ensures Sorted(after)
  {
  }

  lemma InsertUnique(records: Records, r: ApprovalRecord, at: nat, after: Records)
    requires OnePerCallPhase(records) && InsertedAt(records, r, at, after)
    requires !Recorded(records, r.request.callId, r.request.phase)
    ensures OnePerCallPhase(after)
  {
  }

  lemma InsertReceipts(records: Records, r: ApprovalRecord, at: nat, after: Records)
    requires ReceiptsUnique(records) && ReceiptsFollowDecision(records) && InsertedAt(records, r, at, after)
    requires r.status == Pending && r.receipt.None?
    ensures ReceiptsUnique(after) && ReceiptsFollowDecision(after)
  {
  }

  lemma InsertEvolves(records: Records, r: ApprovalRecord, at: nat, after: Records)
    requires InsertedAt(records, r, at, after)
    ensures Evolves(records, after)
  {
    forall i | 0 <= i < |records|
      ensures Survives(records[i], after)
    {
      assert MayBecome(records[i], after[if i < at then i else i + 1]);
    }
  }

  // -------------------------------------------------------------------- reservations

  // Ending the budget side of a finished approval. Charging is the parameter's matter.
  function EndReservation(reservations: Reservations, request: Request, charge: Identity -> Charge)
    : Result<Reservations, StateError>
  {
    if request.reservation.None? then Ok(reservations)
    else
      var id := request.reservation.value;
      if id !in reservations then Err(ReservationMissing)
      else if request.phase == PostResult then
        if reservations[id].status != Dispatched then Err(ReservationPassedDispatch)
        else if charge(id).Refused? then Err(ChargeFailed)
        else Ok(reservations)
      else if reservations[id].status != Reserved then Err(ReservationPassedDispatch)
      else if charge(id).Refused? then Err(ChargeFailed)
      else Ok(reservations - {id})
  }

  // The denial that ending a request counts: of a reservation never dispatched.
  function Counted(request: Request, charge: Identity -> Charge): Option<Denial> {
    if request.reservation.None? || request.phase == PostResult || charge(request.reservation.value).Refused? then None
    else Some(charge(request.reservation.value).denial)
  }

  predicate Exhausts(request: Request, charge: Identity -> Charge) {
    Counted(request, charge).Some? && Counted(request, charge).value.exhausted
  }

  // Only a call that was never dispatched loses its reservation, and no other does.
  lemma EndReservationExact(reservations: Reservations, request: Request, charge: Identity -> Charge)
    requires EndReservation(reservations, request, charge).Ok?
    ensures var after := EndReservation(reservations, request, charge).value;
            forall id :: id in after <==>
              id in reservations && !(request.phase == PreCall && request.reservation == Some(id))
    ensures forall id :: id in EndReservation(reservations, request, charge).value ==>
              EndReservation(reservations, request, charge).value[id] == reservations[id]
  {
  }

  // Ending the reservations of the first n records that are due, one after the other.
  function EndDue(records: Records, n: nat, reservations: Reservations, now: int, charge: Identity -> Charge)
    : Result<Reservations, StateError>
    requires n <= |records|
  {
    if n == 0 then Ok(reservations)
    else
      match EndDue(records, n - 1, reservations, now, charge)
      case Err(e) => Err(e)
      case Ok(held) =>
        if Due(records[n - 1], now) then EndReservation(held, records[n - 1].request, charge) else Ok(held)
  }

  lemma {:induction false} EndDueFails(records: Records, n: nat, reservations: Reservations, now: int,
                                      charge: Identity -> Charge)
    requires n <= |records| && EndDue(records, n, reservations, now, charge).Err?
    ensures EndDue(records, |records|, reservations, now, charge).Err?
    decreases |records| - n
  {
    if n < |records| {
      EndDueFails(records, n + 1, reservations, now, charge);
    }
  }

  // ----------------------------------------------------------------- whole-list steps

  predicate Due(r: ApprovalRecord, now: int) {
    r.status == Pending && r.request.expiresAt <= now
  }

  function Expire(r: ApprovalRecord, now: int, charge: Identity -> Charge): ApprovalRecord {
    r.(status := Expired, updatedAt := now, denial := Counted(r.request, charge))
  }

  // What reconciling does to the records.
  function ExpireDue(records: Records, now: int, charge: Identity -> Charge): (after: Records)
    ensures |after| == |records|
    ensures forall i :: 0 <= i < |records| ==>
              after[i] == if Due(records[i], now) then Expire(records[i], now, charge) else records[i]
  {
    if records == [] then []
    else
      var r := records[|records| - 1];
      ExpireDue(records[..|records| - 1], now, charge) + [if Due(r, now) then Expire(r, now, charge) else r]
  }

  predicate NoneDue(records: Records, now: int) {
    forall i :: 0 <= i < |records| ==> !Due(records[i], now)
  }

  lemma {:induction false} FewerPending(before: Records, after: Records)
    requires |before| == |after|
    requires forall i :: 0 <= i < |before| && after[i].status == Pending ==> before[i].status == Pending
    ensures PendingCount(after) <= PendingCount(before)
    decreases |before|
  {
    if before != [] {
      FewerPending(before[..|before| - 1], after[..|after| - 1]);
    }
  }

  // A record left alone, or a pending one that failed.
  predicate FailsOrStays(a: ApprovalRecord, b: ApprovalRecord) {
    MayBecome(a, b) && (b == a || (b.status !in {Pending, Approved, Rejected} && b.receipt == a.receipt))
  }

  // Finishing any number of pending records without approving one keeps them good.
  lemma FailingKeepsGood(before: Records, after: Records)
    requires GoodRecords(before) && |after| == |before|
    requires forall i :: 0 <= i < |before| ==> FailsOrStays(before[i], after[i])
    ensures GoodRecords(after) && Evolves(before, after)
  {
    hide Sorted, OnePerCallPhase, PendingCount;
    FewerPending(before, after);
    SameRequests(before, after);
    FailingKeepsReceipts(before, after);
    EvolvesInPlace(before, after);
  }

  lemma FailingKeepsReceipts(before: Records, after: Records)
    requires ReceiptsUnique(before) && ReceiptsFollowDecision(before) && |after| == |before|
    requires forall i :: 0 <= i < |before| ==> FailsOrStays(before[i], after[i])
    ensures ReceiptsUnique(after) && ReceiptsFollowDecision(after)
  {
    forall i | 0 <= i < |after|
      ensures after[i].receipt == before[i].receipt
      ensures after[i].receipt.Some? <==> after[i].status == Approved || after[i].status == Rejected
    {
      assert FailsOrStays(before[i], after[i]);
    }
  }

  // Reconciling twice at one time is reconciling once.
  lemma ExpireTwice(records: Records, now: int, charge: Identity -> Charge)
    ensures NoneDue(ExpireDue(records, now, charge), now)
    ensures NoneDue(records, now) ==> ExpireDue(records, now, charge) == records
    ensures ExpireDue(ExpireDue(records, now, charge), now, charge) == ExpireDue(records, now, charge)
  {
    var once := ExpireDue(records, now, charge);
    assert forall i :: 0 <= i < |once| ==> ExpireDue(once, now, charge)[i] == once[i];
  }

  // ------------------------------------------------------------------------ the store

  // The reservations that abandoning an owner makes indeterminate.
  predicate Abandoned(r: Reservation, owner: Identity) {
    r.owner == owner && r.status != Indeterminate
  }

  predicate AbandonedApproval(r: ApprovalRecord, reservations: Reservations, owner: Identity) {
    && r.status == Pending && r.request.reservation.Some?
    && r.request.reservation.value in reservations && Abandoned(reservations[r.request.reservation.value], owner)
  }

  // A pending approval with a reservation needs it there, and releasable if abandoned.
  predicate GivesUp(r: ApprovalRecord, reservations: Reservations, owner: Identity, charge: Identity -> Charge) {
    r.status == Pending && r.request.reservation.Some? ==>
      && r.request.reservation.value in reservations
      && (Abandoned(reservations[r.request.reservation.value], owner) ==> charge(r.request.reservation.value).Made?)
  }

  predicate ApprovalsGiveUp(records: Records, reservations: Reservations, owner: Identity, charge: Identity -> Charge) {
    forall i :: 0 <= i < |records| ==> GivesUp(records[i], reservations, owner, charge)
  }

  predicate ReservationsGiveUp(reservations: Reservations, owner: Identity, charge: Identity -> Charge) {
    forall id :: id in reservations && Abandoned(reservations[id], owner) && reservations[id].status == Reserved ==>
      charge(id).Made?
  }

  predicate FinalFailure(status: Status) {
    status in {Expired, Cancelled, Unavailable, Malformed, Replayed}
  }

  // What finalizing the record at k reports: the error of an exhausted capacity only
  // the first time, the denial that was counted every time.
  predicate FinalizedAt(before: Records, k: nat, token: Token, status: Status, now: int, charge: Identity -> Charge,
                        out: Finalized)
    requires k < |before|
  {
    && before[k].request == token.request
    && if before[k].status != Pending then out == Finalized(before[k], false)
       else
         && FinalFailure(status) && (status == Expired ==> token.request.expiresAt <= now)
         && out.record == before[k].(status := status, receipt := None, updatedAt := now,
                                     denial := Counted(token.request, charge))
         && out.exhausted == Exhausts(token.request, charge)
  }

  // The pending record at k is the one the token names.
  predicate Awaiting(records: Records, k: int, token: Token) {
    0 <= k < |records| && records[k].request == token.request && records[k].status == Pending
  }

  // The records with the one at k ended.
  function Ended(records: Records, k: int, status: Status, receipt: Option<Identity>, now: int, denial: Option<Denial>)
    : Records
    requires 0 <= k < |records|
  {
    records[k := records[k].(status := status, receipt := receipt, updatedAt := now, denial := denial)]
  }

  // The budget side of a request can be charged.
  predicate Chargeable(request: Request, reservations: Reservations, charge: Identity -> Charge) {
    request.reservation.Some? ==> request.reservation.value in reservations && charge(request.reservation.value).Made?
  }

  // The operations of the store, with what the world answers to each.
  datatype Operation =
    | Issuing(request: Request, now: int, admissible: bool, charge: Identity -> Charge, writes: bool)
    | Consuming(token: Token, expectedVersion: nat, bindingCurrent: bool, verification: Verification, now: int,
                charge: Identity -> Charge, writes: bool)
    | Finalizing(token: Token, expectedVersion: nat, status: Status, now: int, charge: Identity -> Charge, writes: bool)
    | Reconciling(now: int, charge: Identity -> Charge, writes: bool)
    | Abandoning(owner: Identity, now: int, charge: Identity -> Charge, writes: bool)

  // A receipt that does not approve the record at k.
  predicate Refuses(verification: Verification, records: Records, k: nat) {
    verification.Failed? || !verification.approve || ReceiptExists(records, verification.receiptId, k)
  }

  // The status and the receipt that such a receipt leaves.
  function RefusedStatus(verification: Verification): Status {
    match verification
    case Failed(failure) => failure
    case Verified(_, approve) => if approve then Replayed else Rejected
  }

  function RefusedReceipt(verification: Verification): Option<Identity> {
    if verification.Verified? && !verification.approve then Some(verification.receiptId) else None
  }

  // What it reports: why the record could not be ended, or how it was.
  function Refusal(verification: Verification, records: Records, reservations: Reservations, k: nat,
                   charge: Identity -> Charge, writes: bool): StateError
    requires k < |records|
  {
    var ended, receipt := EndReservation(reservations, records[k].request, charge), RefusedReceipt(verification);
    if ended.Err? then ended.error
    else if receipt.Some? && ReceiptExists(records, receipt.value, k) then StateCorrupt
    else if !writes then WriteFailed
    else if verification.Failed? then ReceiptInvalid
    else if !verification.approve then ReceiptRejected
    else ReceiptReplayed
  }

  const ENDING := {ReceiptInvalid, ReceiptRejected, ReceiptReplayed}

  class ApprovalStore {
    var approvals: Records
    var reservations: Reservations
    var version: nat

    ghost predicate Good()
      reads this
    {
      GoodRecords(approvals)
    }

    constructor ()
      ensures Good() && approvals == [] && reservations == map[] && version == 0
    {
      approvals, reservations, version := [], map[], 0;
    }

    // What every operation keeps: the records stay good, none that finished changes,
    // and a failure changes nothing.
    twostate predicate Kept(failed: bool)
      reads this
    {
      && Good() && Evolves(old(approvals), approvals)
      && (failed ==> approvals == old(approvals) && reservations == old(reservations) && version == old(version))
    }

    // Binary search by request identifier (approvalRecordIndex).
    method RecordIndex(requestId: Identity) returns (index: int)
      requires Sorted(approvals)
      ensures index == -1 <==> forall i :: 0 <= i < |approvals| ==> approvals[i].request.requestId != requestId
      ensures index != -1 ==> 0 <= index < |approvals| && approvals[index].request.requestId == requestId
    {
      var low, high := 0, |approvals|;
      while low < high
        invariant 0 <= low <= high <= |approvals|
        invariant forall i :: 0 <= i < low ==> approvals[i].request.requestId < requestId
        invariant forall i :: high <= i < |approvals| ==> requestId <= approvals[i].request.requestId
      {
        var middle := low + (high - low) / 2;
        if requestId <= approvals[middle].request.requestId {
          high := middle;
        } else {
          low := middle + 1;
        }
      }
      if low == |approvals| || approvals[low].request.requestId != requestId {
        return -1;
      }
      return low;
    }

    // Publishes a new state, if its records are valid and the files take it.
    method Write(next: Records, held: Reservations, writes: bool) returns (err: Option<StateError>)
      requires Good() && Evolves(approvals, next)
      modifies this
      ensures Kept(err.Some?)
      ensures err == if !GoodRecords(next) then Some(StateCorrupt) else if !writes then Some(WriteFailed) else None
      ensures err.None? ==> approvals == next && reservations == held && version == old(version) + 1
    {
      hide GoodRecords, Evolves;
      EvolvesSelf(approvals);
      if !GoodRecords(next) {
        return Some(StateCorrupt);
      }
      if !writes {
        return Some(WriteFailed);
      }
      approvals, reservations, version := next, held, version + 1;
      return None;
    }

    // A new pending approval (persistPendingApproval). The validation of the write
    // refuses an identifier that a record has already.
    method Issue(request: Request, now: int, admissible: bool, charge: Identity -> Charge, writes: bool)
      returns (out: Result<nat, StateError>)
      requires Good()
      modifies this
      ensures Kept(out.Err?)
      ensures out.Ok? <==>
                && |old(approvals)| < MAX_RECORDS && PendingCount(old(approvals)) < MAX_PENDING
                && !Recorded(old(approvals), request.callId, request.phase) && admissible && writes
                && !Named(old(approvals), request.requestId)
                && (request.reservation.Some? ==>
                      && request.reservation.value in old(reservations)
                      && old(reservations)[request.reservation.value].callId == request.callId
                      && charge(request.reservation.value).Made?)
      ensures out.Ok? ==> out.value == version == old(version) + 1 && reservations == old(reservations)
      ensures out.Ok? ==> approvals == Inserted(old(approvals), ApprovalRecord(request, Pending, None, now, None))
    {
      hide GoodRecords, Recorded, Named, Evolves;
      EvolvesSelf(approvals);
      GoodIsSorted(approvals);
      if MAX_RECORDS <= |approvals| || MAX_PENDING <= PendingCount(approvals) {
        return Err(CapacityExhausted);
      }
      if Recorded(approvals, request.callId, request.phase) {
        return Err(AlreadyRecorded);
      }
      if !admissible {
        return Err(NotAdmissible);
      }
      if request.reservation.Some? {
        var id := request.reservation.value;
        if id !in reservations || reservations[id].callId != request.callId {
          return Err(ReservationChanged);
        }
        if charge(id).Refused? {
          return Err(ChargeFailed);
        }
      }
      var record := ApprovalRecord(request, Pending, None, now, None);
      InsertKeepsGood(approvals, record);
      var failed := Write(Inserted(approvals, record), reservations, writes);
      return if failed.Some? then Err(failed.value) else Ok(version);
    }

    // Ending a pending approval without approving it (finishPendingApproval): reported is
    // whether the capacity for denials was exhausted.
    method Finish(index: nat, status: Status, receipt: Option<Identity>, now: int, charge: Identity -> Charge,
                  writes: bool)
      returns (out: Result<bool, StateError>)
      requires Good() && index < |approvals| && approvals[index].status == Pending
      requires status != Pending && status != Approved && (receipt.Some? <==> status == Rejected)
      modifies this
      ensures Kept(out.Err?)
      ensures var request := old(approvals)[index].request;
              var ended := EndReservation(old(reservations), request, charge);
              && out == (if ended.Err? then Err(ended.error)
                         else if receipt.Some? && ReceiptExists(old(approvals), receipt.value, index)
                         then Err(StateCorrupt)
                         else if !writes then Err(WriteFailed) else Ok(Exhausts(request, charge)))
              && (out.Ok? ==>
                    && reservations == ended.value
                    && approvals == Ended(old(approvals), index, status, receipt, now, Counted(request, charge)))
    {
      hide GoodRecords, Evolves, ReceiptExists;
      EvolvesSelf(approvals);
      var denial := Counted(approvals[index].request, charge);
      var record := approvals[index].(status := status, receipt := receipt, updatedAt := now, denial := denial);
      var ended := EndReservation(reservations, record.request, charge);
      if ended.Err? {
        return Err(ended.error);
      }
      FinishKeepsGood(approvals, index, record);
      var failed := Write(approvals[index := record], ended.value, writes);
      return if failed.Some? then Err(failed.value) else Ok(denial.Some? && denial.value.exhausted);
    }

    // Using up a receipt (consumeApprovalLocked and commitPendingApproval).
    method Consume(token: Token, expectedVersion: nat, bindingCurrent: bool, verification: Verification, now: int,
                   charge: Identity -> Charge, writes: bool)
      returns (out: Result<ApprovalRecord, StateError>, ghost k: int)
      requires Good()
      modifies this
      ensures Good() && Evolves(old(approvals), approvals)
      ensures k == -1 <==> forall i :: !Awaiting(old(approvals), i, token)
      ensures k != -1 ==> Awaiting(old(approvals), k, token)
      ensures out.Ok? <==>
                && k != -1 && expectedVersion == token.issuedVersion && bindingCurrent
                && verification.Verified? && verification.approve
                && !ReceiptExists(old(approvals), verification.receiptId, k)
                && Chargeable(token.request, old(reservations), charge) && writes
      ensures out.Ok? ==>
                && approvals == Ended(old(approvals), k, Approved, Some(verification.receiptId), now,
                                      old(approvals)[k].denial)
                && out.value == approvals[k] && reservations == old(reservations) && version == old(version) + 1
      ensures k != -1 && expectedVersion == token.issuedVersion && bindingCurrent
              && Refuses(verification, old(approvals), k) ==>
                out == Err(Refusal(verification, old(approvals), old(reservations), k, charge, writes))
      ensures out.Err? && out.error in ENDING ==>
                && k != -1 && expectedVersion == token.issuedVersion && bindingCurrent
                && Refuses(verification, old(approvals), k)
                && approvals == Ended(old(approvals), k, RefusedStatus(verification), RefusedReceipt(verification), now,
                                      Counted(token.request, charge))
                && EndReservation(old(reservations), token.request, charge) == Ok(reservations)
      ensures out.Err? && out.error !in ENDING ==>
                approvals == old(approvals) && reservations == old(reservations) && version == old(version)
    {
      hide GoodRecords, ReceiptExists, Sorted, EndReservation, Evolves, Refusal;
      EvolvesSelf(approvals);
      GoodIsSorted(approvals);
      k := -1;
      var index := RecordIndex(token.request.requestId);
      if index < 0 {
        return Err(UnknownRequest), k;
      }
      OneNamed(approvals, index, token);
      var record := approvals[index];
      if record.request != token.request {
        return Err(BindingChanged), k;
      }
      if record.status != Pending {
        return Err(NotConsumable), k;
      }
      k := index;
      assert Awaiting(approvals, index, token);
      if expectedVersion != token.issuedVersion {
        return Err(StaleVersion), k;
      }
      if !bindingCurrent {
        return Err(BindingChanged), k;
      }
      if Refuses(verification, approvals, index) {
        var error := Refuse(index, verification, now, charge, writes);
        return Err(error), k;
      }
      if record.request.reservation.Some? {
        if record.request.reservation.value !in reservations {
          return Err(ReservationMissing), k;
        }
        if charge(record.request.reservation.value).Refused? {
          return Err(ChargeFailed), k;
        }
      }
      var approved := record.(status := Approved, receipt := Some(verification.receiptId), updatedAt := now);
      FinishKeepsGood(approvals, index, approved);
      var failed := Write(approvals[index := approved], reservations, writes);
      return if failed.Some? then Err(failed.value) else Ok(approved), k;
    }

    // A receipt that does not approve: its request ends, unless ending it fails.
    method Refuse(index: nat, verification: Verification, now: int, charge: Identity -> Charge, writes: bool)
      returns (error: StateError)
      requires Good() && index < |approvals| && approvals[index].status == Pending
      requires Refuses(verification, approvals, index)
      modifies this
      ensures Good() && Evolves(old(approvals), approvals)
      ensures error == Refusal(verification, old(approvals), old(reservations), index, charge, writes)
      ensures error in ENDING ==>
                && approvals == Ended(old(approvals), index, RefusedStatus(verification), RefusedReceipt(verification),
                                      now, Counted(old(approvals)[index].request, charge))
                && EndReservation(old(reservations), old(approvals)[index].request, charge) == Ok(reservations)
      ensures error !in ENDING ==>
                approvals == old(approvals) && reservations == old(reservations) && version == old(version)
    {
      hide GoodRecords, ReceiptExists, EndReservation, Evolves;
      EndingError(reservations, approvals[index].request, charge);
      match verification {
        case Failed(failure) =>
          var ended := Finish(index, failure, None, now, charge, writes);
          return if ended.Err? then ended.error else ReceiptInvalid;
        case Verified(receiptId, approve) =>
          if !approve {
            var ended := Finish(index, Rejected, Some(receiptId), now, charge, writes);
            return if ended.Err? then ended.error else ReceiptRejected;
          }
          var ended := Finish(index, Replayed, None, now, charge, writes);
          return if ended.Err? then ended.error else ReceiptReplayed;
      }
    }

    // Ending an approval from outside (finalizeApprovalLocked): once it is finished,
    // finalizing it again reports the record and changes nothing.
    method Finalize(token: Token, expectedVersion: nat, status: Status, now: int, charge: Identity -> Charge,
                    writes: bool)
      returns (out: Result<Finalized, StateError>, ghost k: nat)
      requires Good()
      modifies this
      ensures Kept(out.Err?)
      ensures out.Ok? <==> FinalFailure(status) && exists i ::
                && 0 <= i < |old(approvals)| && old(approvals)[i].request == token.request
                && (old(approvals)[i].status == Pending ==>
                      && expectedVersion == token.issuedVersion
                      && (status == Expired ==> token.request.expiresAt <= now)
                      && EndReservation(old(reservations), token.request, charge).Ok? && writes)
      ensures out.Ok? ==> k < |old(approvals)| && FinalizedAt(old(approvals), k, token, status, now, charge, out.value)
      ensures out.Ok? ==> approvals == old(approvals)[k := out.value.record]
    {
      hide GoodRecords, Evolves, Sorted;
      EvolvesSelf(approvals);
      GoodIsSorted(approvals);
      k := 0;
      if !FinalFailure(status) {
        return Err(StatusInvalid), k;
      }
      var index := RecordIndex(token.request.requestId);
      if index < 0 || approvals[index].request != token.request {
        return Err(StaleVersion), k;
      }
      var record := approvals[index];
      k := index;
      if record.status != Pending {
        assert approvals[index := record] == approvals;
        return Ok(Finalized(record, false)), k;
      }
      if expectedVersion != token.issuedVersion {
        return Err(StaleVersion), k;
      }
      if status == Expired && now < record.request.expiresAt {
        return Err(NotYetExpired), k;
      }
      var ended := Finish(index, status, None, now, charge, writes);
      if ended.Err? {
        return Err(ended.error), k;
      }
      return Ok(Finalized(approvals[index], ended.value)), k;
    }

    // Expiring everything that is due at one time (reconcileExpiredApprovalsLocked).
    method Reconcile(now: int, charge: Identity -> Charge, writes: bool)
      returns (out: Result<seq<nat>, StateError>, exhausted: bool)
      requires Good()
      modifies this
      ensures Kept(out.Err?)
      ensures out.Ok? ==> approvals == ExpireDue(old(approvals), now, charge) && NoneDue(approvals, now)
      ensures out.Ok? ==> forall i :: i in out.value <==> 0 <= i < |old(approvals)| && Due(old(approvals)[i], now)
      ensures out.Ok? ==> (exhausted <==> exists i :: i in out.value && Exhausts(old(approvals)[i].request, charge))
      ensures NoneDue(old(approvals), now) ==>
                && out == Ok([]) && !exhausted
                && approvals == old(approvals) && reservations == old(reservations) && version == old(version)
      ensures var held := EndDue(old(approvals), |old(approvals)|, old(reservations), now, charge);
              && (out.Ok? <==> held.Ok? && (writes || NoneDue(old(approvals), now)))
              && (out.Ok? ==> reservations == held.value)
    {
      hide GoodRecords, ExpireDue, NoneDue;
      EvolvesSelf(approvals);
      ExpireTwice(approvals, now, charge);
      var scan := ScanDue(now, charge);
      if scan.Err? {
        return Err(scan.error), false;
      }
      var (next, held, expired, any) := scan.value;
      if |expired| == 0 {
        return Ok([]), false;
      }
      assert expired[0] in expired;
      ExpiringKeepsGood(approvals, now, charge);
      var failed := Write(next, held, writes);
      return if failed.Some? then Err(failed.value) else Ok(expired), any;
    }

    // The loop over the records: the next state, the positions it expired, and whether
    // one of them exhausted a capacity for denials.
    method ScanDue(now: int, charge: Identity -> Charge)
      returns (out: Result<(Records, Reservations, seq<nat>, bool), StateError>)
      ensures var held := EndDue(approvals, |approvals|, reservations, now, charge);
              (out.Ok? <==> held.Ok?) && (out.Ok? ==> out.value.1 == held.value)
      ensures NoneDue(approvals, now) ==> out.Ok? && out.value.1 == reservations
      ensures out.Ok? ==> out.value.0 == ExpireDue(approvals, now, charge)
      ensures out.Ok? ==> forall i :: i in out.value.2 <==> 0 <= i < |approvals| && Due(approvals[i], now)
      ensures out.Ok? ==> (out.value.3 <==> exists i :: i in out.value.2 && Exhausts(approvals[i].request, charge))
      ensures NoneDue(approvals, now) ==> out.Ok? && out.value.2 == []
      ensures out.Ok? && out.value.2 == [] ==> NoneDue(approvals, now)
    {
      hide ExpireDue, Counted, Exhausts;
      var next, held, any := approvals, reservations, false;
      var expired: seq<nat> := [];
      for index := 0 to |approvals|
        invariant |next| == |approvals|
        invariant forall i :: 0 <= i < index && Due(approvals[i], now) ==>
                    next[i] == Expire(approvals[i], now, charge)
        invariant forall i :: 0 <= i < |approvals| && (index <= i || !Due(approvals[i], now)) ==>
                    next[i] == approvals[i]
        invariant forall i :: i in expired <==> 0 <= i < index && Due(approvals[i], now)
        invariant any <==> exists i :: i in expired && Exhausts(approvals[i].request, charge)
        invariant NoneDue(approvals, now) ==> expired == [] && held == reservations
        invariant EndDue(approvals, index, reservations, now, charge) == Ok(held)
      {
        if Due(next[index], now) {
          next := next[index := Expire(next[index], now, charge)];
          var ended := EndReservation(held, next[index].request, charge);
          if ended.Err? {
            EndDueFails(approvals, index + 1, reservations, now, charge);
            return Err(ended.error);
          }
          held, expired := ended.value, expired + [index];
          any := any || Exhausts(next[index].request, charge);
          assert index in expired;
        }
      }
      ExpiredAll(approvals, next, now, charge);
      if |expired| == 0 {
        forall i | 0 <= i < |approvals|
          ensures !Due(approvals[i], now)
        {
          assert i !in expired;
        }
      }
      return Ok((next, held, expired, any));
    }

    // A second reconciliation at the same time finds nothing to do.
    method ReconcileTwice(now: int, charge: Identity -> Charge, writes: bool)
      returns (first: Result<seq<nat>, StateError>, second: Result<seq<nat>, StateError>, again: bool)
      requires Good()
      modifies this
      ensures Good()
      ensures first.Ok? ==> second == Ok([]) && !again && approvals == ExpireDue(old(approvals), now, charge)
    {
      hide GoodRecords, ExpireDue;
      var exhausted: bool;
      first, exhausted := Reconcile(now, charge, writes);
      second, again := Reconcile(now, charge, writes);
    }

    // Giving up an owner's running calls (terminalizeAbandonedPendingApprovals and the
    // loop over the reservations that follows it).
    method Abandon(owner: Identity, now: int, charge: Identity -> Charge, writes: bool)
      returns (err: Option<StateError>)
      requires Good()
      modifies this
      ensures Kept(err.Some?)
      ensures err.None? <==>
                && ApprovalsGiveUp(old(approvals), old(reservations), owner, charge)
                && ReservationsGiveUp(old(reservations), owner, charge)
                && (writes || forall id :: id in old(reservations) ==> !Abandoned(old(reservations)[id], owner))
      ensures err.None? ==>
                && |approvals| == |old(approvals)|
                && (forall i :: 0 <= i < |approvals| ==>
                      approvals[i] == if AbandonedApproval(old(approvals)[i], old(reservations), owner)
                                      then old(approvals)[i].(status := Unavailable, updatedAt := now)
                                      else old(approvals)[i])
                && reservations == map id | id in old(reservations) ::
                     if Abandoned(old(reservations)[id], owner) then old(reservations)[id].(status := Indeterminate)
                     else old(reservations)[id]
    {
      hide GoodRecords;
      EvolvesSelf(approvals);
      var scan := ScanAbandoned(owner, now, charge);
      if scan.Err? {
        return Some(scan.error);
      }
      var marked := MarkAbandoned(owner, charge);
      if marked.Err? {
        return Some(marked.error);
      }
      var (held, changed) := marked.value;
      if !changed {
        NothingAbandoned(approvals, scan.value, reservations, owner);
        return None;
      }
      FailingKeepsGood(approvals, scan.value);
      err := Write(scan.value, held, writes);
    }

    // The loop over the pending approvals of the owner.
    method ScanAbandoned(owner: Identity, now: int, charge: Identity -> Charge)
      returns (out: Result<Records, StateError>)
      ensures out.Ok? <==> ApprovalsGiveUp(approvals, reservations, owner, charge)
      ensures out.Ok? ==>
                && |out.value| == |approvals|
                && forall i :: 0 <= i < |approvals| ==>
                     out.value[i] == if AbandonedApproval(approvals[i], reservations, owner)
                                     then approvals[i].(status := Unavailable, updatedAt := now) else approvals[i]
    {
      var next := approvals;
      for index := 0 to |approvals|
        invariant |next| == |approvals|
        invariant forall i :: 0 <= i < index && AbandonedApproval(approvals[i], reservations, owner) ==>
                    next[i] == approvals[i].(status := Unavailable, updatedAt := now)
        invariant forall i :: 0 <= i < |approvals|
                              && (index <= i || !AbandonedApproval(approvals[i], reservations, owner)) ==>
                    next[i] == approvals[i]
        invariant forall i :: 0 <= i < index ==> GivesUp(approvals[i], reservations, owner, charge)
      {
        if next[index].status == Pending && next[index].request.reservation.Some? {
          var id := next[index].request.reservation.value;
          if id !in reservations {
            assert !GivesUp(approvals[index], reservations, owner, charge);
            return Err(ReservationMissing);
          }
          if Abandoned(reservations[id], owner) {
            if charge(id).Refused? {
              assert !GivesUp(approvals[index], reservations, owner, charge);
              return Err(ChargeFailed);
            }
            next := next[index := next[index].(status := Unavailable, updatedAt := now)];
          }
        }
      }
      return Ok(next);
    }

    // The loop over the owner's reservations, with whether it changed any.
    method MarkAbandoned(owner: Identity, charge: Identity -> Charge)
      returns (out: Result<(Reservations, bool), StateError>)
      ensures out.Ok? <==> ReservationsGiveUp(reservations, owner, charge)
      ensures out.Ok? ==>
                && out.value.0 == (map id | id in reservations ::
                     if Abandoned(reservations[id], owner) then reservations[id].(status := Indeterminate)
                     else reservations[id])
                && (out.value.1 <==> exists id :: id in reservations && Abandoned(reservations[id], owner))
    {
      var held := reservations;
      var todo, changed := reservations.Keys, false;
      while todo != {}
        invariant todo <= reservations.Keys == held.Keys
        invariant forall id :: id in reservations ==>
                    held[id] == if id !in todo && Abandoned(reservations[id], owner)
                                then reservations[id].(status := Indeterminate) else reservations[id]
        invariant changed <==> exists id :: id in reservations && id !in todo && Abandoned(reservations[id], owner)
        invariant forall id :: id in reservations && id !in todo && Abandoned(reservations[id], owner) ==>
                    (reservations[id].status == Reserved ==> charge(id).Made?)
      {
        var id :| id in todo;
        if Abandoned(held[id], owner) {
          if held[id].status == Reserved && charge(id).Refused? {
            return Err(ChargeFailed);
          }
          held, changed := held[id := held[id].(status := Indeterminate)], true;
        }
        todo := todo - {id};
      }
      return Ok((held, changed));
    }

    method Perform(operation: Operation)
      requires Good()
      modifies this
      ensures Good() && Evolves(old(approvals), approvals)
    {
      hide GoodRecords, Evolves;
      match operation {
        case Issuing(request, now, admissible, charge, writes) =>
          var issued := Issue(request, now, admissible, charge, writes);
        case Consuming(token, expectedVersion, bindingCurrent, verification, now, charge, writes) =>
          var consumed, k := Consume(token, expectedVersion, bindingCurrent, verification, now, charge, writes);
        case Finalizing(token, expectedVersion, status, now, charge, writes) =>
          var finalized, k := Finalize(token, expectedVersion, status, now, charge, writes);
        case Reconciling(now, charge, writes) =>
          var reconciled, exhausted := Reconcile(now, charge, writes);
        case Abandoning(owner, now, charge, writes) =>
          var failed := Abandon(owner, now, charge, writes);
      }
    }

    // Any operations, one after the other: their states are a run, so what finished
    // once stays as it is, and no receipt decides twice.
    method PerformAll(operations: seq<Operation>) returns (ghost states: seq<Records>)
      requires Good()
      modifies this
      ensures Good() && Run(states) && |states| == |operations| + 1
      ensures states[0] == old(approvals) && states[|operations|] == approvals
      ensures Evolves(old(approvals), approvals)
      ensures forall r :: r in old(approvals) && r.status != Pending ==> r in approvals
    {
      hide GoodRecords, Evolves;
      states := [approvals];
      for index := 0 to |operations|
        invariant Good() && Run(states) && |states| == index + 1
        invariant states[0] == old(approvals) && states[index] == approvals
      {
        Perform(operations[index]);
        states := states + [approvals];
      }
      RunEvolves(states, 0, |operations|);
      forall r | r in old(approvals) && r.status != Pending
        ensures r in approvals
      {
        var k :| 0 <= k < |states[0]| && states[0][k] == r;
        RunKeepsFinished(states, 0, |operations|, k);
      }
    }
  }

  // The record that bears the token's identifier is the only one the token can name.
  lemma OneNamed(records: Records, index: nat, token: Token)
    requires Sorted(records) && index < |records| && records[index].request.requestId == token.request.requestId
    ensures forall i :: Awaiting(records, i, token) ==> i == index
  {
  }

  lemma EndingError(reservations: Reservations, request: Request, charge: Identity -> Charge)
    ensures EndReservation(reservations, request, charge).Err? ==>
              EndReservation(reservations, request, charge).error
              in {ReservationMissing, ReservationPassedDispatch, ChargeFailed}
  {
  }

  lemma GoodIsSorted(records: Records)
    requires GoodRecords(records)
    ensures Sorted(records)
  {
  }

  lemma ExpiredAll(records: Records, next: Records, now: int, charge: Identity -> Charge)
    requires |next| == |records|
    requires forall i :: 0 <= i < |records| && Due(records[i], now) ==> next[i] == Expire(records[i], now, charge)
    requires forall i :: 0 <= i < |records| && !Due(records[i], now) ==> next[i] == records[i]
    ensures next == ExpireDue(records, now, charge)
  {
  }

  lemma ExpiringKeepsGood(records: Records, now: int, charge: Identity -> Charge)
    requires GoodRecords(records)
    ensures GoodRecords(ExpireDue(records, now, charge)) && Evolves(records, ExpireDue(records, now, charge))
  {
    hide GoodRecords;
    FailingKeepsGood(records, ExpireDue(records, now, charge));
  }

  lemma NothingAbandoned(records: Records, next: Records, reservations: Reservations, owner: Identity)
    requires forall id :: id in reservations ==> !Abandoned(reservations[id], owner)
    requires |next| == |records|
    requires forall i :: 0 <= i < |records| && !AbandonedApproval(records[i], reservations, owner) ==>
               next[i] == records[i]
    ensures next == records
  {
    forall i | 0 <= i < |records|
      ensures next[i] == records[i]
    {
      assert !AbandonedApproval(records[i], reservations, owner);
    }
  }
}
