// A run of approval operations in which a rejection is not recorded.
module ApprovalExamples {
  import opened Wrappers
  import opened ApprovalStore

  // A request without a reservation.
  function Asking(id: Identity): Request {
    Request(id, id, PreCall, 100, None)
  }

  const FREE: Identity -> Charge := id => Made(Denial(0, false))

  function Asked(id: Identity): ApprovalRecord {
    ApprovalRecord(Asking(id), Pending, None, 10, None)
  }

  function Answered(id: Identity, status: Status, receipt: Option<Identity>): ApprovalRecord {
    ApprovalRecord(Asking(id), status, receipt, 11, None)
  }

  // Two pending requests.
  method TwoAsked() returns (store: ApprovalStore)
    ensures fresh(store) && store.Good() && store.approvals == [Asked(1), Asked(2)] && store.version == 2
  {
    hide GoodRecords, Evolves, Inserted;
    store := new ApprovalStore();
    NoneAsked();
    var issued := store.Issue(Asking(1), 10, true, FREE, true);
    OneAsked();
    issued := store.Issue(Asking(2), 10, true, FREE, true);
  }

  lemma NoneAsked()
    ensures PendingCount([]) == 0 && Inserted([], Asked(1)) == [Asked(1)]
  {
  }

  lemma OneAsked()
    ensures PendingCount([Asked(1)]) == 1 && Inserted([Asked(1)], Asked(2)) == [Asked(1), Asked(2)]
  {
    var one := [Asked(1)];
    assert one[..0] == [] && one[1..] == [];
  }

  // Receipt 7 answers the request that is waiting.
  method Answer(store: ApprovalStore, id: Identity, approve: bool, ghost k: nat)
    returns (out: Result<ApprovalRecord, StateError>)
    requires store.Good() && k < |store.approvals| && store.approvals[k] == Asked(id)
    modifies store
    ensures store.Good()
    ensures var used := ReceiptExists(old(store.approvals), 7, k);
            && (used ==> out == Err(if approve then ReceiptReplayed else StateCorrupt))
            && (used && !approve ==> store.approvals == old(store.approvals) && store.version == old(store.version))
            && (used && approve ==> store.approvals == old(store.approvals)[k := Answered(id, Replayed, None)])
            && (!used && approve ==> store.approvals == old(store.approvals)[k := Answered(id, Approved, Some(7))])
  {
    hide GoodRecords, Evolves, ReceiptExists;
    assert Awaiting(store.approvals, k, Token(Asking(id), id));
    ghost var j;
    out, j := store.Consume(Token(Asking(id), id), id, true, Verified(7, approve), 11, FREE, true);
    WaitingOnce(old(store.approvals), j, k);
  }

  // Receipt 7 approves request 1, and then rejects request 2: the validation before the
  // write refuses the new state, so request 2 stays pending and nothing changes. Had
  // receipt 7 approved request 2 instead, the request would have ended as replayed.
  method RejectionLost(instead: bool) returns (store: ApprovalStore, out: Result<ApprovalRecord, StateError>)
    ensures fresh(store) && store.Good()
    ensures out == Err(if instead then ReceiptReplayed else StateCorrupt)
    ensures store.approvals == [Answered(1, Approved, Some(7)),
                                if instead then Answered(2, Replayed, None) else Asked(2)]
  {
    hide GoodRecords, ReceiptExists;
    store := TwoAsked();
    ReceiptUnused();
    out := Answer(store, 1, true, 0);
    assert store.approvals == [Answered(1, Approved, Some(7)), Asked(2)];
    ReceiptUsed();
    out := Answer(store, 2, instead, 1);
  }

  lemma WaitingOnce(records: Records, j: int, k: nat)
    requires GoodRecords(records) && k < |records| && 0 <= j < |records| && records[j].request == records[k].request
    ensures j == k
  {
  }

  lemma ReceiptUnused()
    ensures !ReceiptExists([Asked(1), Asked(2)], 7, 0)
  {
  }

  lemma ReceiptUsed()
    ensures ReceiptExists([Answered(1, Approved, Some(7)), Asked(2)], 7, 1)
  {
    assert [Answered(1, Approved, Some(7)), Asked(2)][0].receipt == Some(7);
  }
}
