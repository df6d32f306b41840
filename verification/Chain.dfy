// Sealing, the detached head and the chain (internal/actionledger/codec.go, head.go
// and verify.go). The digest is a parameter: any function of the record
// with its own digest field cleared.
module Chain {
  import opened Wrappers
  import opened LedgerTypes
  import opened LedgerValidate

  type Hash = Record -> Digest

  ghost predicate Injective(hash: Hash) {
    forall a, b :: hash(a) == hash(b) ==> a == b
  }

  function Unsealed(r: Record): Record {
    r.(digest := None)
  }

  // The envelope fields that sealing fills in.
  function Seal(hash: Hash, r: Record, sequence: nat, previous: Option<Digest>): Record {
    var body := r.(sequence := sequence, previousDigest := previous, digest := None);
    body.(digest := Some(hash(body)))
  }

  predicate Sealed(hash: Hash, r: Record) {
    Valid(r) && r.digest == Some(hash(Unsealed(r)))
  }

  // A record apart from its envelope.
  function Input(r: Record): Record {
    r.(sequence := 0, previousDigest := None, digest := None)
  }

  predicate SameRecordInput(sealed: Record, candidate: Record) {
    Input(sealed) == Input(candidate)
  }

  // ---------------------------------------------------------------------- head

  datatype Head = Head(
    repository: Identity, firstSequence: nat, firstDigest: Option<Digest>,
    lastSequence: nat, lastDigest: Option<Digest>, entryCount: nat, updatedAt: int)

  predicate ValidHead(h: Head) {
    && h.firstSequence != 0 && h.firstSequence <= h.lastSequence
    && h.lastSequence - h.firstSequence + 1 == h.entryCount
    && h.firstDigest.Some? && h.lastDigest.Some?
  }

  function NewHead(r: Record): Head {
    Head(r.call.repository, r.sequence, r.digest, r.sequence, r.digest, 1, r.timestamp)
  }

  datatype HeadError = InvalidHead | RecordDoesNotAdvanceHead

  function AdvanceHead(h: Head, r: Record): Result<Head, HeadError> {
    if !ValidHead(h) then Err(InvalidHead)
    else if h.repository != r.call.repository || r.sequence != h.lastSequence + 1
            || r.previousDigest != h.lastDigest then
      Err(RecordDoesNotAdvanceHead)
    else
      Ok(h.(lastSequence := r.sequence, lastDigest := r.digest, entryCount := h.entryCount + 1,
            updatedAt := r.timestamp))
  }

  // --------------------------------------------------------------------- chain

  predicate Links(previous: Record, next: Record) {
    next.sequence == previous.sequence + 1 && next.previousDigest == previous.digest
  }

  // What loading and verifying a retained chain requires of its records.
  ghost predicate Chained(hash: Hash, repository: Identity, log: seq<Record>) {
    && (forall i :: 0 <= i < |log| ==> Sealed(hash, log[i]) && log[i].call.repository == repository)
    && (forall i :: 0 < i < |log| ==> Links(log[i - 1], log[i]))
  }

  // What it requires of the detached head.
  predicate HeadMatches(log: seq<Record>, h: Head, repository: Identity) {
    && log != []
    && var first, last := log[0], log[|log| - 1];
    && h.firstSequence == 1 && h.entryCount == h.lastSequence
    && h.lastSequence == last.sequence && h.lastDigest == last.digest && h.updatedAt == last.timestamp
    && h.repository == repository
    && (first.sequence == 1 ==> first.previousDigest.None? && h.firstDigest == first.digest)
  }

  // A whole history matches the head that appending its records one by one builds.
  function HeadOf(log: seq<Record>): Head
    requires log != []
  {
    var first, last := log[0], log[|log| - 1];
    Head(first.call.repository, first.sequence, first.digest, last.sequence, last.digest, |log|, last.timestamp)
  }

  lemma SequencesConsecutive(hash: Hash, repository: Identity, log: seq<Record>, i: nat)
    requires Chained(hash, repository, log) && i < |log|
    ensures log[i].sequence == log[0].sequence + i
  {
    if 0 < i {
      SequencesConsecutive(hash, repository, log, i - 1);
      assert Links(log[i - 1], log[i]);
    }
  }

  // Advancing the head of a whole history by one sealed record succeeds exactly
  // when the record extends the chain, and gives the head of the longer history.
  lemma {:induction false} HeadFollowsChain(hash: Hash, repository: Identity, log: seq<Record>, r: Record)
    requires log != [] && Chained(hash, repository, log) && log[0].sequence == 1
    requires Sealed(hash, r)
    ensures AdvanceHead(HeadOf(log), r).Ok? <==> Chained(hash, repository, log + [r])
    ensures AdvanceHead(HeadOf(log), r).Ok? ==> AdvanceHead(HeadOf(log), r).value == HeadOf(log + [r])
  {
    var last := |log| - 1;
    var next := log + [r];
    SequencesConsecutive(hash, repository, log, last);
    assert Sealed(hash, log[last]) && Sealed(hash, log[0]);
    assert next[last] == log[last] && next[last + 1] == r;
    if AdvanceHead(HeadOf(log), r).Ok? {
      forall i | 0 < i < |next|
        ensures Links(next[i - 1], next[i])
      {
        if i < |log| {
          assert Links(log[i - 1], log[i]);
        }
      }
    }
    if Chained(hash, repository, next) {
      assert Links(next[last], next[last + 1]);
    }
  }

  // With a digest that never collides, the detached head pins the whole retained
  // chain: two verified chains of equal length under one head are identical.
  lemma {:induction false} HeadPinsChain(hash: Hash, repository: Identity, h: Head, a: seq<Record>, b: seq<Record>)
    requires Injective(hash)
    requires Chained(hash, repository, a) && Chained(hash, repository, b)
    requires |a| == |b| && HeadMatches(a, h, repository) && HeadMatches(b, h, repository)
    ensures a == b
  {
    TailPinsChain(hash, repository, a, b);
  }

  lemma {:induction false} TailPinsChain(hash: Hash, repository: Identity, a: seq<Record>, b: seq<Record>)
    requires Injective(hash)
    requires Chained(hash, repository, a) && Chained(hash, repository, b)
    requires |a| == |b| && a != [] && a[|a| - 1].digest == b[|b| - 1].digest
    ensures a == b
    decreases |a|
  {
    var n := |a| - 1;
    assert Sealed(hash, a[n]) && Sealed(hash, b[n]);
    assert Unsealed(a[n]) == Unsealed(b[n]);
    assert a[n] == b[n];
    if 0 < n {
      assert Links(a[n - 1], a[n]) && Links(b[n - 1], b[n]);
      TailPinsChain(hash, repository, a[..n], b[..n]);
    }
    assert a == a[..n] + [a[n]] && b == b[..n] + [b[n]];
  }
}
