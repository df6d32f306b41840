// The decision cache (internal/action/decision_cache.go): first in, first out, bounded
// by entry count and by estimated bytes. The size estimate is a parameter; results are
// immutable values, so the copies that the source makes need no trace here.
module DecisionCache {
  import opened Wrappers

  const MAX_ENTRIES := 256
  const MAX_BYTES := 0x400_0000   // 64 << 20

  type Identity = nat

  datatype CacheResult = CacheResult(eligible: bool, identity: Identity)

  datatype Evaluation = Evaluation(cache: CacheResult, failed: bool, body: nat)

  datatype Entry = Entry(result: Evaluation, bytes: nat)

  type Entries = map<Identity, Entry>

  predicate Distinct(order: seq<Identity>) {
    forall i, j :: 0 <= i < j < |order| ==> order[i] != order[j]
  }

  predicate Listed(order: seq<Identity>, entries: Entries) {
    forall i :: 0 <= i < |order| ==> order[i] in entries
  }

  function TotalBytes(order: seq<Identity>, entries: Entries): nat
    requires Listed(order, entries)
  {
    if order == [] then 0 else entries[order[0]].bytes + TotalBytes(order[1..], entries)
  }

  predicate WithinBounds(order: seq<Identity>, entries: Entries)
    requires Listed(order, entries)
  {
    |order| <= MAX_ENTRIES && TotalBytes(order, entries) <= MAX_BYTES
  }

  // What is left when the oldest entries go until both bounds hold.
  function Kept(order: seq<Identity>, entries: Entries): (kept: seq<Identity>)
    requires Listed(order, entries)
    ensures |kept| <= |order| && kept == order[|order| - |kept|..]
  {
    if order == [] || WithinBounds(order, entries) then order else Kept(order[1..], entries)
  }

  lemma {:induction false} TotalBytesAppend(order: seq<Identity>, entries: Entries, id: Identity)
    requires Listed(order, entries) && id in entries
    ensures Listed(order + [id], entries)
    ensures TotalBytes(order + [id], entries) == TotalBytes(order, entries) + entries[id].bytes
    decreases |order|
  {
    if order != [] {
      TotalBytesAppend(order[1..], entries, id);
      assert (order + [id])[1..] == order[1..] + [id];
    }
  }

  // Only the entries of the listed identities matter.
  lemma {:induction false} TotalBytesSame(order: seq<Identity>, a: Entries, b: Entries)
    requires Listed(order, a) && Listed(order, b)
    requires forall i :: 0 <= i < |order| ==> a[order[i]].bytes == b[order[i]].bytes
    ensures TotalBytes(order, a) == TotalBytes(order, b)
    decreases |order|
  {
    if order != [] {
      TotalBytesSame(order[1..], a, b);
    }
  }

  // Replacing the entry of one listed identity exchanges its bytes.
  lemma {:induction false} TotalBytesReplace(order: seq<Identity>, entries: Entries, id: Identity, e: Entry)
    requires Listed(order, entries) && Distinct(order) && id in order
    ensures Listed(order, entries[id := e])
    ensures TotalBytes(order, entries[id := e]) == TotalBytes(order, entries) - entries[id].bytes + e.bytes
    ensures entries[id].bytes <= TotalBytes(order, entries)
    decreases |order|
  {
    if order[0] == id {
      TotalBytesSame(order[1..], entries, entries[id := e]);
    } else {
      assert id in order[1..];
      TotalBytesReplace(order[1..], entries, id, e);
    }
  }

  // Kept is the longest tail within the bounds: the order it cuts did not fit with
  // one more entry.
  lemma {:induction false} KeptIsLongest(order: seq<Identity>, entries: Entries, n: nat)
    requires Listed(order, entries) && n <= |order|
    requires Listed(order[n..], entries) && WithinBounds(order[n..], entries)
    ensures |order| - n <= |Kept(order, entries)|
    decreases |order|
  {
    if order != [] && !WithinBounds(order, entries) {
      assert 0 < n by {
        assert order[0..] == order;
      }
      assert order[1..][n - 1..] == order[n..];
      KeptIsLongest(order[1..], entries, n - 1);
    }
  }

  lemma KeptIsTail(order: seq<Identity>, entries: Entries)
    requires Listed(order, entries)
    ensures |Kept(order, entries)| <= |order| && Kept(order, entries) == order[|order| - |Kept(order, entries)|..]
  {
  }

  lemma {:induction false} KeptFits(order: seq<Identity>, entries: Entries)
    requires Listed(order, entries)
    ensures Listed(Kept(order, entries), entries) && WithinBounds(Kept(order, entries), entries)
    decreases |order|
  {
    if order != [] && !WithinBounds(order, entries) {
      KeptFits(order[1..], entries);
    }
  }

  lemma {:induction false} TailBytes(order: seq<Identity>, entries: Entries, n: nat)
    requires Listed(order, entries) && n <= |order|
    ensures Listed(order[n..], entries) && TotalBytes(order[n..], entries) <= TotalBytes(order, entries)
    decreases n
  {
    if n == 0 {
      assert order[0..] == order;
    } else {
      TailBytes(order[1..], entries, n - 1);
      assert order[1..][n - 1..] == order[n..];
    }
  }

  // An entry survives exactly when it and everything younger fit together. A result
  // stored again under a known identity keeps its old place, so it can be evicted by
  // its own growth; a new identity is last and always survives.
  lemma {:induction false} SurvivesExactly(order: seq<Identity>, entries: Entries, p: nat)
    requires Listed(order, entries) && Distinct(order) && p < |order|
    ensures Listed(order[p..], entries)
    ensures order[p] in Kept(order, entries) <==> WithinBounds(order[p..], entries)
  {
    hide *;
    TailBytes(order, entries, p);
    KeptFits(order, entries);
    KeptIsTail(order, entries);
    var cut := |order| - |Kept(order, entries)|;
    InTail(order, cut, p);
    if cut <= p {
      assert order[cut..][p - cut..] == order[p..];
      TailFits(Kept(order, entries), entries, p - cut);
    }
    if WithinBounds(order[p..], entries) {
      KeptIsLongest(order, entries, p);
    }
  }

  lemma InTail(order: seq<Identity>, cut: nat, p: nat)
    requires Distinct(order) && cut <= |order| && p < |order|
    ensures order[p] in order[cut..] <==> cut <= p
  {
    if cut <= p {
      assert order[cut..][p - cut] == order[p];
    }
  }

  lemma TailFits(order: seq<Identity>, entries: Entries, n: nat)
    requires Listed(order, entries) && n <= |order| && WithinBounds(order, entries)
    ensures Listed(order[n..], entries) && WithinBounds(order[n..], entries)
  {
    hide TotalBytes;
    TailBytes(order, entries, n);
  }

  predicate Within(part: Entries, whole: Entries) {
    forall id :: id in part ==> id in whole && part[id] == whole[id]
  }

  lemma SameBounds(order: seq<Identity>, part: Entries, whole: Entries)
    requires Listed(order, part) && Within(part, whole)
    ensures Listed(order, whole) && TotalBytes(order, part) == TotalBytes(order, whole)
    ensures WithinBounds(order, whole) == WithinBounds(order, part)
    ensures WithinBounds(order, part) <==> |order| <= MAX_ENTRIES && TotalBytes(order, part) <= MAX_BYTES
    ensures forall id :: id in order ==> id in part
  {
    TotalBytesSame(order, part, whole);
  }

  class DecisionCache {
    const size: Evaluation -> nat
    var entries: Entries
    var order: seq<Identity>
    var bytes: nat

    // The order lists every entry once; the counter is the sum of the sizes; both
    // bounds hold; entries are stored under their own eligible identity.
    ghost predicate Valid()
      reads this
    {
      && Distinct(order) && Listed(order, entries) && entries.Keys == (set id | id in order)
      && bytes == TotalBytes(order, entries) && WithinBounds(order, entries)
      && forall id :: id in entries ==>
           && entries[id].result.cache == CacheResult(true, id) && !entries[id].result.failed
           && entries[id].bytes == size(entries[id].result)
    }

    constructor (size: Evaluation -> nat)
      ensures Valid() && order == [] && entries == map[] && this.size == size
    {
      this.size := size;
      entries, order, bytes := map[], [], 0;
    }

    method LookupIdentity(identity: CacheResult) returns (found: Option<Evaluation>)
      requires Valid()
      ensures found == if identity.eligible && identity.identity in entries then Some(entries[identity.identity].result)
                       else None
    {
      if !identity.eligible || identity.identity !in entries {
        return None;
      }
      var entry := entries[identity.identity];
      if !entry.result.cache.eligible || entry.result.cache.identity != identity.identity {
        return None;
      }
      return Some(entry.result);
    }

    predicate Admissible(identity: CacheResult, result: Evaluation) {
      && identity.eligible && result.cache.eligible && !result.failed && identity.identity == result.cache.identity
      && size(result) <= MAX_BYTES
    }

    // Storing a result: a new identity goes to the end of the order, a known one keeps
    // its place; then the oldest entries go, no more than the bounds call for.
    method StoreIdentity(identity: CacheResult, result: Evaluation) returns (stored: bool)
      requires Valid()
      modifies this
      ensures Valid()
      ensures stored <==> Admissible(identity, result)
      ensures !stored ==> entries == old(entries) && order == old(order)
      ensures stored ==>
                var id := identity.identity;
                var listed := if id in old(entries) then old(order) else old(order) + [id];
                var held := old(entries)[id := Entry(result, size(result))];
                && Listed(listed, held) && order == Kept(listed, held)
                && (forall k :: k in order ==> entries[k] == held[k])
      ensures stored && identity.identity !in old(entries) ==>
                identity.identity in entries && entries[identity.identity].result == result
    {
      hide TotalBytes, Kept;
      if !identity.eligible || !result.cache.eligible || result.failed || identity.identity != result.cache.identity {
        return false;
      }
      var entryBytes := size(result);
      if MAX_BYTES < entryBytes {
        return false;
      }
      var id := identity.identity;
      ghost var before, held := entries, entries[id := Entry(result, entryBytes)];
      if id in entries {
        TotalBytesReplace(order, entries, id, Entry(result, entryBytes));
        bytes := bytes - entries[id].bytes;
      } else {
        TotalBytesSame(order, entries, held);
        TotalBytesAppend(order, held, id);
        order := order + [id];
      }
      entries := entries[id := Entry(result, entryBytes)];
      bytes := bytes + entryBytes;
      ghost var listed := order;
      assert bytes == TotalBytes(order, entries);
      Evict(held);
      if id !in before {
        NewestStays(listed, held);
      }
      return true;
    }

    // Everything the cache promises except the bounds.
    ghost predicate Loose()
      reads this
    {
      && Distinct(order) && Listed(order, entries) && entries.Keys == (set id | id in order)
      && bytes == TotalBytes(order, entries)
      && forall id :: id in entries ==>
           && entries[id].result.cache == CacheResult(true, id) && !entries[id].result.failed
           && entries[id].bytes == size(entries[id].result)
    }

    method PopOldest()
      requires Loose() && (MAX_ENTRIES < |order| || MAX_BYTES < bytes)
      modifies this
      ensures Loose() && old(order) != [] && order == old(order)[1..] && entries == old(entries) - {old(order)[0]}
    {
      hide TotalBytes;
      DropOldest();
      var oldest := order[0];
      order := order[1..];
      if oldest in entries {
        bytes := bytes - entries[oldest].bytes;
        entries := entries - {oldest};
      }
    }

    // The eviction loop, which ends because an empty cache is within its bounds.
    method Evict(ghost held: Entries)
      requires Loose() && entries == held
      modifies this
      ensures Valid() && order == Kept(old(order), held)
      ensures forall k :: k in order ==> entries[k] == held[k]
    {
      hide TotalBytes, Kept, Distinct, Listed, WithinBounds;
      while MAX_ENTRIES < |order| || MAX_BYTES < bytes
        invariant Loose() && Listed(order, held) && Listed(old(order), held)
        invariant Kept(order, held) == Kept(old(order), held)
        invariant Within(entries, held)
        decreases |order|
      {
        SameBounds(order, entries, held);
        KeptStep(order, held);
        PopOldest();
        SameBounds(order, entries, held);
      }
      SameBounds(order, entries, held);
      KeptStep(order, held);
    }

    lemma DropOldest()
      requires Loose() && (MAX_ENTRIES < |order| || MAX_BYTES < bytes)
      ensures order != [] && order[0] in entries
      ensures Listed(order[1..], entries - {order[0]})
      ensures TotalBytes(order[1..], entries - {order[0]}) == bytes - entries[order[0]].bytes
      ensures (entries - {order[0]}).Keys == set id | id in order[1..]
    {
      assert forall i :: 0 <= i < |order[1..]| ==> order[1..][i] == order[i + 1];
      TotalBytesSame(order[1..], entries, entries - {order[0]});
      forall id
        ensures id in order[1..] <==> id in order && id != order[0]
      {
        if id in order && id != order[0] {
          var i :| 0 <= i < |order| && order[i] == id;
          assert order[1..][i - 1] == id;
        }
      }
    }
  }

  // The newest entry, which fits alone, is never evicted by its own arrival.
  lemma NewestStays(order: seq<Identity>, entries: Entries)
    requires Listed(order, entries) && order != [] && entries[order[|order| - 1]].bytes <= MAX_BYTES
    ensures order[|order| - 1] in Kept(order, entries)
  {
    hide TotalBytes, Kept;
    var n := |order| - 1;
    AloneFits(order, entries);
    KeptIsLongest(order, entries, n);
    var kept := Kept(order, entries);
    KeptIsTail(order, entries);
    assert kept[|kept| - 1] == order[n];
  }

  lemma AloneFits(order: seq<Identity>, entries: Entries)
    requires Listed(order, entries) && order != [] && entries[order[|order| - 1]].bytes <= MAX_BYTES
    ensures Listed(order[|order| - 1..], entries) && WithinBounds(order[|order| - 1..], entries)
  {
    var alone := order[|order| - 1..];
    assert alone == [order[|order| - 1]] && alone[1..] == [];
  }

  lemma KeptStep(order: seq<Identity>, entries: Entries)
    requires Listed(order, entries)
    ensures Kept(order, entries) ==
            if order == [] || WithinBounds(order, entries) then order else Kept(order[1..], entries)
  {
  }
}
