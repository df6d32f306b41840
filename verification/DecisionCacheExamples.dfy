// A run of the decision cache in which a stored result is evicted by its own growth.
module DecisionCacheExamples {
  import opened Wrappers
  import opened DecisionCache

  // A result under identity id that counts for its body's size.
  function Result(id: Identity, bytes: nat): Evaluation {
    Evaluation(CacheResult(true, id), false, bytes)
  }

  const BYTES: Evaluation -> nat := (result: Evaluation) => result.body

  // The entries with both identities, the first of the given size.
  function Both(bytes: nat): Entries {
    map[1 := Entry(Result(1, bytes), bytes), 2 := Entry(Result(2, MAX_BYTES - 1), MAX_BYTES - 1)]
  }

  const ONE: Entries := map[1 := Entry(Result(1, 1), 1)]

  // A new identity with which everything still fits.
  method StoreNew(cache: DecisionCache, id: Identity, bytes: nat, ghost held: Entries)
    requires cache.Valid() && cache.size == BYTES && id !in cache.entries && bytes <= MAX_BYTES
    requires held == cache.entries[id := Entry(Result(id, bytes), bytes)]
    requires Listed(cache.order + [id], held) && Kept(cache.order + [id], held) == cache.order + [id]
    modifies cache
    ensures cache.Valid() && cache.order == old(cache.order) + [id] && cache.entries == held
  {
    hide Kept, WithinBounds, TotalBytes, Listed;
    var stored := cache.StoreIdentity(CacheResult(true, id), Result(id, bytes));
    SameEntries(cache, held);
  }

  method StoreBoth() returns (cache: DecisionCache)
    ensures fresh(cache) && cache.Valid() && cache.size == BYTES && cache.order == [1, 2] && cache.entries == Both(1)
  {
    hide Kept, WithinBounds, TotalBytes, Listed, DecisionCache.Valid;
    cache := new DecisionCache(BYTES);
    OneKept();
    assert [] + [1] == [1] && [1] + [2] == [1, 2];
    StoreNew(cache, 1, 1, ONE);
    TwoKept(1);
    StoreNew(cache, 2, MAX_BYTES - 1, Both(1));
  }

  // A cache whose order lists some entries has no others.
  lemma SameEntries(cache: DecisionCache, held: Entries)
    requires cache.Valid() && forall id :: id in held <==> id in cache.order
    requires forall k :: k in cache.order ==> cache.entries[k] == held[k]
    ensures cache.entries == held
  {
  }

  // Identity 1 is stored, then identity 2, then identity 1 again with a larger result:
  // the cache accepts it under the identity that it knows, keeps its place, and reports
  // that it is stored, when it is gone.
  method GrownOut() returns (cache: DecisionCache, stored: bool, found: Option<Evaluation>, kept: Option<Evaluation>)
    ensures fresh(cache) && cache.Valid()
    ensures stored && found == None && kept == Some(Result(2, MAX_BYTES - 1))
  {
    hide Kept, WithinBounds, TotalBytes;
    cache := StoreBoth();
    assert cache.entries[1 := Entry(Result(1, 2), 2)] == Both(2);
    stored := cache.StoreIdentity(CacheResult(true, 1), Result(1, 2));
    TwoKept(2);
    assert cache.order == [2];
    found := cache.LookupIdentity(CacheResult(true, 1));
    kept := cache.LookupIdentity(CacheResult(true, 2));
  }

  lemma OneKept()
    ensures Listed([1], ONE) && Kept([1], ONE) == [1]
  {
    var order := [1];
    assert order[1..] == [];
    assert TotalBytes(order, ONE) == 1;
    KeptStep(order, ONE);
  }

  // Beside an entry of all bytes but one, one byte fits and two do not.
  lemma TwoKept(bytes: nat)
    requires 1 <= bytes <= 2
    ensures Listed([1, 2], Both(bytes)) && Kept([1, 2], Both(bytes)) == if bytes == 1 then [1, 2] else [2]
  {
    var order, held := [1, 2], Both(bytes);
    assert order[1..] == [2] && [2][1..] == [];
    assert TotalBytes(order[1..], held) == MAX_BYTES - 1;
    assert TotalBytes(order, held) == MAX_BYTES - 1 + bytes;
    KeptStep(order, held);
    KeptStep(order[1..], held);
  }
}
