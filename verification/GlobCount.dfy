// Counting the programs of a brace pattern, with the limit on the count
// (internal/action/glob.go).
module GlobCount {
  import opened GlobExpansion

  // -------------------------------------------------------------------- counting

  lemma {:induction false} CountPositive(items: seq<Item>)
    requires WellFormed(items)
    ensures 1 <= Count(items)
    decreases items
  {
    if items != [] {
      CountPositive(items[1..]);
      if items[0].Group? {
        CountAllPositive(items[0].alternatives);
        ProductAtLeast(CountAll(items[0].alternatives), Count(items[1..]));
      }
    }
  }

  lemma {:induction false} CountAllPositive(alternatives: seq<Pattern>)
    requires forall k :: 0 <= k < |alternatives| ==> WellFormed(alternatives[k].items)
    ensures |alternatives| <= CountAll(alternatives)
    decreases alternatives
  {
    if alternatives != [] {
      CountPositive(alternatives[0].items);
      CountAllPositive(alternatives[1..]);
    }
  }

  lemma ProductAtLeast(a: nat, b: nat)
    requires 1 <= a && 1 <= b
    ensures a <= a * b && b <= a * b
  {
  }

  lemma {:induction false} CountFrom(items: seq<Item>, from: nat)
    requires from <= |items| && WellFormed(items)
    ensures WellFormed(items[from..])
    ensures var at := FirstGroup(items[from..]);
            Count(items[from..]) == if from + at == |items| then 1
                                    else CountAll(items[from + at].alternatives) * Count(items[from + at + 1..])
    decreases |items| - from
  {
    hide CountAll, WellFormed;
    SuffixWellFormed(items, from);
    if from < |items| {
      var rest := items[from..];
      assert rest[1..] == items[from + 1..] && rest[0] == items[from];
      FirstGroupStep(rest);
      if items[from].Plain? {
        CountFrom(items, from + 1);
      }
    }
  }

  lemma FirstGroupStep(items: seq<Item>)
    requires items != []
    ensures FirstGroup(items) == if items[0].Group? then 0 else 1 + FirstGroup(items[1..])
  {
  }

  lemma {:induction false} SuffixWellFormed(items: seq<Item>, from: nat)
    requires from <= |items| && WellFormed(items)
    ensures WellFormed(items[from..])
    ensures forall i :: from <= i < |items| && items[i].Group? ==>
              items[i].alternatives != [] &&
              forall k :: 0 <= k < |items[i].alternatives| ==> WellFormed(items[i].alternatives[k].items)
    decreases |items|
  {
    if from == 0 {
      assert items[0..] == items;
      if items != [] {
        SuffixWellFormed(items[1..], 0);
        assert forall i :: 1 <= i < |items| ==> items[i] == items[1..][i - 1];
      }
    } else {
      SuffixWellFormed(items[1..], from - 1);
      assert items[from..] == items[1..][from - 1..];
      assert forall i :: 1 <= i < |items| ==> items[i] == items[1..][i - 1];
    }
  }

  lemma {:induction false} CountAllSplit(alternatives: seq<Pattern>, k: nat)
    requires k <= |alternatives|
    ensures CountAll(alternatives) == CountAll(alternatives[..k]) + CountAll(alternatives[k..])
    decreases |alternatives|
  {
    if 0 < k {
      CountAllSplit(alternatives[1..], k - 1);
      assert alternatives[..k][1..] == alternatives[1..][..k - 1];
      assert alternatives[k..] == alternatives[1..][k - 1..];
    } else {
      assert alternatives[0..] == alternatives;
    }
  }

  lemma CountAllStep(alternatives: seq<Pattern>, k: nat)
    requires k < |alternatives|
    ensures CountAll(alternatives[..k + 1]) == CountAll(alternatives[..k]) + Count(alternatives[k].items)
  {
    var front := alternatives[..k + 1];
    CountAllSplit(front, k);
    assert front[..k] == alternatives[..k] && front[k..] == [alternatives[k]];
    assert CountAll([alternatives[k]]) == Count(alternatives[k].items);
  }

  // The division test refuses exactly the products over the limit.
  lemma DivisionTest(count: nat, groupCount: nat, limit: nat)
    requires 1 <= groupCount
    ensures limit / groupCount < count <==> limit < count * groupCount
  {
    var q, r := limit / groupCount, limit % groupCount;
    assert limit == q * groupCount + r;
    if q < count {
      assert (q + 1) * groupCount <= count * groupCount;
      assert limit < (q + 1) * groupCount;
    } else {
      assert count * groupCount <= q * groupCount;
    }
  }

  lemma ProductBound(count: nat, groupCount: nat, rest: nat)
    requires 1 <= rest
    ensures count * groupCount <= count * (groupCount * rest)
    ensures count * (groupCount * rest) == (count * groupCount) * rest
  {
    assert groupCount <= groupCount * rest;
    assert count * groupCount <= count * (groupCount * rest);
  }

  // The count of one group's alternatives, within what the limit leaves.
  method CountGroup(alternatives: seq<Pattern>, limit: nat) returns (groupCount: nat, within: bool)
    requires forall k :: 0 <= k < |alternatives| ==> WellFormed(alternatives[k].items)
    requires limit <= MAX_PROGRAMS
    ensures within <==> CountAll(alternatives) <= limit
    ensures within ==> groupCount == CountAll(alternatives)
    decreases alternatives, 0
  {
    assert alternatives[..|alternatives|] == alternatives && CountAll([]) == 0;
    hide Count, CountAll, WellFormed;
    groupCount := 0;
    CountAllSplit(alternatives, |alternatives|);
    assert alternatives[..0] == [];
    for k := 0 to |alternatives|
      invariant groupCount == CountAll(alternatives[..k]) <= limit
    {
      CountAllSplit(alternatives, k + 1);
      CountAllStep(alternatives, k);
      CountPositive(alternatives[k].items);
      var alternativeCount, fits := CountPrograms(alternatives[k].items, limit - groupCount);
      if !fits || limit - groupCount < alternativeCount {
        return 0, false;
      }
      groupCount := groupCount + alternativeCount;
    }
    within := true;
  }

  // Counting the programs of a pattern (countGlobExpansionPrograms): exact up to the
  // limit, refused above it, and no intermediate number exceeds it.
  method CountPrograms(items: seq<Item>, limit: nat) returns (count: nat, within: bool)
    requires WellFormed(items) && limit <= MAX_PROGRAMS
    ensures within <==> Count(items) <= limit
    ensures within ==> count == Count(items)
    decreases items, 1
  {
    hide Count, CountAll, WellFormed;
    CountPositive(items);
    if limit < 1 {
      return 0, false;
    }
    count := 1;
    var from := 0;
    assert items[0..] == items;
    SuffixWellFormed(items, 0);
    while true
      invariant from <= |items| && 1 <= count <= limit
      invariant Count(items) == count * Count(items[from..])
      decreases |items| - from
    {
      var at := from + FirstGroup(items[from..]);
      CountFrom(items, from);
      if at == |items| {
        return count, true;
      }
      var alternatives := items[at].alternatives;
      CountFrom(items, at + 1);
      CountPositive(items[at + 1..]);
      CountAllPositive(alternatives);
      ProductBound(count, CountAll(alternatives), Count(items[at + 1..]));
      ProductAtLeast(count, CountAll(alternatives));
      if MAX_GROUP_ALTERNATIVES < |alternatives| {
        return 0, false;
      }
      var groupCount, fits := CountGroup(alternatives, limit);
      if !fits {
        return 0, false;
      }
      DivisionTest(count, groupCount, limit);
      if groupCount == 0 || limit / groupCount < count {
        return 0, false;
      }
      count := count * groupCount;
      from := at + 1;
    }
  }

  // ------------------------------------------------------------ counts of replacements

  function Times(a: nat, b: nat): nat { a * b }

  lemma Associate(a: nat, b: nat, c: nat)
    ensures (a * b) * c == a * (b * c)
  {
  }

  lemma {:induction false} CountConcat(a: seq<Item>, b: seq<Item>)
    ensures Count(a + b) == Times(Count(a), Count(b))
    decreases |a|
  {
    hide CountAll;
    if a == [] {
      assert a + b == b;
    } else {
      assert (a + b)[1..] == a[1..] + b && (a + b)[0] == a[0];
      CountConcat(a[1..], b);
      if a[0].Group? {
        Associate(CountAll(a[0].alternatives), Count(a[1..]), Count(b));
      }
    }
  }

  lemma {:induction false} WellFormedConcat(a: seq<Item>, b: seq<Item>)
    requires WellFormed(a) && WellFormed(b)
    ensures WellFormed(a + b)
    decreases |a|
  {
    if a == [] {
      assert a + b == b;
    } else {
      assert (a + b)[1..] == a[1..] + b && (a + b)[0] == a[0];
      WellFormedConcat(a[1..], b);
    }
  }

  lemma {:induction false} PrefixWellFormed(items: seq<Item>, n: nat)
    requires WellFormed(items) && n <= |items|
    ensures WellFormed(items[..n])
    decreases n
  {
    if 0 < n {
      PrefixWellFormed(items[1..], n - 1);
      assert items[..n][1..] == items[1..][..n - 1];
    }
  }

  lemma {:induction false} AlternativeCount(alternatives: seq<Pattern>, k: nat)
    requires k < |alternatives|
    ensures Count(alternatives[k].items) <= CountAll(alternatives)
    decreases alternatives
  {
    if 0 < k {
      AlternativeCount(alternatives[1..], k - 1);
    }
  }

  lemma TimesFacts(front: nat, one: nat, most: nat, back: nat)
    requires 1 <= front && 1 <= back && one <= most
    ensures Times(front, Times(one, back)) <= Times(front, Times(most, back))
    ensures most <= Times(front, Times(most, back))
  {
    assert one * back <= most * back && most <= most * back;
  }

  // Replacing a group by one of its alternatives never raises the count, and a group
  // has no more alternatives than its pattern has programs.
  lemma ReplaceCount(items: seq<Item>, at: nat, k: nat)
    requires WellFormed(items) && at < |items| && items[at].Group? && k < |items[at].alternatives|
    ensures WellFormed(Replace(items, at, items[at].alternatives[k]))
    ensures Count(Replace(items, at, items[at].alternatives[k])) <= Count(items)
    ensures |items[at].alternatives| <= Count(items)
  {
    hide Count, CountAll, WellFormed, Times;
    var alternatives := items[at].alternatives;
    var front, alternative, back := items[..at], alternatives[k].items, items[at + 1..];
    SuffixWellFormed(items, 0);
    SuffixWellFormed(items, at + 1);
    PrefixWellFormed(items, at);
    WellFormedConcat(alternative, back);
    WellFormedConcat(front, alternative + back);
    assert Replace(items, at, alternatives[k]) == front + (alternative + back);
    assert items == front + ([items[at]] + back);
    CountConcat(alternative, back);
    CountConcat(front, alternative + back);
    CountConcat([items[at]], back);
    CountConcat(front, [items[at]] + back);
    GroupCount(items[at]);
    AlternativeCount(alternatives, k);
    CountPositive(front);
    CountPositive(back);
    CountAllPositive(alternatives);
    TimesFacts(Count(front), Count(alternative), CountAll(alternatives), Count(back));
  }

  lemma GroupCount(group: Item)
    requires group.Group?
    ensures Count([group]) == CountAll(group.alternatives)
  {
    assert [group][1..] == [] && Count([]) == 1;
  }
}
