// The breadth-first brace expansion, with its limits
// (internal/action/glob.go).
module GlobExpand {
  import opened Wrappers
  import opened GlobExpansion
  import opened GlobCount
  import opened GlobStates

  // --------------------------------------------------------------- the expansion

  function Groups(items: seq<Item>): nat
    decreases items
  {
    if items == [] then 0
    else
      match items[0]
      case Plain(_) => Groups(items[1..])
      case Group(alternatives) => 1 + GroupsOfAll(alternatives) + Groups(items[1..])
  }

  function GroupsOfAll(alternatives: seq<Pattern>): nat
    decreases alternatives
  {
    if alternatives == [] then 0 else Groups(alternatives[0].items) + GroupsOfAll(alternatives[1..])
  }

  lemma {:induction false} GroupsConcat(a: seq<Item>, b: seq<Item>)
    ensures Groups(a + b) == Groups(a) + Groups(b)
    decreases |a|
  {
    if a == [] {
      assert a + b == b;
    } else {
      assert (a + b)[1..] == a[1..] + b;
      GroupsConcat(a[1..], b);
    }
  }

  lemma {:induction false} AlternativeGroups(alternatives: seq<Pattern>, k: nat)
    requires k < |alternatives|
    ensures Groups(alternatives[k].items) <= GroupsOfAll(alternatives)
    decreases alternatives
  {
    if 0 < k {
      AlternativeGroups(alternatives[1..], k - 1);
    }
  }

  // Each replacement leaves fewer groups.
  lemma ReplaceGroups(items: seq<Item>, at: nat, k: nat)
    requires at < |items| && items[at].Group? && k < |items[at].alternatives|
    ensures Groups(Replace(items, at, items[at].alternatives[k])) < Groups(items)
  {
    var front, back := items[..at], items[at + 1..];
    var alternative := items[at].alternatives[k].items;
    assert items == front + ([items[at]] + back);
    GroupsConcat(front, [items[at]] + back);
    GroupsConcat([items[at]], back);
    AlternativeGroups(items[at].alternatives, k);
    GroupsConcat(front + alternative, back);
    GroupsConcat(front, alternative);
    assert [items[at]][1..] == [];
  }

  // How many states the expansion of a pattern visits at most.
  function Weight(items: seq<Item>): (w: nat)
    ensures 1 <= w
    decreases Groups(items), 1, 0
  {
    var at := FirstGroup(items);
    if at == |items| then 1 else 1 + WeightOfAll(items, at, |items[at].alternatives|)
  }

  function WeightOfAll(items: seq<Item>, at: nat, k: nat): nat
    requires at < |items| && items[at].Group? && k <= |items[at].alternatives|
    decreases Groups(items), 0, k
  {
    if k == 0 then 0
    else
      ReplaceGroups(items, at, k - 1);
      WeightOfAll(items, at, k - 1) + Weight(Replace(items, at, items[at].alternatives[k - 1]))
  }

  function QueueWeight(queue: seq<seq<Item>>, index: nat): nat
    requires index <= |queue|
    decreases |queue| - index
  {
    if index == |queue| then 0 else Weight(queue[index]) + QueueWeight(queue, index + 1)
  }

  lemma {:induction false} QueueWeightPush(queue: seq<seq<Item>>, index: nat, items: seq<Item>)
    requires index <= |queue|
    ensures QueueWeight(queue + [items], index) == QueueWeight(queue, index) + Weight(items)
    decreases |queue| - index
  {
    hide Weight;
    if index < |queue| {
      QueueWeightPush(queue, index + 1, items);
    } else {
      assert QueueWeight(queue + [items], index + 1) == 0;
    }
  }

  predicate Expanded(items: seq<Item>) {
    FirstGroup(items) == |items|
  }

  ghost predicate SameElements(queue: seq<seq<Item>>, seen: set<seq<Item>>) {
    forall q :: q in seen <==> q in queue
  }

  lemma Push(queue: seq<seq<Item>>, seen: set<seq<Item>>, q: seq<Item>)
    requires Distinct(queue) && SameElements(queue, seen) && q !in seen
    ensures Distinct(queue + [q]) && SameElements(queue + [q], seen + {q})
  {
  }

  lemma SameMember(queue: seq<seq<Item>>, seen: set<seq<Item>>, q: seq<Item>)
    requires SameElements(queue, seen)
    ensures q in seen <==> q in queue
  {
  }

  lemma AlternativeComes(items: seq<Item>, at: nat, k: nat)
    requires at < |items| && items[at].Group? && k < |items[at].alternatives|
    ensures ComesFrom(items, at, Replace(items, at, items[at].alternatives[k]))
  {
  }

  // The states one pattern contributes to the queue: each alternative's, if not there yet.
  method PushAlternatives(queue: seq<seq<Item>>, index: nat, seen: set<seq<Item>>, items: seq<Item>, at: nat)
    returns (longer: seq<seq<Item>>, seen': set<seq<Item>>, ok: bool)
    requires at < |items| && items[at].Group? && index <= |queue|
    requires Distinct(queue) && SameElements(queue, seen) && |queue| == |seen| <= MAX_STATES
    ensures queue <= longer && Distinct(longer)
    ensures forall j :: |queue| <= j < |longer| ==> ComesFrom(items, at, longer[j])
    ensures ok <==> |longer| <= MAX_STATES
    ensures ok ==> |longer| == |seen'| && SameElements(longer, seen')
    ensures ok ==>
              forall k :: 0 <= k < |items[at].alternatives| ==> Replace(items, at, items[at].alternatives[k]) in longer
    ensures ok ==>
              QueueWeight(longer, index) <= QueueWeight(queue, index) + WeightOfAll(items, at, |items[at].alternatives|)
  {
    hide Weight, QueueWeight, Distinct, ComesFrom, SameElements, Replace, Groups;
    longer, seen' := queue, seen;
    var alternatives := items[at].alternatives;
    for k := 0 to |alternatives|
      invariant queue <= longer && Distinct(longer) && SameElements(longer, seen') && |longer| == |seen'| <= MAX_STATES
      invariant forall j :: |queue| <= j < |longer| ==> ComesFrom(items, at, longer[j])
      invariant forall i :: 0 <= i < k ==> Replace(items, at, alternatives[i]) in longer
      invariant QueueWeight(longer, index) <= QueueWeight(queue, index) + WeightOfAll(items, at, k)
    {
      var expanded := Replace(items, at, alternatives[k]);
      SameMember(longer, seen', expanded);
      if expanded !in seen' {
        Push(longer, seen', expanded);
        AlternativeComes(items, at, k);
        if MAX_STATES <= |seen'| {
          return longer + [expanded], seen', false;
        }
        QueueWeightPush(longer, index, expanded);
        longer, seen' := longer + [expanded], seen' + {expanded};
        assert longer[|longer| - 1] == expanded;
      }
    }
    ok := true;
  }

  // ------------------------------------------------------------- what the queue keeps

  ghost predicate Within(q: seq<Item>, items: seq<Item>) {
    forall s :: Denotes(q, s) ==> Denotes(items, s)
  }

  // A string that a pattern with fewer than g groups still in the queue denotes.
  ghost predicate Pending(queue: seq<seq<Item>>, index: nat, g: nat, s: seq<char>) {
    exists m :: index <= m < |queue| && Groups(queue[m]) < g && Denotes(queue[m], s)
  }

  // Every string of a pattern taken from the queue is finished or still pending.
  ghost predicate Settled(queue: seq<seq<Item>>, index: nat, finished: seq<seq<char>>, q: seq<Item>) {
    forall s :: Denotes(q, s) ==> s in finished || Pending(queue, index, Groups(q), s)
  }

  ghost predicate AllSettled(queue: seq<seq<Item>>, index: nat, finished: seq<seq<char>>)
    requires index <= |queue|
  {
    forall p :: 0 <= p < index ==> Settled(queue, index, finished, queue[p])
  }

  lemma SettlePlain(queue: seq<seq<Item>>, index: nat, finished: seq<seq<char>>, p: nat)
    requires p <= index < |queue| && Expanded(queue[index]) && AllSettled(queue, index, finished)
    ensures Settled(queue, index + 1, finished + [Characters(queue[index])], queue[p])
  {
    hide Denotes, Groups;
    var q := queue[p];
    forall s | Denotes(q, s)
      ensures s in finished + [Characters(queue[index])] || Pending(queue, index + 1, Groups(q), s)
    {
      if p < index && s !in finished {
        assert Settled(queue, index, finished, q);
        var m :| index <= m < |queue| && Groups(queue[m]) < Groups(q) && Denotes(queue[m], s);
        if m == index {
          PlainDenotes(queue[index], s);
        }
      } else if p == index {
        PlainDenotes(queue[index], s);
      }
    }
  }

  // A string of the pattern just replaced goes to a pattern still in the queue, or
  // was settled when that pattern was taken from it.
  lemma SettleAlternative(queue: seq<seq<Item>>, index: nat, finished: seq<seq<char>>, longer: seq<seq<Item>>,
                          at: nat, s: seq<char>)
    requires index < |queue| && at < |queue[index]| && queue[index][at].Group? && queue <= longer
    requires AllSettled(queue, index, finished) && Denotes(queue[index], s)
    requires forall k :: 0 <= k < |queue[index][at].alternatives| ==>
               Replace(queue[index], at, queue[index][at].alternatives[k]) in longer
    ensures s in finished || Pending(longer, index + 1, Groups(queue[index]), s)
  {
    hide Denotes, Groups, Replace;
    var items := queue[index];
    var k := ReplaceComplete(items, at, s);
    ReplaceGroups(items, at, k);
    var expanded := Replace(items, at, items[at].alternatives[k]);
    assert expanded in longer;
    var j :| 0 <= j < |longer| && longer[j] == expanded;
    if j < index && s !in finished {
      assert queue[j] == expanded;
      assert Settled(queue, index, finished, queue[j]);
      var m :| index <= m < |queue| && Groups(queue[m]) < Groups(expanded) && Denotes(queue[m], s);
      assert longer[m] == queue[m];
    }
  }

  lemma SettleGroup(queue: seq<seq<Item>>, index: nat, finished: seq<seq<char>>, longer: seq<seq<Item>>, at: nat,
                    p: nat)
    requires p <= index < |queue| && at < |queue[index]| && queue[index][at].Group? && queue <= longer
    requires AllSettled(queue, index, finished)
    requires forall k :: 0 <= k < |queue[index][at].alternatives| ==>
               Replace(queue[index], at, queue[index][at].alternatives[k]) in longer
    ensures Settled(longer, index + 1, finished, queue[p])
  {
    hide Denotes, Groups, Replace;
    var q := queue[p];
    forall s | Denotes(q, s)
      ensures s in finished || Pending(longer, index + 1, Groups(q), s)
    {
      if p == index {
        SettleAlternative(queue, index, finished, longer, at, s);
      } else if s !in finished {
        assert Settled(queue, index, finished, q);
        var m :| index <= m < |queue| && Groups(queue[m]) < Groups(q) && Denotes(queue[m], s);
        if m == index {
          SettleAlternative(queue, index, finished, longer, at, s);
        } else {
          assert longer[m] == queue[m];
        }
      }
    }
  }

  ghost predicate IsText(queue: seq<seq<Item>>, j: nat, text: seq<char>) {
    j < |queue| && Expanded(queue[j]) && text == Characters(queue[j])
  }

  ghost predicate TakenText(queue: seq<seq<Item>>, index: nat, text: seq<char>) {
    exists j :: 0 <= j < index && IsText(queue, j, text)
  }

  // The finished strings come from distinct patterns already taken from the queue.
  ghost predicate FromQueue(queue: seq<seq<Item>>, index: nat, finished: seq<seq<char>>) {
    forall i :: 0 <= i < |finished| ==> TakenText(queue, index, finished[i])
  }

  lemma FinishOne(queue: seq<seq<Item>>, index: nat, finished: seq<seq<char>>)
    requires index < |queue| && Expanded(queue[index]) && Distinct(queue)
    requires Distinct(finished) && FromQueue(queue, index, finished)
    ensures Distinct(finished + [Characters(queue[index])])
    ensures FromQueue(queue, index + 1, finished + [Characters(queue[index])])
  {
    var text := Characters(queue[index]);
    assert IsText(queue, index, text);
    assert TakenText(queue, index + 1, text);
    forall i | 0 <= i < |finished|
      ensures finished[i] != text
    {
      var j :| 0 <= j < index && IsText(queue, j, finished[i]);
      if finished[i] == text {
        SameText(queue[j], queue[index]);
      }
    }
    FromQueueGrows(queue, queue, index, finished);
  }

  lemma SameText(a: seq<Item>, b: seq<Item>)
    requires Expanded(a) && Expanded(b) && Characters(a) == Characters(b)
    ensures a == b
  {
    assert |a| == |b|;
    forall i | 0 <= i < |a|
      ensures a[i] == b[i]
    {
      assert Characters(a)[i] == a[i].character && Characters(b)[i] == b[i].character;
    }
  }

  lemma FromQueueGrows(queue: seq<seq<Item>>, longer: seq<seq<Item>>, index: nat, finished: seq<seq<char>>)
    requires index < |queue| && queue <= longer && FromQueue(queue, index, finished)
    ensures FromQueue(longer, index + 1, finished)
  {
    forall i | 0 <= i < |finished|
      ensures TakenText(longer, index + 1, finished[i])
    {
      var j :| 0 <= j < index && IsText(queue, j, finished[i]);
      assert IsText(longer, j, finished[i]);
    }
  }

  lemma FinishedDenoted(queue: seq<seq<Item>>, index: nat, finished: seq<seq<char>>, items: seq<Item>)
    requires FromQueue(queue, index, finished) && forall j :: 0 <= j < |queue| ==> Within(queue[j], items)
    ensures forall i :: 0 <= i < |finished| ==> Denotes(items, finished[i])
  {
    hide Denotes;
    forall i | 0 <= i < |finished|
      ensures Denotes(items, finished[i])
    {
      var j :| 0 <= j < index && IsText(queue, j, finished[i]);
      PlainDenotes(queue[j], finished[i]);
      assert Within(queue[j], items);
    }
  }

  lemma AlternativesWithin(items: seq<Item>, q: seq<Item>, at: nat, e: seq<Item>)
    requires Within(q, items) && at < |q| && q[at].Group? && ComesFrom(q, at, e)
    ensures Within(e, items)
  {
    hide Denotes, Replace;
    var k :| 0 <= k < |q[at].alternatives| && e == Replace(q, at, q[at].alternatives[k]);
    forall s | Denotes(e, s)
      ensures Denotes(items, s)
    {
      ReplaceSound(q, at, k, s);
    }
  }

  datatype ExpandError = TooManyPrograms | TooManyAlternatives | TooManyStates

  // Leftmost-first expansion without duplicates (expandGlobAlternatives): the finished
  // programs are exactly the strings the pattern denotes, each once, and no more than
  // were counted. Without the state limit the loop still ends: each round lowers the
  // weight of the queue.
  method ExpandAlternatives(items: seq<Item>) returns (out: Result<seq<seq<char>>, ExpandError>)
    requires WellFormed(items)
    ensures out.Ok? ==> Distinct(out.value) && forall s :: s in out.value <==> Denotes(items, s)
    ensures out.Ok? ==> |out.value| <= Count(items) <= MAX_PROGRAMS
    ensures out == Err(TooManyPrograms) <==> MAX_PROGRAMS < Count(items)
    ensures out == Err(TooManyStates) <==> Count(items) <= MAX_PROGRAMS && ManyStates(items)
    ensures out.Err? ==> out.error == TooManyPrograms || out.error == TooManyStates
  {
    hide Visited, Reachable, ManyStates, Denotes, Groups, Weight, QueueWeight, Distinct, FromQueue, Within, Settled,
         AllSettled, SameElements, ComesFrom, Replace, Count;
    var programs, withinLimit := CountPrograms(items, MAX_PROGRAMS);
    if !withinLimit {
      return Err(TooManyPrograms);
    }
    var queue, seen := [items], {items};
    var finished: seq<seq<char>> := [];
    var index := 0;
    QueueStarts(items);
    VisitStart(items);
    while index < |queue|
      invariant index <= |queue| && 0 < |queue| && queue[0] == items
      invariant Distinct(queue) && SameElements(queue, seen) && |queue| == |seen| <= MAX_STATES
      invariant Visited(items, queue, index)
      invariant forall j :: 0 <= j < |queue| ==> Within(queue[j], items)
      invariant AllSettled(queue, index, finished)
      invariant Distinct(finished) && FromQueue(queue, index, finished)
      decreases QueueWeight(queue, index)
    {
      var candidate := queue[index];
      var at := FirstGroup(candidate);
      if at == |candidate| {
        VisitPlain(items, queue, index);
        FinishOne(queue, index, finished);
        PlainStep(queue, index, finished);
        finished := finished + [Characters(candidate)];
        FinishedDenoted(queue, index + 1, finished, items);
        DenotedBound(items, finished);
        assert |finished| <= programs <= MAX_PROGRAMS;
      } else {
        VisitedCount(items, queue, index, at);
        if MAX_GROUP_ALTERNATIVES < |candidate[at].alternatives| {
          return Err(TooManyAlternatives);
        }
        var longer, seen', ok := PushAlternatives(queue, index, seen, candidate, at);
        VisitLonger(items, queue, index, longer, at);
        if !ok {
          TooMany(items, longer);
          return Err(TooManyStates);
        }
        VisitGroup(items, queue, index, longer, at);
        GroupStep(queue, index, finished, longer, at, items);
        queue, seen := longer, seen';
      }
      index := index + 1;
    }
    FinishedDenoted(queue, index, finished, items);
    DenotedBound(items, finished);
    AllDone(queue, index, finished, items);
    AllVisited(items, queue);
    return Ok(finished);
  }

  lemma QueueStarts(items: seq<Item>)
    ensures Distinct([items]) && SameElements([items], {items}) && Within(items, items)
    ensures AllSettled([items], 0, []) && Distinct<seq<char>>([]) && FromQueue([items], 0, [])
  {
  }

  lemma PlainStep(queue: seq<seq<Item>>, index: nat, finished: seq<seq<char>>)
    requires index < |queue| && Expanded(queue[index]) && AllSettled(queue, index, finished)
    ensures AllSettled(queue, index + 1, finished + [Characters(queue[index])])
    ensures QueueWeight(queue, index + 1) < QueueWeight(queue, index)
  {
    hide Settled, Weight;
    forall p | 0 <= p < index + 1
      ensures Settled(queue, index + 1, finished + [Characters(queue[index])], queue[p])
    {
      SettlePlain(queue, index, finished, p);
    }
  }

  lemma GroupStep(queue: seq<seq<Item>>, index: nat, finished: seq<seq<char>>, longer: seq<seq<Item>>, at: nat,
                  items: seq<Item>)
    requires index < |queue| && at == FirstGroup(queue[index]) < |queue[index]| && queue <= longer
    requires AllSettled(queue, index, finished) && FromQueue(queue, index, finished)
    requires forall j :: 0 <= j < |queue| ==> Within(queue[j], items)
    requires forall j :: |queue| <= j < |longer| ==> ComesFrom(queue[index], at, longer[j])
    requires forall k :: 0 <= k < |queue[index][at].alternatives| ==>
               Replace(queue[index], at, queue[index][at].alternatives[k]) in longer
    requires QueueWeight(longer, index)
          <= QueueWeight(queue, index) + WeightOfAll(queue[index], at, |queue[index][at].alternatives|)
    ensures AllSettled(longer, index + 1, finished) && FromQueue(longer, index + 1, finished)
    ensures forall j :: 0 <= j < |longer| ==> Within(longer[j], items)
    ensures QueueWeight(longer, index + 1) < QueueWeight(queue, index)
  {
    hide Settled, Within, FromQueue, ComesFrom, Replace, Denotes;
    forall p | 0 <= p < index + 1
      ensures Settled(longer, index + 1, finished, longer[p])
    {
      SettleGroup(queue, index, finished, longer, at, p);
    }
    FromQueueGrows(queue, longer, index, finished);
    forall j | 0 <= j < |longer|
      ensures Within(longer[j], items)
    {
      if j < |queue| {
        assert longer[j] == queue[j];
      } else {
        AlternativesWithin(items, queue[index], at, longer[j]);
      }
    }
    assert longer[index] == queue[index];
  }

  lemma AllDone(queue: seq<seq<Item>>, index: nat, finished: seq<seq<char>>, items: seq<Item>)
    requires index == |queue| && queue != [] && queue[0] == items && AllSettled(queue, index, finished)
    requires forall i :: 0 <= i < |finished| ==> Denotes(items, finished[i])
    ensures forall s :: s in finished <==> Denotes(items, s)
  {
    hide Denotes;
    assert Settled(queue, index, finished, queue[0]);
  }
}
