// The states of a brace expansion: what replacing the leftmost group reaches
// (internal/action/glob.go).
module GlobStates {
  import opened GlobExpansion
  import opened GlobCount

  // One of the patterns that replacing the group at `at` gives.
  ghost predicate ComesFrom(items: seq<Item>, at: nat, q: seq<Item>)
    requires at < |items| && items[at].Group?
  {
    exists k :: 0 <= k < |items[at].alternatives| && q == Replace(items, at, items[at].alternatives[k])
  }

  ghost predicate Leads(q: seq<Item>, e: seq<Item>) {
    FirstGroup(q) < |q| && ComesFrom(q, FirstGroup(q), e)
  }

  ghost predicate Path(path: seq<seq<Item>>) {
    path != [] && forall i :: 0 < i < |path| ==> Leads(path[i - 1], path[i])
  }

  // A pattern that replacing leftmost groups makes of the first one.
  ghost predicate Reachable(items: seq<Item>, q: seq<Item>) {
    exists path :: Path(path) && path[0] == items && path[|path| - 1] == q
  }

  // More states than the limit allows.
  ghost predicate ManyStates(items: seq<Item>) {
    exists states: seq<seq<Item>> ::
      Distinct(states) && MAX_STATES < |states| && forall i :: 0 <= i < |states| ==> Reachable(items, states[i])
  }

  lemma ReachableStart(items: seq<Item>)
    ensures Reachable(items, items)
  {
    assert Path([items]);
  }

  lemma ReachableNext(items: seq<Item>, q: seq<Item>, e: seq<Item>)
    requires Reachable(items, q) && Leads(q, e)
    ensures Reachable(items, e)
  {
    hide Leads;
    var path :| Path(path) && path[0] == items && path[|path| - 1] == q;
    var longer := path + [e];
    forall i | 0 < i < |longer|
      ensures Leads(longer[i - 1], longer[i])
    {
      if i < |path| {
        assert Leads(path[i - 1], path[i]);
      }
    }
    assert Path(longer);
  }

  // Whatever holds of the first pattern and survives each replacement holds of every
  // reachable one: it stays well formed and its count never rises.
  lemma {:induction false} PathCount(path: seq<seq<Item>>)
    requires Path(path) && WellFormed(path[0])
    ensures WellFormed(path[|path| - 1]) && Count(path[|path| - 1]) <= Count(path[0])
    decreases |path|
  {
    hide Count, WellFormed, Replace;
    var last := |path| - 1;
    if 0 < last {
      assert Path(path[..last]);
      PathCount(path[..last]);
      var q, at := path[last - 1], FirstGroup(path[last - 1]);
      assert Leads(q, path[last]);
      var k :| 0 <= k < |q[at].alternatives| && path[last] == Replace(q, at, q[at].alternatives[k]);
      ReplaceCount(q, at, k);
    }
  }

  lemma ReachableCount(items: seq<Item>, q: seq<Item>)
    requires WellFormed(items) && Reachable(items, q)
    ensures WellFormed(q) && Count(q) <= Count(items)
  {
    hide Count, WellFormed;
    var path :| Path(path) && path[0] == items && path[|path| - 1] == q;
    PathCount(path);
  }

  // ------------------------------------------------------------- the queue of states

  // The queue holds reachable states, from the first on, and all that its first n
  // states lead to.
  ghost predicate Visited(items: seq<Item>, queue: seq<seq<Item>>, n: nat) {
    && items in queue && n <= |queue|
    && (forall j :: 0 <= j < |queue| ==> Reachable(items, queue[j]))
    && forall p, e :: 0 <= p < n && Leads(queue[p], e) ==> e in queue
  }

  lemma VisitStart(items: seq<Item>)
    ensures Visited(items, [items], 0)
  {
    hide Reachable;
    ReachableStart(items);
  }

  lemma VisitPlain(items: seq<Item>, queue: seq<seq<Item>>, n: nat)
    requires Visited(items, queue, n) && n < |queue| && FirstGroup(queue[n]) == |queue[n]|
    ensures Visited(items, queue, n + 1)
  {
    hide Reachable;
  }

  lemma VisitedCount(items: seq<Item>, queue: seq<seq<Item>>, n: nat, at: nat)
    requires Visited(items, queue, n) && n < |queue| && WellFormed(items)
    requires at < |queue[n]| && queue[n][at].Group?
    ensures |queue[n][at].alternatives| <= Count(items)
  {
    hide Count, WellFormed, Replace, Reachable;
    ReachableCount(items, queue[n]);
    SuffixWellFormed(queue[n], 0);
    ReplaceCount(queue[n], at, 0);
  }

  // The states that the group at n leads to are reachable too.
  lemma VisitLonger(items: seq<Item>, queue: seq<seq<Item>>, n: nat, longer: seq<seq<Item>>, at: nat)
    requires Visited(items, queue, n) && n < |queue| && at == FirstGroup(queue[n]) < |queue[n]|
    requires queue <= longer && forall j :: |queue| <= j < |longer| ==> ComesFrom(queue[n], at, longer[j])
    ensures forall j :: 0 <= j < |longer| ==> Reachable(items, longer[j])
  {
    hide Reachable, ComesFrom;
    forall j | 0 <= j < |longer|
      ensures Reachable(items, longer[j])
    {
      if j < |queue| {
        assert longer[j] == queue[j];
      } else {
        assert Leads(queue[n], longer[j]);
        ReachableNext(items, queue[n], longer[j]);
      }
    }
  }

  lemma VisitedNext(items: seq<Item>, queue: seq<seq<Item>>, n: nat, p: nat, e: seq<Item>)
    requires Visited(items, queue, n) && p < n && Leads(queue[p], e)
    ensures e in queue
  {
    hide Leads;
  }

  lemma VisitGroup(items: seq<Item>, queue: seq<seq<Item>>, n: nat, longer: seq<seq<Item>>, at: nat)
    requires Visited(items, queue, n) && n < |queue| && at == FirstGroup(queue[n]) < |queue[n]|
    requires queue <= longer && forall j :: 0 <= j < |longer| ==> Reachable(items, longer[j])
    requires forall k :: 0 <= k < |queue[n][at].alternatives| ==>
               Replace(queue[n], at, queue[n][at].alternatives[k]) in longer
    ensures Visited(items, longer, n + 1)
  {
    hide Reachable, Replace;
    forall p, e | 0 <= p < n + 1 && Leads(longer[p], e)
      ensures e in longer
    {
      assert longer[p] == queue[p];
      if p < n {
        VisitedNext(items, queue, n, p, e);
        var j :| 0 <= j < |queue| && queue[j] == e;
        assert longer[j] == e;
      } else {
        var k :| 0 <= k < |queue[n][at].alternatives| && e == Replace(queue[n], at, queue[n][at].alternatives[k]);
      }
    }
  }

  lemma TooMany(items: seq<Item>, states: seq<seq<Item>>)
    requires Distinct(states) && MAX_STATES < |states| && forall i :: 0 <= i < |states| ==> Reachable(items, states[i])
    ensures ManyStates(items)
  {
  }

  lemma {:induction false} PathVisited(items: seq<Item>, queue: seq<seq<Item>>, path: seq<seq<Item>>)
    requires Visited(items, queue, |queue|) && Path(path) && path[0] == items
    ensures path[|path| - 1] in queue
    decreases |path|
  {
    hide Reachable, Leads;
    var last := |path| - 1;
    if 0 < last {
      PathVisited(items, queue, path[..last]);
      var p :| 0 <= p < |queue| && queue[p] == path[last - 1];
      assert Leads(queue[p], path[last]);
    }
  }

  // A queue that is done holds every reachable state.
  lemma AllVisited(items: seq<Item>, queue: seq<seq<Item>>)
    requires Visited(items, queue, |queue|) && |queue| <= MAX_STATES
    ensures !ManyStates(items)
  {
    hide Visited, Leads;
    if ManyStates(items) {
      var states: seq<seq<Item>> :|
        Distinct(states) && MAX_STATES < |states| && forall i :: 0 <= i < |states| ==> Reachable(items, states[i]);
      forall i | 0 <= i < |states|
        ensures states[i] in queue
      {
        assert Reachable(items, states[i]);
        var path :| Path(path) && path[0] == items && path[|path| - 1] == states[i];
        PathVisited(items, queue, path);
      }
      DistinctBound(states, queue);
    }
  }
}
