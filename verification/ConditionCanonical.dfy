// The canonical form of a condition: compiling keeps the meaning, and does not depend
// on the order in which the children of All and Any are written.
module ConditionCanonical {
  import opened Wrappers
  import opened Condition
  import opened ConditionMeaning
  import opened ConditionCompile

  // -------------------------------------------------------------------- meaning

  // The three-valued meaning of a source condition; what does not compile has none
  // and counts as undecided here.
  function Meaning(request: Request, c: SourceCondition, compile: PredicateCompiler): Truth
    decreases c, 1
  {
    if Members(c) != 1 then Indeterminate
    else if c.all.Group? then Joined(All, Meanings(request, c.all.children, compile))
    else if c.any.Group? then Joined(Any, Meanings(request, c.any.children, compile))
    else if c.not.Some? then Negation(Meaning(request, c.not.value, compile))
    else
      match compile(c.test.value)
      case None => Indeterminate
      case Some(p) => EvaluatePredicate(request, p, false).state
  }

  function Meanings(request: Request, children: seq<SourceCondition>, compile: PredicateCompiler): (ts: seq<Truth>)
    ensures |ts| == |children| && forall k :: 0 <= k < |ts| ==> ts[k] == Meaning(request, children[k], compile)
    decreases children, 0
  {
    if children == [] then []
    else
      var last := |children| - 1;
      Meanings(request, children[..last], compile) + [Meaning(request, children[last], compile)]
  }

  // Joining depends on which values occur, not on their order.
  lemma JoinedSameElements(kind: Kind, a: seq<Truth>, b: seq<Truth>)
    requires kind == All || kind == Any
    requires forall t :: t in a <==> t in b
    ensures Joined(kind, a) == Joined(kind, b)
  {
    AllEqual(a, True);
    AllEqual(b, True);
    AllEqual(a, False);
    AllEqual(b, False);
  }

  lemma AllEqual(a: seq<Truth>, t: Truth)
    ensures (forall k :: 0 <= k < |a| ==> a[k] == t) <==> (forall s :: s in a ==> s == t)
  {
    if forall s :: s in a ==> s == t {
      assert forall k :: 0 <= k < |a| ==> a[k] in a;
    }
  }

  lemma {:induction false} CompiledMeans(request: Request, c: SourceCondition, depth: nat, compile: PredicateCompiler,
                                        key: Key)
    requires Compile(c, depth, compile, key).Ok?
    ensures var node := Some(Compile(c, depth, compile, key).value.node);
            Proper(node) && Kleene(request, node) == Meaning(request, c, compile)
    decreases c, 1
  {
    hide EvaluatePredicate, Joined, CompileList, Sort, Shallow, Size;
    CompiledFits(c, depth, compile, key);
    if c.all.Group? {
      GroupMeans(request, All, c.all.children, depth, compile, key);
    } else if c.any.Group? {
      GroupMeans(request, Any, c.any.children, depth, compile, key);
    } else if c.not.Some? {
      CompiledMeans(request, c.not.value, depth + 1, compile, key);
    }
  }

  lemma {:induction false} GroupMeans(request: Request, kind: Kind, children: seq<SourceCondition>, depth: nat,
                                      compile: PredicateCompiler, key: Key)
    requires (kind == All || kind == Any) && depth <= MAX_DEPTH
    requires CompileGroup(kind, children, depth, compile, key).Ok?
    ensures var node := Some(CompileGroup(kind, children, depth, compile, key).value.node);
            Proper(node) && Kleene(request, node) == Joined(kind, Meanings(request, children, compile))
    decreases children, 1
  {
    hide EvaluatePredicate, Joined, CompileList, Sort, Shallow, Size, Meaning, Meanings;
    GroupCompiledFits(kind, children, depth, compile, key);
    ListMeans(request, children, depth, compile, key);
    var nodes := CompileList(children, depth, compile, key).value.nodes;
    SortedMembers(nodes, key);
    SameValues(request, nodes, Sort(nodes, key), Meanings(request, children, compile));
    JoinedSameElements(kind, Values(request, Boxed(Sort(nodes, key))), Meanings(request, children, compile));
  }

  lemma SameValues(request: Request, nodes: seq<Node>, sorted: seq<Node>, meanings: seq<Truth>)
    requires forall n :: n in sorted <==> n in nodes
    requires forall k :: 0 <= k < |sorted| ==> Proper(Boxed(sorted)[k])
    requires |meanings| == |nodes|
    requires forall k :: 0 <= k < |nodes| ==> Proper(Some(nodes[k])) && meanings[k] == Kleene(request, Some(nodes[k]))
    ensures forall t :: t in Values(request, Boxed(sorted)) <==> t in meanings
  {
    hide Kleene, Proper;
    var values := Values(request, Boxed(sorted));
    forall t
      ensures t in values <==> t in meanings
    {
      if t in values {
        var k :| 0 <= k < |values| && values[k] == t;
        assert sorted[k] in nodes;
        var j :| 0 <= j < |nodes| && nodes[j] == sorted[k];
        assert meanings[j] == t;
      }
      if t in meanings {
        var j :| 0 <= j < |meanings| && meanings[j] == t;
        assert nodes[j] in sorted;
        var k :| 0 <= k < |sorted| && sorted[k] == nodes[j];
        assert values[k] == t;
      }
    }
  }

  lemma {:induction false} ListMeans(request: Request, children: seq<SourceCondition>, depth: nat,
                                     compile: PredicateCompiler, key: Key)
    requires CompileList(children, depth, compile, key).Ok?
    ensures var nodes := CompileList(children, depth, compile, key).value.nodes;
            forall k :: 0 <= k < |nodes| ==>
              Proper(Some(nodes[k])) && Kleene(request, Some(nodes[k])) == Meaning(request, children[k], compile)
    decreases children, 0
  {
    hide Compile, Meaning, Kleene, Proper;
    if children != [] {
      ListMeans(request, children[..|children| - 1], depth, compile, key);
      CompiledMeans(request, children[|children| - 1], depth + 1, compile, key);
    }
  }

  // Evaluating what was compiled gives the meaning of the source, at full size and
  // without meeting a limit.
  lemma CompiledEvaluation(request: Request, c: SourceCondition, compile: PredicateCompiler, key: Key)
    requires Compile(c, 1, compile, key).Ok?
    ensures var out := Compile(c, 1, compile, key).value;
            var e := EvaluateAll(request, Some(out.node), 1, true);
            e.state == Meaning(request, c, compile) && e.nodes == out.nodes
  {
    hide Compile, EvaluateAll, Meaning, Proper, Shallow, Size, Kleene;
    CompiledFits(c, 1, compile, key);
    CompiledMeans(request, c, 1, compile, key);
    EvaluationMeans(request, Some(Compile(c, 1, compile, key).value.node), 1, true);
  }

  // ------------------------------------------------------------------ permutation

  predicate Permutation(perm: seq<nat>, n: nat) {
    && |perm| == n
    && (forall i :: 0 <= i < n ==> perm[i] < n)
    && (forall i, j :: 0 <= i < j < n ==> perm[i] != perm[j])
  }

  // The same condition up to the order of the children of All and Any, at any level.
  ghost predicate Reordered(a: SourceCondition, b: SourceCondition)
    decreases a, 1
  {
    && a.test == b.test
    && (a.not.Some? <==> b.not.Some?) && (a.not.Some? ==> Reordered(a.not.value, b.not.value))
    && (a.all.Group? <==> b.all.Group?) && (a.all.Group? ==> ReorderedLists(a.all.children, b.all.children))
    && (a.any.Group? <==> b.any.Group?) && (a.any.Group? ==> ReorderedLists(a.any.children, b.any.children))
  }

  ghost predicate ReorderedLists(xs: seq<SourceCondition>, ys: seq<SourceCondition>)
    decreases xs, 0
  {
    |xs| == |ys| &&
    exists perm: seq<nat> :: Permutation(perm, |xs|) && forall i :: 0 <= i < |xs| ==> Reordered(xs[i], ys[perm[i]])
  }

  lemma {:induction false} ListCompiles(children: seq<SourceCondition>, depth: nat, compile: PredicateCompiler,
                                        key: Key)
    ensures CompileList(children, depth, compile, key).Ok? <==>
            forall k :: 0 <= k < |children| ==> Compile(children[k], depth + 1, compile, key).Ok?
    ensures CompileList(children, depth, compile, key).Ok? ==>
            forall k :: 0 <= k < |children| ==>
              CompileList(children, depth, compile, key).value.nodes[k]
              == Compile(children[k], depth + 1, compile, key).value.node
    decreases children, 0
  {
    hide Compile;
    if children != [] {
      ListCompiles(children[..|children| - 1], depth, compile, key);
    }
  }

  lemma {:induction false} PermutedMultiset(xs: seq<Node>, ys: seq<Node>, perm: seq<nat>)
    requires |xs| == |ys| && Permutation(perm, |xs|) && forall i :: 0 <= i < |xs| ==> xs[i] == ys[perm[i]]
    ensures multiset(xs) == multiset(ys)
    decreases |xs|
  {
    if xs != [] {
      var n := |xs| - 1;
      var p := perm[n];
      var shorter := ys[..p] + ys[p + 1..];
      var perm' := seq(n, i requires 0 <= i < n => if perm[i] < p then perm[i] else perm[i] - 1);
      assert forall i :: 0 <= i < n ==> perm[i] != p;
      PermutedMultiset(xs[..n], shorter, perm');
      assert xs == xs[..n] + [ys[p]];
      assert ys == ys[..p] + [ys[p]] + ys[p + 1..];
    }
  }

  lemma SameSorted(xs: seq<Node>, ys: seq<Node>, perm: seq<nat>, key: Key)
    requires Injective(key) && |xs| == |ys| && Permutation(perm, |xs|)
    requires forall i :: 0 <= i < |xs| ==> xs[i] == ys[perm[i]]
    ensures Sort(xs, key) == Sort(ys, key)
    ensures SizeOfAll(Boxed(xs)) == SizeOfAll(Boxed(ys))
  {
    hide Sort, Sorted, Injective, SizeOfAll, Boxed;
    PermutedMultiset(xs, ys, perm);
    SortSorts(xs, key);
    SortSorts(ys, key);
    SortedUnique(Sort(xs, key), Sort(ys, key), key);
    SizeOfSorted(xs, key);
    SizeOfSorted(ys, key);
  }

  // Two conditions that differ in the order of children only compile alike: both are
  // refused, or both give the same canonical tree with the same node count.
  lemma {:induction false} ReorderedCompile(a: SourceCondition, b: SourceCondition, depth: nat,
                                            compile: PredicateCompiler,
                                            key: Key)
    requires Injective(key) && Reordered(a, b)
    ensures Compile(a, depth, compile, key).Ok? <==> Compile(b, depth, compile, key).Ok?
    ensures Compile(a, depth, compile, key).Ok? ==> Compile(a, depth, compile, key) == Compile(b, depth, compile, key)
    decreases a, 1
  {
    hide Injective, CompileGroup, ReorderedLists;
    if MAX_DEPTH < depth || Members(a) != 1 {
    } else if a.all.Group? {
      ReorderedGroup(All, a.all.children, b.all.children, depth, compile, key);
    } else if a.any.Group? {
      ReorderedGroup(Any, a.any.children, b.any.children, depth, compile, key);
    } else if a.not.Some? {
      ReorderedCompile(a.not.value, b.not.value, depth + 1, compile, key);
    }
  }

  lemma {:induction false} ReorderedGroup(kind: Kind, xs: seq<SourceCondition>, ys: seq<SourceCondition>, depth: nat,
                                          compile: PredicateCompiler, key: Key)
    requires Injective(key) && ReorderedLists(xs, ys)
    ensures CompileGroup(kind, xs, depth, compile, key).Ok? <==> CompileGroup(kind, ys, depth, compile, key).Ok?
    ensures CompileGroup(kind, xs, depth, compile, key).Ok? ==>
              CompileGroup(kind, xs, depth, compile, key) == CompileGroup(kind, ys, depth, compile, key)
    decreases xs, 0
  {
    hide Injective, Compile, CompileList, Sort, Reordered, Boxed, SizeOfAll;
    var perm: seq<nat> :| Permutation(perm, |xs|) && forall i :: 0 <= i < |xs| ==> Reordered(xs[i], ys[perm[i]]);
    forall i | 0 <= i < |xs|
      ensures Compile(xs[i], depth + 1, compile, key).Ok? <==> Compile(ys[perm[i]], depth + 1, compile, key).Ok?
      ensures Compile(xs[i], depth + 1, compile, key).Ok? ==>
                Compile(xs[i], depth + 1, compile, key) == Compile(ys[perm[i]], depth + 1, compile, key)
    {
      ReorderedCompile(xs[i], ys[perm[i]], depth + 1, compile, key);
    }
    ListCompiles(xs, depth, compile, key);
    ListCompiles(ys, depth, compile, key);
    Onto(perm, |xs|);
    if CompileList(xs, depth, compile, key).Ok? {
      forall j | 0 <= j < |ys|
        ensures Compile(ys[j], depth + 1, compile, key).Ok?
      {
        assert j in perm;
        var i :| 0 <= i < |xs| && perm[i] == j;
        assert Compile(xs[i], depth + 1, compile, key).Ok?;
      }
    }
    if CompileList(ys, depth, compile, key).Ok? {
      ListCompiledFits(xs, depth, compile, key);
      ListCompiledFits(ys, depth, compile, key);
      SameSorted(CompileList(xs, depth, compile, key).value.nodes, CompileList(ys, depth, compile, key).value.nodes,
                 perm, key);
    }
  }

  // Every index is the image of one.
  lemma {:induction false} Onto(perm: seq<nat>, n: nat)
    requires Permutation(perm, n)
    ensures forall j :: 0 <= j < n ==> j in perm
    decreases n
  {
    if 0 < n {
      var p := perm[n - 1];
      var perm' := seq(n - 1, i requires 0 <= i < n - 1 => if perm[i] < p then perm[i] else perm[i] - 1);
      assert forall i :: 0 <= i < n - 1 ==> perm[i] != p;
      Onto(perm', n - 1);
      forall j | 0 <= j < n
        ensures j in perm
      {
        if j < p {
          assert j in perm';
          var i :| 0 <= i < n - 1 && perm'[i] == j;
          assert perm[i] == j;
        } else if p < j {
          assert j - 1 in perm';
          var i :| 0 <= i < n - 1 && perm'[i] == j - 1;
          assert perm[i] == j;
        }
      }
    }
  }

  // ----------------------------------------------------------- the canonical source

  const NO_SOURCE := SourceCondition(NoGroup, NoGroup, None, None)

  // The source form of a compiled tree (sourceCondition).
  function SourceOf(node: Option<Node>): SourceCondition
    decreases node, 1
  {
    if node.None? then NO_SOURCE
    else
      var n := node.value;
      match n.kind
      case All => NO_SOURCE.(all := Group(SourcesOf(n.children)))
      case Any => NO_SOURCE.(any := Group(SourcesOf(n.children)))
      case Not => if n.children != [] then NO_SOURCE.(not := Some(SourceOf(n.children[0]))) else NO_SOURCE
      case Leaf => NO_SOURCE.(test := n.test)
      case Unknown => NO_SOURCE
  }

  function SourcesOf(children: seq<Option<Node>>): (cs: seq<SourceCondition>)
    ensures |cs| == |children| && forall k :: 0 <= k < |cs| ==> cs[k] == SourceOf(children[k])
    decreases children, 0
  {
    if children == [] then []
    else SourcesOf(children[..|children| - 1]) + [SourceOf(children[|children| - 1])]
  }

  // Compiling a compiled predicate again changes nothing.
  ghost predicate Stable(compile: PredicateCompiler) {
    forall p :: compile(p).Some? ==> compile(compile(p).value) == compile(p)
  }

  // The canonical source of a compiled condition compiles to the same tree: canonical
  // form is a fixed point.
  lemma {:induction false} CanonicalRecompiles(c: SourceCondition, depth: nat, compile: PredicateCompiler, key: Key)
    requires Stable(compile) && Compile(c, depth, compile, key).Ok?
    ensures var out := Compile(c, depth, compile, key);
            Compile(SourceOf(Some(out.value.node)), depth, compile, key) == out
    decreases c, 1
  {
    hide Stable, CompileGroup, SourcesOf;
    if c.all.Group? {
      GroupRecompiles(All, c.all.children, depth, compile, key);
    } else if c.any.Group? {
      GroupRecompiles(Any, c.any.children, depth, compile, key);
    } else if c.not.Some? {
      CanonicalRecompiles(c.not.value, depth + 1, compile, key);
    } else {
      StableAt(compile, c.test.value);
    }
  }

  lemma StableAt(compile: PredicateCompiler, p: Predicate)
    requires Stable(compile) && compile(p).Some?
    ensures compile(compile(p).value) == compile(p)
  {
  }

  lemma {:induction false} GroupRecompiles(kind: Kind, children: seq<SourceCondition>, depth: nat,
                                           compile: PredicateCompiler, key: Key)
    requires Stable(compile) && (kind == All || kind == Any) && depth <= MAX_DEPTH
    requires CompileGroup(kind, children, depth, compile, key).Ok?
    ensures var out := CompileGroup(kind, children, depth, compile, key);
            && CompileGroup(kind, SourcesOf(out.value.node.children), depth, compile, key) == out
            && out.value.node.kind == kind
    decreases children, 1
  {
    hide Stable, CompileList, Sort, SourcesOf, Sorted, SizeOfAll;
    var nodes := CompileList(children, depth, compile, key).value.nodes;
    var sorted := Sort(nodes, key);
    ListRecompiles(children, depth, compile, key);
    ListCompiledFits(children, depth, compile, key);
    SortedMembers(nodes, key);
    SourceList(sorted, depth, compile, key);
    SizeOfSorted(nodes, key);
    SortSorts(nodes, key);
    SortKeeps(sorted, key);
  }

  // A node whose source compiles back to it.
  predicate FixedPoint(n: Node, depth: nat, compile: PredicateCompiler, key: Key) {
    Compile(SourceOf(Some(n)), depth, compile, key) == Ok(Compiled(n, Size(Some(n))))
  }

  lemma {:induction false} SourceList(nodes: seq<Node>, depth: nat, compile: PredicateCompiler, key: Key)
    requires forall n :: n in nodes ==> FixedPoint(n, depth + 1, compile, key)
    ensures CompileList(SourcesOf(Boxed(nodes)), depth, compile, key)
         == Ok(CompiledList(nodes, SizeOfAll(Boxed(nodes))))
    decreases |nodes|
  {
    hide Compile, SourceOf, Size, CompileList, SizeOfAll, SourcesOf, Boxed;
    if nodes == [] {
      NoSources(depth, compile, key);
    } else {
      var front, last := nodes[..|nodes| - 1], nodes[|nodes| - 1];
      assert nodes == front + [last];
      assert last in nodes && forall n :: n in front ==> n in nodes;
      SourceList(front, depth, compile, key);
      SizeOfBoxed(front, last);
      var cs := SourcesOf(Boxed(nodes));
      LastSource(front, last);
      ListStep(cs, depth, compile, key, |front|);
      assert cs[..|front| + 1] == cs;
    }
  }

  lemma NoSources(depth: nat, compile: PredicateCompiler, key: Key)
    ensures CompileList(SourcesOf(Boxed([])), depth, compile, key) == Ok(CompiledList([], SizeOfAll(Boxed([]))))
  {
  }

  lemma LastSource(front: seq<Node>, last: Node)
    ensures |SourcesOf(Boxed(front + [last]))| == |front| + 1
    ensures SourcesOf(Boxed(front + [last]))[..|front|] == SourcesOf(Boxed(front))
    ensures SourcesOf(Boxed(front + [last]))[|front|] == SourceOf(Some(last))
  {
    hide SourceOf;
    assert (front + [last])[..|front|] == front;
  }

  lemma {:induction false} ListRecompiles(children: seq<SourceCondition>, depth: nat, compile: PredicateCompiler,
                                          key: Key)
    requires Stable(compile) && CompileList(children, depth, compile, key).Ok?
    ensures forall n :: n in CompileList(children, depth, compile, key).value.nodes ==>
              FixedPoint(n, depth + 1, compile, key)
    decreases children, 0
  {
    hide Stable, Compile, SourceOf, Size, Proper, Shallow;
    if children != [] {
      var last := children[|children| - 1];
      ListRecompiles(children[..|children| - 1], depth, compile, key);
      CanonicalRecompiles(last, depth + 1, compile, key);
      CompiledFits(last, depth + 1, compile, key);
    }
  }

  // ------------------------------------------------------------- the compiler's loops

  // compileCondition, with the loop over the children of a group (compileChildren).
  method CompileTree(c: SourceCondition, depth: nat, compile: PredicateCompiler, key: Key)
    returns (out: Result<Compiled, CompileError>)
    ensures out == Compile(c, depth, compile, key)
    decreases c, 1
  {
    hide CompileList, Sort;
    if MAX_DEPTH < depth {
      return Err(TooDeep);
    }
    if Members(c) != 1 {
      return Err(NotExactlyOne);
    }
    if c.all.Group? {
      out := CompileChildren(All, c.all.children, depth, compile, key);
    } else if c.any.Group? {
      out := CompileChildren(Any, c.any.children, depth, compile, key);
    } else if c.not.Some? {
      var child := CompileTree(c.not.value, depth + 1, compile, key);
      if child.Err? {
        return child;
      }
      return Bounded(Node(Not, None, [Some(child.value.node)]), 1 + child.value.nodes);
    } else {
      var p := compile(c.test.value);
      if p.None? {
        return Err(PredicateRejected);
      }
      return Bounded(Node(Leaf, p, []), 1);
    }
  }

  method CompileChildren(kind: Kind, input: seq<SourceCondition>, depth: nat, compile: PredicateCompiler, key: Key)
    returns (out: Result<Compiled, CompileError>)
    ensures out == CompileGroup(kind, input, depth, compile, key)
    decreases input, 0
  {
    hide CompileList, Compile, Sort;
    NoneCompiled(input, depth, compile, key);
    if |input| == 0 {
      return Err(NoChildren);
    }
    var nodes: seq<Node>, total: nat := [], 0;
    for index := 0 to |input|
      invariant CompileList(input[..index], depth, compile, key) == Ok(CompiledList(nodes, total))
    {
      var child := CompileTree(input[index], depth + 1, compile, key);
      ListStep(input, depth, compile, key, index);
      if child.Err? {
        ListStops(input, depth, compile, key, index + 1);
        return Err(child.error);
      }
      nodes, total := nodes + [child.value.node], total + child.value.nodes;
    }
    assert input[..|input|] == input;
    return Bounded(Node(kind, None, Boxed(Sort(nodes, key))), 1 + total);
  }

  lemma NoneCompiled(children: seq<SourceCondition>, depth: nat, compile: PredicateCompiler, key: Key)
    ensures CompileList(children[..0], depth, compile, key) == Ok(CompiledList([], 0))
  {
  }

  lemma ListStep(children: seq<SourceCondition>, depth: nat, compile: PredicateCompiler, key: Key, k: nat)
    requires k < |children| && CompileList(children[..k], depth, compile, key).Ok?
    ensures var list := CompileList(children[..k], depth, compile, key).value;
            CompileList(children[..k + 1], depth, compile, key) ==
            match Compile(children[k], depth + 1, compile, key)
            case Err(e) => Err(e)
            case Ok(child) => Ok(CompiledList(list.nodes + [child.node], list.total + child.nodes))
  {
    hide Compile;
    assert children[..k + 1][..k] == children[..k];
  }

  lemma {:induction false} ListStops(children: seq<SourceCondition>, depth: nat, compile: PredicateCompiler, key: Key,
                                     k: nat)
    requires k <= |children| && CompileList(children[..k], depth, compile, key).Err?
    ensures CompileList(children, depth, compile, key) == CompileList(children[..k], depth, compile, key)
    decreases |children|
  {
    hide Compile;
    if k < |children| {
      assert children[..|children| - 1][..k] == children[..k];
      ListStops(children[..|children| - 1], depth, compile, key, k);
    } else {
      assert children[..k] == children;
    }
  }
}
