// Compiling a condition (internal/action/predicate.go): limits, canonical order of
// children, and what the compiled tree means. Compiling one predicate and the sort key
// of a compiled child are parameters.
module ConditionCompile {
  import opened Wrappers
  import opened Condition
  import opened ConditionMeaning

  // The source form: a valid one has exactly one of its four members.
  datatype SourceCondition = SourceCondition(all: Group, any: Group, not: Option<SourceCondition>,
                                             test: Option<Predicate>)

  datatype Group = NoGroup | Group(children: seq<SourceCondition>)

  datatype CompileError = TooDeep | NotExactlyOne | NoChildren | TooManyNodes | PredicateRejected

  type PredicateCompiler = Predicate -> Option<Predicate>

  type Key = Node -> int

  function Flag(b: bool): nat { if b then 1 else 0 }

  function Members(c: SourceCondition): nat {
    Flag(c.all.Group?) + Flag(c.any.Group?) + Flag(c.not.Some?) + Flag(c.test.Some?)
  }

  // ------------------------------------------------------------------ stable sorting

  function Insert(nodes: seq<Node>, n: Node, key: Key): seq<Node> {
    if nodes == [] || key(nodes[|nodes| - 1]) <= key(n) then nodes + [n]
    else Insert(nodes[..|nodes| - 1], n, key) + [nodes[|nodes| - 1]]
  }

  // The stable sort of the compiled children by their keys.
  function Sort(nodes: seq<Node>, key: Key): seq<Node> {
    if nodes == [] then [] else Insert(Sort(nodes[..|nodes| - 1], key), nodes[|nodes| - 1], key)
  }

  predicate Sorted(nodes: seq<Node>, key: Key) {
    forall i, j :: 0 <= i < j < |nodes| ==> key(nodes[i]) <= key(nodes[j])
  }

  lemma {:induction false} InsertKeeps(nodes: seq<Node>, n: Node, key: Key)
    ensures multiset(Insert(nodes, n, key)) == multiset(nodes) + multiset{n}
    decreases |nodes|
  {
    if nodes != [] && key(n) < key(nodes[|nodes| - 1]) {
      var front, last := nodes[..|nodes| - 1], nodes[|nodes| - 1];
      assert nodes == front + [last];
      InsertKeeps(front, n, key);
    }
  }

  // Adding a last node that is at least as great as every other keeps the order.
  lemma AppendSorted(nodes: seq<Node>, last: Node, key: Key)
    requires Sorted(nodes, key) && forall i :: 0 <= i < |nodes| ==> key(nodes[i]) <= key(last)
    ensures Sorted(nodes + [last], key)
  {
  }

  lemma {:induction false} InsertSorts(nodes: seq<Node>, n: Node, key: Key)
    requires Sorted(nodes, key)
    ensures Sorted(Insert(nodes, n, key), key)
    ensures multiset(Insert(nodes, n, key)) == multiset(nodes) + multiset{n}
    decreases |nodes|
  {
    hide Sorted;
    InsertKeeps(nodes, n, key);
    if nodes != [] {
      SortedFront(nodes, key);
    }
    if nodes != [] && key(n) < key(nodes[|nodes| - 1]) {
      var front, last := nodes[..|nodes| - 1], nodes[|nodes| - 1];
      InsertSorts(front, n, key);
      var inserted := Insert(front, n, key);
      forall i | 0 <= i < |inserted|
        ensures key(inserted[i]) <= key(last)
      {
        assert inserted[i] in multiset(front) + multiset{n};
      }
      AppendSorted(inserted, last, key);
    } else {
      AppendSorted(nodes, n, key);
    }
  }

  lemma SortedFront(nodes: seq<Node>, key: Key)
    requires Sorted(nodes, key) && nodes != []
    ensures Sorted(nodes[..|nodes| - 1], key)
    ensures forall i :: 0 <= i < |nodes| ==> key(nodes[i]) <= key(nodes[|nodes| - 1])
  {
  }

  lemma {:induction false} SortSorts(nodes: seq<Node>, key: Key)
    ensures Sorted(Sort(nodes, key), key) && multiset(Sort(nodes, key)) == multiset(nodes)
    decreases |nodes|
  {
    if nodes != [] {
      var front, last := nodes[..|nodes| - 1], nodes[|nodes| - 1];
      assert nodes == front + [last];
      SortSorts(front, key);
      InsertSorts(Sort(front, key), last, key);
    }
  }

  // A sorted list stays as it is.
  lemma {:induction false} SortKeeps(nodes: seq<Node>, key: Key)
    requires Sorted(nodes, key)
    ensures Sort(nodes, key) == nodes
    decreases |nodes|
  {
    if nodes != [] {
      var front, last := nodes[..|nodes| - 1], nodes[|nodes| - 1];
      assert nodes == front + [last];
      SortKeeps(front, key);
    }
  }

  ghost predicate Injective(key: Key) {
    forall a, b :: key(a) == key(b) ==> a == b
  }

  lemma {:induction false} SortedUnique(a: seq<Node>, b: seq<Node>, key: Key)
    requires Injective(key) && Sorted(a, key) && Sorted(b, key) && multiset(a) == multiset(b)
    ensures a == b
    decreases |a|
  {
    hide Injective, Sorted;
    if a == [] {
      assert |multiset(b)| == 0;
    } else {
      assert |multiset(a)| == |multiset(b)|;
      LastIsGreatest(a, b, key);
      LastIsGreatest(b, a, key);
      SameKey(a[|a| - 1], b[|b| - 1], key);
      WithoutLast(a, key);
      WithoutLast(b, key);
      SortedUnique(a[..|a| - 1], b[..|b| - 1], key);
      LastApart(a);
      LastApart(b);
    }
  }

  lemma LastApart(a: seq<Node>)
    requires a != []
    ensures a == a[..|a| - 1] + [a[|a| - 1]]
  {
  }

  lemma SameKey(x: Node, y: Node, key: Key)
    requires Injective(key) && key(x) == key(y)
    ensures x == y
  {
  }

  lemma WithoutLast(a: seq<Node>, key: Key)
    requires a != [] && Sorted(a, key)
    ensures Sorted(a[..|a| - 1], key) && multiset(a[..|a| - 1]) == multiset(a) - multiset{a[|a| - 1]}
  {
    assert a == a[..|a| - 1] + [a[|a| - 1]];
  }

  lemma LastIsGreatest(a: seq<Node>, b: seq<Node>, key: Key)
    requires Sorted(a, key) && a != [] && b != [] && multiset(a) == multiset(b)
    ensures key(b[|b| - 1]) <= key(a[|a| - 1])
  {
    var y := b[|b| - 1];
    assert y in multiset(b);
    assert y in a;
    var j :| 0 <= j < |a| && a[j] == y;
  }

  // -------------------------------------------------------------------- compiling

  datatype Compiled = Compiled(node: Node, nodes: nat)

  datatype CompiledList = CompiledList(nodes: seq<Node>, total: nat)

  function Boxed(nodes: seq<Node>): (out: seq<Option<Node>>)
    ensures |out| == |nodes| && forall k :: 0 <= k < |out| ==> out[k] == Some(nodes[k])
  {
    if nodes == [] then [] else Boxed(nodes[..|nodes| - 1]) + [Some(nodes[|nodes| - 1])]
  }

  function Bounded(node: Node, nodes: nat): Result<Compiled, CompileError> {
    if MAX_NODES < nodes then Err(TooManyNodes) else Ok(Compiled(node, nodes))
  }

  function Compile(c: SourceCondition, depth: nat, compile: PredicateCompiler, key: Key): Result<Compiled, CompileError>
    decreases c, 1
  {
    if MAX_DEPTH < depth then Err(TooDeep)
    else if Members(c) != 1 then Err(NotExactlyOne)
    else if c.all.Group? then CompileGroup(All, c.all.children, depth, compile, key)
    else if c.any.Group? then CompileGroup(Any, c.any.children, depth, compile, key)
    else if c.not.Some? then
      match Compile(c.not.value, depth + 1, compile, key)
      case Err(e) => Err(e)
      case Ok(child) => Bounded(Node(Not, None, [Some(child.node)]), 1 + child.nodes)
    else
      match compile(c.test.value)
      case None => Err(PredicateRejected)
      case Some(p) => Bounded(Node(Leaf, Some(p), []), 1)
  }

  function CompileGroup(kind: Kind, children: seq<SourceCondition>, depth: nat, compile: PredicateCompiler, key: Key)
    : Result<Compiled, CompileError>
    decreases children, 1
  {
    if children == [] then Err(NoChildren)
    else
      match CompileList(children, depth, compile, key)
      case Err(e) => Err(e)
      case Ok(list) => Bounded(Node(kind, None, Boxed(Sort(list.nodes, key))), 1 + list.total)
  }

  // The children in their given order, up to the first that is refused.
  function CompileList(children: seq<SourceCondition>, depth: nat, compile: PredicateCompiler, key: Key)
    : (out: Result<CompiledList, CompileError>)
    ensures out.Ok? ==> |out.value.nodes| == |children|
    decreases children, 0
  {
    if children == [] then Ok(CompiledList([], 0))
    else
      var last := |children| - 1;
      match CompileList(children[..last], depth, compile, key)
      case Err(e) => Err(e)
      case Ok(list) =>
        match Compile(children[last], depth + 1, compile, key)
        case Err(e) => Err(e)
        case Ok(child) => Ok(CompiledList(list.nodes + [child.node], list.total + child.nodes))
  }

  // ----------------------------------------------------------------------- limits

  lemma {:induction false} SizeOfBoxed(nodes: seq<Node>, n: Node)
    ensures SizeOfAll(Boxed(nodes + [n])) == SizeOfAll(Boxed(nodes)) + Size(Some(n))
  {
    assert (nodes + [n])[..|nodes|] == nodes;
    assert Boxed(nodes + [n])[..|nodes|] == Boxed(nodes);
  }

  // The total size does not depend on the order of the children.
  lemma {:induction false} SizeOfInserted(nodes: seq<Node>, n: Node, key: Key)
    ensures SizeOfAll(Boxed(Insert(nodes, n, key))) == SizeOfAll(Boxed(nodes)) + Size(Some(n))
    decreases |nodes|
  {
    hide Size, SizeOfAll;
    SizeOfBoxed(nodes, n);
    if nodes != [] && key(n) < key(nodes[|nodes| - 1]) {
      var front, last := nodes[..|nodes| - 1], nodes[|nodes| - 1];
      assert nodes == front + [last];
      SizeOfInserted(front, n, key);
      SizeOfBoxed(front, last);
      SizeOfBoxed(Insert(front, n, key), last);
    }
  }

  lemma {:induction false} SizeOfSorted(nodes: seq<Node>, key: Key)
    ensures SizeOfAll(Boxed(Sort(nodes, key))) == SizeOfAll(Boxed(nodes))
    decreases |nodes|
  {
    hide Size, SizeOfAll, Insert;
    if nodes != [] {
      var front, last := nodes[..|nodes| - 1], nodes[|nodes| - 1];
      assert nodes == front + [last];
      SizeOfSorted(front, key);
      SizeOfBoxed(front, last);
      SizeOfInserted(Sort(front, key), last, key);
    }
  }

  // What compiling a node at a depth guarantees the evaluator.
  predicate Fits(node: Node, depth: nat) {
    Proper(Some(node)) && Shallow(Some(node), depth)
  }

  lemma GroupFits(kind: Kind, nodes: seq<Node>, depth: nat, key: Key)
    requires (kind == All || kind == Any) && nodes != [] && depth <= MAX_DEPTH
    requires forall n :: n in nodes ==> Fits(n, depth + 1)
    ensures Fits(Node(kind, None, Boxed(Sort(nodes, key))), depth)
  {
    hide Sort;
    SortedMembers(nodes, key);
    FitsAbove(kind, Sort(nodes, key), depth);
  }

  lemma SortedMembers(nodes: seq<Node>, key: Key)
    ensures |Sort(nodes, key)| == |nodes|
    ensures forall n :: n in Sort(nodes, key) <==> n in nodes
  {
    SortSorts(nodes, key);
    assert |multiset(Sort(nodes, key))| == |multiset(nodes)|;
    forall n
      ensures n in Sort(nodes, key) <==> n in nodes
    {
      assert n in Sort(nodes, key) <==> n in multiset(Sort(nodes, key));
    }
  }

  lemma FitsAbove(kind: Kind, nodes: seq<Node>, depth: nat)
    requires (kind == All || kind == Any) && nodes != [] && depth <= MAX_DEPTH
    requires forall n :: n in nodes ==> Fits(n, depth + 1)
    ensures Fits(Node(kind, None, Boxed(nodes)), depth)
  {
    forall k | 0 <= k < |nodes|
      ensures Fits(nodes[k], depth + 1)
    {
      assert nodes[k] in nodes;
    }
  }

  lemma SizeOfNone()
    ensures SizeOfAll([]) == 0
  {
  }

  lemma SizeOfOne(child: Node)
    ensures SizeOfAll([Some(child)]) == Size(Some(child))
  {
    assert [Some(child)][..0] == [];
  }

  // A compiled condition is a proper tree within the depth limit, and its node count
  // is its size and within the node limit.
  lemma {:induction false} CompiledFits(c: SourceCondition, depth: nat, compile: PredicateCompiler, key: Key)
    requires Compile(c, depth, compile, key).Ok?
    ensures var out := Compile(c, depth, compile, key).value;
            Fits(out.node, depth) && out.nodes == Size(Some(out.node)) <= MAX_NODES
    decreases c, 1
  {
    hide Sort, SizeOfAll, CompileList;
    SizeOfNone();
    if c.all.Group? {
      GroupCompiledFits(All, c.all.children, depth, compile, key);
    } else if c.any.Group? {
      GroupCompiledFits(Any, c.any.children, depth, compile, key);
    } else if c.not.Some? {
      CompiledFits(c.not.value, depth + 1, compile, key);
      var child := Compile(c.not.value, depth + 1, compile, key).value.node;
      SizeOfOne(child);
    }
  }

  lemma {:induction false} GroupCompiledFits(kind: Kind, children: seq<SourceCondition>, depth: nat,
                                             compile: PredicateCompiler, key: Key)
    requires (kind == All || kind == Any) && depth <= MAX_DEPTH
    requires CompileGroup(kind, children, depth, compile, key).Ok?
    ensures var out := CompileGroup(kind, children, depth, compile, key).value;
            Fits(out.node, depth) && out.nodes == Size(Some(out.node)) <= MAX_NODES
    decreases children, 1
  {
    hide Sort, SizeOfAll, CompileList, Fits;
    ListCompiledFits(children, depth, compile, key);
    var list := CompileList(children, depth, compile, key).value;
    GroupFits(kind, list.nodes, depth, key);
    SizeOfSorted(list.nodes, key);
  }

  lemma {:induction false} ListCompiledFits(children: seq<SourceCondition>, depth: nat, compile: PredicateCompiler,
                                            key: Key)
    requires CompileList(children, depth, compile, key).Ok?
    ensures var out := CompileList(children, depth, compile, key).value;
            && (forall n :: n in out.nodes ==> Fits(n, depth + 1))
            && out.total == SizeOfAll(Boxed(out.nodes))
    decreases children, 0
  {
    hide Compile, Fits, Size;
    if children != [] {
      var last := |children| - 1;
      ListCompiledFits(children[..last], depth, compile, key);
      CompiledFits(children[last], depth + 1, compile, key);
      var front := CompileList(children[..last], depth, compile, key).value;
      SizeOfBoxed(front.nodes, Compile(children[last], depth + 1, compile, key).value.node);
    } else {
      assert Boxed([]) == [];
    }
  }

  // -------------------------------------------------------------- what is accepted

  // The nodes of a source condition.
  function Nodes(c: SourceCondition): (n: nat)
    ensures 1 <= n
    decreases c, 1
  {
    if c.all.Group? then 1 + NodesOfAll(c.all.children)
    else if c.any.Group? then 1 + NodesOfAll(c.any.children)
    else if c.not.Some? then 1 + Nodes(c.not.value)
    else 1
  }

  function NodesOfAll(children: seq<SourceCondition>): nat
    decreases children, 0
  {
    if children == [] then 0
    else NodesOfAll(children[..|children| - 1]) + Nodes(children[|children| - 1])
  }

  // Every condition has one member, groups are not empty, predicates compile, and
  // nothing lies deeper than the limit.
  predicate Sound(c: SourceCondition, depth: nat, compile: PredicateCompiler)
    decreases c, 1
  {
    && depth <= MAX_DEPTH && Members(c) == 1
    && (c.all.Group? ==> c.all.children != [] && SoundAll(c.all.children, depth + 1, compile))
    && (c.any.Group? ==> c.any.children != [] && SoundAll(c.any.children, depth + 1, compile))
    && (c.not.Some? ==> Sound(c.not.value, depth + 1, compile))
    && (c.test.Some? ==> compile(c.test.value).Some?)
  }

  predicate SoundAll(children: seq<SourceCondition>, depth: nat, compile: PredicateCompiler)
    decreases children, 0
  {
    children == [] ||
    (SoundAll(children[..|children| - 1], depth, compile) && Sound(children[|children| - 1], depth, compile))
  }

  // Although the node limit is checked again at every level, a condition is accepted
  // exactly when it is sound and its total is within the limit.
  lemma {:induction false} CompileAccepts(c: SourceCondition, depth: nat, compile: PredicateCompiler, key: Key)
    ensures Compile(c, depth, compile, key).Ok? <==> Sound(c, depth, compile) && Nodes(c) <= MAX_NODES
    ensures Compile(c, depth, compile, key).Ok? ==> Compile(c, depth, compile, key).value.nodes == Nodes(c)
    decreases c, 1
  {
    hide Sort, Boxed, CompileList, SoundAll, NodesOfAll;
    if depth <= MAX_DEPTH && Members(c) == 1 {
      if c.all.Group? {
        ListAccepts(c.all.children, depth, compile, key);
      } else if c.any.Group? {
        ListAccepts(c.any.children, depth, compile, key);
      } else if c.not.Some? {
        CompileAccepts(c.not.value, depth + 1, compile, key);
      }
    }
  }

  lemma {:induction false} ListAccepts(children: seq<SourceCondition>, depth: nat, compile: PredicateCompiler, key: Key)
    ensures SoundAll(children, depth + 1, compile) && NodesOfAll(children) <= MAX_NODES ==>
              CompileList(children, depth, compile, key).Ok?
    ensures CompileList(children, depth, compile, key).Ok? ==>
              && SoundAll(children, depth + 1, compile)
              && CompileList(children, depth, compile, key).value.total == NodesOfAll(children)
    decreases children, 0
  {
    hide Compile, Sound, Nodes;
    if children != [] {
      var last := |children| - 1;
      ListAccepts(children[..last], depth, compile, key);
      CompileAccepts(children[last], depth + 1, compile, key);
    }
  }
}
