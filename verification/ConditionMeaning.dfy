// What a condition means: the Kleene value of its tree, and when an evaluation is
// complete (internal/action/condition_eval.go).
module ConditionMeaning {
  import opened Wrappers
  import opened Condition

  // The shape the evaluator accepts.
  predicate Proper(node: Option<Node>) {
    node.Some? &&
    var n := node.value;
    match n.kind
    case Leaf => n.test.Some? && n.children == []
    case Not => n.test.None? && |n.children| == 1 && Proper(n.children[0])
    case Unknown => false
    case _ => n.test.None? && n.children != [] && forall k :: 0 <= k < |n.children| ==> Proper(n.children[k])
  }

  function Size(node: Option<Node>): nat
    decreases node, 1
  {
    if node.None? then 0 else 1 + SizeOfAll(node.value.children)
  }

  function SizeOfAll(children: seq<Option<Node>>): nat
    decreases children, 0
  {
    if children == [] then 0
    else SizeOfAll(children[..|children| - 1]) + Size(children[|children| - 1])
  }

  // No path from the node, itself at `depth`, goes below the depth limit.
  predicate Shallow(node: Option<Node>, depth: nat)
    decreases node
  {
    node.Some? ==>
      depth <= MAX_DEPTH && forall k :: 0 <= k < |node.value.children| ==> Shallow(node.value.children[k], depth + 1)
  }

  function Negation(t: Truth): Truth {
    match t
    case True => False
    case False => True
    case Indeterminate => Indeterminate
  }

  // Kleene's strong conjunction and disjunction over any number of operands.
  ghost predicate Conjunction(values: seq<Truth>, t: Truth) {
    && (t == False <==> False in values)
    && (t == True <==> forall k :: 0 <= k < |values| ==> values[k] == True)
  }

  ghost predicate Disjunction(values: seq<Truth>, t: Truth) {
    && (t == True <==> True in values)
    && (t == False <==> forall k :: 0 <= k < |values| ==> values[k] == False)
  }

  function Joined(kind: Kind, values: seq<Truth>): (t: Truth)
    ensures kind == All ==> Conjunction(values, t)
    ensures kind == Any ==> Disjunction(values, t)
  {
    if kind == All then
      if False in values then False
      else if forall k :: 0 <= k < |values| ==> values[k] == True then True
      else Indeterminate
    else
      if True in values then True
      else if forall k :: 0 <= k < |values| ==> values[k] == False then False
      else Indeterminate
  }

  // The three-valued meaning of a proper tree.
  function Kleene(request: Request, node: Option<Node>): Truth
    requires Proper(node)
    decreases node, 1
  {
    var n := node.value;
    if n.kind == Leaf then EvaluatePredicate(request, n.test.value, false).state
    else if n.kind == Not then Negation(Kleene(request, n.children[0]))
    else Joined(n.kind, Values(request, n.children))
  }

  function Values(request: Request, children: seq<Option<Node>>): (values: seq<Truth>)
    requires forall k :: 0 <= k < |children| ==> Proper(children[k])
    ensures |values| == |children|
    ensures forall k :: 0 <= k < |children| ==> values[k] == Kleene(request, children[k])
    decreases children, 0
  {
    if children == [] then []
    else
      var last := |children| - 1;
      assert forall k :: 0 <= k < last ==> children[..last][k] == children[k];
      Values(request, children[..last]) + [Kleene(request, children[last])]
  }

  lemma LeafState(request: Request, p: Predicate, summaryRequired: bool)
    ensures EvaluatePredicate(request, p, summaryRequired).state == EvaluatePredicate(request, p, false).state
    ensures EvaluatePredicate(request, p, summaryRequired).nodes == 1
  {
  }

  // Within the limits, evaluation gives the Kleene value and counts every node.
  lemma {:induction false} EvaluationMeans(request: Request, node: Option<Node>, depth: nat, summaryRequired: bool)
    requires Proper(node) && Shallow(node, depth) && Size(node) <= MAX_NODES
    ensures EvaluateAll(request, node, depth, summaryRequired).state == Kleene(request, node)
    ensures EvaluateAll(request, node, depth, summaryRequired).nodes == Size(node)
    decreases node, 1
  {
    hide EvaluatePredicate, EvaluateChildren, Joined, Values;
    var n := node.value;
    if n.kind == Leaf {
      assert SizeOfAll([]) == 0;
      LeafState(request, n.test.value, summaryRequired);
    } else if n.kind == Not {
      assert n.children[..0] == [];
      assert SizeOfAll(n.children) == SizeOfAll([]) + Size(n.children[0]);
      EvaluationMeans(request, n.children[0], depth + 1, summaryRequired);
    } else {
      ChildrenMean(request, n.kind, n.children, depth);
    }
  }

  // Folding in one more value.
  lemma JoinedAppend(kind: Kind, values: seq<Truth>, t: Truth)
    requires kind == All || kind == Any
    ensures Joined(kind, values + [t]) == CombineState(kind, Joined(kind, values), t)
  {
    assert (values + [t])[|values|] == t;
    assert forall k :: 0 <= k < |values| ==> (values + [t])[k] == values[k];
    assert False in values + [t] <==> False in values || t == False;
    assert True in values + [t] <==> True in values || t == True;
    if Joined(kind, values) == Indeterminate {
      assert exists k :: 0 <= k < |values| && values[k] != if kind == All then True else False;
      var k :| 0 <= k < |values| && values[k] != if kind == All then True else False;
      assert (values + [t])[k] == values[k];
    }
  }

  lemma {:induction false} ChildrenMean(request: Request, kind: Kind, children: seq<Option<Node>>, depth: nat)
    requires kind == All || kind == Any
    requires forall k :: 0 <= k < |children| ==> Proper(children[k]) && Shallow(children[k], depth + 1)
    requires 1 + SizeOfAll(children) <= MAX_NODES
    ensures EvaluateChildren(request, kind, children, depth).Ok?
    ensures var result := EvaluateChildren(request, kind, children, depth).value;
            result.state == Joined(kind, Values(request, children)) && result.nodes == 1 + SizeOfAll(children)
    decreases children, 0
  {
    assert Joined(kind, []) == Begin(kind).state;
    hide EvaluateAll, Joined, Kleene, Proper, Shallow, Size;
    if children != [] {
      var last := |children| - 1;
      var front := children[..last];
      assert forall k :: 0 <= k < last ==> front[k] == children[k];
      ChildrenMean(request, kind, front, depth);
      EvaluationMeans(request, children[last], depth + 1, false);
      JoinedAppend(kind, Values(request, front), Kleene(request, children[last]));
    }
  }

  // ---------------------------------------------------------------- reasons

  // Operators give a reason exactly when they cannot decide.
  ghost predicate SoundOperators(request: Request) {
    forall p, pointer ::
      (request.operator(p, pointer).0 == Indeterminate <==> request.operator(p, pointer).1 != NoReason)
  }

  predicate Consistent(e: Evaluation) {
    && (e.complete <==> e.state != Indeterminate)
    && (e.reason == NoReason <==> e.state != Indeterminate)
  }

  // An undecided list of children has kept a reason and is marked incomplete.
  predicate Explained(e: Evaluation) {
    e.state == Indeterminate ==> !e.complete && e.reason != NoReason
  }

  lemma LeafConsistent(request: Request, p: Predicate, summaryRequired: bool)
    requires SoundOperators(request)
    ensures Consistent(EvaluatePredicate(request, p, summaryRequired))
  {
  }

  // Every evaluation, of any tree, is complete exactly when it is decided, and gives
  // a reason exactly when it is not.
  lemma {:induction false} EvaluationConsistent(request: Request, node: Option<Node>, depth: nat, summaryRequired: bool)
    requires SoundOperators(request)
    ensures Consistent(EvaluateAll(request, node, depth, summaryRequired))
    decreases node, 1
  {
    hide EvaluatePredicate, SoundOperators, EvaluateChildren;
    if node.Some? && depth <= MAX_DEPTH {
      var n := node.value;
      match n.kind
      case Leaf =>
        if n.test.Some? {
          LeafConsistent(request, n.test.value, summaryRequired);
        }
      case Not =>
        if |n.children| == 1 {
          EvaluationConsistent(request, n.children[0], depth + 1, summaryRequired);
        }
      case Unknown =>
      case _ => ChildrenExplained(request, n.kind, n.children, depth);
    }
  }

  lemma {:induction false} ChildrenExplained(request: Request, kind: Kind, children: seq<Option<Node>>, depth: nat)
    requires SoundOperators(request) && (kind == All || kind == Any)
    ensures EvaluateChildren(request, kind, children, depth).Ok? ==>
              Explained(EvaluateChildren(request, kind, children, depth).value)
    decreases children, 0
  {
    hide EvaluateAll, SoundOperators;
    if children != [] {
      ChildrenExplained(request, kind, children[..|children| - 1], depth);
      EvaluationConsistent(request, children[|children| - 1], depth + 1, false);
    }
  }
}
