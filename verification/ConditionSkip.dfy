// The evaluator that skips subtrees under a decided parent gives in every field what
// evaluating all of them gives (internal/action/condition_eval.go).
module ConditionSkip {
  import opened Wrappers
  import opened Condition

  predicate Decisive(kind: Kind, state: Truth) {
    (kind == All && state == False) || (kind == Any && state == True)
  }

  const NOTHING := Evaluation(True, NoReason, None, None, true, 0, 0)

  // The metadata of a subtree that needs no request value, if it is one.
  function Skipped(node: Option<Node>, depth: nat): Option<Evaluation>
    decreases node, 1
  {
    if node.None? then Some(NOTHING)
    else if MAX_DEPTH < depth then None
    else
      var n := node.value;
      match n.kind
      case Leaf =>
        if n.test.None? || n.children != [] || n.test.value.op != Exists || n.test.value.tokens != []
           || !RequestOwned(n.test.value.source) then None
        else Some(Evaluation(True, NoReason, Some(AgentSupplied), n.test.value.minimum, true, 0, 1))
      case Not =>
        if n.test.Some? || |n.children| != 1 then None
        else
          var child := Skipped(n.children[0], depth + 1);
          if child.None? || MAX_NODES <= child.value.nodes then None
          else Some(child.value.(nodes := child.value.nodes + 1))
      case Unknown => None
      case _ => if n.test.Some? || n.children == [] then None else SkippedChildren(n.children, depth)
  }

  function SkippedChildren(children: seq<Option<Node>>, depth: nat): Option<Evaluation>
    decreases children, 0
  {
    if children == [] then Some(NOTHING.(nodes := 1))
    else
      var last := |children| - 1;
      var result, child := SkippedChildren(children[..last], depth), Skipped(children[last], depth + 1);
      if result.None? || child.None? || MAX_NODES < result.value.nodes + child.value.nodes then None
      else Some(MergeMetadata(result.value, child.value).(nodes := result.value.nodes + child.value.nodes))
  }

  // What skipping must know about an evaluation.
  predicate SameMetadata(m: Evaluation, e: Evaluation) {
    && m.reason == NoReason == e.reason && m.summary == 0 == e.summary && m.complete && e.complete
    && m.actual == e.actual && m.required == e.required && m.nodes == e.nodes
    && e.state != Indeterminate
  }

  lemma RootExistence(request: Request, p: Predicate)
    requires p.op == Exists && p.tokens == [] && RequestOwned(p.source)
    ensures SameMetadata(Evaluation(True, NoReason, Some(AgentSupplied), p.minimum, true, 0, 1),
                         EvaluatePredicate(request, p, false))
  {
  }

  // Skipped subtrees are determinate whatever the request, and their metadata is exact.
  lemma {:induction false} SkippedExact(request: Request, node: Option<Node>, depth: nat)
    requires Skipped(node, depth).Some?
    ensures SameMetadata(Skipped(node, depth).value, EvaluateAll(request, node, depth, false))
    decreases node, 1
  {
    hide EvaluatePredicate;
    if node.Some? {
      var n := node.value;
      match n.kind
      case Leaf => RootExistence(request, n.test.value);
      case Not => SkippedExact(request, n.children[0], depth + 1);
      case Unknown =>
      case _ => SkippedChildrenExact(request, n.kind, n.children, depth);
    }
  }

  lemma {:induction false} SkippedChildrenExact(request: Request, kind: Kind, children: seq<Option<Node>>, depth: nat)
    requires SkippedChildren(children, depth).Some? && (kind == All || kind == Any)
    ensures EvaluateChildren(request, kind, children, depth).Ok?
    ensures SameMetadata(SkippedChildren(children, depth).value, EvaluateChildren(request, kind, children, depth).value)
    decreases children, 0
  {
    hide EvaluateAll, Skipped;
    if children != [] {
      var last := |children| - 1;
      SkippedChildrenExact(request, kind, children[..last], depth);
      SkippedExact(request, children[last], depth + 1);
    }
  }

  // ------------------------------------------------------------------- evaluation

  lemma {:induction false} LimitPersists(request: Request, kind: Kind, children: seq<Option<Node>>, depth: nat, k: nat)
    requires k <= |children| && EvaluateChildren(request, kind, children[..k], depth).Err?
    ensures EvaluateChildren(request, kind, children, depth) == EvaluateChildren(request, kind, children[..k], depth)
    decreases |children|
  {
    hide EvaluateAll;
    if k < |children| {
      assert children[..|children| - 1][..k] == children[..k];
      LimitPersists(request, kind, children[..|children| - 1], depth, k);
    } else {
      assert children[..k] == children;
    }
  }

  lemma ChildStep(request: Request, kind: Kind, children: seq<Option<Node>>, depth: nat, k: nat)
    requires k < |children| && EvaluateChildren(request, kind, children[..k], depth).Ok?
    ensures var result := EvaluateChildren(request, kind, children[..k], depth).value;
            var child := EvaluateAll(request, children[k], depth + 1, false);
            EvaluateChildren(request, kind, children[..k + 1], depth) ==
            if MAX_NODES < result.nodes + child.nodes then Err(result.nodes + child.nodes)
            else Ok(Combine(kind, result, child).(nodes := result.nodes + child.nodes))
  {
    hide EvaluateAll, Combine;
    assert children[..k + 1][..k] == children[..k];
  }

  // Merging a skipped child's metadata is what combining its evaluation does, once
  // the parent is decided.
  lemma SkipStep(request: Request, kind: Kind, children: seq<Option<Node>>, depth: nat, k: nat, metadata: Evaluation)
    requires k < |children| && EvaluateChildren(request, kind, children[..k], depth).Ok?
    requires Skipped(children[k], depth + 1) == Some(metadata)
    requires var result := EvaluateChildren(request, kind, children[..k], depth).value;
             Decisive(kind, result.state) && result.nodes + metadata.nodes <= MAX_NODES
    ensures EvaluateChildren(request, kind, children[..k + 1], depth) ==
            (var result := EvaluateChildren(request, kind, children[..k], depth).value;
             Ok(MergeMetadata(result, metadata).(nodes := result.nodes + metadata.nodes)))
  {
    hide EvaluateAll, EvaluateChildren, Skipped;
    ChildStep(request, kind, children, depth, k);
    SkippedExact(request, children[k], depth + 1);
  }

  // The evaluator (evaluateConditionTreeCore).
  method Evaluate(request: Request, node: Option<Node>, depth: nat, summaryRequired: bool) returns (r: Evaluation)
    ensures r == EvaluateAll(request, node, depth, summaryRequired)
    decreases node, 1
  {
    hide EvaluatePredicate, EvaluateChildren, Skipped;
    if node.None? {
      return NOTHING;
    }
    var n := node.value;
    if MAX_DEPTH < depth {
      return Invalid(1);
    }
    match n.kind
    case Leaf =>
      if n.test.None? || n.children != [] {
        return Invalid(1);
      }
      return EvaluatePredicate(request, n.test.value, summaryRequired);
    case Not =>
      if n.test.Some? || |n.children| != 1 {
        return Invalid(1);
      }
      var child := Evaluate(request, n.children[0], depth + 1, summaryRequired);
      return Negate(child);
    case Unknown =>
      return Invalid(1);
    case _ =>
      if n.test.Some? || n.children == [] {
        return Invalid(1);
      }
      r := EvaluateLogical(request, n.kind, n.children, depth);
  }

  // The loop over the children of All and Any, with the inner loop that skips
  // (evaluateLogicalConditionCore).
  method EvaluateLogical(request: Request, kind: Kind, children: seq<Option<Node>>, depth: nat) returns (r: Evaluation)
    requires kind == All || kind == Any
    ensures r == match EvaluateChildren(request, kind, children, depth)
                 case Err(nodes) => Invalid(nodes)
                 case Ok(result) => Settle(result)
    decreases children, 0
  {
    hide EvaluateAll, EvaluateChildren, Skipped, Combine, MergeMetadata, Settle;
    NoneEvaluated(request, kind, children, depth);
    var result := Begin(kind);
    var index := 0;
    while index < |children|
      invariant index <= |children|
      invariant EvaluateChildren(request, kind, children[..index], depth) == Ok(result)
      decreases |children| - index
    {
      var child := Evaluate(request, children[index], depth + 1, false);
      ChildStep(request, kind, children, depth, index);
      if MAX_NODES < result.nodes + child.nodes {
        LimitPersists(request, kind, children, depth, index + 1);
        return Invalid(result.nodes + child.nodes);
      }
      result := Combine(kind, result, child).(nodes := result.nodes + child.nodes);
      index := index + 1;
      if !Decisive(kind, result.state) {
        continue;
      }
      while index < |children|
        invariant 0 < index <= |children| && Decisive(kind, result.state)
        invariant EvaluateChildren(request, kind, children[..index], depth) == Ok(result)
        decreases |children| - index
      {
        var metadata := SkippedMetadata(children[index], depth + 1);
        if metadata.None? || MAX_NODES - metadata.value.nodes < result.nodes {
          break;
        }
        SkipStep(request, kind, children, depth, index, metadata.value);
        MergeKeepsState(result, metadata.value);
        result := MergeMetadata(result, metadata.value).(nodes := result.nodes + metadata.value.nodes);
        index := index + 1;
      }
    }
    assert children[..index] == children;
    return Settle(result);
  }

  // Recognising a subtree to skip (skippedConditionMetadata).
  method SkippedMetadata(node: Option<Node>, depth: nat) returns (m: Option<Evaluation>)
    ensures m == Skipped(node, depth)
    decreases node
  {
    hide SkippedChildren, MergeMetadata;
    if node.None? {
      return Some(NOTHING);
    }
    if MAX_DEPTH < depth {
      return None;
    }
    var n := node.value;
    match n.kind
    case Leaf =>
      if n.test.None? || n.children != [] || n.test.value.op != Exists || n.test.value.tokens != []
         || !RequestOwned(n.test.value.source) {
        return None;
      }
      return Some(Evaluation(True, NoReason, Some(AgentSupplied), n.test.value.minimum, true, 0, 1));
    case Not =>
      if n.test.Some? || |n.children| != 1 {
        return None;
      }
      var child := SkippedMetadata(n.children[0], depth + 1);
      if child.None? || MAX_NODES <= child.value.nodes {
        return None;
      }
      return Some(child.value.(nodes := child.value.nodes + 1));
    case Unknown =>
      return None;
    case _ =>
      if n.test.Some? || n.children == [] {
        return None;
      }
      var result := NOTHING.(nodes := 1);
      NoneSkipped(n.children, depth);
      for index := 0 to |n.children|
        invariant SkippedChildren(n.children[..index], depth) == Some(result)
      {
        SkippedStep(n.children, depth, index);
        var metadata := SkippedMetadata(n.children[index], depth + 1);
        if metadata.None? || MAX_NODES - metadata.value.nodes < result.nodes {
          SkipRefused(n.children, depth, index + 1);
          return None;
        }
        result := MergeMetadata(result, metadata.value).(nodes := result.nodes + metadata.value.nodes);
      }
      assert n.children[..|n.children|] == n.children;
      return Some(result);
  }

  lemma NoneEvaluated(request: Request, kind: Kind, children: seq<Option<Node>>, depth: nat)
    ensures EvaluateChildren(request, kind, children[..0], depth) == Ok(Begin(kind))
  {
  }

  lemma MergeKeepsState(target: Evaluation, child: Evaluation)
    ensures MergeMetadata(target, child).state == target.state
  {
  }

  lemma NoneSkipped(children: seq<Option<Node>>, depth: nat)
    ensures SkippedChildren(children[..0], depth) == Some(NOTHING.(nodes := 1))
  {
  }

  lemma SkippedStep(children: seq<Option<Node>>, depth: nat, k: nat)
    requires k < |children| && SkippedChildren(children[..k], depth).Some?
    ensures var result, child := SkippedChildren(children[..k], depth).value, Skipped(children[k], depth + 1);
            SkippedChildren(children[..k + 1], depth) ==
            if child.None? || MAX_NODES < result.nodes + child.value.nodes then None
            else Some(MergeMetadata(result, child.value).(nodes := result.nodes + child.value.nodes))
  {
    hide Skipped, MergeMetadata;
    assert children[..k + 1][..k] == children[..k];
  }

  lemma {:induction false} SkipRefused(children: seq<Option<Node>>, depth: nat, k: nat)
    requires k <= |children| && SkippedChildren(children[..k], depth).None?
    ensures SkippedChildren(children, depth).None?
    decreases |children|
  {
    hide Skipped, MergeMetadata;
    if k < |children| {
      assert children[..|children| - 1][..k] == children[..k];
      SkipRefused(children[..|children| - 1], depth, k);
    } else {
      assert children[..k] == children;
    }
  }
}
