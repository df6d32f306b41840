// Three-valued conditions (internal/action/condition_eval.go and predicate_eval.go):
// what evaluating every node of a compiled tree gives.
module Condition {
  import opened Wrappers

  const MAX_DEPTH := 16
  const MAX_NODES := 1024

  datatype Truth = True | False | Indeterminate

  datatype Provenance = AgentSupplied | AdapterAsserted | HostObserved | OperatorBound

  function Rank(p: Provenance): nat {
    match p
    case AgentSupplied => 0
    case AdapterAsserted => 1
    case HostObserved => 2
    case OperatorBound => 3
  }

  // Absent stands for an empty or unknown provenance, whose rank is -1.
  function RankOf(p: Option<Provenance>): int {
    if p.None? then -1 else Rank(p.value)
  }

  datatype Reason =
    | NoReason | InternalInvariant | LimitExceeded | ContextUntrusted | IdentityUnavailable | ConditionIndeterminate

  function Strength(r: Reason): nat {
    match r
    case InternalInvariant => 5
    case LimitExceeded => 4
    case ContextUntrusted => 3
    case IdentityUnavailable => 2
    case ConditionIndeterminate => 1
    case NoReason => 0
  }

  // A summary of the operand, which only travels along; 0 is the empty one.
  type Summary = nat

  datatype Evaluation = Evaluation(
    state: Truth, reason: Reason, actual: Option<Provenance>, required: Option<Provenance>,
    complete: bool, summary: Summary, nodes: nat)

  datatype Source = Arguments | Outcome | Progress | Context

  datatype Operator = Exists | PathWithin | Other(code: nat)

  datatype Predicate = Predicate(source: Source, op: Operator, tokens: seq<string>, minimum: Option<Provenance>,
                                 operand: nat)

  datatype Kind = Leaf | Not | All | Any | Unknown

  // The compiled tree as the evaluator receives it; None is a nil child.
  datatype Node = Node(kind: Kind, test: Option<Predicate>, children: seq<Option<Node>>)

  // ----------------------------------------------------------------- predicates

  datatype PointerState = Present | Null | Missing | WrongContainer | InvalidIndex

  datatype Selected = Selected(pointer: PointerState, provenance: Option<Provenance>, available: bool)

  // The request, as far as conditions see it: whether each request-owned root is
  // there, what a nonempty pointer finds in it, the context values, the operators
  // beyond existence, and the operand summaries.
  datatype Request = Request(
    hasRoot: Source -> bool,
    rootIsNull: Source -> bool,
    resolve: (Source, seq<string>) -> PointerState,
    contextValue: seq<string> -> Selected,
    operator: (Predicate, PointerState) -> (Truth, Reason),
    summarize: (Predicate, Selected) -> Summary,
    allowRule: bool)

  predicate RequestOwned(source: Source) {
    source == Arguments || source == Outcome || source == Progress
  }

  // Selecting in a request-owned root (selectRoot and resolvePointerTokens).
  function SelectRoot(request: Request, source: Source, tokens: seq<string>): Selected {
    if !request.hasRoot(source) then Selected(Missing, Some(AgentSupplied), false)
    else if tokens == [] then
      Selected(if request.rootIsNull(source) then Null else Present, Some(AgentSupplied), true)
    else Selected(request.resolve(source, tokens), Some(AgentSupplied), true)
  }

  function Select(request: Request, p: Predicate): Selected {
    if RequestOwned(p.source) then SelectRoot(request, p.source, p.tokens) else request.contextValue(p.tokens)
  }

  function EvaluateOperator(request: Request, p: Predicate, pointer: PointerState): (Truth, Reason) {
    if pointer == Missing then
      if p.op == Exists then (False, NoReason) else (Indeterminate, ConditionIndeterminate)
    else if pointer == WrongContainer || pointer == InvalidIndex then (Indeterminate, ConditionIndeterminate)
    else if p.op == Exists then (True, NoReason)
    else request.operator(p, pointer)
  }

  function IndeterminatePredicate(reason: Reason, actual: Option<Provenance>, required: Option<Provenance>,
                                  summary: Summary): Evaluation {
    Evaluation(Indeterminate, reason, actual, required, false, summary, 1)
  }

  // evaluatePredicateCore, for a predicate that was compiled.
  function EvaluatePredicate(request: Request, p: Predicate, summaryRequired: bool): Evaluation {
    var selected := Select(request, p);
    var summary := request.summarize(p, selected);
    if p.source == Context && !selected.available then
      IndeterminatePredicate(ConditionIndeterminate, selected.provenance, p.minimum, summary)
    else if p.source == Context && RankOf(selected.provenance) < RankOf(p.minimum) then
      IndeterminatePredicate(ContextUntrusted, selected.provenance, p.minimum, summary)
    else if p.op == PathWithin && request.allowRule && RankOf(selected.provenance) < Rank(HostObserved) then
      IndeterminatePredicate(ContextUntrusted, selected.provenance, Some(HostObserved), summary)
    else
      var (state, reason) := EvaluateOperator(request, p, selected.pointer);
      Evaluation(state, reason, selected.provenance, p.minimum, state != Indeterminate,
                 if summaryRequired || reason != NoReason then summary else 0, 1)
  }

  // -------------------------------------------------------------------- combining

  function Invalid(nodes: nat): Evaluation {
    Evaluation(Indeterminate, InternalInvariant, None, None, false, 0, nodes)
  }

  function MergeMetadata(target: Evaluation, child: Evaluation): Evaluation {
    var stronger := Strength(target.reason) < Strength(child.reason);
    target.(
      reason := if stronger then child.reason else target.reason,
      summary := if stronger then child.summary else target.summary,
      actual := if child.actual.Some? && (target.actual.None? || Rank(child.actual.value) < Rank(target.actual.value))
                then child.actual else target.actual,
      required := if child.required.Some?
                     && (target.required.None? || Rank(target.required.value) < Rank(child.required.value))
                  then child.required else target.required)
  }

  function CombineState(kind: Kind, state: Truth, child: Truth): Truth {
    if kind == All then
      if child == False then False else if child == Indeterminate && state == True then Indeterminate else state
    else
      if child == True then True else if child == Indeterminate && state == False then Indeterminate else state
  }

  function Combine(kind: Kind, result: Evaluation, child: Evaluation): Evaluation {
    MergeMetadata(result, child).(complete := result.complete && child.complete,
                                  state := CombineState(kind, result.state, child.state))
  }

  function Begin(kind: Kind): Evaluation {
    Evaluation(if kind == All then True else False, NoReason, None, None, true, 0, 1)
  }

  // A determinate result is complete and carries no reason.
  function Settle(result: Evaluation): Evaluation {
    if result.state == Indeterminate then result else result.(reason := NoReason, complete := true)
  }

  // ------------------------------------------------------------ evaluating every node

  function EvaluateAll(request: Request, node: Option<Node>, depth: nat, summaryRequired: bool): Evaluation
    decreases node, 1
  {
    if node.None? then Evaluation(True, NoReason, None, None, true, 0, 0)
    else if MAX_DEPTH < depth then Invalid(1)
    else
      var n := node.value;
      match n.kind
      case Leaf => if n.test.None? || n.children != [] then Invalid(1)
                   else EvaluatePredicate(request, n.test.value, summaryRequired)
      case Not =>
        if n.test.Some? || |n.children| != 1 then Invalid(1)
        else Negate(EvaluateAll(request, n.children[0], depth + 1, summaryRequired))
      case Unknown => Invalid(1)
      case _ =>
        if n.test.Some? || n.children == [] then Invalid(1)
        else
          match EvaluateChildren(request, n.kind, n.children, depth)
          case Err(nodes) => Invalid(nodes)
          case Ok(result) => Settle(result)
  }

  // The result over a list of children, or the node count that broke the limit.
  function EvaluateChildren(request: Request, kind: Kind, children: seq<Option<Node>>, depth: nat)
    : Result<Evaluation, nat>
    decreases children, 0
  {
    if children == [] then Ok(Begin(kind))
    else
      var last := |children| - 1;
      match EvaluateChildren(request, kind, children[..last], depth)
      case Err(nodes) => Err(nodes)
      case Ok(result) =>
        var child := EvaluateAll(request, children[last], depth + 1, false);
        if MAX_NODES < result.nodes + child.nodes then Err(result.nodes + child.nodes)
        else Ok(Combine(kind, result, child).(nodes := result.nodes + child.nodes))
  }

  function Negate(child: Evaluation): Evaluation {
    if MAX_NODES < child.nodes + 1 then Invalid(child.nodes + 1)
    else
      child.(nodes := child.nodes + 1,
             state := match child.state case True => False case False => True case Indeterminate => Indeterminate)
  }
}
